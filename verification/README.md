# A verified model of the mesh federation stack

meshbbs joins bulletin boards over a slow, lossy, shared radio channel. This project models, in Dafny, the
part that decides whether records arrive, whether everyone ends up with the same ones, and who may use the
channel meanwhile:

* an erasure code over GF(2) turns a packed bundle into symbols and solves for it again in place;
* an outbox airs symbols under a resumable cursor, and an inbox keys one decoder per sender and bundle;
* an anti-entropy protocol compares digests, asks for vectors and ranges, and applies pushed records;
* a governor meters channel time with a token bucket, class reserves, area caps and a regional limit;
* canonical codecs, a resynchronising frame reader, a digest scheduler, a peer table and two renderings of
  a node ID hold the edges together.

`dafny verify dfyconfig.toml` checks the whole project.

## How it is laid out

| layer | modules |
|---|---|
| bytes, numbers, order | `Bytes`, `Varint`, `Radix`, `Sorting`, `Framing` |
| fountain code | `GF2` (the linear algebra), `Fountain` (symbol form and masks), `Derivation` (what a mask depends on), `Encoder`, `Decoder`, `RepairCount` |
| bundles and messages | `Bundle`, `GossipWire` |
| transport | `Outbox`, `Inbox`, `Delivery` (runs of an inbox), `Lifetime` (how long a decoder lives), `EndToEnd` (from the records sent to the store), `LossControl` |
| anti-entropy | `Store`, `Engine`, `AntiEntropy` (safety of runs, one round), `Convergence` (many nodes), `Agreement` (the two joined), `Liveness` and `Rounds` (message by message, with losses) |
| airtime | `Rolling`, `Governor`, `Spending`, `AreaSpending`, `Fleet`, `DutyCycle`, `Admission`, `Backoff`, `Schedule`, `Rhythm` |
| edges | `FrameReader`, `PeerTable`, `Base32`, `Words` |
| frozen examples | `Conformance` |

Code that updates things in place is a class or a method over arrays, tied to a function of the old state;
the theorems are lemmas about those functions and about runs of them. A class's `Value()` is its abstract
state.

## What is assumed

* A hash is a function parameter, of which nothing is assumed. Where it matters that two different vectors hash
  differently, only vectors held at the moment spoken of are meant, and the lemma says what happens otherwise.
* A record codec is a parameter with a law (`Bundle.Lawful`): reading undoes writing for every record whose
  length the framing can express, and writing undoes every accepted reading. Signature checking is a predicate of the store's `Trust`.
* A compression dictionary is a parameter; `Bundle.Faithful` says it decompresses what it compressed.
* Clocks, random draws, the airtime of a packet, quiet hours, the link's answers and the governor's yes or no
  are inputs. A positive airtime is the only law asked of packet airtime.
* Durations are whole nanoseconds. Floating-point rates are exact reals; every conversion to a duration
  cuts off, as the source's does. Counters that would need centuries to wrap do not wrap; accumulators that do
  wrap (`uint16` and `uint32` in the renderings, varint readers) are cut to their width.

## Where the code and its own documentation differ

The model follows the code.

* `internal/bundle/bundle.go:119-148` reads the declared size with the plain varint reader, so an envelope, as
  opposed to a body, has more than one accepted form: `Bundle.EnvelopeAcceptsAPaddedSize`. It is in its one
  written form exactly when that size is canonical: `Bundle.EnvelopeIsCanonicalExactlyWhen`.
* `internal/bsmp/inbox.go:202-205` says the entry just touched is never the one evicted. With equal clock
  readings it can be, and only then: `Delivery.NewestMayGoExactlyOnTies`, `Delivery.ATieLosesTheNewest`.
* `internal/gossip/digest.go:145-147` says that the next cycle catches two different vectors that hash alike. Nobody
  asks as long as every two vectors held hash alike, so the nodes stay apart until one of the vectors changes:
  `Agreement.QuietExactlyWhenAlike`, `Agreement.QuietAgreesUnlessCollided`.
* `internal/gossip/engine.go:378-412` writes the asks it keeps over the front of its queue and shortens the queue
  only at the end. A failed send returns before that, so an ask that had moved forward is queued twice, though
  scheduling never queues two asks for one peer and area: `Engine.FailureRepeatsWhatMoved`,
  `Engine.AFailedSendQueuesTwice`.
* `internal/gossip/engine.go:755-760` climbs when a bundle is missing. From one half up, which only a configured
  rate can cause, a miss does not raise the estimate: `LossControl.EstimateStaysBounded`.
* `internal/meshlink/peers.go:29-32` says a binding only ever moves forward in its node's own time. It does while
  the node stays bound; losing the radio to another node forgets the timestamp:
  `PeerTable.TimestampsRise`, `PeerTable.EvictionForgetsTheTimestamp`.
* `internal/gossip/schedule.go:86-89` gives 4.9 hours for fifty peers and 9.8 for a hundred. That is the airtime clamp
  alone; the peer heuristic is a little above it, and the interval is five and ten: `Rhythm.DefaultIntervals`.
* `internal/governor/governor.go:475-481` says reading the caps again cannot refill an area. It cannot while the
  area stays named; dropping it and naming it again starts it full: `AreaSpending.RecapNeverRefills`.
* `internal/governor/governor.go:350-358` sizes the smallest bucket at three full packets, of which the door-event
  class must leave seven tenths, so a full door-event packet is never admitted there:
  `Admission.DoorEventsStarveAtTheFloor`.
* `internal/governor/governor.go:554-567` moves its clock forward even when the refill rounds to nothing, so
  refilling too often for the rate, and only that, earns nothing: `Admission.FastPollingStarves`.
* `internal/gossip/schedule.go:58-66` promises the interval keeps digests inside the control share. Cut to whole
  nanoseconds it may exceed it by less than one nanosecond's worth: `Schedule.DigestsStayInTheirShare`,
  `Schedule.ShareExceeded`.
* `internal/fountain/codec.go:191-236` caps its search. The count it returns meets the margin exactly when the
  cap does, as it does up to a loss of one half: `RepairCount.CountIsTheLeastThatMeetsTheMargin`. At heavy loss
  the cap may decide instead: `RepairCount.CapBindsAtHeavyLoss`.

## Model

| member | source | states |
|---|---|---|
| GF2.SolveIsSound | internal/fountain/codec.go:349-401 | Whatever block satisfies every row, a successful elimination returns exactly that block. |
| GF2.SolvesIffDetermined | internal/fountain/codec.go:349-401 | Elimination succeeds if and only if the rows determine every source symbol: no non-zero combination of symbols is invisible to all of them. |
| GF2.UnsolvedMeansFree | internal/fountain/codec.go:391-401 | From a failed elimination, a concrete non-zero vector that every row maps to zero. |
| GF2.TooFewRows | internal/fountain/codec.go:315-319 | Fewer rows than unknowns never determine the block, so waiting for K rows before solving loses nothing. |
| GF2.ReduceKeepsEchelon | internal/fountain/codec.go:366-389 | Every column visited keeps the rows reduced: a pivot column is zero outside its pivot row, and the pivot table says where each pivot is. |
| GF2.ReduceKeepsMeaning | internal/fountain/codec.go:366-389 | Swaps and row additions keep each row the exclusive-or of its masked sources, and leave unchanged which combinations of symbols no row can see. |
| Fountain.SymbolFormIsCanonical | internal/fountain/fountain.go:93-133 | A byte string decodes to a symbol exactly when it is that symbol's encoding and the symbol is within the limits. |
| Fountain.RepairMaskSelectsSomething | internal/fountain/fountain.go:187-242 | No repair mask is empty, whatever the hash draws. |
| Fountain.Generator.Next | internal/fountain/fountain.go:198-215 | The counter and pool hand out the words of the hash stream in order, never reusing or skipping one. |
| Fountain.FillMask | internal/fountain/fountain.go:217-234 | One inclusion bit per source symbol, drawn thirty-two at a time; the count says whether any was set. |
| Fountain.EnsureMember | internal/fountain/fountain.go:235-240 | Only an all-zero draw is given a member, picked by the next draw. |
| Fountain.ComputeMask | internal/fountain/fountain.go:187-242 | The array the loops fill is the mask sender and receiver both derive. |
| Derivation.MasksCanDiffer | internal/fountain/fountain.go:187-242 | For any two different senders, bundles or indices some hash gives different masks: the derivation confuses nothing its hash would tell apart. |
| Derivation.BlocksCanDiffer | internal/fountain/fountain.go:198-215 | The same for two seeds or two counters of the generator. |
| Derivation.EightDrawsAreABlock | internal/fountain/fountain.go:198-215 | Eight draws in a row read out one block of the generator, byte for byte. |
| Derivation.BatchIsADraw | internal/fountain/fountain.go:222-234 | The members drawn for thirty-two sources in a row are the binary digits of one draw, lowest first, and those of a shorter last batch its lowest ones. |
| Derivation.AnyLoneMemberIsPossible | internal/fountain/fountain.go:235-240 | Of a draw that comes up empty any source may be the one put in. |
| Conformance.SymbolVector | internal/conformance/testdata/v2/fountain.json:5-35 | Two frozen symbols, the one with the split index among them, encode to their frozen bytes. |
| Encoder.NewEncoder | internal/fountain/codec.go:26-51 | Which size or K is refused, and that the block built splits the payload into K padded symbols. |
| Encoder.SymbolsAreJustEnough | internal/fountain/codec.go:26-51 | There are as many source symbols as hold the payload, and one fewer would not. |
| Encoder.JoinOfSplit | internal/fountain/codec.go:38-49 | Any leading chunks join to the payload's prefix, zero-padded. |
| Encoder.SplitRoundTrip | internal/fountain/codec.go:330-339 | Joining all chunks and trimming to the original length gives the payload back. |
| Encoder.SystematicSymbols | internal/fountain/codec.go:65-72 | The first K symbols are the source symbols themselves. |
| Encoder.EmitSymbol | internal/fountain/codec.go:65-83 | The emitted data is the exclusive-or of exactly the sources its mask selects. |
| Encoder.XorInto | internal/fountain/codec.go:409-413 | In place, byte for byte. |
| Decoder.Decoder.AddSymbol | internal/fountain/codec.go:290-321 | Which symbols are refused and why, duplicates ignored, and the new rows and solution. |
| Decoder.Decoder.TrySolve | internal/fountain/codec.go:349-401 | Done exactly when the rows kept so far have a solution, which is then the one stored; the rows themselves stay. |
| Decoder.Eliminate | internal/fountain/codec.go:360-389 | The in-place loop over columns computes the full reduction, pivot table included. |
| Decoder.VisitColumn | internal/fountain/codec.go:366-389 | One column in place: first row at or below with the bit, swap up, clear everywhere else. |
| Decoder.ClearInPlace | internal/fountain/codec.go:381-386 | Exactly the other rows with the bit have the pivot row added. |
| Decoder.Decoder.Payload | internal/fountain/codec.go:330-339 | Not-ready until solved, then the sources joined and trimmed. |
| Decoder.DecoderIsSoundAndComplete | internal/fountain/codec.go:290-413 | For any subset, order and duplication of one encoder's symbols: done if and only if the indices received determine the block, and then the payload is the original byte for byte. |
| Decoder.ArrivalOrderIsIrrelevant | internal/fountain/codec.go:290-339 | Two runs over the same set of indices end with the same result. |
| Decoder.SystematicSymbolsSuffice | internal/fountain/codec.go:65-72 | All K systematic symbols decode with no coding overhead. |
| Decoder.UnresolvedMeansAmbiguous | internal/fountain/codec.go:290-401 | When the decoder is not done, a different payload of the same length agrees with every symbol received. |
| RepairCount.ComputeCount | internal/fountain/codec.go:191-236 | The search loops compute the specified count. |
| RepairCount.CountIsTheLeastThatMeetsTheMargin | internal/fountain/codec.go:191-236 | For K of two or more and any positive loss, clamped to 0.9: no smaller N meets the margin inequality, N meets it if and only if the capped N does, and up to a loss of one half it does. |
| RepairCount.OneSymbolGetsTheLeastCopies | internal/fountain/codec.go:191-236 | For K of one at any positive loss, the least number of copies, two or more, all lost with probability at most 0.02. |
| RepairCount.CountIsPositive | internal/fountain/codec.go:191-236 | At least one repair symbol, always. |
| RepairCount.CountRises | internal/fountain/codec.go:191-236 | More loss never means fewer repair symbols, at any two rates. |
| RepairCount.CapBindsAtHeavyLoss | internal/fountain/codec.go:225-236 | A case where it does not: at a loss of 0.9 a two-symbol block meets the margin at no N up to the cap, and the cap is sent. |
| RepairCount.CountExamples | internal/fountain/codec.go:120-236 | Six copies of a lone symbol at a loss of one half, one spare symbol on a clean link, eleven repair symbols for ten at a loss of one fifth. |
| Varint.UvarintIsCanonical | internal/bundle/bundle.go:227-236 | A reading is accepted exactly when the bytes begin with what would be written for that value. |
| Varint.UvarintsArePrefixFree | internal/gossip/wire.go:33-43 | Two canonical varints at the front of one string are the same. |
| Varint.VarintIsCanonical | internal/bundle/bundle.go:239-248 | The same for signed readings, through zigzag. |
| Varint.ZigZagRoundTrip | internal/bundle/bundle.go:239-248 | Zigzag is a bijection between int64 and uint64. |
| Bundle.BuildTable | internal/bundle/bundle.go:182-189 | The origin table is the origins in order of first appearance, and the index map is its inverse. |
| Bundle.BuildBody | internal/bundle/bundle.go:179-213 | The bytes built, or too many origins. |
| Bundle.ReadTable | internal/bundle/bundle.go:277-289 | A table is read exactly when its entries are distinct. |
| Bundle.ReadRecord | internal/bundle/bundle.go:309-357 | One record is read exactly when the bytes begin with the one encoding of a record whose origin is in the table and no later than the next new entry. |
| Bundle.DecodeBody | internal/bundle/bundle.go:250-368 | Accepts a byte string exactly when it is the encoding of some bundle, and returns that bundle. |
| Bundle.EncodingsAreUnique | internal/bundle/bundle.go:179-368 | No two bundles share a body: every accepted body re-encodes to itself. |
| Bundle.BodyRoundTrip | internal/bundle/bundle.go:179-368 | Decoding undoes encoding for 1 to 256 records, each short enough to frame, and at most 64 origins. |
| Bundle.Unpack | internal/bundle/bundle.go:119-148 | When unpacking succeeds, with what, and when the dictionary is unknown. |
| Bundle.OpensToWhatItDeclares | internal/bundle/bundle.go:119-148 | An envelope that opens yields exactly as much as it declares, never more than the bound, whatever the dictionary makes of it. |
| Bundle.PackRoundTrip | internal/bundle/bundle.go:91-148 | A packed bundle unpacks to the same area, timestamp and records if and only if its body fits the decompression bound. |
| Bundle.EnvelopeIsCanonicalExactlyWhen | internal/bundle/bundle.go:91-148 | An accepted envelope opens to the same body as the one Pack would write for its fields, and is that one if and only if its declared size is a canonical varint. |
| Bundle.EnvelopeAcceptsAPaddedSize | internal/bundle/bundle.go:119-148 | A case where it is not: every size below 128, padded to two bytes, opens to the same body. |
| Conformance.BodyVector | internal/conformance/testdata/v2/bundles.json:4-15 | A frozen body, byte for byte up to the record's own bytes. |
| Sorting.SortInPlace | internal/meshlink/peers.go:125-131 | The swapping loops leave the array sorted by the specified insertion. |
| Sorting.AscendingIsUnique | internal/gossip/digest.go:250-260 | A strictly ascending arrangement of given elements is the only one. |
| Framing.ReadRun | internal/gossip/digest.go:303-318 | Reads n strictly ascending entries exactly when the bytes begin with such a run. |
| Framing.RunsArePrefixFree | internal/gossip/digest.go:303-318 | Two runs of one length at the front of one string are the same. |
| Conformance.DigestVector | internal/conformance/testdata/v2/control.json:13-26 | A frozen digest. |
| Conformance.VectorReqVector | internal/conformance/testdata/v2/control.json:197-208 | A frozen vector request, its tags given out of order. |
| Conformance.RangeReqVector | internal/conformance/testdata/v2/control.json:262-291 | A frozen request for four ranges: their spans go out, not their upper ends. |
| GossipWire.EncodeDigest | internal/gossip/digest.go:250-260 | Encoding sorts the areas in place and writes exactly the promised size. |
| GossipWire.DecodeDigest | internal/gossip/digest.go:272-320 | Accepts exactly the encodings of digests with strictly ascending tags, and reports a foreign version as such. |
| GossipWire.DigestsAreUnique | internal/gossip/digest.go:250-320 | No two digests share a wire form. |
| GossipWire.DigestRoundTrip | internal/gossip/digest.go:250-320 | Under distinct tags and the area limit, an encoded digest decodes to itself sorted. |
| GossipWire.DigestFitsOnePacket | internal/gossip/digest.go:91-114 | A digest within the area limit fits one control message. |
| GossipWire.EncodeVectorReq | internal/gossip/digest.go:335-344 | Writes the tags sorted. |
| GossipWire.DecodeVectorReq | internal/gossip/digest.go:346-382 | Accepts exactly the encodings of strictly ascending tag lists within the limit. |
| GossipWire.VectorReqRoundTrip | internal/gossip/digest.go:335-382 | An encoded request decodes to its tags sorted. |
| GossipWire.VectorReqsAreUnique | internal/gossip/digest.go:335-382 | No two requests share a wire form. |
| GossipWire.EncodeRangeReq | internal/gossip/digest.go:470-489 | Writes the ranges sorted by origin and start. |
| GossipWire.DecodeRangeReq | internal/gossip/digest.go:491-559 | Accepts exactly the encodings of strictly ascending ranges starting at one or later, wrapped spans included, within the limit. |
| GossipWire.RangeReqRoundTrip | internal/gossip/digest.go:470-559 | An encoded request decodes to itself sorted. |
| GossipWire.RangeReqsAreUnique | internal/gossip/digest.go:470-559 | No two requests share a wire form. |
| GossipWire.FitRanges | internal/gossip/digest.go:447-458 | The longest prefix within both the range limit and the byte limit: it fits and no longer one does. |
| GossipWire.RequestSizeGrows | internal/gossip/digest.go:447-458 | A longer prefix is never shorter on the wire, so dropping from the end finds the longest. |
| GossipWire.OneRangeFits | internal/gossip/digest.go:447-458 | A single range always fits a control message. |
| Store.Store.Apply | internal/gossiptest/store.go:112-164 | The new log, how many records were new, how many rejected; an unknown area changes nothing. |
| Store.OnlyVerifiedRecordsAreFiled | internal/gossiptest/store.go:112-164 | A free slot is filled exactly when some record for this area under a known key, with a signature that verifies and a sequence that is not zero, claims it; and it then holds such a record. |
| Store.RejectedAreMisfits | internal/gossiptest/store.go:112-164 | What is counted as rejected are exactly the records that do not verify and those that differ from what the log then holds in their slot. |
| Convergence.AppliedAreSlotsFilled | internal/gossiptest/store.go:112-164 | What is counted as applied is how many slots were filled. |
| Store.Store.Records | internal/gossiptest/store.go:93-109 | The held records of a range, lowest sequence first, gaps skipped. |
| Store.RangeIsExactly | internal/gossiptest/store.go:93-109 | A range is read as exactly what is held of it, in strictly ascending order. |
| Store.Advance | internal/gossiptest/store.go:167-175 | The loop over origins moves every mark to where its contiguous prefix ends. |
| Store.WalkUp | internal/gossiptest/store.go:327-338 | Walking up from a mark finds the end of the contiguous prefix. |
| Store.ClimbIsHighWater | internal/gossiptest/store.go:327-338 | Where the walk ends is a high-water mark: everything up to it is held and the next is not. |
| Store.HighWaterIsUnique | internal/gossiptest/store.go:45-47 | A set of held sequences has one such mark, so the incremental walk agrees with one from the start. |
| Store.ApplyKeepsTheLog | internal/gossiptest/store.go:112-175 | Every mark stays exactly the contiguous prefix held, none moves back, a filled slot never changes, and only verified records are held. |
| Store.ApplyIsIdempotent | internal/gossiptest/store.go:112-164 | Applying the same records again changes nothing and counts nothing new. |
| Store.ApplyIsOrderInsensitive | internal/gossiptest/store.go:112-164 | Absent equivocation only the set of records matters, not their order or number. |
| Engine.Engine.ScheduleAsk | internal/gossip/engine.go:509-522 | At most one ask per peer and area is queued, due after the jitter. |
| Engine.Engine.OnDigest | internal/gossip/engine.go:450-496 | Every area the digest gives cause to ask about is queued, nothing else is, and nothing queued is dropped; the peer state, the loss estimate with what the transport is told of it, and whether our own digest is silenced: only by agreement in every area shared. |
| Engine.Engine.SettleAwaited | internal/gossip/engine.go:717-725 | An entry answers what was awaited from that peer and area once, as landed or missed. |
| Engine.Engine.NoteAwaited | internal/gossip/engine.go:683-699 | Which peers are expected to gain how much from a bundle just sent. |
| Engine.BroadcastIsJudgedByItsGain | internal/gossip/engine.go:683-725 | A peer heard of in the area is judged by its next digest as having got a broadcast exactly if its count has risen by that many, or to the limit; nobody else is judged. |
| Engine.DigestSettlesItsAreas | internal/gossip/engine.go:450-496 | After a digest the peer's last word on every area named is the one in it, nothing is awaited of it there any more, and the rest is untouched. |
| Engine.EachAwaitedIsJudgedOnce | internal/gossip/engine.go:717-725 | Exactly the entries something was awaited of are judged, once each and in order, by the count given. |
| Engine.OneOfTwoIsMoved | internal/gossip/engine.go:450-496 | Of two engines whose vectors and hashes differ in an area, one is moved to ask by the other's digest and has something to fetch. |
| Engine.AgreementIsAboutSomething | internal/gossip/engine.go:466-496 | A digest that names no area we carry never silences us, nor one that differs in any. |
| Engine.Engine.NoteDelivery | internal/gossip/engine.go:747-767 | The new estimate, both counters, and that the transport is told exactly when the estimate moved. |
| LossControl.EstimateStaysBounded | internal/gossip/engine.go:747-767 | From any configured rate below one: the estimate stays between zero and the larger of that rate and one half; a delivery lowers it unless it is zero, and a miss raises it if and only if it was below one half, and otherwise sets it to one half. |
| LossControl.TransportFollowsTheEstimate | internal/gossip/engine.go:747-767 | Over any observations the rate repair is sized by is the estimate, cut to one half once it has been passed on. |
| LossControl.EstimateExamples | internal/gossip/engine.go:738-767 | Two misses from a clean link, a miss and a delivery near the ceiling, and an estimate too small to keep. |
| Engine.Engine.FirePending | internal/gossip/engine.go:378-412 | The in-place compaction leaves exactly the asks to keep, in order, and sends exactly those due and still needed; a failed send stops it there and leaves the queue half-compacted. |
| Engine.Engine.Tick | internal/gossip/engine.go:336-368 | After firing, a digest goes out, is held back or has nothing to say as the schedule, the carried areas and the link decide, and the scheduler takes the step its runs are made of. |
| Engine.NoAskIsLost | internal/gossip/engine.go:378-412 | Every ask is still queued, was sent, or was answered meanwhile, whether or not a send fails. |
| Engine.FiredExactlyWhen | internal/gossip/engine.go:378-412 | A request goes out exactly when some ask for it is due, unanswered and let through. |
| Engine.KeptIsEarlyOrBarred | internal/gossip/engine.go:378-412 | When every send is let through, exactly the asks whose time has not come stay. |
| Engine.KeptStaysDistinct | internal/gossip/engine.go:378-412 | What stays queued was queued, under distinct keys. |
| Engine.FailureRepeatsWhatMoved | internal/gossip/engine.go:378-412 | From distinct asks: they are distinct afterwards if and only if no send fails or no ask that stays stood behind one that is gone; then a failed send leaves the queue as it was. |
| Engine.AFailedSendQueuesTwice | internal/gossip/engine.go:378-412 | A case: sent, not yet due, failed; the second is then queued twice. |
| Engine.Engine.OnVector | internal/gossip/engine.go:549-592 | Asks for exactly the difference, lowest sequences first, within both limits, and reports a send that fails. |
| Engine.ComputeMissing | internal/gossip/engine.go:559-563 | The ranges computed are exactly what the peer's vector has over ours. |
| Engine.Engine.OnRangeReq | internal/gossip/engine.go:595-631 | The requested records we hold, up to the push limit, broadcast once if the governor agrees and the link takes them; only then is anything awaited and the schedule told of a digest of this size. |
| Engine.Engine.Publish | internal/gossip/engine.go:644-662 | Stored first, whether or not the push is allowed or fails; what a push that goes out adds to the expectations and the schedule. |
| AntiEntropy.RunsAreSafe | internal/gossiptest/store.go:112-175 | For N nodes under loss, duplication and reordering: vectors stay exact, every record held was authored and its signature verifies under the key of the origin it is filed under, filled slots never change. |
| AntiEntropy.VectorsDescribeTheSameRecords | internal/gossiptest/store.go:45-47 | Absent equivocation nodes hold identical records as far as both their vectors reach. |
| AntiEntropy.SomeoneAsksAndLearns | internal/gossip/engine.go:450-496 | When two vectors and their hashes differ, one of the two asks on hearing the other and has something to learn, saturated counts included. |
| AntiEntropy.RequestSurvivesTheWire | internal/gossip/engine.go:549-592 | A request always fits one message and decodes to the ranges asked for. |
| AntiEntropy.WantedIsLowest | internal/gossip/engine.go:565-578 | Nothing left out of a request starts below anything asked for, and something is left out only because of one of the three limits. |
| AntiEntropy.CollectedIsAllThatFits | internal/gossip/engine.go:604-616 | The answer to a request is everything held of it, in its order, cut off where the push is full. |
| AntiEntropy.RoundAdvances | internal/gossip/engine.go:549-631 | A lossless round fills a slot the asker lacked and the peer had, and moves that origin's mark. |
| AntiEntropy.RoundShrinksTheDeficit | internal/gossip/engine.go:549-631 | A lossless round strictly shrinks the asker's summed deficit against its peer. |
| Convergence.ExchangeNarrowsTheGap | internal/gossip/engine.go:450-631 | Every productive exchange between any two of N nodes fills at least one slot that was empty somewhere. |
| Convergence.RunsAreBounded | internal/gossip/engine.go:450-631 | No run of productive exchanges is longer than the number of slots empty at its start. |
| Convergence.BehindHasADelta | internal/gossip/engine.go:559-563 | A node that is behind has ranges to ask for. |
| Convergence.DifferenceLeadsToAnExchange | internal/gossip/engine.go:450-496 | While any two vectors differ, hearing each other's digest makes one ask, productively. |
| Convergence.QuietMeansConverged | internal/gossip/engine.go:450-496 | A federation in which nobody has cause to ask has converged. |
| Agreement.SoundIsFederated | internal/gossiptest/store.go:112-175 | Any sound system whose nodes trust alike is such a federation, over the slots filled somewhere. |
| Agreement.ExchangeIsTwoSteps | internal/gossip/engine.go:549-631 | An exchange is two steps of the system: the peer's push of records it holds, and its delivery to the asker. |
| Agreement.ReachableIsSound | internal/gossiptest/store.go:112-175 | From booting, every state any run reaches is sound. |
| Agreement.QuietExactlyWhenAlike | internal/gossip/engine.go:450-496 | A federation is quiet if and only if every two vectors held hash alike, and then nobody asks at all. |
| Agreement.QuietAgreesUnlessCollided | internal/gossip/digest.go:143-148 | A quiet federation has agreed if and only if no two different vectors held hash alike. |
| Agreement.TalkEndsInAgreement | internal/gossip/engine.go:450-631 | However the asking is scheduled it ends, within as many exchanges as there are slots empty somewhere; where it can go no further all vectors agree if and only if no two different ones held there hash alike. |
| Agreement.SoundSystemsCanAgree | internal/gossip/engine.go:450-631 | From any sound state whose nodes trust alike there is such talk, made of pushes and deliveries, that goes on until it is quiet; then all vectors agree and, absent equivocation, all records as far as they reach, unless two different vectors held at the end hash alike. |
| Liveness.BootedIsOrderly | internal/gossip/engine.go:234-248 | Nodes that hold, queue and have heard nothing are in order. |
| Liveness.ActFillsOrRests | internal/gossip/engine.go:378-662 | Whatever a node does next, on a message new, late or repeated, keeps the mesh in order, and either changes no log or fills an empty slot. |
| Liveness.StillAskedOrSent | internal/gossip/engine.go:378-412 | An ask whose answer has not come is still queued after any act, or its request was sent. |
| Liveness.LosslessRoundGains | internal/gossip/engine.go:336-662 | A round in which nothing is lost, with anything else in between, old messages coming back included, fills an empty slot, unless it began quiet. |
| Liveness.LosslessRoundsFindQuiet | internal/gossip/engine.go:336-662 | In any run, whatever is lost, repeated or late, no more lossless rounds begin unquiet than there were slots empty somewhere at its start. |
| Liveness.QuietInTheEnd | internal/gossip/engine.go:336-662 | A mesh that gets more lossless rounds than it has nodes times slots is quiet when one of them begins, and has then agreed if and only if no two different vectors held hash alike. |
| Rounds.ALosslessRoundCanFollow | internal/gossip/engine.go:336-662 | Any run can be continued by a round without losses. |
| Rounds.QuietIsAlwaysInReach | internal/gossip/engine.go:336-662 | From anywhere, whatever is queued and on the air, the mesh can get quiet by its own messages. |
| Outbox.NewOutbox | internal/bsmp/outbox.go:148-165 | Which configurations are refused: a rate that is not a fraction below one, and a zero ID. |
| Outbox.Outbox.SendRecords | internal/bsmp/outbox.go:201-299 | What is put on the air, where the cursor stops, and which of six results is reported, for every pattern of refusals and errors. |
| Outbox.Outbox.SendFrom | internal/bsmp/outbox.go:263-298 | Symbols from the cursor on, in order, until the link refuses or fails. |
| Outbox.Outbox.SetLossRate | internal/bsmp/outbox.go:393-403 | The rate is clamped to what repair counting accepts. |
| Outbox.Outbox.Forget | internal/bsmp/outbox.go:321-325 | Forgets one bundle's cursor and no other. |
| Outbox.EachSymbolIsAiredOnce | internal/bsmp/outbox.go:224-298 | Over any calls for one bundle the indices aired are exactly 0 to cursor-1, each once, never more than the bound. |
| Outbox.CallMakesProgress | internal/bsmp/outbox.go:224-298 | Below the bound a call moves the cursor if and only if policy lets it start and the link takes its first symbol. |
| Outbox.DoneMeansAllOnTheAir | internal/bsmp/outbox.go:224-298 | A call reports Done only with every source symbol and all the repair symbols the loss rate asks for on the air, up to the bound; past the first transmission, with exactly that many repair symbols more. |
| Outbox.WillingLinkMeansDone | internal/bsmp/outbox.go:224-298 | With a link that takes everything a call is always Done, until the bound. |
| Outbox.BundleIDsCanDiffer | internal/bsmp/outbox.go:342-346 | For any two different bundles some hash gives different IDs. |
| Outbox.FramesContinue | internal/bsmp/outbox.go:224-298 | Resumed calls air together what one call would have. |
| Inbox.Inbox.Symbol | internal/bsmp/inbox.go:160-291 | For every frame: duplicate, rejected, gathered, decoded or corrupt, with the new decoders and memory, and what each counter adds, decoders expired and evicted included. |
| Inbox.FrameFormIsCanonical | internal/bsmp/inbox.go:160-176 | A datagram is read as a symbol exactly when all but its first byte is that symbol's one frame, within the limits. |
| Inbox.EachIsCountedOnce | internal/bsmp/inbox.go:160-258 | Every datagram is counted once, as a symbol, as rejected or as a duplicate, and only a symbol as decoded or corrupt. |
| Inbox.Inbox.Feed | internal/bsmp/inbox.go:207-258 | A symbol fed to its decoder, what happens when that solves it, and which counters count it. |
| Inbox.Inbox.Expire | internal/bsmp/inbox.go:295-308 | Exactly the stale decoders and the stale memories go, and every decoder gone is counted. |
| Inbox.Inbox.EvictToCap | internal/bsmp/inbox.go:315-328 | At most one decoder goes, one least recently touched, it is counted, and the cap holds again. |
| Inbox.Stalest | internal/bsmp/inbox.go:315-328 | Under any iteration order the strict comparison finds a least touch time. |
| Delivery.CapHolds | internal/bsmp/inbox.go:315-328 | In every run open decoders never exceed the cap. |
| Delivery.NewestMayGoExactlyOnTies | internal/bsmp/inbox.go:202-205 | When the cap is exceeded, the frame's own decoder may be evicted if and only if every other live one was touched no earlier than now. |
| Delivery.ATieLosesTheNewest | internal/bsmp/inbox.go:202-205 | A state at the cap with one touch time, from which the newest is evicted and its symbol lost. |
| Delivery.AfterADecodeOnlyDuplicates | internal/bsmp/inbox.go:183-188 | Within the memory's lifetime every further symbol of a decoded key is a duplicate. |
| Delivery.DecodesAreFarApart | internal/bsmp/inbox.go:160-308 | Two decodes of one key are more than the lifetime apart. |
| Delivery.FrameParses | internal/bsmp/outbox.go:264-268 | A frame an outbox airs is read back as the symbol it carries. |
| Delivery.OnlyIntactBundlesAreDelivered | internal/bsmp/inbox.go:215-258 | Whatever damage symbols took, nothing is delivered that does not hash to the bundle ID they carried; what does not is dropped and not remembered, so the next symbol finds an empty decoder. |
| Delivery.GenuineSymbolCounts | internal/bsmp/inbox.go:160-291 | A genuine symbol is never rejected nor corrupt; once the indices heard resolve the block, the bundle decodes to exactly the payload. |
| Delivery.OtherSymbolsDoNotMix | internal/bsmp/inbox.go:160-291 | Other senders' and bundles' symbols leave a decoder alone but for expiry and eviction. |
| Delivery.OnlyThePayloadIsDecoded | internal/bsmp/inbox.go:160-291 | In any run, with any order, duplicates, other traffic, expiry and eviction, a bundle only ever decodes to the bytes its sender packed. |
| Lifetime.OthersLeaveItExactlyWhen | internal/bsmp/inbox.go:202-308 | An arrival under another key leaves an open decoder as it is if and only if it was touched no longer ago than its lifetime and the cap does not take it. |
| Lifetime.RemembersExactly | internal/bsmp/inbox.go:183-308 | What is done is remembered for its lifetime and no longer, except that a duplicate forgets nothing. |
| Lifetime.AloneIsSteady | internal/bsmp/inbox.go:160-308 | A bundle heard alone, each symbol within a decoder's lifetime of the one before, meets what DecodesOnceResolved asks. |
| Lifetime.DecodesOnceResolved | internal/bsmp/inbox.go:160-308 | As long as a bundle's symbols follow each other within six hours and fewer than sixty-four other keys are heard of in between, it decodes at the first arrival whose indices with those before it resolve the block; all of it from what arrives, expiry and eviction included. |
| EndToEnd.SentIsCoded | internal/bsmp/outbox.go:201-224 | The block SendRecords airs symbols of is one the receiver's results apply to. |
| EndToEnd.OnlyTheRecordsSentArrive | internal/bsmp/inbox.go:160-291 | In any run of an inbox whose symbols under a sender's key were parsed from frames that sender aired, in any order, lost or repeated, amid other traffic, expiry and eviction: each is a duplicate, gathered, or hands over exactly the area and records sent. |
| EndToEnd.OutboxDeliversWhatItSends | internal/bsmp/outbox.go:201-299 | The same from what SendRecords itself promises of its block and cursor: nothing but the area and records it was called with is handed over under its key. |
| EndToEnd.DoneMeansResolvable | internal/bsmp/outbox.go:224-298 | After any run of calls of which the last is Done, what is on the air resolves the block. |
| EndToEnd.RecordsSentAreHeld | internal/bsmp/inbox.go:160-308 | Under the same condition on what arrives, once the symbols heard resolve the block the records sent have been handed over, and each one the store admits fills its slot there: with itself, unless another record claims that slot. |
| Rolling.Prune | internal/governor/governor.go:583-592 | The filter keeps exactly the entries after the cutoff, in order. |
| Rolling.AdmitKeepsBound | internal/governor/governor.go:570-592 | Admitting when the pruned log has room keeps every rolling hour, past and future, within the limit, though older entries are gone from the log. |
| Rolling.Limiter.Allow | internal/door/api.go:846-867 | Granted exactly when fewer than perHour grants are within the hour; the bucket afterwards, kept compacted either way. |
| Rolling.NeverMoreThanPerHour | internal/door/api.go:846-867 | Over any calls under a monotone clock no rolling hour holds more than perHour grants to a door. |
| Governor.Governor.constructor | internal/governor/governor.go:292-345 | Settings clamped, bucket full, only positive area shares kept. |
| Governor.Governor.DoRefill | internal/governor/governor.go:554-567 | Tokens after a refill, capped, and the pruned log; nothing when the clock has not moved. |
| Governor.Governor.Check | internal/governor/governor.go:514-541 | The verdict in the source's order of rules, and the state they leave. |
| Governor.Governor.FindBucket | internal/governor/governor.go:441-473 | No bucket for an uncapped area, a full one on first use, a refilled one after. |
| Governor.Governor.AllowCharge | internal/governor/governor.go:395-437 | Who is charged what, and which counter counts a refusal. |
| Governor.Governor.SetAreaShares | internal/governor/governor.go:482-511 | The loop drops, keeps or resizes each bucket as its share says. |
| Governor.Governor.Observe | internal/governor/governor.go:599-618 | Refill, then the new penalty. |
| Governor.Governor.NoteEcho | internal/governor/governor.go:628-649 | The estimate moves only upwards and only after twenty packets. |
| Governor.Governor.SetInstances | internal/governor/governor.go:703-715 | Refilled under the old divisor, then resized and clamped. |
| Spending.StepKeepsValid | internal/governor/governor.go:395-715 | Every operation keeps 0 <= tokens <= capacity, 1 <= penalty <= 32, every area bucket within its capacity and at its configured share, and never lowers R. |
| Spending.ChargeSettles | internal/governor/governor.go:395-437 | A refusal by any rule or by the area charges nothing; a charge leaves the class's reserve in the bucket. |
| Spending.SpendIsBounded | internal/governor/governor.go:395-473 | Over any run with a fixed roster, from a call on: charges are at most one full bucket plus the instance's share of the time. |
| Fleet.SlicesMakeTheCeiling | internal/governor/governor.go:362-365 | So many instances' slices are together the ceiling, exactly. |
| Fleet.FleetStaysUnderTheCeiling | internal/governor/governor.go:362-437 | Any fleet of instances that each count them all charges at most its full buckets and the ceiling's part of the time, together. |
| Fleet.AreaStaysUnderItsShare | internal/governor/governor.go:441-473 | The same for one capped area over the fleet, with its share of the ceiling. |
| Fleet.PenaltyDivides | internal/governor/governor.go:441-567 | A penalty of p leaves one p-th of the slice, and of an area's part of it. |
| Fleet.BucketIsAnHour | internal/governor/governor.go:347-360 | A bucket left to its own size holds what an idle hour accrues, or three full packets. |
| Fleet.HourOfOneInFifty | internal/governor/governor.go:347-365 | Settings left out give each of fifty instances 3.6 seconds of channel time an hour. |
| Fleet.AreaBucketIsItsPart | internal/governor/governor.go:441-473 | A bucket for one n-th of the share holds the n-th part of the node's, or one full packet. |
| Fleet.SettingsAreReplaced | internal/governor/governor.go:292-330 | Which settings are out of range and what replaces them. |
| Fleet.CostOfWholeHops | internal/governor/governor.go:802-804 | A packet costs its airtime once for every time it is repeated. |
| Spending.EveryCallIsCounted | internal/governor/governor.go:395-437 | Every call is counted once, as allowed or under the rule that refused it. |
| AreaSpending.AreaSpendIsBounded | internal/governor/governor.go:441-473 | The same for each capped area with its own bucket and its share of the share. |
| AreaSpending.RecapNeverRefills | internal/governor/governor.go:482-511 | Re-reading the caps never refills an area still named; an area dropped and named again starts full. |
| DutyCycle.NoHourOverTheLimit | internal/governor/governor.go:570-592 | From the start, under a monotone clock, no rolling hour of what was let through exceeds the region's limit. |
| DutyCycle.LimitIsSixMinutes | internal/governor/governor.go:570-582 | The regions with a limit allow six minutes in the hour; others have none. |
| Admission.AdmittedInTheEnd | internal/governor/governor.go:514-567 | Left alone, with quiet hours that end, a packet is admitted after some finite wait if and only if cost plus reserve fits a full bucket, its airtime fits the regional limit, and the channel does not bar its class. |
| Admission.LadderIsUpwardClosed | internal/governor/governor.go:116-122 | Where a class is admitted, so is every class with no greater reserve and packet no longer, unless only direct mail may pass. |
| Admission.DoorEventsStarveAtTheFloor | internal/governor/governor.go:348-360 | At the smallest bucket a full packet can be afforded in the end by every class but door events. |
| Admission.PollingLosesAtMostANanosecond | internal/governor/governor.go:554-567 | An extra refill on the way gains nothing and loses at most a nanosecond. |
| Admission.FastPollingStarves | internal/governor/governor.go:554-567 | A bucket that is not full gains nothing from any number of evenly spaced refills if and only if they come too fast for the rate to earn a nanosecond between two. |
| Backoff.BusyReadingsDouble | internal/governor/governor.go:599-618 | Consecutive busy readings double the penalty up to the cap. |
| Backoff.CalmReadingsClear | internal/governor/governor.go:599-618 | Five calm readings in a row clear any penalty. |
| Backoff.EarnedBeforeStays | internal/governor/governor.go:599-715 | A reading of the channel, or a new roster, changes nothing earned before it. |
| Backoff.MultiplierIsBelievable | internal/governor/governor.go:628-649 | R is never below the configured value, is pinned when pinned, and never above what the echoes over twenty packets justify. |
| Backoff.EchoesAreBelieved | internal/governor/governor.go:628-649 | Once twenty packets are out an unpinned R is at least what the echoes show of each: it follows them up and never down. |
| Schedule.DigestsStayInTheirShare | internal/gossip/schedule.go:99-139 | Where the longest interval does not bind, utilisation is within the control share if and only if cutting the clamp to nanoseconds cost nothing. |
| Schedule.DigestsOverrunByLessThanANanosecond | internal/gossip/schedule.go:99-139 | In any case an interval one nanosecond longer is within the share. |
| Schedule.DefaultShareIsExact | internal/gossip/schedule.go:40-50 | At the default share of one percent the clamp is always exact. |
| Schedule.ShareExceeded | internal/gossip/schedule.go:99-139 | A setting for which the share is exceeded. |
| Schedule.Scheduler.Reschedule | internal/gossip/schedule.go:178-195 | The jittered due time, never less than a second ahead. |
| Schedule.Scheduler.Due | internal/gossip/schedule.go:227-240 | Not yet, suppressed and pushed out, or due. |
| Schedule.Scheduler.MarkSent | internal/gossip/schedule.go:249-252 | Counts, clears what was heard and reschedules. |
| Schedule.DelayIsLongEnough | internal/gossip/schedule.go:178-195 | No draw makes the delay shorter than the interval less its jitter. |
| Schedule.DigestFollowsItsReschedule | internal/gossip/schedule.go:178-251 | A standalone digest follows the reschedule that set it, and so every earlier digest, by the interval computed there for that mesh and size, less the jitter. |
| Schedule.DigestsAreSpaced | internal/gossip/engine.go:336-368 | In every run two standalone digests are at least the shortest interval computed on the way apart, less jitter, whatever is piggybacked, heard or held back between them. |
| Schedule.DigestIsPaidFor | internal/gossip/schedule.go:99-251 | The time between two digests pays, out of the control share, for a whole mesh's round of digests, less jitter. |
| Rhythm.DefaultIntervals | internal/gossip/schedule.go:40-127 | At the defaults with ten areas: half an hour for five peers, two hours for twenty, five for fifty, ten for a hundred. |
| Rhythm.HeuristicIsProportional | internal/gossip/schedule.go:91-127 | The peer heuristic is the base times the peers over the divisor, rounded down, and never less than the base. |
| Rhythm.JitterIsSymmetric | internal/gossip/schedule.go:186-190 | For every draw there is one that moves the beat as far the other way, and the lowest draw moves it by all of the jitter. |
| Rhythm.DelayIsShortEnough | internal/gossip/schedule.go:178-195 | No draw makes the delay longer than the interval and its jitter. |
| Rhythm.BeatsAreASecondApart | internal/gossip/schedule.go:191-194 | No digest follows its reschedule, or an earlier digest, within a second. |
| Rhythm.BeatWithoutADigest | internal/gossip/schedule.go:178-183 | A beat set without a digest in hand is set as for ten areas. |
| Rhythm.SilenceIsForOneBeat | internal/gossip/schedule.go:227-240 | Hearing agreement silences one beat and no more. |
| Rhythm.SpeakingEndsTheSilence | internal/gossip/schedule.go:202-251 | Whatever announces our state ends the silence others' agreement would have caused. |
| Rhythm.DisagreementIsNeverSilenced | internal/gossip/schedule.go:208-240 | A due beat with no agreement heard since the last goes out. |
| FrameReader.AppendFrame | internal/meshtastic/frame.go:59-65 | The framed bytes, or too large. |
| FrameReader.FrameReader.ReadFrame | internal/meshtastic/frame.go:113-169 | The loop ends on every stream, whether it ends or breaks off with an error, with the specified frame or error, counters and log. |
| FrameReader.ReadTakesAFrame | internal/meshtastic/frame.go:113-169 | What is read was framed: the stream was the bytes skipped, exactly that frame, and what is left; and what becomes of the last bytes when there is no frame. |
| FrameReader.AnErrorBetweenFramesLosesNothing | internal/meshtastic/frame.go:113-132 | After a read error that costs no bytes, the next read finds what it would have found had all the bytes been there at once. |
| FrameReader.FramesSurviveNoise | internal/meshtastic/frame.go:59-169 | Frames interleaved with any noise free of the marker pair, stray first markers included, come back exactly and in order, and every other byte is counted. |
| FrameReader.EveryByteIsAccountedFor | internal/meshtastic/frame.go:113-207 | On any stream, skipped bytes, frames read and at most three bytes left to be read again make up the whole but for one frame cut short. |
| FrameReader.LogStaysClean | internal/meshtastic/frame.go:187-226 | No control byte and no over-long line reaches the log sink. |
| FrameReader.TextReachesTheLog | internal/meshtastic/frame.go:187-226 | A line printed between frames is handed to the log whole, control bytes masked and nothing else changed, and reading goes on behind it. |
| FrameReader.CleanedIsItself | internal/meshtastic/frame.go:216-226 | Masking puts a dot for every control byte and touches nothing else. |
| Conformance.FrameVector | internal/meshtastic/frame.go:59-65 | A frame of three hundred bytes: the two markers and the length, high byte first. |
| PeerTable.PeerTable.Learn | internal/meshlink/peers.go:58-86 | Accepted exactly when fresh, and both maps afterwards. |
| PeerTable.PeerTable.Bindings | internal/meshlink/peers.go:105-131 | Every binding once, in order of node ID. |
| PeerTable.LearnBindsOnlyItsOwn | internal/meshlink/peers.go:58-86 | An accepted announcement unbinds at most the radio's previous holder; a rejected one changes nothing. |
| PeerTable.MapsStayInverse | internal/meshlink/peers.go:58-86 | After any announcements the two maps are inverse to each other. |
| PeerTable.TimestampsRise | internal/meshlink/peers.go:66-74 | While a node stays bound its timestamp rises strictly with every change. |
| PeerTable.OldAnnouncementsAreRefused | internal/meshlink/peers.go:66-74 | Nothing dated no later than a binding is accepted from a node that has stayed bound. |
| PeerTable.EvictionForgetsTheTimestamp | internal/meshlink/peers.go:79-81 | After losing its radio to another node, any announcement not from the far future is accepted again. |
| PeerTable.NothingIsDatedFarAhead | internal/meshlink/peers.go:58-61 | However wrong announcers' clocks are, no binding stands further in the future than the skew allowed. |
| PeerTable.NobodyIsLockedOut | internal/meshlink/peers.go:58-74 | So once that much time has passed an announcement with the present time is accepted. |
| PeerTable.ListingIsUnique | internal/meshlink/peers.go:105-140 | Map iteration order never shows in the listing. |
| PeerTable.AskRate.Allow | internal/meshlink/peers.go:159-167 | Allowed exactly when the radio was not asked within the limit. |
| PeerTable.QuestionsAreSpaced | internal/meshlink/peers.go:159-167 | Over any run two questions to one radio are never closer than the limit. |
| PeerTable.OthersDoNotDelayAQuestion | internal/meshlink/peers.go:159-167 | A question not asked of that radio lately is always allowed. |
| Base32.EncodeBase32 | internal/identity/base32.go:42-62 | Despite the sixteen-bit accumulator, the symbols of the whole value, left-aligned. |
| Base32.DecodeBase32 | internal/identity/base32.go:67-102 | Which strings are accepted, as what, and which of three errors is reported. |
| Base32.Base32RoundTrip | internal/identity/base32.go:42-102 | Decoding undoes encoding for every byte string but the empty one. |
| Base32.NormalFormIsCanonical | internal/identity/base32.go:67-102 | An accepted string re-encodes to its normal form if and only if it has as many symbols as its bytes need. |
| Base32.OneZeroMoreIsAccepted | internal/identity/base32.go:96-101 | A longer, zero-tailed form is accepted for every byte string with at most two padding bits. |
| Conformance.NodeIDVector | internal/conformance/testdata/v2/keys.json:4-14 | The frozen compact form of a node ID. |
| Words.EncodeWords | internal/identity/words.go:44-66 | Despite the thirty-two-bit accumulator, the six words of the ID and its checksum. |
| Words.DecodeWords | internal/identity/words.go:70-102 | Which six words are accepted, as what, and which error is reported, with the position of an unknown word. |
| Words.WordsRoundTrip | internal/identity/words.go:44-102 | Decoding undoes encoding for every node ID. |
| Words.AcceptedWordsAreCanonical | internal/identity/words.go:70-102 | Accepted words re-encode to themselves, trimmed and in lower case. |
| Words.ChecksumsCanDiffer | internal/identity/words.go:44-66 | For any two different IDs some hash gives different checksums. |
| Radix.PushBits | internal/identity/base32.go:49-51 | Cutting the accumulator to its width never touches the pending bits. |

## Left out

- Hashes, signatures, key exchange, encryption, compression and the record codec themselves: parameters, with the laws a property needs.
- Mutexes and goroutines: each locked section is one atomic step.
- Rows of the decoder: an equation is a value, so swapping and adding rows replaces whole rows where the source swaps slice headers and writes bytes of inner slices.
- Open decoders and area buckets: values in a map where the source's map holds pointers, so aliasing through a kept pointer is not modelled.
- Engine dispatch: message types, the dictionary floor, peer counting and the counters of messages and bytes sent.
- Vector messages: Liveness answers a vector request with the vector itself; the wire form of a vector is not modelled.
- Timers in Liveness: when a queue fires and a digest goes out is the run's choice, and one area is followed over all nodes; a silenced heartbeat is a digest with the same vector from somebody else.
- Store.Store.Records: sequences are unbounded, so the loop at the largest 64-bit upper bound is not modelled.
- Store listing, verification and corruption helpers: simulation support.
- RepairCount.ComputeCount: the square root is removed by squaring, and the logarithm for a single symbol is stated as the least exponent, over exact reals.
- Fitted overhead constants of repair counting: taken as they are, not justified.
- Bundle records are values, so the source's nil-record checks have no counterpart.
- Outbox message sending, traffic classes per area and statistics: wiring around SendRecords.
- Inbox counters of what happens after decoding: bundles that do not unpack, dictionaries not held, records added.
- Governor inbound quotas, budget reports, the sysop's explanation and packets per day: reporting.
- Quiet hours: one predicate over time, not windows of local wall-clock time.
- The airtime formula: any positive function of the packet size.
- Schedule inputs: peer counts, draws and digest sizes are given with each event.
- Frame reader streams: the bytes that come before an end or an error are given at once, not as they arrive.
- Announcement signing and parsing: the peer table is given verified announcements.
- Words and case folding: any 2048 distinct words that fold to themselves, under any folding.
- Base32 grouping with hyphens, short forms and key files of identities: rendering only.
- Radio links, supervisors, configuration, logging, doors apart from their hourly limit, bulletin board commands and storage: not part of this model.
