/** The loss estimate: a controller that reacts to bundles that landed and bundles that did not, and what it
    tells the transport that sizes repair by it. */
module LossControl {
  import O = Outbox

  const CLIMB_FACTOR: real := 1.5
  const CLIMB_FLOOR: real := 0.05
  const DECAY_FACTOR: real := 0.92
  const CEILING: real := 0.5

  function Delivered(estimate: real, landed: bool): real {
    if landed then
      var decayed := estimate * DECAY_FACTOR;
      if decayed < 0.001 then 0.0 else decayed
    else
      var climbed := estimate * CLIMB_FACTOR + CLIMB_FLOOR;
      if climbed > CEILING then CEILING else climbed
  }

  function Estimate(seed: real, observations: seq<bool>): real {
    if observations == [] then seed
    else Delivered(Estimate(seed, observations[..|observations| - 1]), observations[|observations| - 1])
  }

  // The estimates passed on: one for every observation that moved it.
  function Told(seed: real, observations: seq<bool>): seq<real> {
    if observations == [] then []
    else
      var before := observations[..|observations| - 1];
      var estimate := Estimate(seed, observations);
      Told(seed, before) + if estimate != Estimate(seed, before) then [estimate] else []
  }

  function Misses(observations: seq<bool>): nat {
    if observations == [] then 0
    else Misses(observations[..|observations| - 1]) + if observations[|observations| - 1] then 0 else 1
  }

  lemma EstimateOneMore(seed: real, observations: seq<bool>, landed: bool)
    ensures var more := observations + [landed];
            && Estimate(seed, more) == Delivered(Estimate(seed, observations), landed)
            && Misses(more) == Misses(observations) + (if landed then 0 else 1)
            && Told(seed, more) == Told(seed, observations) +
                 (if Estimate(seed, more) != Estimate(seed, observations) then [Estimate(seed, more)] else [])
  {
    assert (observations + [landed])[..|observations|] == observations;
  }

  /** From any rate the transport may be configured with, below one: the estimate stays between zero and the
      larger of that rate and one half. A delivery lowers it unless it is zero; a miss raises it exactly when it
      was below one half, and otherwise sets it to one half. */
  lemma {:induction false} EstimateStaysBounded(seed: real, observations: seq<bool>)
    requires 0.0 <= seed < 1.0
    ensures 0.0 <= Estimate(seed, observations) <= if seed > CEILING then seed else CEILING
    ensures false in observations ==> Estimate(seed, observations) <= CEILING
    ensures observations != [] ==>
              var before, after := Estimate(seed, observations[..|observations| - 1]), Estimate(seed, observations);
              if observations[|observations| - 1] then after < before || after == before == 0.0
              else (after > before <==> before < CEILING) && (before >= CEILING ==> after == CEILING)
  {
    if observations != [] {
      var init := observations[..|observations| - 1];
      EstimateStaysBounded(seed, init);
      assert observations == init + [observations[|observations| - 1]];
    }
  }

  // The rate the transport ends up with.
  function Sizing(seed: real, observations: seq<bool>): real {
    var told := Told(seed, observations);
    if told == [] then seed else O.ClampedRate(told[|told| - 1])
  }

  /** The transport sizes repair by the estimate, except that an estimate above one half, which only a
      configured rate can cause, counts as one half once it has been passed on. */
  lemma {:induction false} TransportFollowsTheEstimate(seed: real, observations: seq<bool>)
    requires 0.0 <= seed < 1.0
    ensures Told(seed, observations) == [] ==> Estimate(seed, observations) == seed
    ensures Sizing(seed, observations) ==
            if Told(seed, observations) == [] || Estimate(seed, observations) <= CEILING
              then Estimate(seed, observations)
            else CEILING
  {
    EstimateStaysBounded(seed, observations);
    if observations != [] {
      TransportFollowsTheEstimate(seed, observations[..|observations| - 1]);
    }
  }

  /** Two misses from a clean link take the estimate to one eighth; a delivery takes off eight parts in a hundred, and
      an estimate too small to matter is dropped. */
  lemma EstimateExamples()
    ensures Estimate(0.0, [false, false]) == 0.125 && Estimate(0.5, [true]) == 0.46
    ensures Estimate(0.4, [false]) == 0.5 && Estimate(0.001, [true]) == 0.0
  {
    assert [false, false][..1] == [false] && [false][..0] == [];
    assert Estimate(0.0, [false]) == 0.05;
    assert Delivered(0.05, false) == 0.125;
  }
}
