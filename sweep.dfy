/** The percolation-threshold sweep: for each symmetry-unique channel, raise an energy
    threshold in fixed steps from the channel's minimum energy, re-label the channel's
    cells below it, and record the first threshold at which a sub-cluster percolates. */
module Sweep {
  import opened ChannelFilter

  /** Energy resolution of the sweep, in kJ/mol. */
  const EnergyStep: real := 0.1

  /** A labelling of the grid: one label per cell (0 for none) and the number of labels. */
  datatype Labeling = Labeling(cells: seq<Label>, count: nat)

  /** The collaborators the sweep calls: the connected-component labeller, restricted to the
      cells of the channel with the given representative label whose energy lies below the
      given threshold, and the dimensionality classifier, which gives for each label of a
      labelling the periodic axes its cluster spans (an empty string when none). */
  datatype Collaborators = Collaborators(relabel: (Label, real) -> Labeling, classify: Labeling -> seq<string>)

  /** The classifier returns one dimensionality string for each label of a labelling. */
  ghost predicate ClassifiesEveryLabel(oracle: Collaborators) {
    forall l: Labeling :: |oracle.classify(l)| == l.count
  }

  /** One recorded barrier: the channel's minimum energy and the first percolating threshold. */
  datatype EnergyBarrier = EnergyBarrier(minEnergy: real, threshold: real)

  datatype Option<T> = None | Some(value: T)

  /** Some sub-cluster of a re-labelling spans a periodic axis. */
  predicate Percolates(dims: seq<string>) {
    exists i :: 0 <= i < |dims| && Spans(dims[i])
  }

  /** Index of the last pass, `floor((E - (min + step)) / step)` with the fixed step: the
      largest `n` for which `min + (n + 1) * step` does not exceed the global threshold `E`. */
  function MaxSteps(minEnergy: real, threshold: real): (n: nat)
    requires minEnergy + EnergyStep <= threshold
    ensures minEnergy + (n as real + 1.0) * EnergyStep <= threshold
    ensures threshold < minEnergy + (n as real + 2.0) * EnergyStep
  {
    ((threshold - minEnergy - EnergyStep) / EnergyStep).Floor
  }

  /** The threshold tested in pass `s`: the start value `min + step` plus one more step
      added before the first test. */
  function Tested(minEnergy: real, s: nat): real {
    minEnergy + (s as real + 2.0) * EnergyStep
  }

  /** Does pass `s` of the sweep of channel `rep` find a percolating sub-cluster? */
  predicate CrossesAt(oracle: Collaborators, rep: Label, minEnergy: real, s: nat) {
    Percolates(oracle.classify(oracle.relabel(rep, Tested(minEnergy, s))))
  }

  /** The first of the passes `0 .. n - 1` at which the channel percolates, if any. */
  function FirstCrossing(oracle: Collaborators, rep: Label, minEnergy: real, n: nat): (r: Option<nat>)
    ensures r.Some? ==> r.value < n && CrossesAt(oracle, rep, minEnergy, r.value)
    ensures r.Some? ==> forall k :: 0 <= k < r.value ==> !CrossesAt(oracle, rep, minEnergy, k)
    ensures r.None? ==> forall k :: 0 <= k < n ==> !CrossesAt(oracle, rep, minEnergy, k)
  {
    if n == 0 then None
    else
      match FirstCrossing(oracle, rep, minEnergy, n - 1)
      case Some(k) => Some(k)
      case None =>
        if CrossesAt(oracle, rep, minEnergy, n - 1) then Some(n - 1) else None
  }

  /** The record the passes `0 .. n - 1` produce for one channel: none or one. */
  function RecordUpTo(oracle: Collaborators, rep: Label, minEnergy: real, n: nat): seq<EnergyBarrier>
  {
    match FirstCrossing(oracle, rep, minEnergy, n)
    case None => []
    case Some(k) => [EnergyBarrier(minEnergy, Tested(minEnergy, k))]
  }

  /** The record the whole sweep of one channel produces. */
  function ChannelRecord(oracle: Collaborators, rep: Label, minEnergy: real, threshold: real): seq<EnergyBarrier>
    requires minEnergy + EnergyStep <= threshold
  {
    RecordUpTo(oracle, rep, minEnergy, MaxSteps(minEnergy, threshold) + 1)
  }

  /** Sweep of one channel, appending to `barriersIn`. Every pass re-labels the channel;
      only passes while `first` holds classify the re-labelling and may append. */
  method SweepChannel(barriersIn: seq<EnergyBarrier>, oracle: Collaborators, rep: Label, minEnergy: real,
                      threshold: real)
    returns (barriers: seq<EnergyBarrier>, ghost relabelled: seq<real>, ghost classified: nat)
    requires ClassifiesEveryLabel(oracle)
    requires minEnergy + EnergyStep <= threshold
    ensures barriers == barriersIn + ChannelRecord(oracle, rep, minEnergy, threshold)
    ensures |relabelled| == MaxSteps(minEnergy, threshold) + 1
    ensures forall s :: 0 <= s < |relabelled| ==> relabelled[s] == Tested(minEnergy, s)
    ensures classified == match FirstCrossing(oracle, rep, minEnergy, |relabelled|)
                          case Some(k) => k + 1
                          case None => |relabelled|
  {
    barriers := barriersIn;
    relabelled, classified := [], 0;
    var t := minEnergy + EnergyStep;
    var maxSteps := MaxSteps(minEnergy, threshold);
    var first := true;
    for s := 0 to maxSteps + 1
      invariant t == minEnergy + (s as real + 1.0) * EnergyStep
      invariant |relabelled| == s
      invariant forall k :: 0 <= k < s ==> relabelled[k] == Tested(minEnergy, k)
      invariant first <==> FirstCrossing(oracle, rep, minEnergy, s).None?
      invariant barriers == barriersIn + RecordUpTo(oracle, rep, minEnergy, s)
      invariant classified == match FirstCrossing(oracle, rep, minEnergy, s)
                              case Some(k) => k + 1
                              case None => s
    {
      t := t + EnergyStep;
      assert t == Tested(minEnergy, s);
      var labeling := oracle.relabel(rep, t);
      relabelled := relabelled + [t];
      if first {
        var dims := oracle.classify(labeling);
        classified := classified + 1;
        var i := 0;
        assert |dims| == labeling.count;
        while i != labeling.count
          invariant 0 <= i <= |dims|
          invariant forall j :: 0 <= j < i ==> !Spans(dims[j])
        {
          if Spans(dims[i]) {
            barriers := barriers + [EnergyBarrier(minEnergy, t)];
            first := false;
            break;
          }
          i := i + 1;
        }
      }
    }
  }

  /** The sweep is defined for a list of symmetry orbits when every orbit has a
      representative (its first label) and the representative's minimum energy leaves room
      for one step below the global threshold; otherwise the negative pass
      count would be converted to an unsigned integer. */
  predicate SweepDefined(orbits: seq<seq<Label>>, minEnergyOf: Label -> real, threshold: real) {
    forall i :: 0 <= i < |orbits| ==> orbits[i] != [] && minEnergyOf(orbits[i][0]) + EnergyStep <= threshold
  }

  /** The records of all orbits, in orbit order. */
  function Barriers(oracle: Collaborators, minEnergyOf: Label -> real, orbits: seq<seq<Label>>,
                    threshold: real): seq<EnergyBarrier>
    requires SweepDefined(orbits, minEnergyOf, threshold)
  {
    if orbits == [] then []
    else
      var init := orbits[..|orbits| - 1];
      var rep := orbits[|orbits| - 1][0];
      assert forall i :: 0 <= i < |init| ==> init[i] == orbits[i];
      Barriers(oracle, minEnergyOf, init, threshold)
        + ChannelRecord(oracle, rep, minEnergyOf(rep), threshold)
  }

  /** Loop over the orbits: each one's representative is swept with its own minimum energy. */
  method SweepAll(oracle: Collaborators, minEnergyOf: Label -> real, orbits: seq<seq<Label>>,
                  threshold: real)
    returns (barriers: seq<EnergyBarrier>)
    requires ClassifiesEveryLabel(oracle)
    requires SweepDefined(orbits, minEnergyOf, threshold)
    ensures barriers == Barriers(oracle, minEnergyOf, orbits, threshold)
  {
    barriers := [];
    for i := 0 to |orbits|
      invariant SweepDefined(orbits[..i], minEnergyOf, threshold)
      invariant barriers == Barriers(oracle, minEnergyOf, orbits[..i], threshold)
    {
      assert orbits[..i + 1][..i] == orbits[..i];
      var rep := orbits[i][0];
      var minEnergy := minEnergyOf(rep);
      ghost var relabelled, classified;
      barriers, relabelled, classified := SweepChannel(barriers, oracle, rep, minEnergy, threshold);
    }
    assert orbits[..|orbits|] == orbits;
  }

  /** The passes test `min + 2 * step, min + 3 * step, ...`; every tested threshold but the
      last lies within the global threshold, and the last lies beyond it. */
  lemma TestedThresholds(minEnergy: real, threshold: real, s: nat)
    requires minEnergy + EnergyStep <= threshold
    requires s <= MaxSteps(minEnergy, threshold)
    ensures Tested(minEnergy, 0) == minEnergy + 2.0 * EnergyStep
    ensures Tested(minEnergy, s) <= threshold <==> s < MaxSteps(minEnergy, threshold)
  {
  }

  /** A channel yields at most one record. It yields none exactly when no pass percolates;
      otherwise the record carries the channel's minimum energy and the threshold of the
      first percolating pass, which lies between `min + 2 * step` and `E + step`. */
  lemma ChannelRecordIsFirstCrossing(oracle: Collaborators, rep: Label, minEnergy: real,
                                      threshold: real)
    requires minEnergy + EnergyStep <= threshold
    ensures |ChannelRecord(oracle, rep, minEnergy, threshold)| <= 1
    ensures ChannelRecord(oracle, rep, minEnergy, threshold) == [] <==>
      forall s :: 0 <= s <= MaxSteps(minEnergy, threshold) ==> !CrossesAt(oracle, rep, minEnergy, s)
    ensures forall b :: b in ChannelRecord(oracle, rep, minEnergy, threshold) ==>
      b.minEnergy == minEnergy &&
      minEnergy + 2.0 * EnergyStep <= b.threshold <= threshold + EnergyStep &&
      exists s :: 0 <= s <= MaxSteps(minEnergy, threshold) && b.threshold == Tested(minEnergy, s) &&
        CrossesAt(oracle, rep, minEnergy, s) &&
        forall k :: 0 <= k < s ==> !CrossesAt(oracle, rep, minEnergy, k)
  {
  }

  /** Sweeping the orbits of two lists one after the other gives the records of the first
      list followed by those of the second: records keep the order of the orbits. */
  lemma {:induction false} BarriersAppend(oracle: Collaborators, minEnergyOf: Label -> real,
                                          front: seq<seq<Label>>, back: seq<seq<Label>>,
                                          threshold: real)
    requires SweepDefined(front, minEnergyOf, threshold)
    requires SweepDefined(back, minEnergyOf, threshold)
    ensures SweepDefined(front + back, minEnergyOf, threshold)
    ensures Barriers(oracle, minEnergyOf, front + back, threshold)
         == Barriers(oracle, minEnergyOf, front, threshold)
          + Barriers(oracle, minEnergyOf, back, threshold)
  {
    var all := front + back;
    forall i | 0 <= i < |all|
      ensures all[i] != [] && minEnergyOf(all[i][0]) + EnergyStep <= threshold
    {
      if i >= |front| { assert all[i] == back[i - |front|]; }
    }
    if back != [] {
      var init := back[..|back| - 1];
      var rep := back[|back| - 1][0];
      assert all[..|all| - 1] == front + init;
      assert all[|all| - 1][0] == rep;
      assert forall i :: 0 <= i < |init| ==> init[i] == back[i];
      BarriersAppend(oracle, minEnergyOf, front, init, threshold);
      var record := ChannelRecord(oracle, rep, minEnergyOf(rep), threshold);
      assert Barriers(oracle, minEnergyOf, all, threshold)
          == Barriers(oracle, minEnergyOf, front + init, threshold) + record;
      assert Barriers(oracle, minEnergyOf, back, threshold)
          == Barriers(oracle, minEnergyOf, init, threshold) + record;
    } else {
      assert all == front;
    }
  }

  /** At most one record per orbit, so never more records than orbits; symmetry-related
      channels reduced to one orbit are swept once. */
  lemma {:induction false} BarriersAtMostOnePerOrbit(oracle: Collaborators, minEnergyOf: Label -> real,
                                                     orbits: seq<seq<Label>>, threshold: real)
    requires SweepDefined(orbits, minEnergyOf, threshold)
    ensures |Barriers(oracle, minEnergyOf, orbits, threshold)| <= |orbits|
  {
    if orbits != [] {
      var init := orbits[..|orbits| - 1];
      var rep := orbits[|orbits| - 1][0];
      assert forall i :: 0 <= i < |init| ==> init[i] == orbits[i];
      BarriersAtMostOnePerOrbit(oracle, minEnergyOf, init, threshold);
      ChannelRecordIsFirstCrossing(oracle, rep, minEnergyOf(rep), threshold);
    }
  }

  /** Every record comes from some orbit: its minimum energy is that of the orbit's
      representative and its threshold is the representative's first crossing. */
  lemma {:induction false} BarriersFromOrbits(oracle: Collaborators, minEnergyOf: Label -> real,
                                              orbits: seq<seq<Label>>, threshold: real)
    requires SweepDefined(orbits, minEnergyOf, threshold)
    ensures forall b :: b in Barriers(oracle, minEnergyOf, orbits, threshold) ==>
      exists i :: 0 <= i < |orbits| &&
        [b] == ChannelRecord(oracle, orbits[i][0], minEnergyOf(orbits[i][0]), threshold)
  {
    if orbits != [] {
      var init := orbits[..|orbits| - 1];
      var rep := orbits[|orbits| - 1][0];
      assert forall i :: 0 <= i < |init| ==> init[i] == orbits[i];
      BarriersFromOrbits(oracle, minEnergyOf, init, threshold);
      ChannelRecordIsFirstCrossing(oracle, rep, minEnergyOf(rep), threshold);
    }
  }

  /** No orbit percolates at any pass its sweep makes exactly when the sweep records nothing. */
  lemma {:induction false} NoBarriersIffNoCrossing(oracle: Collaborators, minEnergyOf: Label -> real,
                                                   orbits: seq<seq<Label>>, threshold: real)
    requires SweepDefined(orbits, minEnergyOf, threshold)
    ensures Barriers(oracle, minEnergyOf, orbits, threshold) == [] <==>
      forall i, s :: 0 <= i < |orbits| && 0 <= s <= MaxSteps(minEnergyOf(orbits[i][0]), threshold) ==>
        !CrossesAt(oracle, orbits[i][0], minEnergyOf(orbits[i][0]), s)
  {
    if orbits != [] {
      var init := orbits[..|orbits| - 1];
      var rep := orbits[|orbits| - 1][0];
      assert forall i :: 0 <= i < |init| ==> init[i] == orbits[i];
      NoBarriersIffNoCrossing(oracle, minEnergyOf, init, threshold);
      ChannelRecordIsFirstCrossing(oracle, rep, minEnergyOf(rep), threshold);
    }
  }
}
