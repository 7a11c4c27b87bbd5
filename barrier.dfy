/** One run of the barrier program: validate the configuration, select the channels,
    reduce them by symmetry, sweep each orbit's representative and write the report.
    The energy grid, the connected-component labeller, the dimensionality classifier,
    the symmetry reducer and the per-channel set-up are given as parameters. */
module Barrier {
  import opened Config
  import opened ChannelFilter
  import opened Sweep
  import opened Report

  /** What the symmetry reducer returns: one list of labels per orbit, the representative
      first, and the flag it raises when it could not resolve the orbits. */
  datatype SymResult = SymResult(orbits: seq<seq<Label>>, error: bool)

  /** A run either aborts on a configuration error, with no output, or writes lines. */
  datatype RunResult = Aborted(error: ConfigError) | Output(lines: seq<Line>)

  /** The symmetry orbits of the channels among the clusters of the loose labelling. */
  function Orbits(loose: Labeling, symReduce: seq<Label> -> SymResult, oracle: Collaborators): SymResult
    requires |oracle.classify(loose)| <= 255
  {
    symReduce(Channels(oracle.classify(loose)))
  }

  /** The records a run produces for the clusters of the loose labelling. */
  function RunBarriers(loose: Labeling, symReduce: seq<Label> -> SymResult,
                       minEnergyOf: Label -> real, oracle: Collaborators, threshold: real): seq<EnergyBarrier>
    requires |oracle.classify(loose)| <= 255
    requires SweepDefined(Orbits(loose, symReduce, oracle).orbits, minEnergyOf, threshold)
  {
    Barriers(oracle, minEnergyOf, Orbits(loose, symReduce, oracle).orbits, threshold)
  }

  /** `loose` is the labelling of all cells below the global threshold; `minEnergyOf` gives
      each channel's minimum energy (at most the threshold); `oracle` holds the labeller and
      the classifier; `d` holds the descriptors printed on every numeric line. */
  method Run(temperature: real, energyThreshold: real, accessCoeff: real,
             loose: Labeling, symReduce: seq<Label> -> SymResult,
             minEnergyOf: Label -> real, oracle: Collaborators, d: Descriptors)
    returns (r: RunResult)
    requires ClassifiesEveryLabel(oracle)
    requires Validate(temperature, energyThreshold, accessCoeff) == Pass ==>
      loose.count <= 255 &&
      SweepDefined(Orbits(loose, symReduce, oracle).orbits, minEnergyOf, energyThreshold)
    ensures r.Aborted? <==> Validate(temperature, energyThreshold, accessCoeff).Fail?
    ensures r.Aborted? ==> Validate(temperature, energyThreshold, accessCoeff) == Fail(r.error)
    ensures r.Output? ==> r.lines == ReportLines(d,
      RunBarriers(loose, symReduce, minEnergyOf, oracle, energyThreshold),
      Orbits(loose, symReduce, oracle).error)
  {
    var outcome := Validate(temperature, energyThreshold, accessCoeff);
    if outcome.Fail? {
      return Aborted(outcome.error);
    }
    var looseDims := oracle.classify(loose);
    var channels := FilterChannels(looseDims);
    var sym := symReduce(channels);
    var barriers := SweepAll(oracle, minEnergyOf, sym.orbits, energyThreshold);
    r := Output(ReportLines(d, barriers, sym.error));
  }

  /** A run reports a single `nan,nan` line, followed by the diagnostic line when the flag
      is set, exactly when no orbit's representative percolates at any pass of its sweep;
      a single pocket that never percolates up to the last pass is the typical case. */
  lemma NanReportIffNothingPercolates(loose: Labeling, symReduce: seq<Label> -> SymResult,
                                      minEnergyOf: Label -> real, oracle: Collaborators,
                                      threshold: real, d: Descriptors)
    requires |oracle.classify(loose)| <= 255
    requires SweepDefined(Orbits(loose, symReduce, oracle).orbits, minEnergyOf, threshold)
    ensures var orbits := Orbits(loose, symReduce, oracle).orbits;
      var error := Orbits(loose, symReduce, oracle).error;
      ReportLines(d, RunBarriers(loose, symReduce, minEnergyOf, oracle, threshold), error)
        == [Numeric(d, None)] + (if error then [ErrorLine(d.name)] else [])
      <==>
      forall i, s :: 0 <= i < |orbits| && 0 <= s <= MaxSteps(minEnergyOf(orbits[i][0]), threshold) ==>
        !CrossesAt(oracle, orbits[i][0], minEnergyOf(orbits[i][0]), s)
  {
    var sym := Orbits(loose, symReduce, oracle);
    var barriers := RunBarriers(loose, symReduce, minEnergyOf, oracle, threshold);
    NoBarriersIffNoCrossing(oracle, minEnergyOf, sym.orbits, threshold);
    if barriers != [] {
      assert ReportLines(d, barriers, sym.error)[0] == Numeric(d, Some(barriers[0]));
    }
  }
}
