/** The lines written to standard output at the end of a run. */
module Report {
  import opened Sweep

  /** Structure-level fields repeated on every numeric line: the structure name, the
      enthalpy of adsorption, Henry's constant and the elapsed time in seconds. */
  datatype Descriptors = Descriptors(name: string, enthalpy: real, henry: real, seconds: real)

  /** A CSV line with a barrier record, or with `nan,nan` in its place when `barrier` is
      None; or the diagnostic line `<name>: error`. */
  datatype Line =
    | Numeric(descriptors: Descriptors, barrier: Option<EnergyBarrier>)
    | ErrorLine(name: string)

  /** One numeric line per record, in record order. */
  function RecordLines(d: Descriptors, barriers: seq<EnergyBarrier>): (lines: seq<Line>)
    ensures |lines| == |barriers|
    ensures forall i :: 0 <= i < |barriers| ==> lines[i] == Numeric(d, Some(barriers[i]))
  {
    if barriers == [] then [] else [Numeric(d, Some(barriers[0]))] + RecordLines(d, barriers[1..])
  }

  /** The records when there are any, else a single `nan,nan` line; then the diagnostic
      line when symmetry reduction reported an error. So there is one line per record,
      carrying its values, or one `nan,nan` line when there are none; the diagnostic line
      comes last and only when the flag is set. */
  function ReportLines(d: Descriptors, barriers: seq<EnergyBarrier>, error: bool): (lines: seq<Line>)
    ensures |lines| == (if |barriers| != 0 then |barriers| else 1) + (if error then 1 else 0)
    ensures forall i :: 0 <= i < |barriers| ==> lines[i] == Numeric(d, Some(barriers[i]))
    ensures barriers == [] ==> lines[0] == Numeric(d, None)
    ensures error ==> lines[|lines| - 1] == ErrorLine(d.name)
    ensures forall i :: 0 <= i < |lines| && lines[i].ErrorLine? ==> error && i == |lines| - 1
  {
    (if |barriers| != 0 then RecordLines(d, barriers) else [Numeric(d, None)])
      + (if error then [ErrorLine(d.name)] else [])
  }

  /** The records a reader recovers from the output: the barriers of the numeric lines
      that carry one, in order. */
  function ReadBarriers(lines: seq<Line>): seq<EnergyBarrier>
  {
    if lines == [] then []
    else
      (if lines[0].Numeric? && lines[0].barrier.Some? then [lines[0].barrier.value] else [])
        + ReadBarriers(lines[1..])
  }

  lemma {:induction false} ReadBarriersAppend(a: seq<Line>, b: seq<Line>)
    ensures ReadBarriers(a + b) == ReadBarriers(a) + ReadBarriers(b)
  {
    if a != [] {
      assert (a + b)[1..] == a[1..] + b;
      ReadBarriersAppend(a[1..], b);
    } else {
      assert a + b == b;
    }
  }

  lemma {:induction false} ReadRecordLines(d: Descriptors, barriers: seq<EnergyBarrier>)
    ensures ReadBarriers(RecordLines(d, barriers)) == barriers
  {
    if barriers != [] {
      var rest := RecordLines(d, barriers[1..]);
      assert ([Numeric(d, Some(barriers[0]))] + rest)[1..] == rest;
      ReadRecordLines(d, barriers[1..]);
    }
  }

  /** Round trip: reading the output back gives exactly the recorded barriers, in order,
      and the diagnostic line is present exactly when the error flag was set. */
  lemma ReportRoundTrip(d: Descriptors, barriers: seq<EnergyBarrier>, error: bool)
    ensures ReadBarriers(ReportLines(d, barriers, error)) == barriers
    ensures ErrorLine(d.name) in ReportLines(d, barriers, error) <==> error
  {
    var numeric := if |barriers| != 0 then RecordLines(d, barriers) else [Numeric(d, None)];
    var tail := if error then [ErrorLine(d.name)] else [];
    ReadBarriersAppend(numeric, tail);
    if |barriers| != 0 {
      ReadRecordLines(d, barriers);
    } else {
      assert numeric[1..] == [];
    }
    assert ReadBarriers(tail) == [] by {
      if error { assert tail[1..] == []; }
    }
    assert forall i :: 0 <= i < |numeric| ==> numeric[i].Numeric?;
  }
}
