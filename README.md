# Energy-barrier sweep of FaEB, modelled in Dafny

FaEB estimates, for a porous crystalline framework, the energy barrier a guest molecule
must cross to diffuse through each symmetry-unique channel of the pore network. The
program `barrier` builds an energy grid, labels the connected clusters of cells below a
global energy threshold `E`, keeps the clusters that span a periodic axis (the channels),
reduces them to symmetry orbits, and for each orbit's representative raises a threshold
in steps of 0.1 kJ/mol from the channel's minimum energy until a re-labelling of the
channel's cells contains a sub-cluster that percolates. It prints one CSV line per
recorded `(minimum energy, barrier threshold)` pair, a `nan,nan` line when there is none,
and a `<name>: error` line when symmetry reduction failed.

This project models the orchestration in `main` and proves what it computes:

- `config.dfy` (module `Config`): the configuration check, which aborts the run on a
  negative temperature, a negative energy threshold or an accessibility coefficient
  outside [0, 1], in that order.
- `channels.dfy` (module `ChannelFilter`): the loop with an 8-bit counter that keeps the
  label `l + 1` of every cluster `l` whose dimensionality string is non-empty.
- `sweep.dfy` (module `Sweep`): the per-channel sweep with its `first` flag and
  accumulating threshold, and the loop over orbits that collects the records.
- `report.dfy` (module `Report`): the selection of output lines.
- `barrier.dfy` (module `Barrier`): one whole run, from the configuration to the lines.

The collaborators declared in headers that are not part of this model are parameters:
the loose-cutoff labelling of the whole grid (`loose`); the symmetry reducer, a function
from channel labels to orbits and an error flag; `setup_channel_config`, a function from a
representative label to the channel's minimum energy; and `Sweep.Collaborators`, holding
the connected-component labeller (a channel's representative label and a threshold to a
`Labeling`) and the dimensionality classifier (a `Labeling` to one dimensionality string
per label). Doubles are modelled as exact reals. The step is the constant 0.1 that line 71
fixes (`Sweep.EnergyStep`); `step` below stands for it.

What the code does, and where it departs from what one would expect of such a sweep:

- One would expect the sweep to test `min + step, min + 2·step, …` while the threshold
  stays within `E`. The code starts the threshold at `min + step` (line 80) and adds a
  step before every test (line 87), so pass `s` tests `min + (s + 2)·step`. It makes
  `floor((E - min - step) / step) + 1` passes (lines 81, 86), so the last tested
  threshold always exceeds `E`, by at most one step; it is exactly `E + step` when
  `(E - min) / step` is a whole number (`Sweep.TestedThresholds`).
- One would expect a channel with `min + step > E` to yield no record. In the code the
  negative pass count is converted to `size_t` (line 81), which is undefined behaviour;
  the model requires `min + step <= E` of every representative (`Sweep.SweepDefined`).
- One would expect the sweep to stop at the first crossing. The code keeps calling the
  labeller until the last pass and only stops calling the classifier and recording; the
  model keeps those passes (`Sweep.SweepChannel` calls the labeller on every pass and the
  classifier only while `first` holds, and reports the thresholds it labelled at and the
  number of passes that classified).

## Model

| member | source | states |
|---|---|---|
| `Config.Validate` | src/barrier.cpp:27-29 | the run passes exactly when temperature, threshold and coefficient are non-negative and the coefficient is at most 1; otherwise the first failed check, in source order, names the error |
| `Config.BoundaryValues` | src/barrier.cpp:27-29 | temperature 0, threshold 0 and coefficients exactly 0 and 1 are accepted; coefficients -0.01 and 1.01 are rejected |
| `ChannelFilter.FilterChannels` | src/barrier.cpp:55-61 | the counter loop over at most 255 clusters returns exactly `Channels(dims)` |
| `ChannelFilter.ChannelsExactly` | src/barrier.cpp:55-61 | a label is a channel exactly when it is `l + 1` for a cluster `l` with a non-empty dimensionality string, and the channels are strictly increasing |
| `Sweep.MaxSteps` | src/barrier.cpp:80-81 | the pass count minus one is the largest `n` with `min + (n + 1)·step <= E`: `min + (n + 2)·step > E` |
| `Sweep.FirstCrossing` | src/barrier.cpp:91-94 | the result is the first pass below `n` at which some sub-cluster spans an axis, with no earlier pass doing so, or none when no pass below `n` does |
| `Sweep.SweepChannel` | src/barrier.cpp:75-98 | the sweep appends to the records exactly the record of the first percolating pass (or nothing), calls the labeller at `min + (s + 2)·step` on every one of the `MaxSteps + 1` passes, and calls the classifier only up to and including the first crossing |
| `Sweep.TestedThresholds` | src/barrier.cpp:80-87 | the first tested threshold is `min + 2·step`; a tested threshold lies within `E` exactly when it is not the last pass |
| `Sweep.ChannelRecordIsFirstCrossing` | src/barrier.cpp:86-96 | a channel yields at most one record, none exactly when no pass percolates; a record carries the channel minimum and the smallest percolating tested threshold, between `min + 2·step` and `E + step` |
| `Sweep.SweepAll` | src/barrier.cpp:72-100 | the loop over orbits, sweeping each representative with its own minimum energy, returns exactly `Barriers` of the orbits |
| `Sweep.BarriersAppend` | src/barrier.cpp:72-94 | the records of two lists of orbits swept in turn are the records of the first followed by those of the second: records follow orbit order |
| `Sweep.BarriersAtMostOnePerOrbit` | src/barrier.cpp:72-94 | there are never more records than orbits |
| `Sweep.BarriersFromOrbits` | src/barrier.cpp:73-94 | every record is the first-crossing record of some orbit's representative `labels[0]` |
| `Sweep.NoBarriersIffNoCrossing` | src/barrier.cpp:86-98 | there are no records exactly when no representative percolates at any of the `MaxSteps + 1` passes its sweep makes |
| `Report.RecordLines` | src/barrier.cpp:110-113 | one numeric line per record, the `i`-th carrying the `i`-th record |
| `Report.ReportLines` | src/barrier.cpp:109-116 | the output has one line per record carrying its values, or one `nan,nan` line when there are none, plus a last error line exactly when the flag is set, and no error line elsewhere |
| `Report.ReportRoundTrip` | src/barrier.cpp:109-116 | reading the numeric lines back gives exactly the records in order, and the error line is present exactly when the flag is set |
| `Barrier.Run` | src/barrier.cpp:26-116 | a run aborts with the configuration error exactly when validation fails; otherwise its lines are the report of the records the sweep computes for the symmetry orbits of the filtered channels |
| `Barrier.NanReportIffNothingPercolates` | src/barrier.cpp:72-116 | the output is one `nan,nan` line, followed by the error line when the flag is set, exactly when no representative percolates at any pass its sweep makes |

## Left out

- Energy-grid construction (`make_energy_grid_ads`, lines 43-44): force-field physics in
  a header that is not part of this model; its results enter as parameters.
- The connected-component labeller, the dimensionality classifier, the symmetry reducer
  and `setup_channel_config` (lines 50, 54, 66, 77, 90, 92): library code that is not part
  of this model; they are the parameters `loose`, `symReduce`, `minEnergyOf` and the two
  functions of `Sweep.Collaborators`, and the model assumes each is a deterministic
  function of its arguments. The classifier is required to return one string per label
  of the labelling it is given (`Sweep.ClassifiesEveryLabel`), because the source indexes
  its result up to the label count (lines 56-57, 93); the label buffer itself
  (`Labeling.cells`) is only passed between collaborators and is never read by `main`.
- Framework density, enthalpy and Henry's constant (lines 104-106): floating-point
  formulas; their values enter as `Report.Descriptors` and are copied to every numeric line.
- Wall-clock timing (lines 10, 107-108): the elapsed seconds enter as a parameter.
- Command-line parsing and `std::stod` (lines 11-24), including the read of `argv[8]`
  when only seven arguments are given: the three validated numbers are parameters.
- `trim`, the `std::cout` formatting of numbers, and the manual `new`/`delete` of the label
  buffers (lines 49, 84, 99, 102-103, 112): output lines are values, not text.
- The counters `N_past`, `merged` and `N_current` beyond what the classifier returns
  (lines 82, 88-89, 97): they never influence a result.
- Floating-point rounding: the threshold accumulated by repeated `+= 0.1` (line 87) is
  modelled as exact `min + (s + 2)·0.1`, and the `floor` of line 81 is taken of the exact
  quotient, so the model's pass count can exceed the program's by one (with `min = 0` and
  `E = 0.3` doubles give `floor(1.9999999999999996) = 1`, reals give 2); NaN inputs
  (which pass the source's comparisons) do not exist among reals.
- Sweep.SweepDefined: a representative whose minimum energy plus one step exceeds `E` is
  excluded by precondition, because the source converts a negative value to `size_t`
  there (line 81); so is an empty orbit, because the source reads `labels[0]` of every
  orbit (line 74).
- Sweep.MaxSteps: an unbounded natural number. The source converts
  `(E - min - step) / step` to a 64-bit `size_t` (line 81), which is undefined behaviour
  when that value is `2^64` or more (`E` comes unbounded from the command line); the
  model does not capture that overflow.
- ChannelFilter.FilterChannels: more than 255 clusters are excluded by precondition,
  because the source's 8-bit counter would then never reach the cluster count.
