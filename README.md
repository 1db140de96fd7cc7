# Direct-form IIR filter step, verified

This project models the filter step of the repository's Arduino sketch,
`process_filter` in `simulator.cpp`. The sketch runs a second-order IIR
low-pass filter. Its tables hold the coefficients of a second-order
Butterworth low-pass discretised by impulse invariance (analog cutoff
3000 rad/s, fs 20 kHz). They are not the values `main.py`'s own parameters
produce. Each call does three things:

1. It shifts the input history `x_hist` and the output history `y_hist` one
   slot older. A downward loop drops the oldest sample.
2. It stores the new input in `x_hist[0]`.
3. It computes the output as the feed-forward sum `Σ_{i=0..N} B[i]·x_hist[i]`
   minus the feedback sum `Σ_{i=1..N} A[i]·y_hist[i]`. It stores that output
   in `y_hist[0]` and returns it.

Arithmetic is over Dafny `real` instead of C `float`. The filter order is a
parameter `n ≥ 0`; the sketch's own tables (order 2) are constants.

Files:

- `difference_equation.dfy`, module `DifferenceEquation`. Pure definitions:
  - the buffer-level view of one step: `Dot`, `Shift`, `Window`, `Output`;
  - an independent reference definition of the output signal of the
    difference equation `y[k] = Σ_{i=0..N} b[i]·x[k-i] − Σ_{i=1..N} a[i]·y[k-i]`,
    with zero samples before index 0: `Conv`, `Outputs`, `Response`;
  - the lemmas that connect the two views and state the equation's properties.
- `simulator.dfy`, module `Simulator`. The sketch's coefficient tables, and a
  class `Filter` that holds the two histories as arrays.
  - The class's methods keep the source's three loops and its two direct
    stores.
  - Two ghost fields record every input and output since power-up.
  - `Tracks()` states that the buffers are the last `n + 1` inputs and outputs
    of that run, and that the outputs are the reference `Response` to the
    inputs. `Process` preserves it.

## Model

| member | source | states |
|---|---|---|
| `Simulator.Filter.constructor` | simulator.cpp:16-17 | Both histories start all zero, with `n + 1` slots each. The recorded run is empty, so `Tracks()` holds from power-up. |
| `Simulator.Filter.ShiftHistories` | simulator.cpp:26-29 | The downward loop moves every entry of both histories one slot older (new `h[i]` = old `h[i-1]` for `1 ≤ i ≤ n`) and drops the oldest one. Its invariants show that no value is overwritten before it is copied. Slot 0 keeps its value. |
| `Simulator.Filter.FeedForward` | simulator.cpp:33-37 | The accumulation loop returns `Σ_{i=0..n} b[i]·xHist[i]`. |
| `Simulator.Filter.Feedback` | simulator.cpp:39-41 | The loop subtracts `Σ_{i=1..n} a[i]·yHist[i]`. It never reads `a[0]` or `yHist[0]`. |
| `Simulator.Filter.Process` | simulator.cpp:25-45 | After a call, `xHist[0]` is the input and `yHist[0]` is the returned output. Every other slot of both histories holds the old value of the slot before it, and the old last entries are gone. The output is the feed-forward sum minus the feedback sum over the new histories, so the feedback reads only earlier outputs. Only the two arrays (and the ghost record) change; the tables, the order and the array lengths are fixed. If the buffers matched the run from rest before the call, they match it after, and the output is the next sample of the difference equation. |
| `DifferenceEquation.WindowShift` | simulator.cpp:26-31 | Shifting a new sample into the buffer of a signal gives the buffer of the signal extended by that sample. |
| `DifferenceEquation.WindowEmpty` | simulator.cpp:16-17 | The buffer of a run with no samples is all zero. |
| `DifferenceEquation.DotWindow` | simulator.cpp:35-41 | A tap sum over a history buffer equals the difference-equation tap sum over the whole signal at the time of its newest sample. |
| `DifferenceEquation.StepKeepsTrack` | simulator.cpp:25-45 | One step over buffers that match a run from rest yields the buffers of the run extended by the input and output, and the output is the next sample of the reference response. |
| `DifferenceEquation.StepExtendsResponse` | simulator.cpp:33-43 | The output computed over the shifted buffers is exactly the next sample of the reference response. |
| `DifferenceEquation.ResponseAppend` | simulator.cpp:25-45 | The response to one more input is the old response plus one sample, given by the difference equation at that time. |
| `DifferenceEquation.ResponseRecurrence` | simulator.cpp:25-45 | For a run of calls from rest, every output `y[k]` equals `Σ_{i=0..N} b[i]·x[k-i] − Σ_{i=1..N} a[i]·y[k-i]`, with samples before index 0 taken as zero. |
| `DifferenceEquation.OutputsPrefix` | simulator.cpp:25-45 | Later calls never change earlier outputs. |
| `DifferenceEquation.OutputsCausal` | simulator.cpp:25-45 | The first `m` outputs depend only on the first `m` inputs. |
| `DifferenceEquation.DifferenceEquationHolds` | simulator.cpp:10-14 | When `a[0] = 1`, as in `A_COEFFS`, the outputs satisfy the full equation `Σ_{i=0..N} a[i]·y[k-i] = Σ_{i=0..N} b[i]·x[k-i]`. |
| `DifferenceEquation.LeadingFeedbackIgnored` | simulator.cpp:39-41 | Replacing `a[0]` by any value changes no output of a run. The code therefore assumes a monic denominator. |
| `DifferenceEquation.OutputIgnoresLeadingFeedback` | simulator.cpp:39-41 | The same for a single step over explicit buffers. |
| `DifferenceEquation.QuiescentStep` | simulator.cpp:25-45 | From all-zero histories (the power-up state of lines 16-17), a zero input returns 0 and leaves both histories all zero. |
| `DifferenceEquation.QuiescentResponse` | simulator.cpp:25-45 | An all-zero input from rest gives an all-zero output signal. |
| `DifferenceEquation.ImpulseResponseStart` | simulator.cpp:25-45 | For a unit-sample input from rest, the first output is `b[0]`. |
| `DifferenceEquation.FirstOrderImpulseResponse` | simulator.cpp:25-45 | With order 1, `b = [1, 0]` and `a = [1, -p]`, the impulse response is `1, p, p², …`. This is the single-pole section that impulse invariance produces. |
| `Simulator.SketchImpulseResponse` | simulator.cpp:4-14 | With the sketch's tables, the unit-sample response starts `0, 0.020198, 0.020198·1.788622`. |
| `Simulator.SketchImpulse` | simulator.cpp:4-45 | Three calls of the sketch's filter from power-up, on a unit sample, return those three values. Both tables have `FILTER_ORDER + 1 = 3` entries. |

Helpers without a row: `DotAgree`, `DotZeros`, `ConvAgree`, `ConvVanishes`,
`ConvSplitFirst`, `ConvSkipsCurrent`, `Zeros`, `Impulse`, `Outputs`, `Power`.

Notes on the source:

- `B_COEFFS[2]` is written `-0.000000`. As a float it compares equal to 0, so
  it is modelled as `0.0`.
- The filter step never reads `A_COEFFS[0]` and never divides by it. It is
  correct only for a monic denominator. `A_COEFFS[0]` is `1.000000`, so the
  sketch is consistent. The Python side (`signal.lfilter` in `main.py`)
  normalises by `a[0]`; the model follows the C code.
  `LeadingFeedbackIgnored` and `DifferenceEquationHolds` state both halves
  of this.
- The source holds one filter in global arrays. The model makes it a class
  instance, so `Process` works on an order-`n` filter's own arrays.
  `Valid()` requires the two arrays to be distinct, as the two globals are.

## Left out

- `main.py` in its entirety: partial-fraction expansion, pole mapping and
  reconstruction (`impulse_invariant_method`), and the frequency response,
  impulse response and stability checks (`analyze_filter`), and the `main`
  driver. All of it delegates to SciPy and NumPy routines that are not part of
  this model, and otherwise plots, saves images and prints.
- `setup` and `loop` in `simulator.cpp`. These are serial I/O, `delay`, sine
  test-signal generation with `sin`, and the `+ 2.0` display offset.
- The time accumulator `t += dt`, `fs` and `test_freq`. These generate the
  float test signal, not filter logic.
- IEEE single-precision rounding. All sums are exact over `real`. The order
  in which the loops accumulate is kept, but over `real` it does not affect
  the result.
- Simulator.Filter.Process: its "runs from rest" guarantee is conditional on
  `Tracks()` holding before the call. `Tracks()` holds from construction and
  every call preserves it; for a state reached any other way only the
  buffer-level postconditions apply. The source's globals are only ever
  changed by this function, so every state it sees is one reached from rest.
