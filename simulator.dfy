/** The filter step of the Arduino simulator: a fixed-order direct-form IIR
    filter whose input and output histories are arrays updated in place on
    every call, together with the coefficient tables of the sketch. */
module Simulator {
  import opened DifferenceEquation

  /** The order of the sketch's filter. */
  const FilterOrder: nat := 2

  /** Feed-forward (numerator) coefficients of the sketch; its last entry is
      written -0.000000, which equals 0. */
  const BCoeffs: seq<real> := [0.0, 0.020198, 0.0]

  /** Feedback (denominator) coefficients of the sketch; the first one is
      never read by the filter step. */
  const ACoeffs: seq<real> := [1.0, -1.788622, 0.808858]

  /** A direct-form IIR filter of order n with its two history buffers. */
  class Filter {
    const n: nat
    const b: seq<real>
    const a: seq<real>
    /** Input history: xHist[i] is the input of i calls ago (0 = this call). */
    const xHist: array<real>
    /** Output history: yHist[i] is the output of i calls ago. */
    const yHist: array<real>

    /** Every input and output since construction, oldest first. */
    ghost var inputs: seq<real>
    ghost var outputs: seq<real>

    /** Both tables and both buffers have n + 1 taps, in distinct arrays. */
    ghost predicate Valid()
    {
      |b| == n + 1 && |a| == n + 1 &&
      xHist.Length == n + 1 && yHist.Length == n + 1 &&
      xHist != yHist
    }

    /** The buffers hold the last n + 1 inputs and outputs of the run so far
        (zero before the first call), and the outputs are the response of
        the difference equation to the inputs. */
    ghost predicate Tracks()
      reads this, xHist, yHist
      requires Valid()
    {
      xHist[..] == Window(inputs, n + 1) &&
      yHist[..] == Window(outputs, n + 1) &&
      outputs == Response(b, a, inputs)
    }

    /** A filter at rest: both histories all zero. */
    constructor (b0: seq<real>, a0: seq<real>)
      requires |b0| == |a0| >= 1
      ensures Valid() && Tracks()
      ensures n == |b0| - 1 && b == b0 && a == a0
      ensures fresh(xHist) && fresh(yHist)
      ensures xHist[..] == Zeros(n + 1) && yHist[..] == Zeros(n + 1)
      ensures inputs == [] && outputs == []
    {
      n, b, a := |b0| - 1, b0, a0;
      xHist := new real[|b0|](_ => 0.0);
      yHist := new real[|b0|](_ => 0.0);
      inputs, outputs := [], [];
      new;
      WindowEmpty(n + 1);
      assert Response(b0, a0, []) == [];
    }

    /** The downward copy loop of a filter call: every history entry moves
        one slot older, starting from the oldest so that nothing is
        overwritten before it is copied; the oldest entries are dropped and
        slot 0 keeps its value. */
    method ShiftHistories()
      requires Valid()
      modifies xHist, yHist
      ensures xHist[..] == Shift(old(xHist[..]), old(xHist[0]))
      ensures yHist[..] == Shift(old(yHist[..]), old(yHist[0]))
    {
      var i := n;
      while i > 0
        invariant 0 <= i <= n
        invariant forall j :: i < j <= n ==> xHist[j] == old(xHist[j - 1]) && yHist[j] == old(yHist[j - 1])
        invariant forall j :: 0 <= j <= i ==> xHist[j] == old(xHist[j]) && yHist[j] == old(yHist[j])
      {
        xHist[i] := xHist[i - 1];
        yHist[i] := yHist[i - 1];
        i := i - 1;
      }
    }

    /** The feed-forward loop: Σ_{i=0..n} b[i]·xHist[i]. */
    method FeedForward() returns (acc: real)
      requires Valid()
      ensures acc == Dot(b, xHist[..], 0, n + 1)
    {
      acc := 0.0;
      var i := 0;
      while i <= n
        invariant 0 <= i <= n + 1
        invariant acc == Dot(b, xHist[..], 0, i)
      {
        acc := acc + b[i] * xHist[i];
        i := i + 1;
      }
    }

    /** The feedback loop: subtracts Σ_{i=1..n} a[i]·yHist[i] from acc;
        a[0] and yHist[0] are never read. */
    method Feedback(acc: real) returns (y: real)
      requires Valid()
      ensures y == acc - Dot(a, yHist[..], 1, n + 1)
    {
      y := acc;
      var i := 1;
      while i <= n
        invariant 1 <= i <= n + 1
        invariant y == acc - Dot(a, yHist[..], 1, i)
      {
        y := y - a[i] * yHist[i];
        i := i + 1;
      }
    }

    /** One call of the filter: shift both histories one slot older, store
        the input, and compute and store the output. */
    method Process(x: real) returns (y: real)
      requires Valid()
      modifies xHist, yHist, this`inputs, this`outputs
      ensures Valid()
      ensures xHist[0] == x && yHist[0] == y
      ensures forall i :: 1 <= i <= n ==> xHist[i] == old(xHist[i - 1]) && yHist[i] == old(yHist[i - 1])
      ensures xHist[..] == Shift(old(xHist[..]), x)
      ensures yHist[..] == Shift(old(yHist[..]), y)
      ensures y == Output(b, a, xHist[..], yHist[..])
      ensures inputs == old(inputs) + [x] && outputs == old(outputs) + [y]
      ensures old(Tracks()) ==> Tracks() && y == Response(b, a, inputs)[|inputs| - 1]
    {
      ghost var tracked, ins, outs := Tracks(), inputs, outputs;
      ShiftHistories();
      xHist[0] := x;
      y := FeedForward();
      ghost var shifted := yHist[..];
      y := Feedback(y);
      yHist[0] := y;
      assert xHist[..] == Shift(old(xHist[..]), x);
      assert yHist[..] == Shift(old(yHist[..]), y);
      DotAgree(a, shifted, a, yHist[..], 1, n + 1);

      inputs, outputs := ins + [x], outs + [y];
      if tracked {
        StepKeepsTrack(b, a, ins, outs, x, y, |ins|);
      }
    }
  }

  /** The first three samples of the sketch filter's impulse response:
      0 (B[0]), then B[1], then B[1] times the negated A[1]. */
  lemma SketchImpulseResponse()
    ensures Response(BCoeffs, ACoeffs, [1.0, 0.0, 0.0]) == [0.0, 0.020198, 0.020198 * 1.788622]
  {
    var xs := [1.0, 0.0, 0.0];
    var ys := Response(BCoeffs, ACoeffs, xs);
    ResponseRecurrence(BCoeffs, ACoeffs, xs, 0);
    ResponseRecurrence(BCoeffs, ACoeffs, xs, 1);
    ResponseRecurrence(BCoeffs, ACoeffs, xs, 2);
  }

  /** Three calls of the sketch's filter from power-up on a unit sample
      return the start of its impulse response. */
  method SketchImpulse() returns (y0: real, y1: real, y2: real)
    ensures y0 == 0.0 && y1 == 0.020198 && y2 == 0.020198 * 1.788622
    ensures |BCoeffs| == |ACoeffs| == FilterOrder + 1
  {
    var f := new Filter(BCoeffs, ACoeffs);
    assert f.n == FilterOrder;
    y0 := f.Process(1.0);
    y1 := f.Process(0.0);
    y2 := f.Process(0.0);
    assert f.outputs == [y0, y1, y2] && f.inputs == [1.0, 0.0, 0.0];
    SketchImpulseResponse();
  }
}
