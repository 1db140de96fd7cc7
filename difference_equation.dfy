/** The linear constant-coefficient difference equation that a direct-form
    IIR filter of order N computes, stated over real numbers:

      y[k] = Σ_{i=0..N} b[i]·x[k-i]  −  Σ_{i=1..N} a[i]·y[k-i]

    with every input and output before index 0 taken as zero.  The module
    gives the buffer-level view used by the filter step (Dot, Shift, Window,
    Output) and an independent reference definition of the whole output
    signal (Conv, Response), and proves how the two agree.
 */
module DifferenceEquation {

  /** Sample j of a signal that is zero outside its recorded samples. */
  function At(s: seq<real>, j: int): real
  {
    if 0 <= j < |s| then s[j] else 0.0
  }

  /** A signal of m zero samples. */
  function Zeros(m: nat): (z: seq<real>)
    ensures |z| == m && forall i :: 0 <= i < m ==> z[i] == 0.0
  {
    seq(m, _ => 0.0)
  }

  /** The unit-sample signal of length m: 1 at index 0, 0 elsewhere. */
  function Impulse(m: nat): (d: seq<real>)
    requires m >= 1
    ensures |d| == m && d[0] == 1.0
    ensures forall i :: 1 <= i < m ==> d[i] == 0.0
  {
    [1.0] + Zeros(m - 1)
  }

  /** Σ_{lo ≤ i < hi} c[i]·h[i] over a coefficient table and a history
      buffer, accumulated in increasing i. */
  function Dot(c: seq<real>, h: seq<real>, lo: nat, hi: nat): real
    requires hi <= |c| && hi <= |h|
    decreases hi
  {
    if hi <= lo then 0.0 else Dot(c, h, lo, hi - 1) + c[hi - 1] * h[hi - 1]
  }

  /** Σ_{lo ≤ i < hi} c[i]·s[k-i]: the tap sum of the difference equation
      at time k over a whole signal s. */
  function Conv(c: seq<real>, s: seq<real>, k: int, lo: nat, hi: nat): real
    requires hi <= |c|
    decreases hi
  {
    if hi <= lo then 0.0 else Conv(c, s, k, lo, hi - 1) + c[hi - 1] * At(s, k - (hi - 1))
  }

  /** The history buffer of length len once the signal s has gone in:
      index 0 holds the newest sample, index i the sample i steps older. */
  function Window(s: seq<real>, len: nat): seq<real>
  {
    seq(len, i => At(s, |s| - 1 - i))
  }

  /** One shift of a history buffer: v enters at index 0, every sample
      moves one slot older and the oldest one is dropped. */
  function Shift(h: seq<real>, v: real): seq<real>
    requires |h| >= 1
  {
    [v] + h[..|h| - 1]
  }

  /** The output of one filter step over the (already shifted) input and
      output histories: the feed-forward sum over every tap minus the
      feedback sum from tap 1 on. */
  function Output(b: seq<real>, a: seq<real>, xh: seq<real>, yh: seq<real>): real
    requires |b| == |a| == |xh| == |yh|
  {
    Dot(b, xh, 0, |b|) - Dot(a, yh, 1, |a|)
  }

  /** Reference definition: the first m output samples of the difference
      equation driven by the input signal xs from rest. */
  function Outputs(b: seq<real>, a: seq<real>, xs: seq<real>, m: nat): (ys: seq<real>)
    requires |b| == |a| >= 1
    ensures |ys| == m
    decreases m
  {
    if m == 0 then []
    else
      var prev := Outputs(b, a, xs, m - 1);
      prev + [Conv(b, xs, m - 1, 0, |b|) - Conv(a, prev, m - 1, 1, |a|)]
  }

  /** The output signal of the difference equation driven by xs from rest,
      one output per input sample. */
  function Response(b: seq<real>, a: seq<real>, xs: seq<real>): (ys: seq<real>)
    requires |b| == |a| >= 1
  {
    Outputs(b, a, xs, |xs|)
  }

  // ---------------------------------------------------------------------
  // Buffer-level facts

  /** Two tap sums agree when their coefficients and buffers agree on the
      taps summed. */
  lemma {:induction false} DotAgree(c1: seq<real>, h1: seq<real>, c2: seq<real>, h2: seq<real>, lo: nat, hi: nat)
    requires hi <= |c1| && hi <= |h1| && hi <= |c2| && hi <= |h2|
    requires forall i :: lo <= i < hi ==> c1[i] == c2[i] && h1[i] == h2[i]
    ensures Dot(c1, h1, lo, hi) == Dot(c2, h2, lo, hi)
  {
    if lo < hi {
      DotAgree(c1, h1, c2, h2, lo, hi - 1);
    }
  }

  /** A tap sum over an all-zero buffer is zero. */
  lemma {:induction false} DotZeros(c: seq<real>, m: nat, lo: nat, hi: nat)
    requires hi <= |c| && hi <= m
    ensures Dot(c, Zeros(m), lo, hi) == 0.0
  {
    if lo < hi {
      DotZeros(c, m, lo, hi - 1);
    }
  }

  /** Shifting a sample into the buffer of s gives the buffer of s + [v]:
      what moves where and what is dropped. */
  lemma WindowShift(s: seq<real>, v: real, len: nat)
    requires len >= 1
    ensures Shift(Window(s, len), v) == Window(s + [v], len)
  {
    var l, r := Shift(Window(s, len), v), Window(s + [v], len);
    assert |l| == |r|;
    forall i | 0 <= i < len ensures l[i] == r[i] {
      assert r[i] == At(s + [v], |s| - i);
      if i == 0 {
        assert (s + [v])[|s|] == v;
      } else {
        assert l[i] == Window(s, len)[i - 1] == At(s, |s| - i);
        if 0 <= |s| - i {
          assert (s + [v])[|s| - i] == s[|s| - i];
        }
      }
    }
  }

  /** Before any sample has gone in, the buffer is all zero. */
  lemma WindowEmpty(len: nat)
    ensures Window([], len) == Zeros(len)
  {
    forall i | 0 <= i < len ensures Window([], len)[i] == 0.0 {
      assert Window([], len)[i] == At([], -1 - i);
    }
  }

  /** The buffer-level tap sum is the signal-level tap sum at the time of
      the newest sample. */
  lemma {:induction false} DotWindow(c: seq<real>, s: seq<real>, len: nat, lo: nat, hi: nat)
    requires hi <= |c| && hi <= len
    ensures Dot(c, Window(s, len), lo, hi) == Conv(c, s, |s| - 1, lo, hi)
  {
    if lo < hi {
      DotWindow(c, s, len, lo, hi - 1);
    }
  }

  // ---------------------------------------------------------------------
  // Signal-level facts

  /** Two signal-level tap sums agree when their coefficients and the
      samples they read agree. */
  lemma {:induction false} ConvAgree(c1: seq<real>, s1: seq<real>, c2: seq<real>, s2: seq<real>, k: int, lo: nat, hi: nat)
    requires hi <= |c1| && hi <= |c2|
    requires forall i :: lo <= i < hi ==> c1[i] == c2[i]
    requires forall j :: k - hi < j <= k - lo ==> At(s1, j) == At(s2, j)
    ensures Conv(c1, s1, k, lo, hi) == Conv(c2, s2, k, lo, hi)
  {
    if lo < hi {
      ConvAgree(c1, s1, c2, s2, k, lo, hi - 1);
    }
  }

  /** A tap sum that reads only zero samples is zero. */
  lemma {:induction false} ConvVanishes(c: seq<real>, s: seq<real>, k: int, lo: nat, hi: nat)
    requires hi <= |c|
    requires forall j :: k - hi < j <= k - lo ==> At(s, j) == 0.0
    ensures Conv(c, s, k, lo, hi) == 0.0
  {
    if lo < hi {
      ConvVanishes(c, s, k, lo, hi - 1);
    }
  }

  /** Splitting tap 0 off a tap sum. */
  lemma {:induction false} ConvSplitFirst(c: seq<real>, s: seq<real>, k: int, hi: nat)
    requires 1 <= hi <= |c|
    ensures Conv(c, s, k, 0, hi) == c[0] * At(s, k) + Conv(c, s, k, 1, hi)
  {
    if hi > 1 {
      ConvSplitFirst(c, s, k, hi - 1);
    }
  }

  /** The feedback sum from tap 1 on never reads the sample at time k
      itself, so appending that sample changes nothing. */
  lemma {:induction false} ConvSkipsCurrent(c: seq<real>, s: seq<real>, v: real, lo: nat, hi: nat)
    requires 1 <= lo && hi <= |c|
    ensures Conv(c, s + [v], |s|, lo, hi) == Conv(c, s, |s|, lo, hi)
  {
    ConvAgree(c, s + [v], c, s, |s|, lo, hi);
  }

  // ---------------------------------------------------------------------
  // The reference recurrence

  /** Computing more outputs never changes earlier ones. */
  lemma {:induction false} OutputsPrefix(b: seq<real>, a: seq<real>, xs: seq<real>, m: nat, m': nat)
    requires |b| == |a| >= 1 && m <= m'
    ensures Outputs(b, a, xs, m')[..m] == Outputs(b, a, xs, m)
    decreases m'
  {
    if m < m' {
      OutputsPrefix(b, a, xs, m, m' - 1);
      assert Outputs(b, a, xs, m')[..m'- 1] == Outputs(b, a, xs, m' - 1);
    }
  }

  /** The first m outputs depend only on the first m inputs: the filter
      is causal. */
  lemma {:induction false} OutputsCausal(b: seq<real>, a: seq<real>, xs1: seq<real>, xs2: seq<real>, m: nat)
    requires |b| == |a| >= 1
    requires forall j :: 0 <= j < m ==> At(xs1, j) == At(xs2, j)
    ensures Outputs(b, a, xs1, m) == Outputs(b, a, xs2, m)
  {
    if m > 0 {
      OutputsCausal(b, a, xs1, xs2, m - 1);
      ConvAgree(b, xs1, b, xs2, m - 1, 0, |b|);
    }
  }

  /** The response to xs + [x] extends the response to xs by one sample,
      given by the difference equation at time k = |xs|.
      The time index k is passed alongside xs with |xs| == k: stating
      the goal with |xs| in place of k sends the solver into a loop.
   */
  lemma ResponseAppend(b: seq<real>, a: seq<real>, xs: seq<real>, x: real, k: nat)
    requires |b| == |a| >= 1 && |xs| == k
    ensures Response(b, a, xs + [x])
         == Response(b, a, xs) + [Conv(b, xs + [x], k, 0, |b|) - Conv(a, Response(b, a, xs), k, 1, |a|)]
  {
    var s := xs + [x];
    assert Outputs(b, a, s, k + 1) == Outputs(b, a, s, k) + [Conv(b, s, k, 0, |b|) - Conv(a, Outputs(b, a, s, k), k, 1, |a|)];
    forall j | 0 <= j < k ensures At(s, j) == At(xs, j) {
      assert s[j] == xs[j];
    }
    OutputsCausal(b, a, s, xs, k);
  }

  /** Every output of the response satisfies the difference equation over
      the whole input and output signals:
      y[k] = Σ_{i=0..N} b[i]·x[k-i] − Σ_{i=1..N} a[i]·y[k-i]. */
  lemma ResponseRecurrence(b: seq<real>, a: seq<real>, xs: seq<real>, k: nat)
    requires |b| == |a| >= 1 && k < |xs|
    ensures var ys := Response(b, a, xs);
      ys[k] == Conv(b, xs, k, 0, |b|) - Conv(a, ys, k, 1, |a|)
  {
    var ys := Response(b, a, xs);
    OutputsPrefix(b, a, xs, k + 1, |xs|);
    OutputsPrefix(b, a, xs, k, |xs|);
    assert ys[..k + 1][k] == ys[k];
    ConvAgree(a, ys[..k], a, ys, k, 1, |a|);
  }

  /** With a monic denominator (a[0] = 1) the response satisfies the full
      difference equation Σ_{i=0..N} a[i]·y[k-i] = Σ_{i=0..N} b[i]·x[k-i]. */
  lemma DifferenceEquationHolds(b: seq<real>, a: seq<real>, xs: seq<real>, k: nat)
    requires |b| == |a| >= 1 && k < |xs| && a[0] == 1.0
    ensures var ys := Response(b, a, xs);
      Conv(a, ys, k, 0, |a|) == Conv(b, xs, k, 0, |b|)
  {
    ResponseRecurrence(b, a, xs, k);
    ConvSplitFirst(a, Response(b, a, xs), k, |a|);
  }

  /** The leading feedback coefficient a[0] never contributes: no output
      depends on it. */
  lemma {:induction false} LeadingFeedbackIgnored(b: seq<real>, a: seq<real>, c: real, xs: seq<real>, m: nat)
    requires |b| == |a| >= 1
    ensures Outputs(b, a[0 := c], xs, m) == Outputs(b, a, xs, m)
  {
    if m > 0 {
      LeadingFeedbackIgnored(b, a, c, xs, m - 1);
      ConvAgree(a[0 := c], Outputs(b, a, xs, m - 1), a, Outputs(b, a, xs, m - 1), m - 1, 1, |a|);
    }
  }

  /** The same for one step over explicit buffers. */
  lemma OutputIgnoresLeadingFeedback(b: seq<real>, a: seq<real>, c: real, xh: seq<real>, yh: seq<real>)
    requires |b| == |a| == |xh| == |yh| >= 1
    ensures Output(b, a[0 := c], xh, yh) == Output(b, a, xh, yh)
  {
    DotAgree(a[0 := c], yh, a, yh, 1, |a|);
  }

  /** One filter step over the buffers of a run from rest extends the
      reference response by exactly the step's output: the input buffer
      holds the inputs up to time k, the output buffer the outputs before
      time k (its slot 0 is never read).
      The time index k is passed alongside xs with |xs| == k: stating
      the goal with |xs| in place of k sends the solver into a loop.
   */
  lemma StepExtendsResponse(b: seq<real>, a: seq<real>, xs: seq<real>, x: real, y: real, k: nat)
    requires |b| == |a| >= 1 && |xs| == k
    requires y == Output(b, a, Window(xs + [x], |b|), Window(Response(b, a, xs) + [y], |b|))
    ensures Response(b, a, xs + [x]) == Response(b, a, xs) + [y]
  {
    var ys, n1 := Response(b, a, xs), |b|;
    ResponseAppend(b, a, xs, x, k);
    DotWindow(b, xs + [x], n1, 0, n1);
    DotWindow(a, ys + [y], n1, 1, n1);
    ConvSkipsCurrent(a, ys, y, 1, n1);
  }

  /** One filter step keeps the buffers of a run from rest in step with
      the reference response: shifting x and the step's output y into the
      buffers of the run so far gives the buffers of the longer run, and
      y is the next sample of the response.
      The time index k is passed alongside xs with |xs| == k: stating
      the goal with |xs| in place of k sends the solver into a loop.
   */
  lemma StepKeepsTrack(b: seq<real>, a: seq<real>, xs: seq<real>, ys: seq<real>, x: real, y: real, k: nat)
    requires |b| == |a| >= 1 && |xs| == k && ys == Response(b, a, xs)
    requires y == Output(b, a, Shift(Window(xs, |b|), x), Shift(Window(ys, |b|), y))
    ensures Shift(Window(xs, |b|), x) == Window(xs + [x], |b|)
    ensures Shift(Window(ys, |b|), y) == Window(ys + [y], |b|)
    ensures Response(b, a, xs + [x]) == ys + [y]
  {
    WindowShift(xs, x, |b|);
    WindowShift(ys, y, |b|);
    StepExtendsResponse(b, a, xs, x, y, k);
  }

  /** A filter at rest stays at rest: zero buffers and a zero input give
      a zero output and leave the buffers zero. */
  lemma QuiescentStep(b: seq<real>, a: seq<real>)
    requires |b| == |a| >= 1
    ensures Shift(Zeros(|b|), 0.0) == Zeros(|b|)
    ensures Output(b, a, Zeros(|b|), Zeros(|b|)) == 0.0
  {
    DotZeros(b, |b|, 0, |b|);
    DotZeros(a, |a|, 1, |a|);
  }

  /** A zero input from rest gives a zero output signal. */
  lemma {:induction false} QuiescentResponse(b: seq<real>, a: seq<real>, xs: seq<real>, m: nat)
    requires |b| == |a| >= 1
    requires forall j :: 0 <= j < |xs| ==> xs[j] == 0.0
    ensures Outputs(b, a, xs, m) == Zeros(m)
  {
    if m > 0 {
      QuiescentResponse(b, a, xs, m - 1);
      ConvVanishes(b, xs, m - 1, 0, |b|);
      ConvVanishes(a, Zeros(m - 1), m - 1, 1, |a|);
    }
  }

  /** The first sample of the impulse response is b[0]. */
  lemma ImpulseResponseStart(b: seq<real>, a: seq<real>, m: nat)
    requires |b| == |a| >= 1 && m >= 1
    ensures Response(b, a, Impulse(m))[0] == b[0]
  {
    var d := Impulse(m);
    ResponseRecurrence(b, a, d, 0);
    ConvSplitFirst(b, d, 0, |b|);
    ConvVanishes(b, d, 0, 1, |b|);
    ConvVanishes(a, Response(b, a, d), 0, 1, |a|);
  }

  /** p to the power k. */
  function Power(p: real, k: nat): real
  {
    if k == 0 then 1.0 else p * Power(p, k - 1)
  }

  /** The first-order section b = [1, 0], a = [1, -p] has impulse response
      1, p, p², …: the decaying geometric sequence of a single pole p. */
  lemma {:induction false} FirstOrderImpulseResponse(p: real, m: nat, k: nat)
    requires 1 <= m && k < m
    ensures Response([1.0, 0.0], [1.0, -p], Impulse(m))[k] == Power(p, k)
    decreases k
  {
    var b, a, d := [1.0, 0.0], [1.0, -p], Impulse(m);
    var ys := Response(b, a, d);
    ResponseRecurrence(b, a, d, k);
    if k > 0 {
      FirstOrderImpulseResponse(p, m, k - 1);
      assert At(d, k) == 0.0;
    }
  }
}
