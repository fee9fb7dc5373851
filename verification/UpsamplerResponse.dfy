/** What the upsampler does to two test signals (apps/audioplayers/upsampling_to_48k.cpp): a ramp comes
out rising from phase to phase, and a single sample comes out as the coefficient tables, each row at
its own phase.
*/
module UpsamplerResponse {
  import opened Upsampler

  // ---------------------------------------------------------------- one output sample

  lemma {:induction false} PhasesAt(ratio: nat, w: seq<Sample>, n: nat, p: nat)
    requires ValidRatio(ratio) && |w| == TAPS && p < n <= ratio
    ensures Phases(ratio, w, n)[p] == Output(Row(ratio, p), w)
  {
    hide Output, Row;
    if p < n - 1 {
      PhasesAt(ratio, w, n - 1, p);
    }
  }

  /** Where phase `p` of input sample `i` comes out. */
  function Place(ratio: nat, i: nat, p: nat): nat {
    i * ratio + p
  }

  lemma {:induction false} ConvolveAt(ratio: nat, x: seq<Sample>, i: nat, p: nat)
    requires ValidRatio(ratio) && i + TAPS <= |x| && p < ratio
    ensures Place(ratio, i, p) < |Convolve(ratio, x)|
    ensures Convolve(ratio, x)[Place(ratio, i, p)] == Output(Row(ratio, p), x[i..i + TAPS])
    decreases i
  {
    hide Output, Row, Phases;
    if i == 0 {
      PhasesAt(ratio, x[..TAPS], ratio, p);
      assert x[0..TAPS] == x[..TAPS];
    } else {
      ConvolveAt(ratio, x[1..], i - 1, p);
      assert x[1..][i - 1..i - 1 + TAPS] == x[i..i + TAPS];
      assert Place(ratio, i, p) == ratio + Place(ratio, i - 1, p);
    }
  }

  // ---------------------------------------------------------------- a single sample

  function Silence(n: nat): (s: seq<Sample>)
    ensures |s| == n && forall i :: 0 <= i < n ==> s[i] == 0
  {
    seq(n, _ => 0)
  }

  /** From power-on: `j` silent samples, the sample `a`, and `m` more silent ones. */
  function Impulse(j: nat, a: Sample, m: nat): (x: seq<Sample>)
    ensures |x| == HISTORY + j + 1 + m
    ensures forall i :: 0 <= i < |x| ==> x[i] == if i == HISTORY + j then a else 0
  {
    Silence(HISTORY) + (Silence(j) + [a] + Silence(m))
  }

  /** One sample of the window, at tap `t`, is `a`; the others are silent. */
  lemma {:induction false} AccumulateSpike(row: seq<int>, w: seq<Sample>, t: nat, a: Sample, k: nat)
    requires |row| == |w| == TAPS && k <= TAPS
    requires forall u :: 0 <= u < TAPS ==> w[u] == if u == t then a else 0
    requires t < TAPS ==> -32768 < row[t] < 32768
    ensures Accumulate(row, w, k) == if t < k then a * row[t] else 0
  {
    hide Wrap32;
    if k > 0 {
      AccumulateSpike(row, w, t, a, k - 1);
      if k - 1 == t {
        ProductFits(a, row[t]);
      } else {
        SilentTerm(row[k - 1]);
        if t < k {
          ProductFits(a, row[t]);
        } else {
          ProductFits(0, 0);
        }
      }
    }
  }

  lemma SilentTerm(c: int)
    ensures 0 * c == 0
  {
  }

  lemma ProductFits(a: Sample, c: int)
    requires -32768 < c < 32768
    ensures Wrap32(a * c) == a * c
  {
    assert -32768 * 32767 <= a * c <= 32768 * 32767 by {
      assert Abs(a * c) <= 32768 * 32767 by {
        AbsProduct(a, c);
      }
    }
  }

  lemma AbsProduct(a: Sample, c: int)
    requires -32768 < c < 32768
    ensures Abs(a * c) <= 32768 * 32767
  {
    assert Abs(a * c) == Abs(a) * Abs(c);
    Product(Abs(a), 32768, Abs(c), 32767);
  }

  lemma Coefficients8K(p: nat, t: nat)
    requires p < 6 && t < TAPS
    ensures |COEF_8K[p]| == TAPS && -32768 < COEF_8K[p][t] < 32768
  {
  }

  lemma Coefficients16K(p: nat, t: nat)
    requires p < 3 && t < TAPS
    ensures |COEF_16K[p]| == TAPS && -32768 < COEF_16K[p][t] < 32768
  {
  }

  /** Sample `j` comes out over the 24 inputs from its own on, at each through the tap that many before
      the last. */
  lemma ImpulseAt(ratio: nat, j: nat, a: Sample, m: nat, i: nat, p: nat)
    requires ValidRatio(ratio) && i <= j + m && p < ratio
    requires forall t :: 0 <= t < TAPS ==> -32768 < Row(ratio, p)[t] < 32768
    ensures var y := Convolve(ratio, Impulse(j, a, m));
            && Place(ratio, i, p) < |y|
            && y[Place(ratio, i, p)] ==
                 if j <= i < j + TAPS then a * Row(ratio, p)[HISTORY - (i - j)] / 0x1_0000 else 0
  {
    hide Row, Convolve, Accumulate;
    var x := Impulse(j, a, m);
    ConvolveAt(ratio, x, i, p);
    var w := x[i..i + TAPS];
    var t := if j <= i < j + TAPS then HISTORY - (i - j) else TAPS;
    AccumulateSpike(Row(ratio, p), w, t, a, TAPS);
  }

  /** The response at ratio 6 is the 8 kHz table, row `p` at phase `p`. */
  lemma ImpulseIs8KTable(j: nat, a: Sample, m: nat, i: nat, p: nat)
    requires i <= j + m && p < 6
    ensures var y := Convolve(6, Impulse(j, a, m));
            && i * 6 + p < |y|
            && y[i * 6 + p] == if j <= i < j + TAPS then a * COEF_8K[p][HISTORY - (i - j)] / 0x1_0000 else 0
  {
    forall t | 0 <= t < TAPS
      ensures -32768 < Row(6, p)[t] < 32768
    {
      Coefficients8K(p, t);
    }
    assert Row(6, p) == COEF_8K[p];
    hide Convolve, Row, Impulse;
    ImpulseAt(6, j, a, m, i, p);
    assert Place(6, i, p) == i * 6 + p;
  }

  /** At ratio 3 it is the 16 kHz table. */
  lemma ImpulseIs16KTable(j: nat, a: Sample, m: nat, i: nat, p: nat)
    requires i <= j + m && p < 3
    ensures var y := Convolve(3, Impulse(j, a, m));
            && i * 3 + p < |y|
            && y[i * 3 + p] == if j <= i < j + TAPS then a * COEF_16K[p][HISTORY - (i - j)] / 0x1_0000 else 0
  {
    forall t | 0 <= t < TAPS
      ensures -32768 < Row(3, p)[t] < 32768
    {
      Coefficients16K(p, t);
    }
    assert Row(3, p) == COEF_16K[p];
    hide Convolve, Row, Impulse;
    ImpulseAt(3, j, a, m, i, p);
    assert Place(3, i, p) == i * 3 + p;
  }

  // ---------------------------------------------------------------- a ramp

  /** The first moment of the first `k` coefficients. */
  function Moment(row: seq<int>, k: nat): int
    requires |row| == TAPS && k <= TAPS
  {
    if k == 0 then 0 else Moment(row, k - 1) + (k - 1) * row[k - 1]
  }

  lemma {:induction false} RampIsMoment(row: seq<int>, w: seq<Sample>, b: nat, k: nat)
    requires |row| == |w| == TAPS && k <= TAPS
    requires forall t :: 0 <= t < TAPS ==> w[t] == t * b
    ensures Exact(row, w, k) == b * Moment(row, k)
  {
    if k > 0 {
      RampIsMoment(row, w, b, k - 1);
      RampTerm(b, k - 1, row[k - 1], Moment(row, k - 1));
    }
  }

  lemma RampTerm(b: nat, t: nat, c: int, m: int)
    ensures b * m + t * b * c == b * (m + t * c)
  {
  }

  lemma {:induction false} MomentUnrolled(row: seq<int>)
    requires |row| == TAPS
    ensures Moment(row, TAPS) ==
      1 * row[1] + 2 * row[2] + 3 * row[3] + 4 * row[4] + 5 * row[5] + 6 * row[6] +
      7 * row[7] + 8 * row[8] + 9 * row[9] + 10 * row[10] + 11 * row[11] + 12 * row[12] +
      13 * row[13] + 14 * row[14] + 15 * row[15] + 16 * row[16] + 17 * row[17] + 18 * row[18] +
      19 * row[19] + 20 * row[20] + 21 * row[21] + 22 * row[22] + 23 * row[23]
  {
    assert Moment(row, 1) == 0;
    assert Moment(row, 2) == Moment(row, 1) + 1 * row[1];
    assert Moment(row, 3) == Moment(row, 2) + 2 * row[2];
    assert Moment(row, 4) == Moment(row, 3) + 3 * row[3];
    assert Moment(row, 5) == Moment(row, 4) + 4 * row[4];
    assert Moment(row, 6) == Moment(row, 5) + 5 * row[5];
    assert Moment(row, 7) == Moment(row, 6) + 6 * row[6];
    assert Moment(row, 8) == Moment(row, 7) + 7 * row[7];
    assert Moment(row, 9) == Moment(row, 8) + 8 * row[8];
    assert Moment(row, 10) == Moment(row, 9) + 9 * row[9];
    assert Moment(row, 11) == Moment(row, 10) + 10 * row[10];
    assert Moment(row, 12) == Moment(row, 11) + 11 * row[11];
    assert Moment(row, 13) == Moment(row, 12) + 12 * row[12];
    assert Moment(row, 14) == Moment(row, 13) + 13 * row[13];
    assert Moment(row, 15) == Moment(row, 14) + 14 * row[14];
    assert Moment(row, 16) == Moment(row, 15) + 15 * row[15];
    assert Moment(row, 17) == Moment(row, 16) + 16 * row[16];
    assert Moment(row, 18) == Moment(row, 17) + 17 * row[17];
    assert Moment(row, 19) == Moment(row, 18) + 18 * row[18];
    assert Moment(row, 20) == Moment(row, 19) + 19 * row[19];
    assert Moment(row, 21) == Moment(row, 20) + 20 * row[20];
    assert Moment(row, 22) == Moment(row, 21) + 21 * row[21];
    assert Moment(row, 23) == Moment(row, 22) + 22 * row[22];
    assert Moment(row, 24) == Moment(row, 23) + 23 * row[23];
  }

  lemma Moment8KRow0()
    ensures Moment(COEF_8K[0], TAPS) == 352006
  {
    hide Moment;
    MomentUnrolled(COEF_8K[0]);
  }

  lemma Moment8KRow1()
    ensures Moment(COEF_8K[1], TAPS) == 357228
  {
    hide Moment;
    MomentUnrolled(COEF_8K[1]);
  }

  lemma Moment8KRow2()
    ensures Moment(COEF_8K[2], TAPS) == 362572
  {
    hide Moment;
    MomentUnrolled(COEF_8K[2]);
  }

  lemma Moment8KRow3()
    ensures Moment(COEF_8K[3], TAPS) == 367908
  {
    hide Moment;
    MomentUnrolled(COEF_8K[3]);
  }

  lemma Moment8KRow4()
    ensures Moment(COEF_8K[4], TAPS) == 373091
  {
    hide Moment;
    MomentUnrolled(COEF_8K[4]);
  }

  lemma Moment8KRow5()
    ensures Moment(COEF_8K[5], TAPS) == 378244
  {
    hide Moment;
    MomentUnrolled(COEF_8K[5]);
  }

  lemma Moment16KRow0()
    ensures Moment(COEF_16K[0], TAPS) == 354637
  {
    hide Moment;
    MomentUnrolled(COEF_16K[0]);
  }

  lemma Moment16KRow1()
    ensures Moment(COEF_16K[1], TAPS) == 365240
  {
    hide Moment;
    MomentUnrolled(COEF_16K[1]);
  }

  lemma Moment16KRow2()
    ensures Moment(COEF_16K[2], TAPS) == 375682
  {
    hide Moment;
    MomentUnrolled(COEF_16K[2]);
  }

  const MOMENTS_8K: seq<int> := [352006, 357228, 362572, 367908, 373091, 378244]
  const MOMENTS_16K: seq<int> := [354637, 365240, 375682]

  lemma RowMoments(ratio: nat, p: nat)
    requires (ratio == 3 || ratio == 6) && p < ratio
    ensures Moment(Row(ratio, p), TAPS) == if ratio == 6 then MOMENTS_8K[p] else MOMENTS_16K[p]
  {
    hide Moment;
    if ratio == 6 {
      if p == 0 { Moment8KRow0(); }
      else if p == 1 { Moment8KRow1(); }
      else if p == 2 { Moment8KRow2(); }
      else if p == 3 { Moment8KRow3(); }
      else if p == 4 { Moment8KRow4(); }
      else { Moment8KRow5(); }
    } else {
      if p == 0 { Moment16KRow0(); }
      else if p == 1 { Moment16KRow1(); }
      else { Moment16KRow2(); }
    }
  }

  /** The largest slope whose window stays below the safe amplitude. */
  predicate SafeSlope(ratio: nat, b: nat) {
    (ratio == 3 || ratio == 6) && HISTORY * b <= if ratio == 6 then 29835 else 30450
  }

  lemma RampOutput(ratio: nat, w: seq<Sample>, b: nat, p: nat)
    requires SafeSlope(ratio, b) && p < ratio && |w| == TAPS
    requires forall t :: 0 <= t < TAPS ==> w[t] == t * b
    ensures Phases(ratio, w, ratio)[p] == b * (if ratio == 6 then MOMENTS_8K[p] else MOMENTS_16K[p]) / 0x1_0000
  {
    hide Row, Output, Phases, Exact, Moment;
    PhasesAt(ratio, w, ratio, p);
    RampWithin(w, b);
    OutputIsExact(ratio, p, w, HISTORY * b);
    RampIsMoment(Row(ratio, p), w, b, TAPS);
    RowMoments(ratio, p);
  }

  lemma RampWithin(w: seq<Sample>, b: nat)
    requires |w| == TAPS && forall t :: 0 <= t < TAPS ==> w[t] == t * b
    ensures Within(w, HISTORY * b)
  {
    forall t | 0 <= t < TAPS ensures Abs(w[t]) <= HISTORY * b {
      Product(t, HISTORY, b, b);
    }
  }

  lemma Rises(b: nat, m: nat, n: nat)
    requires b >= 13 && n >= m + 5153
    ensures b * m / 0x1_0000 < b * n / 0x1_0000
  {
    assert b * n >= b * m + b * 5153 by {
      assert b * n == b * m + b * (n - m);
      Product(b, b, 5153, n - m);
    }
    assert b * n >= b * m + 0x1_0000;
  }

  /** Between two input samples of a ramp the output rises with every phase. */
  lemma RampRises(ratio: nat, w: seq<Sample>, b: nat, p: nat)
    requires SafeSlope(ratio, b) && b >= 13 && p + 1 < ratio && |w| == TAPS
    requires forall t :: 0 <= t < TAPS ==> w[t] == t * b
    ensures Phases(ratio, w, ratio)[p] < Phases(ratio, w, ratio)[p + 1]
  {
    hide Phases;
    RampOutput(ratio, w, b, p);
    RampOutput(ratio, w, b, p + 1);
    if ratio == 6 {
      Rises(b, MOMENTS_8K[p], MOMENTS_8K[p + 1]);
    } else {
      Rises(b, MOMENTS_16K[p], MOMENTS_16K[p + 1]);
    }
  }
}
