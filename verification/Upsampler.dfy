/** The streaming polyphase upsampler: apps/audioplayers/upsampling_to_48k.cpp.

`Convolve` is the one-shot filter over a whole signal; `Fir.Run` is the block routine with its
23-sample history.  Streaming is shown to equal one-shot filtering for every division into blocks,
and the accumulator is shown to stay within 32 bits for exactly the amplitudes it can.
*/
module Upsampler {

  type Sample = x: int | -32768 <= x < 32768

  const TAPS := 24
  const HISTORY := 23

  const COEF_8K: seq<seq<int>> := [
    [64, -311, 210, -320, 363, -407, 410, -356, 196, 191, -1369, 30721, 3861, -2265, 1680, -1321, 1049, -823, 625, -471, 297, -327, 34, 19],
    [72, -254, 75, -117, 46, 58, -256, 583, -1141, 2197, -4866, 28131, 10285, -4611, 2935, -2061, 1489, -1075, 755, -523, 310, -291, -19, 31],
    [65, -175, -73, 84, -245, 457, -786, 1276, -2040, 3377, -6428, 23348, 17094, -6200, 3592, -2347, 1588, -1073, 703, -447, 236, -203, -92, 49],
    [49, -92, -203, 236, -447, 703, -1073, 1588, -2347, 3592, -6200, 17094, 23348, -6428, 3377, -2040, 1276, -786, 457, -245, 84, -73, -175, 65],
    [31, -19, -291, 310, -523, 755, -1075, 1489, -2061, 2935, -4611, 10285, 28131, -4866, 2197, -1141, 583, -256, 58, 46, -117, 75, -254, 72],
    [19, 34, -327, 297, -471, 625, -823, 1049, -1321, 1680, -2265, 3861, 30721, -1369, 191, 196, -356, 410, -407, 363, -320, 210, -311, 64]
  ]

  const COEF_16K: seq<seq<int>> := [
    [1, -291, 248, -327, 383, -405, 362, -212, -129, 875, -2948, 29344, 7324, -3795, 2603, -1913, 1418, -1031, 722, -478, 292, -220, -86, 16],
    [26, -212, 6, 45, -185, 414, -764, 1290, -2099, 3470, -6431, 20320, 20320, -6431, 3470, -2099, 1290, -764, 414, -185, 45, 6, -212, 26],
    [16, -86, -220, 292, -478, 722, -1031, 1418, -1913, 2603, -3795, 7324, 29344, -2948, 875, -129, -212, 362, -405, 383, -327, 248, -291, 1]
  ]

  /** The ratios the tables serve. */
  predicate ValidRatio(ratio: nat) {
    ratio <= 3 || ratio == 6
  }

  /** The coefficients of one output phase: `us_get_coef_para`. */
  function Row(ratio: nat, phase: nat): (r: seq<int>)
    requires ValidRatio(ratio) && phase < ratio
    ensures |r| == TAPS
  {
    if ratio == 6 then COEF_8K[phase] else COEF_16K[phase]
  }

  // ---------------------------------------------------------------- the filter on a whole signal

  /** What a 32-bit register keeps of a sum. */
  function Wrap32(x: int): (r: int)
    ensures -0x8000_0000 <= r < 0x8000_0000
    ensures -0x8000_0000 <= x < 0x8000_0000 ==> r == x
    ensures (x - r) % 0x1_0000_0000 == 0
  {
    (x + 0x8000_0000) % 0x1_0000_0000 - 0x8000_0000
  }

  /** The accumulator after the first `k` taps. */
  function Accumulate(row: seq<int>, w: seq<Sample>, k: nat): (r: int)
    requires |row| == |w| == TAPS && k <= TAPS
    ensures -0x8000_0000 <= r < 0x8000_0000
  {
    if k == 0 then 0 else Wrap32(Accumulate(row, w, k - 1) + w[k - 1] * row[k - 1])
  }

  /** `(short)(out >> 16)`: the high half of a 32-bit sum always fits 16 bits. */
  function Output(row: seq<int>, w: seq<Sample>): Sample
    requires |row| == |w| == TAPS
  {
    Accumulate(row, w, TAPS) / 0x1_0000
  }

  /** The output samples of one input position, in phase order, up to phase `n`. */
  function Phases(ratio: nat, w: seq<Sample>, n: nat): (r: seq<Sample>)
    requires ValidRatio(ratio) && |w| == TAPS && n <= ratio
    ensures |r| == n
  {
    if n == 0 then [] else Phases(ratio, w, n - 1) + [Output(Row(ratio, n - 1), w)]
  }

  /** One-shot filtering: all phases of every full window, from the first to the last. */
  function Convolve(ratio: nat, x: seq<Sample>): seq<Sample>
    requires ValidRatio(ratio)
  {
    if |x| < TAPS then [] else Phases(ratio, x[..TAPS], ratio) + Convolve(ratio, x[1..])
  }

  /** The last 23 samples of a signal: all the filter remembers. */
  function Recent(x: seq<Sample>): (h: seq<Sample>)
    requires |x| >= HISTORY
    ensures |h| == HISTORY
  {
    x[|x| - HISTORY..]
  }

  /** Cutting a signal anywhere: the second part needs nothing but the 23 samples before it. */
  lemma {:induction false} ConvolveSplit(ratio: nat, x: seq<Sample>, y: seq<Sample>)
    requires ValidRatio(ratio) && |x| >= HISTORY
    ensures Convolve(ratio, x + y) == Convolve(ratio, x) + Convolve(ratio, Recent(x) + y)
    decreases |x|
  {
    hide Phases;
    if |x| == HISTORY {
      assert Recent(x) == x;
    } else {
      ConvolveSplit(ratio, x[1..], y);
      assert (x + y)[1..] == x[1..] + y && (x + y)[..TAPS] == x[..TAPS];
      assert Recent(x[1..]) == Recent(x);
    }
  }

  lemma {:induction false} ConvolveLength(ratio: nat, x: seq<Sample>)
    requires ValidRatio(ratio) && |x| >= HISTORY
    ensures |Convolve(ratio, x)| == (|x| - HISTORY) * ratio
    decreases |x|
  {
    hide Phases;
    if |x| > HISTORY {
      ConvolveLength(ratio, x[1..]);
    }
  }

  /** One more sample adds the phases of the window it completes. */
  lemma ConvolveNext(ratio: nat, x: seq<Sample>, i: nat)
    requires ValidRatio(ratio) && i + TAPS <= |x|
    ensures Convolve(ratio, x[..i + TAPS]) == Convolve(ratio, x[..i + HISTORY]) + Phases(ratio, x[i..i + TAPS], ratio)
    ensures |Convolve(ratio, x[..i + TAPS])| <= |Convolve(ratio, x)|
  {
    hide Phases;
    var p, w := x[..i + HISTORY], x[i..i + TAPS];
    ConvolveSplit(ratio, p, [x[i + HISTORY]]);
    assert p + [x[i + HISTORY]] == x[..i + TAPS];
    assert Recent(p) + [x[i + HISTORY]] == w;
    assert w[..TAPS] == w && |w[1..]| < TAPS;
    assert Convolve(ratio, w) == Phases(ratio, w, ratio) + [];
    ConvolveSplit(ratio, x[..i + TAPS], x[i + TAPS..]);
    assert x[..i + TAPS] + x[i + TAPS..] == x;
  }

  // ---------------------------------------------------------------- the streaming routine

  class Fir {
    var ratio: nat
    const paraLst: array<Sample>

    ghost predicate Valid()
      reads this
    {
      ValidRatio(ratio) && paraLst.Length == HISTORY
    }

    /** `us_fir_init`. */
    constructor (upsamplingRatio: nat)
      requires ValidRatio(upsamplingRatio)
      ensures Valid() && fresh(paraLst) && ratio == upsamplingRatio
      ensures paraLst[..] == seq(HISTORY, _ => 0)
    {
      ratio := upsamplingRatio;
      paraLst := new Sample[HISTORY](_ => 0);
    }

    /** One accumulation: the innermost loop of `us_fir_run`. */
    method Tap(src: array<Sample>, inIdx: nat, phase: nat) returns (out: int)
      requires Valid() && phase < ratio && inIdx < src.Length
      ensures out == Accumulate(Row(ratio, phase), (paraLst[..] + src[..])[inIdx..inIdx + TAPS], TAPS)
    {
      hide Row, Wrap32;
      ghost var w := (paraLst[..] + src[..])[inIdx..inIdx + TAPS];
      out := 0;
      for coefIdx := 0 to TAPS
        invariant out == Accumulate(Row(ratio, phase), w, coefIdx)
      {
        var realIdx := coefIdx + inIdx;
        var para := if realIdx < HISTORY then paraLst[realIdx] else src[realIdx - HISTORY];
        out := Wrap32(out + para * Row(ratio, phase)[coefIdx]);
      }
    }

    /** `us_fir_run` over the whole of `src`. */
    method Run(src: array<Sample>, dst: array<Sample>) returns (outIdx: nat)
      requires Valid() && src.Length * ratio <= dst.Length
      requires src != dst && src != paraLst && dst != paraLst
      modifies paraLst, dst
      ensures Valid()
      ensures outIdx <= dst.Length
      ensures dst[..outIdx] == Convolve(ratio, old(paraLst[..]) + src[..])
      ensures paraLst[..] == Recent(old(paraLst[..]) + src[..])
    {
      hide Phases, Convolve;
      ghost var x := paraLst[..] + src[..];
      ConvolveLength(ratio, x);
      NoWindow(ratio, x);
      outIdx := 0;
      for inIdx := 0 to src.Length
        invariant paraLst[..] + src[..] == x
        invariant outIdx <= dst.Length && dst[..outIdx] == Convolve(ratio, x[..inIdx + HISTORY])
      {
        ConvolveNext(ratio, x, inIdx);
        outIdx := RunPhases(src, dst, inIdx, outIdx);
      }
      assert x[..src.Length + HISTORY] == x;
      Shift(src);
    }

    /** All phases of one input position. */
    method RunPhases(src: array<Sample>, dst: array<Sample>, inIdx: nat, start: nat) returns (outIdx: nat)
      requires Valid() && inIdx < src.Length && start + ratio <= dst.Length
      requires src != dst && dst != paraLst
      modifies dst
      ensures outIdx == start + ratio
      ensures dst[..outIdx] == old(dst[..start]) + Phases(ratio, (paraLst[..] + src[..])[inIdx..inIdx + TAPS], ratio)
    {
      hide Accumulate, Row;
      ghost var w := (paraLst[..] + src[..])[inIdx..inIdx + TAPS];
      outIdx := start;
      for sampIdx := 0 to ratio
        invariant outIdx == start + sampIdx
        invariant dst[..outIdx] == old(dst[..start]) + Phases(ratio, w, sampIdx)
      {
        var out := Tap(src, inIdx, sampIdx);
        dst[outIdx] := out / 0x1_0000;
        outIdx := outIdx + 1;
      }
    }

    /** The history update: a block at least as long as the history replaces it, a shorter one
        shifts it in place. */
    method Shift(src: array<Sample>)
      requires Valid() && src != paraLst
      modifies paraLst
      ensures paraLst[..] == Recent(old(paraLst[..]) + src[..])
    {
      var n := src.Length;
      ghost var x := paraLst[..] + src[..];
      if n >= HISTORY {
        for i := 0 to HISTORY
          invariant forall k :: 0 <= k < i ==> paraLst[k] == x[n + k]
        {
          paraLst[i] := src[n - HISTORY + i];
        }
      } else {
        var startIdx := HISTORY - n;
        for i := 0 to startIdx
          invariant forall k :: 0 <= k < i ==> paraLst[k] == x[n + k]
          invariant forall k :: i <= k < HISTORY ==> paraLst[k] == x[k]
        {
          paraLst[i] := paraLst[n + i];
        }
        for i := 0 to n
          invariant forall k :: 0 <= k < startIdx + i ==> paraLst[k] == x[n + k]
        {
          paraLst[startIdx + i] := src[i];
        }
      }
    }
  }

  lemma NoWindow(ratio: nat, x: seq<Sample>)
    requires ValidRatio(ratio) && |x| >= HISTORY
    ensures Convolve(ratio, x[..HISTORY]) == []
  {
  }

  // ---------------------------------------------------------------- streaming equals one-shot

  function Flatten(blocks: seq<seq<Sample>>): seq<Sample> {
    if blocks == [] then [] else blocks[0] + Flatten(blocks[1..])
  }

  /** Output and final history of running the blocks one after another. */
  function Stream(ratio: nat, h: seq<Sample>, blocks: seq<seq<Sample>>): (seq<Sample>, seq<Sample>)
    requires ValidRatio(ratio) && |h| == HISTORY
    decreases |blocks|
  {
    if blocks == [] then ([], h)
    else
      var x := h + blocks[0];
      var (rest, end) := Stream(ratio, Recent(x), blocks[1..]);
      (Convolve(ratio, x) + rest, end)
  }

  /** For every signal and every division of it into blocks, empty and short ones included. */
  lemma {:induction false} StreamingEqualsBatch(ratio: nat, h: seq<Sample>, blocks: seq<seq<Sample>>)
    requires ValidRatio(ratio) && |h| == HISTORY
    ensures Stream(ratio, h, blocks) == (Convolve(ratio, h + Flatten(blocks)), Recent(h + Flatten(blocks)))
    decreases |blocks|
  {
    hide Convolve;
    if blocks == [] {
      assert h + [] == h;
      NoWindow(ratio, h);
      assert h[..HISTORY] == h;
    } else {
      var x, tail := h + blocks[0], Flatten(blocks[1..]);
      StreamingEqualsBatch(ratio, Recent(x), blocks[1..]);
      ConvolveSplit(ratio, x, tail);
      assert x + tail == h + Flatten(blocks);
      assert Recent(Recent(x) + tail) == Recent(x + tail);
    }
  }

  // ---------------------------------------------------------------- the accumulator

  function Abs(x: int): nat {
    if x < 0 then -x else x
  }

  /** The exact sum the accumulator stands for. */
  function Exact(row: seq<int>, w: seq<Sample>, k: nat): int
    requires |row| == |w| == TAPS && k <= TAPS
  {
    if k == 0 then 0 else Exact(row, w, k - 1) + w[k - 1] * row[k - 1]
  }

  function AbsSum(row: seq<int>, k: nat): nat
    requires |row| == TAPS && k <= TAPS
  {
    if k == 0 then 0 else AbsSum(row, k - 1) + Abs(row[k - 1])
  }

  predicate Within(w: seq<Sample>, bound: nat) {
    forall i :: 0 <= i < |w| ==> Abs(w[i]) <= bound
  }

  predicate Fits32(x: int) {
    -0x8000_0000 <= x < 0x8000_0000
  }

  lemma TermBound(sum: int, s: int, c: int, bound: nat, gain: nat)
    requires Abs(sum) <= bound * gain && Abs(s) <= bound
    ensures Abs(sum + s * c) <= bound * (gain + Abs(c))
  {
    AbsTimes(s, c);
    Product(Abs(s), bound, Abs(c), Abs(c));
    assert bound * (gain + Abs(c)) == bound * gain + bound * Abs(c);
  }

  lemma AbsTimes(s: int, c: int)
    ensures Abs(s * c) == Abs(s) * Abs(c)
  {
  }

  lemma {:induction false} ExactBound(row: seq<int>, w: seq<Sample>, k: nat, bound: nat)
    requires |row| == |w| == TAPS && k <= TAPS && Within(w, bound)
    ensures Abs(Exact(row, w, k)) <= bound * AbsSum(row, k)
  {
    if k > 0 {
      ExactBound(row, w, k - 1, bound);
      hide Abs;
      TermBound(Exact(row, w, k - 1), w[k - 1], row[k - 1], bound, AbsSum(row, k - 1));
    }
  }

  lemma {:induction false} AbsSumGrows(row: seq<int>, k: nat)
    requires |row| == TAPS && k <= TAPS
    ensures AbsSum(row, k) <= AbsSum(row, TAPS)
    decreases TAPS - k
  {
    if k < TAPS {
      AbsSumGrows(row, k + 1);
    }
  }

  /** While no partial sum leaves 32 bits, the register holds the exact sum. */
  lemma {:induction false} AccumulateIsExact(row: seq<int>, w: seq<Sample>, k: nat)
    requires |row| == |w| == TAPS && k <= TAPS
    requires forall j :: 0 <= j <= k ==> Fits32(Exact(row, w, j))
    ensures Accumulate(row, w, k) == Exact(row, w, k)
  {
    if k > 0 {
      AccumulateIsExact(row, w, k - 1);
      assert Fits32(Exact(row, w, k));
    }
  }

  /** The signal that drives a phase hardest: full amplitude with the coefficients' signs. */
  function Worst(row: seq<int>, bound: nat): (w: seq<Sample>)
    requires |row| == TAPS && bound < 32768
    ensures |w| == TAPS && Within(w, bound)
  {
    seq(TAPS, i requires 0 <= i < TAPS => if row[i] < 0 then 0 - bound else bound)
  }

  lemma WorstTerm(c: int, bound: nat, gain: nat)
    ensures bound * gain + (if c < 0 then 0 - bound else bound) * c == bound * (gain + Abs(c))
  {
  }

  lemma {:induction false} WorstIsExact(row: seq<int>, bound: nat, k: nat)
    requires |row| == TAPS && bound < 32768 && k <= TAPS
    ensures Exact(row, Worst(row, bound), k) == bound * AbsSum(row, k)
  {
    if k > 0 {
      WorstIsExact(row, bound, k - 1);
      hide Abs;
      WorstTerm(row[k - 1], bound, AbsSum(row, k - 1));
    }
  }

  /** The largest absolute coefficient sum over the phases. */
  function Gain(ratio: nat): nat {
    if ratio == 6 then 71978 else 70524
  }

  lemma {:induction false} AbsSumUnrolled(row: seq<int>)
    requires |row| == TAPS
    ensures AbsSum(row, TAPS) ==
      Abs(row[0]) + Abs(row[1]) + Abs(row[2]) + Abs(row[3]) + Abs(row[4]) + Abs(row[5]) +
      Abs(row[6]) + Abs(row[7]) + Abs(row[8]) + Abs(row[9]) + Abs(row[10]) + Abs(row[11]) +
      Abs(row[12]) + Abs(row[13]) + Abs(row[14]) + Abs(row[15]) + Abs(row[16]) + Abs(row[17]) +
      Abs(row[18]) + Abs(row[19]) + Abs(row[20]) + Abs(row[21]) + Abs(row[22]) + Abs(row[23])
  {
    hide Abs;
    assert AbsSum(row, 1) == AbsSum(row, 0) + Abs(row[0]);
    assert AbsSum(row, 2) == AbsSum(row, 1) + Abs(row[1]);
    assert AbsSum(row, 3) == AbsSum(row, 2) + Abs(row[2]);
    assert AbsSum(row, 4) == AbsSum(row, 3) + Abs(row[3]);
    assert AbsSum(row, 5) == AbsSum(row, 4) + Abs(row[4]);
    assert AbsSum(row, 6) == AbsSum(row, 5) + Abs(row[5]);
    assert AbsSum(row, 7) == AbsSum(row, 6) + Abs(row[6]);
    assert AbsSum(row, 8) == AbsSum(row, 7) + Abs(row[7]);
    assert AbsSum(row, 9) == AbsSum(row, 8) + Abs(row[8]);
    assert AbsSum(row, 10) == AbsSum(row, 9) + Abs(row[9]);
    assert AbsSum(row, 11) == AbsSum(row, 10) + Abs(row[10]);
    assert AbsSum(row, 12) == AbsSum(row, 11) + Abs(row[11]);
    assert AbsSum(row, 13) == AbsSum(row, 12) + Abs(row[12]);
    assert AbsSum(row, 14) == AbsSum(row, 13) + Abs(row[13]);
    assert AbsSum(row, 15) == AbsSum(row, 14) + Abs(row[14]);
    assert AbsSum(row, 16) == AbsSum(row, 15) + Abs(row[15]);
    assert AbsSum(row, 17) == AbsSum(row, 16) + Abs(row[16]);
    assert AbsSum(row, 18) == AbsSum(row, 17) + Abs(row[17]);
    assert AbsSum(row, 19) == AbsSum(row, 18) + Abs(row[18]);
    assert AbsSum(row, 20) == AbsSum(row, 19) + Abs(row[19]);
    assert AbsSum(row, 21) == AbsSum(row, 20) + Abs(row[20]);
    assert AbsSum(row, 22) == AbsSum(row, 21) + Abs(row[21]);
    assert AbsSum(row, 23) == AbsSum(row, 22) + Abs(row[22]);
    assert AbsSum(row, 24) == AbsSum(row, 23) + Abs(row[23]);
  }

  lemma RowSums(ratio: nat, phase: nat)
    requires ValidRatio(ratio) && phase < ratio
    ensures AbsSum(Row(ratio, phase), TAPS) ==
            if ratio == 6 then [47690, 62181, 71978, 71978, 62181, 47690][phase] else [55423, 70524, 55423][phase]
  {
    hide AbsSum;
    if ratio == 6 {
      if phase == 0 { RowSum8K0(); }
      else if phase == 1 { RowSum8K1(); }
      else if phase == 2 { RowSum8K2(); }
      else if phase == 3 { RowSum8K3(); }
      else if phase == 4 { RowSum8K4(); }
      else { RowSum8K5(); }
    } else {
      if phase == 0 { RowSum16K0(); }
      else if phase == 1 { RowSum16K1(); }
      else { RowSum16K2(); }
    }
  }

  lemma RowSum8K0()
    ensures AbsSum(COEF_8K[0], TAPS) == 47690
  {
    hide AbsSum;
    AbsSumUnrolled(COEF_8K[0]);
  }

  lemma RowSum8K1()
    ensures AbsSum(COEF_8K[1], TAPS) == 62181
  {
    hide AbsSum;
    AbsSumUnrolled(COEF_8K[1]);
  }

  lemma RowSum8K2()
    ensures AbsSum(COEF_8K[2], TAPS) == 71978
  {
    hide AbsSum;
    AbsSumUnrolled(COEF_8K[2]);
  }

  lemma RowSum8K3()
    ensures AbsSum(COEF_8K[3], TAPS) == 71978
  {
    hide AbsSum;
    AbsSumUnrolled(COEF_8K[3]);
  }

  lemma RowSum8K4()
    ensures AbsSum(COEF_8K[4], TAPS) == 62181
  {
    hide AbsSum;
    AbsSumUnrolled(COEF_8K[4]);
  }

  lemma RowSum8K5()
    ensures AbsSum(COEF_8K[5], TAPS) == 47690
  {
    hide AbsSum;
    AbsSumUnrolled(COEF_8K[5]);
  }

  lemma RowSum16K0()
    ensures AbsSum(COEF_16K[0], TAPS) == 55423
  {
    hide AbsSum;
    AbsSumUnrolled(COEF_16K[0]);
  }

  lemma RowSum16K1()
    ensures AbsSum(COEF_16K[1], TAPS) == 70524
  {
    hide AbsSum;
    AbsSumUnrolled(COEF_16K[1]);
  }

  lemma RowSum16K2()
    ensures AbsSum(COEF_16K[2], TAPS) == 55423
  {
    hide AbsSum;
    AbsSumUnrolled(COEF_16K[2]);
  }

  /** Every partial sum of every phase fits 32 bits, for every input of amplitude `bound`. */
  ghost predicate NeverOverflows(ratio: nat, bound: nat)
    requires ValidRatio(ratio)
  {
    forall phase: nat, w: seq<Sample>, k: nat
      {:trigger Exact(Row(ratio, phase), w, k)} ::
      phase < ratio && |w| == TAPS && Within(w, bound) && k <= TAPS ==> Fits32(Exact(Row(ratio, phase), w, k))
  }

  lemma PartialSumFits(ratio: nat, phase: nat, w: seq<Sample>, k: nat, bound: nat)
    requires (ratio == 3 || ratio == 6) && phase < ratio && |w| == TAPS && Within(w, bound) && k <= TAPS
    requires bound <= if ratio == 6 then 29835 else 30450
    ensures Fits32(Exact(Row(ratio, phase), w, k))
  {
    hide Exact, Row, AbsSum;
    var row := Row(ratio, phase);
    ExactBound(row, w, k, bound);
    AbsSumGrows(row, k);
    RowSums(ratio, phase);
    Product(bound, if ratio == 6 then 29835 else 30450, AbsSum(row, k), Gain(ratio));
  }

  lemma Product(a: nat, c: nat, b: nat, d: nat)
    requires a <= c && b <= d
    ensures a * b <= c * d
  {
    assert a * b <= c * b <= c * d;
  }

  lemma WorstOverflows(ratio: nat, bound: nat)
    requires (ratio == 3 || ratio == 6) && bound < 32768
    requires bound > if ratio == 6 then 29835 else 30450
    ensures !Fits32(Exact(Row(ratio, ratio / 3), Worst(Row(ratio, ratio / 3), bound), TAPS))
  {
    hide Exact, Row, AbsSum, Worst;
    RowSums(ratio, ratio / 3);
    WorstIsExact(Row(ratio, ratio / 3), bound, TAPS);
    Product(if ratio == 6 then 29836 else 30451, bound, Gain(ratio), Gain(ratio));
  }

  /** The amplitudes for which the 32-bit accumulator is safe, exactly. */
  lemma NeverOverflowsIff(ratio: nat, bound: nat)
    requires (ratio == 3 || ratio == 6) && bound < 32768
    ensures NeverOverflows(ratio, bound) <==> bound <= if ratio == 6 then 29835 else 30450
  {
    hide Exact, Row, AbsSum, Worst;
    if bound <= if ratio == 6 then 29835 else 30450 {
      forall phase: nat, w: seq<Sample>, k: nat | phase < ratio && |w| == TAPS && Within(w, bound) && k <= TAPS
        ensures Fits32(Exact(Row(ratio, phase), w, k))
      {
        PartialSumFits(ratio, phase, w, k, bound);
      }
    } else {
      WorstOverflows(ratio, bound);
    }
  }

  /** Below that amplitude the routine computes the exact convolution, scaled and rounded down. */
  lemma OutputIsExact(ratio: nat, phase: nat, w: seq<Sample>, bound: nat)
    requires (ratio == 3 || ratio == 6) && phase < ratio && |w| == TAPS && Within(w, bound)
    requires bound <= if ratio == 6 then 29835 else 30450
    ensures Output(Row(ratio, phase), w) == Exact(Row(ratio, phase), w, TAPS) / 0x1_0000
  {
    hide Exact, Row, Accumulate;
    NeverOverflowsIff(ratio, bound);
    AccumulateIsExact(Row(ratio, phase), w, TAPS);
  }
}
