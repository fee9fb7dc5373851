/** The check byte of the pairing adverts: `crc8_cal` of apps/btspeaker/btspeaker_main.cpp, and what
the two advert handlers' test of it detects.

Bits are numbered as the routine consumes them: byte by byte, the high bit first.
*/
module Crc8 {

  type Bytes = seq<bv8>

  /** Addition of bit patterns. */
  function Plus(a: bv8, b: bv8): bv8 {
    a ^ b
  }

  /** One round of the inner loop. */
  function Shift(c: bv8): bv8 {
    if c & 0x80 != 0 then (c << 1) ^ 0x07 else c << 1
  }

  function Shifts(c: bv8, n: nat): bv8 {
    if n == 0 then c else Shift(Shifts(c, n - 1))
  }

  /** One byte's worth: eight rounds. */
  function Step(c: bv8): bv8 {
    Shift(Shift(Shift(Shift(Shift(Shift(Shift(Shift(c))))))))
  }

  /** The register after a whole frame has gone through it. */
  function Crc(data: Bytes): bv8 {
    if data == [] then 0 else Step(Plus(Crc(data[..|data| - 1]), data[|data| - 1]))
  }

  method Calculate(data: Bytes) returns (crc: bv8)
    ensures crc == Crc(data)
  {
    hide Shift, Step;
    crc := 0;
    for k := 0 to |data|
      invariant crc == Crc(data[..k])
    {
      assert data[..k + 1][..k] == data[..k];
      crc := crc ^ data[k];
      crc := EightRounds(crc);
    }
    assert data[..|data|] == data;
  }

  method EightRounds(start: bv8) returns (crc: bv8)
    ensures crc == Step(start)
  {
    hide Shift;
    crc := start;
    for i := 0 to 8
      invariant crc == Shifts(start, i)
    {
      crc := Round(crc);
    }
    StepIsEightShifts(start);
  }

  method Round(c: bv8) returns (crc: bv8)
    ensures crc == Shift(c)
  {
    crc := c;
    if crc & 0x80 != 0 {
      crc := (crc << 1) ^ 0x07;
    } else {
      crc := crc << 1;
    }
  }

  lemma StepIsEightShifts(c: bv8)
    ensures Shifts(c, 8) == Step(c)
  {
    hide Shift;
    assert Shifts(c, 1) == Shift(c);
    assert Shifts(c, 2) == Shift(Shifts(c, 1));
    assert Shifts(c, 3) == Shift(Shifts(c, 2));
    assert Shifts(c, 4) == Shift(Shifts(c, 3));
    assert Shifts(c, 5) == Shift(Shifts(c, 4));
    assert Shifts(c, 6) == Shift(Shifts(c, 5));
    assert Shifts(c, 7) == Shift(Shifts(c, 6));
    assert Shifts(c, 8) == Shift(Shifts(c, 7));
  }

  // ---------------------------------------------------------------- algebra of the register

  lemma DoubleXor(a: bv8, b: bv8)
    ensures (a ^ b) << 1 == (a << 1) ^ (b << 1)
    ensures (a ^ b) & 0x80 == (a & 0x80) ^ (b & 0x80)
  {
  }

  lemma TopBit(a: bv8)
    ensures a & 0x80 == 0 || a & 0x80 == 0x80
  {
  }

  lemma Cancel7(a: bv8, b: bv8)
    ensures (a ^ 0x07) ^ b == (a ^ b) ^ 0x07
    ensures a ^ (b ^ 0x07) == (a ^ b) ^ 0x07
    ensures (a ^ 0x07) ^ (b ^ 0x07) == a ^ b
  {
  }

  lemma ShiftXor(a: bv8, b: bv8)
    ensures Shift(Plus(a, b)) == Plus(Shift(a), Shift(b))
  {
    DoubleXor(a, b);
    TopBit(a);
    TopBit(b);
    Cancel7(a << 1, b << 1);
  }

  lemma StepXor(a: bv8, b: bv8)
    ensures Step(Plus(a, b)) == Plus(Step(a), Step(b))
  {
    hide Shift, Plus;
    ShiftXor(a, b);
    var a1, b1 := Shift(a), Shift(b);
    ShiftXor(a1, b1);
    var a2, b2 := Shift(a1), Shift(b1);
    ShiftXor(a2, b2);
    var a3, b3 := Shift(a2), Shift(b2);
    ShiftXor(a3, b3);
    var a4, b4 := Shift(a3), Shift(b3);
    ShiftXor(a4, b4);
    var a5, b5 := Shift(a4), Shift(b4);
    ShiftXor(a5, b5);
    var a6, b6 := Shift(a5), Shift(b5);
    ShiftXor(a6, b6);
    ShiftXor(Shift(a6), Shift(b6));
  }

  /** Only zero steps to zero. */
  lemma StepIsInjectiveAtZero(a: bv8)
    ensures Step(a) == 0 <==> a == 0
  {
  }

  function Xor(a: Bytes, b: Bytes): (r: Bytes)
    requires |a| == |b|
    ensures |r| == |a| && forall i :: 0 <= i < |r| ==> r[i] == Plus(a[i], b[i])
  {
    seq(|a|, i requires 0 <= i < |a| => Plus(a[i], b[i]))
  }

  /** The register is linear: an error pattern acts on it independently of the data. */
  lemma {:induction false} CrcXor(a: Bytes, b: Bytes)
    requires |a| == |b|
    ensures Crc(Xor(a, b)) == Plus(Crc(a), Crc(b))
  {
    hide Step, Plus;
    if a != [] {
      var n := |a| - 1;
      var ca, cb, x, y := Crc(a[..n]), Crc(b[..n]), a[n], b[n];
      CrcXor(a[..n], b[..n]);
      assert Xor(a, b)[..n] == Xor(a[..n], b[..n]);
      StepXor(Plus(ca, x), Plus(cb, y));
      Shuffle(ca, cb, x, y);
    } else {
      PlusZero(0, 0);
    }
  }

  lemma Shuffle(a: bv8, b: bv8, x: bv8, y: bv8)
    ensures Plus(Plus(a, b), Plus(x, y)) == Plus(Plus(a, x), Plus(b, y))
  {
    hide Plus;
    PlusAssociates(a, b, Plus(x, y));
    PlusAssociates(b, x, y);
    PlusCommutes(b, x);
    PlusAssociates(x, b, y);
    PlusAssociates(a, x, Plus(b, y));
  }

  lemma PlusAssociates(a: bv8, b: bv8, c: bv8)
    ensures Plus(Plus(a, b), c) == Plus(a, Plus(b, c))
  {
  }

  lemma PlusCommutes(a: bv8, b: bv8)
    ensures Plus(a, b) == Plus(b, a)
  {
  }

  /** A frame is accepted when its last byte is the check byte of the rest. */
  predicate Accepted(frame: Bytes)
    requires frame != []
  {
    frame[|frame| - 1] == Crc(frame[..|frame| - 1])
  }

  /** Acceptance is residue zero. */
  lemma AcceptedIsResidueZero(frame: Bytes)
    requires frame != []
    ensures Accepted(frame) <==> Crc(frame) == 0
  {
    hide Step, Plus;
    var c, x := Crc(frame[..|frame| - 1]), frame[|frame| - 1];
    StepIsInjectiveAtZero(Plus(c, x));
    PlusZero(c, x);
  }

  lemma PlusZero(a: bv8, b: bv8)
    ensures Plus(a, b) == 0 <==> a == b
    ensures Plus(a, 0) == a && Plus(0, a) == a
  {
  }

  // ---------------------------------------------------------------- bursts

  /** The error pattern changes something, and nothing outside the eight bits that begin at bit `k`
      of byte `i`: the low bits of that byte and the high bits of the next. */
  predicate Burst(e: Bytes, i: nat, k: bv8) {
    && i < |e| && k < 8
    && (forall j :: 0 <= j < |e| && j != i && j != i + 1 ==> e[j] == 0)
    && e[i] & !(0xff >> k) == 0
    && (i + 1 < |e| ==> e[i + 1] & (0xff >> k) == 0)
    && (e[i] != 0 || (i + 1 < |e| && e[i + 1] != 0))
  }

  /** Two bytes of at most eight neighbouring bits never cancel in the register. */
  lemma PairDoesNotCancel(x: bv8, y: bv8, k: bv8)
    requires k < 8 && x & !(0xff >> k) == 0 && y & (0xff >> k) == 0
    requires x != 0 || y != 0
    ensures Plus(Step(x), y) != 0
  {
  }

  lemma {:induction false} ZerosKeepZero(e: Bytes)
    requires forall j :: 0 <= j < |e| ==> e[j] == 0
    ensures Crc(e) == 0
  {
    hide Step;
    if e != [] {
      ZerosKeepZero(e[..|e| - 1]);
      PlusZero(0, 0);
      StepIsInjectiveAtZero(0);
    }
  }

  lemma {:induction false} BurstHasResidue(e: Bytes, i: nat, k: bv8)
    requires Burst(e, i, k)
    ensures Crc(e) != 0
  {
    hide Step, Plus;
    var n := |e| - 1;
    var c, x := Crc(e[..n]), e[n];
    PlusZero(c, x);
    StepIsInjectiveAtZero(Plus(c, x));
    if i == n {
      ZerosKeepZero(e[..n]);
    } else if i + 1 == n {
      var b := Crc(e[..i]);
      ZerosKeepZero(e[..i]);
      PlusZero(e[i], b);
      var front := e[..n];
      assert front[..|front| - 1] == e[..i] && front[|front| - 1] == e[i];
      assert c == Step(e[i]);
      PairDoesNotCancel(e[i], x, k);
    } else {
      BurstHasResidue(e[..n], i, k);
    }
  }

  /** No change confined to eight neighbouring bits of an accepted frame, check byte included, goes
      unnoticed, whatever the frame's length. */
  lemma BurstIsDetected(frame: Bytes, e: Bytes, i: nat, k: bv8)
    requires frame != [] && Accepted(frame)
    requires |e| == |frame| && Burst(e, i, k)
    ensures !Accepted(Xor(frame, e))
  {
    AcceptedIsResidueZero(frame);
    AcceptedIsResidueZero(Xor(frame, e));
    CrcXor(frame, e);
    BurstHasResidue(e, i, k);
    PlusZero(0, Crc(e));
  }

  /** More than detection of a burst: which error patterns pass is known exactly. */
  lemma PassesIff(frame: Bytes, e: Bytes)
    requires frame != [] && Accepted(frame) && |e| == |frame|
    ensures Accepted(Xor(frame, e)) <==> Crc(e) == 0
  {
    AcceptedIsResidueZero(frame);
    AcceptedIsResidueZero(Xor(frame, e));
    CrcXor(frame, e);
    PlusZero(0, Crc(e));
  }

  /** Eight is the most: the nine-bit pattern of the generator itself passes. */
  lemma NineBitsCanPass(frame: Bytes)
    requires |frame| == 2 && Accepted(frame)
    ensures Accepted(Xor(frame, [0x01, 0x07]))
  {
    PassesIff(frame, [0x01, 0x07]);
    var e: Bytes := [0x01, 0x07];
    var one: Bytes := [0x01];
    assert e[..1] == one && one[..0] == [];
    assert Crc(one) == Step(Plus(0, 0x01));
    assert Crc(e) == Step(Plus(Step(0x01), 0x07));
  }
}
