/** The two cores running at once on the encoded-data cache (apps/audioplayers/a2dpplay.cpp).

One step here is one thing a core does to shared memory: read the other side's position, copy one
byte, publish its own position.  Steps of the Bluetooth thread, the MCU and the co-processor
interleave freely.  `A2dpInCache` proves what each side's code computes; this module proves that
the interleaving is harmless and that AAC packets survive it.
*/
module A2dpInterleaving {
  import opened Ring
  import opened AacFraming
  import opened A2dpInCache

  /** Where the MCU is inside `mcu_load_a2dp_encoded_data`. */
  datatype Mcu =
    | McuIdle
    | Snapped(r: nat)                                                // `cp_in_rpos` has been read
    | Copying(at: nat, k: nat, n: nat)                               // k of the n peeked bytes are in the ring
    | Published(n: nat)                                              // `cp_in_wpos` is written, DeCQueue is not

  /** Where the co-processor is inside a load. */
  datatype Cp =
    | CpIdle
    | Reading(w: nat, at: nat, got: seq<Byte>)                       // `cp_in_wpos` has been read

  datatype State = State(
    mem: seq<Byte>,              // cp_in_cache
    wpos: nat,
    rpos: nat,
    queue: seq<Byte>,            // sbc_queue
    mcu: Mcu,
    cp: Cp,
    stored: seq<Byte>,           // everything ever put into sbc_queue
    taken: seq<Byte>)            // everything the co-processor has taken out of the cache

  datatype Step =
    | Store(bytes: seq<Byte>)    // the Bluetooth side, under the queue lock
    | McuSnap | McuPeek | McuByte | McuPublish | McuDequeue
    | CpSnap | CpByte | CpFinish(n: nat)

  predicate WellFormed(s: State) {
    s.rpos < |s.mem| && s.wpos < |s.mem|
  }

  /** The unread bytes: those between the published positions. */
  function Unread(s: State): seq<Byte>
    requires WellFormed(s)
  {
    Stretch(s.mem, s.rpos, DataLen(|s.mem|, s.wpos, s.rpos))
  }

  // ---------------------------------------------------------------- steps

  predicate Enabled(s: State, step: Step)
    requires WellFormed(s)
  {
    match step
    case Store(_) => true
    case McuSnap => s.mcu.McuIdle?
    case McuPeek => s.mcu.Snapped? && s.mcu.r < |s.mem|
    case McuByte => s.mcu.Copying? && s.mcu.k < s.mcu.n <= |s.queue| && s.mcu.at < |s.mem|
    case McuPublish => s.mcu.Copying? && s.mcu.k == s.mcu.n && s.mcu.at < |s.mem|
    case McuDequeue => s.mcu.Published? && s.mcu.n <= |s.queue|
    case CpSnap => s.cp.CpIdle?
    case CpByte => s.cp.Reading? && s.cp.at != s.cp.w && s.cp.at < |s.mem|
    case CpFinish(n) => s.cp.Reading? && n <= |s.cp.got| <= |s.mem|
  }

  function Next(s: State, step: Step): (s': State)
    requires WellFormed(s) && Enabled(s, step)
    ensures WellFormed(s') && |s'.mem| == |s.mem|
  {
    var size := |s.mem|;
    match step
    case Store(bytes) => s.(queue := s.queue + bytes, stored := s.stored + bytes)
    case McuSnap => s.(mcu := Snapped(s.rpos))
    case McuPeek =>
      var room := FreeLen(size, s.wpos, s.mcu.r);
      s.(mcu := if room == 0 then McuIdle else Copying(s.wpos, 0, Min(|s.queue|, room)))
    case McuByte =>
      s.(mem := s.mem[s.mcu.at := s.queue[s.mcu.k]],
         mcu := Copying(Advance(size, s.mcu.at, 1), s.mcu.k + 1, s.mcu.n))
    case McuPublish => s.(wpos := s.mcu.at, mcu := Published(s.mcu.n))
    case McuDequeue => s.(queue := s.queue[s.mcu.n..], mcu := McuIdle)
    case CpSnap => s.(cp := Reading(s.wpos, s.rpos, []))
    case CpByte =>
      s.(cp := Reading(s.cp.w, Advance(size, s.cp.at, 1), s.cp.got + [s.mem[s.cp.at]]))
    case CpFinish(n) =>
      s.(rpos := Advance(size, s.rpos, n), taken := s.taken + s.cp.got[..n], cp := CpIdle)
  }

  function Init(mem: seq<Byte>): State
  {
    State(mem, 0, 0, [], McuIdle, CpIdle, [], [])
  }

  // ---------------------------------------------------------------- the invariant

  /** The MCU may be working with an old read position, yet the bytes it still has to write fit
      into what is free now, and nothing it has written counts as read or unread yet. */
  predicate McuInv(s: State)
    requires WellFormed(s)
  {
    var size, n := |s.mem|, DataLen(|s.mem|, s.wpos, s.rpos);
    match s.mcu
    case McuIdle => true
    case Snapped(r) => r < size && FreeLen(size, s.wpos, r) <= size - 1 - n
    case Copying(at, k, todo) =>
      && k <= todo <= |s.queue|
      && n + todo < size
      && at == Advance(size, s.wpos, k)
      && Stretch(s.mem, s.wpos, k) == s.queue[..k]
    case Published(k) => k <= |s.queue|
  }

  /** What the co-processor has read is the head of what is unread. */
  predicate CpInv(s: State)
    requires WellFormed(s)
  {
    var size, n := |s.mem|, DataLen(|s.mem|, s.wpos, s.rpos);
    match s.cp
    case CpIdle => true
    case Reading(w, at, got) =>
      && w < size
      && |got| <= DataLen(size, w, s.rpos) <= n
      && at == Advance(size, s.rpos, |got|)
      && got == Stretch(s.mem, s.rpos, |got|)
  }

  /** Bytes published to the ring but not yet dropped from the queue are in both. */
  function Behind(s: State): seq<Byte> {
    if s.mcu.Published? && s.mcu.n <= |s.queue| then s.queue[s.mcu.n..] else s.queue
  }

  predicate Inv(s: State) {
    && WellFormed(s)
    && McuInv(s)
    && CpInv(s)
    && s.stored == s.taken + Unread(s) + Behind(s)
  }

  // ---------------------------------------------------------------- one step at a time

  lemma McuByteKeepsUnread(s: State)
    requires Inv(s) && Enabled(s, McuByte)
    ensures Inv(Next(s, McuByte))
    ensures Unread(Next(s, McuByte)) == Unread(s)
  {
    hide Stretch, Advance, DataLen, FreeLen;
    var size, n := |s.mem|, DataLen(|s.mem|, s.wpos, s.rpos);
    var s' := Next(s, McuByte);
    var Copying(at, k, todo) := s.mcu;
    assert Unread(s') == Unread(s) by {
      WriteBehind(s.mem, s.rpos, n, k, s.queue[k]);
    }
    assert McuInv(s') by {
      hide Unread, CpInv, Behind;
      WriteBehind(s.mem, s.wpos, k, 0, s.queue[k]);
      AdvanceAdvance(size, s.wpos, k, 0);
      AdvanceAdvance(size, s.wpos, k, 1);
    }
    if s.cp.Reading? {
      StretchDrop(s.mem, s.rpos, n, |s.cp.got|);
      StretchDrop(s'.mem, s.rpos, n, |s.cp.got|);
    }
  }

  /** One byte written `k` places behind a stretch leaves the stretch alone; written directly
      behind, it extends it. */
  lemma WriteBehind(b: seq<Byte>, start: nat, n: nat, k: nat, x: Byte)
    requires start < |b| && n + k < |b|
    ensures var at := Advance(|b|, Advance(|b|, start, n), k);
            && Stretch(b[at := x], start, n) == Stretch(b, start, n)
            && (k == 0 ==> Stretch(b[at := x], start, n + 1) == Stretch(b, start, n) + [x])
  {
    AdvanceAdvance(|b|, start, n, k);
    var at := Advance(|b|, start, n + k);
    forall i | 0 <= i < n
      ensures Advance(|b|, start, i) != at
    {
    }
  }

  lemma McuPublishExtendsUnread(s: State)
    requires Inv(s) && Enabled(s, McuPublish)
    ensures Inv(Next(s, McuPublish))
    ensures Unread(Next(s, McuPublish)) == Unread(s) + s.queue[..s.mcu.n]
  {
    hide Stretch, Advance, DataLen, FreeLen;
    var size, n := |s.mem|, DataLen(|s.mem|, s.wpos, s.rpos);
    var s' := Next(s, McuPublish);
    var k := s.mcu.n;
    AdvanceAdvance(size, s.rpos, n, k);
    Unique(size, s.rpos, n + k);
    StretchConcat(s.mem, s.rpos, n, k);
    Regroup(s.taken, Unread(s), s.queue[..k], s.queue);
  }

  lemma Regroup(t: seq<Byte>, u: seq<Byte>, done: seq<Byte>, queue: seq<Byte>)
    requires done <= queue
    ensures t + u + queue == t + (u + done) + queue[|done|..]
  {
    assert queue == done + queue[|done|..];
  }

  /** The distance between two positions determines, and is determined by, the second. */
  lemma Unique(size: nat, rpos: nat, n: nat)
    requires rpos < size && n < size
    ensures DataLen(size, Advance(size, rpos, n), rpos) == n
  {
  }

  lemma CpByteReadsNext(s: State)
    requires Inv(s) && Enabled(s, CpByte)
    ensures Inv(Next(s, CpByte))
    ensures s.cp.got < Unread(s) && Next(s, CpByte).cp.got <= Unread(s)
  {
    hide Stretch;
    var size, n := |s.mem|, DataLen(|s.mem|, s.wpos, s.rpos);
    var s' := Next(s, CpByte);
    var k := |s.cp.got|;
    AdvanceAdvance(size, s.rpos, k, 1);
    StretchDrop(s.mem, s.rpos, k + 1, k);
    var u := Stretch(s.mem, s.rpos, k + 1);
    assert u == u[..k] + [u[k]];
    StretchDrop(s.mem, s.rpos, n, k + 1);
    StretchDrop(s.mem, s.rpos, n, k);
  }

  lemma CpFinishTakes(s: State, n: nat)
    requires Inv(s) && Enabled(s, CpFinish(n))
    ensures Inv(Next(s, CpFinish(n)))
    ensures s.cp.got[..n] + Unread(Next(s, CpFinish(n))) == Unread(s)
  {
    hide Stretch, Advance, DataLen, FreeLen;
    var size, v := |s.mem|, DataLen(|s.mem|, s.wpos, s.rpos);
    var s' := Next(s, CpFinish(n));
    AdvanceAdvance(size, s.rpos, n, v - n);
    Unique(size, s'.rpos, v - n);
    assert McuInv(s') by {
      hide Unread, CpInv, Behind;
      FreeLenIs(size, s.wpos, s.rpos);
    }
    assert s.cp.got[..n] + Unread(s') == Unread(s) by {
      hide McuInv, Behind;
      StretchConcat(s.mem, s.rpos, n, v - n);
      StretchDrop(s.mem, s.rpos, |s.cp.got|, n);
    }
    assert s.taken + (s.cp.got[..n] + Unread(s')) == s'.taken + Unread(s');
  }

  lemma FreeLenIs(size: nat, wpos: nat, rpos: nat)
    requires wpos < size && rpos < size
    ensures FreeLen(size, wpos, rpos) == size - 1 - DataLen(size, wpos, rpos)
  {
  }

  /** Every step of every party keeps the invariant. */
  lemma StepKeepsInv(s: State, step: Step)
    requires Inv(s) && Enabled(s, step)
    ensures Inv(Next(s, step))
  {
    hide Stretch;
    match step
    case McuByte => McuByteKeepsUnread(s);
    case McuPublish => McuPublishExtendsUnread(s);
    case CpByte => CpByteReadsNext(s);
    case CpFinish(n) => CpFinishTakes(s, n);
    case Store(bytes) => StoreKeepsInv(s, bytes);
    case McuSnap =>
    case McuPeek => Unique(|s.mem|, s.wpos, 0);
    case McuDequeue =>
    case CpSnap =>
  }

  lemma StoreKeepsInv(s: State, bytes: seq<Byte>)
    requires Inv(s)
    ensures Inv(Next(s, Store(bytes)))
  {
    hide Stretch, Advance, DataLen, FreeLen;
    var s' := Next(s, Store(bytes));
    assert McuInv(s') by {
      hide Unread, CpInv, Behind;
      assert forall k :: 0 <= k <= |s.queue| ==> (s.queue + bytes)[..k] == s.queue[..k];
    }
    assert s'.stored == s'.taken + Unread(s') + Behind(s') by {
      hide McuInv, CpInv;
      assert Behind(s') == Behind(s) + bytes;
      Associate(s.taken, Unread(s), Behind(s), bytes);
    }
  }

  lemma Associate(a: seq<Byte>, b: seq<Byte>, c: seq<Byte>, d: seq<Byte>)
    ensures a + b + c + d == a + b + (c + d)
  {
  }

  // ---------------------------------------------------------------- whole runs

  predicate Legal(s: State, steps: seq<Step>)
    decreases |steps|
  {
    steps == [] || (WellFormed(s) && Enabled(s, steps[0]) && Legal(Next(s, steps[0]), steps[1..]))
  }

  function Exec(s: State, steps: seq<Step>): State
    requires Legal(s, steps)
    decreases |steps|
  {
    if steps == [] then s else Exec(Next(s, steps[0]), steps[1..])
  }

  lemma {:induction false} RunKeepsInv(s: State, steps: seq<Step>)
    requires Inv(s) && Legal(s, steps)
    ensures Inv(Exec(s, steps))
    decreases |steps|
  {
    hide Inv, Next, Enabled, Unread, Behind;
    if steps != [] {
      StepKeepsInv(s, steps[0]);
      RunKeepsInv(Next(s, steps[0]), steps[1..]);
    }
  }

  /** From an empty cache of any size, over every interleaving: the ring never holds more than
      its capacity, what the co-processor has taken is exactly the head of what was stored, what it
      is looking at comes next, and the rest is still on its way in order. */
  lemma RunIsFifo(mem: seq<Byte>, steps: seq<Step>)
    requires mem != [] && Legal(Init(mem), steps)
    ensures var s := Exec(Init(mem), steps);
            && WellFormed(s)
            && |Unread(s)| <= |s.mem| - 1
            && s.stored == s.taken + Unread(s) + Behind(s)
            && (s.cp.Reading? ==> s.taken + s.cp.got <= s.stored)
  {
    hide Stretch, Next, Enabled;
    RunKeepsInv(Init(mem), steps);
    var s := Exec(Init(mem), steps);
    if s.cp.Reading? {
      StretchDrop(s.mem, s.rpos, |Unread(s)|, |s.cp.got|);
    }
  }
}
