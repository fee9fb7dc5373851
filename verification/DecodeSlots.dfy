/** The three-slot hand-off of decoded PCM between the cores (apps/audioplayers/a2dpplay.cpp).

The co-processor decodes into the slot at `cp_dec_idx`, the MCU plays the slot at `mcu_dec_idx`;
there is no lock, only the four slot states.  A step below is one shared-memory action of one core,
and the cores' steps interleave freely.
*/
module DecodeSlots {

  type Sample = int
  type Pcm = seq<Sample>

  datatype SlotState = Idle | Working | Done | Failed

  datatype Cp =
    | CpIdle
    | Decoding(w: nat, n: nat)             // n samples written so far, from position w on

  datatype Mcu =
    | McuIdle
    | Missed                               // nothing to play was seen; the slot state is read once more
    | Playing(got: Pcm)                    // samples copied so far from the slot at mcuIdx

  /** A decoded frame whose slot the MCU has given back: whether it was played, and whether the slot's
      recorded length was that of one frame. */
  datatype Release = Release(frame: Pcm, played: bool, whole: bool)

  datatype State = State(
    size: nat,                             // cp_out_loop_size
    out: Pcm,                              // cp_out_cache
    st: seq<SlotState>,                    // cp_dec_state
    len: seq<nat>,                         // cp_out_len
    cpIdx: nat,                            // cp_dec_idx
    mcuIdx: nat,                           // mcu_dec_idx
    cp: Cp,
    mcu: Mcu,
    good: seq<Pcm>,                        // frames whose decoding ended in DONE
    released: seq<Release>)

  datatype Step = CpBegin | CpWrite(d: Pcm) | CpEnd(retry: bool) | McuLook | McuExit | McuCopy | McuRelease

  function Rot(i: nat): nat {
    if i + 1 >= 3 then 0 else i + 1
  }

  /** `size * i`, where slot `i` starts. */
  function Base(size: nat, i: nat): nat {
    if i == 0 then 0 else if i == 1 then size else 2 * size
  }

  predicate WellFormed(s: State) {
    && s.size > 0 && 3 * s.size <= |s.out|
    && |s.st| == |s.len| == 3
    && s.cpIdx < 3 && s.mcuIdx < 3
  }

  function Slot(size: nat, out: Pcm, i: nat): (p: Pcm)
    requires i < 3 && 3 * size <= |out|
    ensures |p| == size
  {
    out[Base(size, i)..Base(size, i) + size]
  }

  predicate Pending(s: State, i: nat)
    requires WellFormed(s) && i < 3
  {
    s.st[i].Done? || s.st[i].Failed?
  }

  // ---------------------------------------------------------------- steps

  /** Where a decode attempt starts inside its slot: behind what an earlier attempt left there. */
  function Resume(s: State): nat
    requires WellFormed(s)
  {
    if s.st[s.cpIdx].Working? && s.len[s.cpIdx] < s.size then s.len[s.cpIdx] else 0
  }

  predicate Enabled(s: State, step: Step)
    requires WellFormed(s)
  {
    match step
    case CpBegin => s.cp.CpIdle?
    case CpWrite(d) =>
      s.cp.Decoding? && s.cp.n + |d| <= s.size && s.cp.w + s.cp.n + |d| <= |s.out|
    case CpEnd(retry) => s.cp.Decoding? && s.cp.w + s.cp.n <= |s.out| && (retry ==> s.cp.n < s.size)
    case McuLook => s.mcu.McuIdle?
    case McuExit => s.mcu.Missed?
    case McuCopy => s.mcu.Playing? && |s.mcu.got| < s.size
    case McuRelease => s.mcu.Playing? && |s.mcu.got| == s.size
  }

  /** What is given back without having been played. */
  function Unplayed(s: State): Release
    requires WellFormed(s)
  {
    Release(Slot(s.size, s.out, s.mcuIdx), false, s.len[s.mcuIdx] == s.size)
  }

  function Next(s: State, step: Step): (s': State)
    requires WellFormed(s) && Enabled(s, step)
    ensures WellFormed(s') && s'.size == s.size
  {
    match step
    case CpBegin =>
      if Pending(s, s.cpIdx) then s
      else
        var off := Resume(s);
        s.(st := s.st[s.cpIdx := Working],
           len := if s.st[s.cpIdx].Idle? || s.len[s.cpIdx] >= s.size then s.len[s.cpIdx := 0] else s.len,
           cp := Decoding(Base(s.size, s.cpIdx) + off, 0))
    case CpWrite(d) =>
      var at := s.cp.w + s.cp.n;
      s.(out := s.out[..at] + d + s.out[at + |d|..], cp := Decoding(s.cp.w, s.cp.n + |d|))
    case CpEnd(retry) =>
      var n := s.cp.n;
      var s' := s.(len := s.len[s.cpIdx := s.len[s.cpIdx] + n], cp := CpIdle);
      if retry then s'
      else
        s'.(st := s.st[s.cpIdx := if n == s.size then Done else Failed],
            good := if n == s.size then s.good + [s.out[s.cp.w..s.cp.w + n]] else s.good,
            cpIdx := Rot(s.cpIdx))
    case McuLook =>
      s.(mcu := if s.st[s.mcuIdx].Done? && s.len[s.mcuIdx] == s.size then Playing([]) else Missed)
    case McuExit =>
      if Pending(s, s.mcuIdx) then
        s.(st := s.st[s.mcuIdx := Idle], mcuIdx := Rot(s.mcuIdx), mcu := McuIdle,
           released := if s.st[s.mcuIdx].Done? then s.released + [Unplayed(s)] else s.released)
      else s.(mcu := McuIdle)
    case McuCopy =>
      s.(mcu := Playing(s.mcu.got + [s.out[Base(s.size, s.mcuIdx) + |s.mcu.got|]]))
    case McuRelease =>
      s.(st := s.st[s.mcuIdx := Idle], mcuIdx := Rot(s.mcuIdx),
         released := s.released + [Release(s.mcu.got, true, true)], mcu := McuIdle)
  }

  /** After `mcu_decode_a2dp_init`: the slots from `first` on count as decoded already. */
  predicate IsInit(s: State, first: nat) {
    && WellFormed(s) && 1 <= first <= 2
    && s.st == [Idle, if first == 1 then Done else Idle, Done]
    && s.len == [0, if first == 1 then s.size else 0, s.size]
    && s.cpIdx == 0 && s.mcuIdx == first
    && s.cp.CpIdle? && s.mcu.McuIdle? && s.good == [] && s.released == []
  }

  // ---------------------------------------------------------------- slot order

  /** The slots from `mcu_dec_idx` round to `cp_dec_idx` are exactly those waiting for the MCU. */
  predicate Order(s: State) {
    && WellFormed(s)
    && var a := s.mcuIdx; var b := Rot(a); var c := Rot(b);
    && (Pending(s, c) ==> Pending(s, b)) && (Pending(s, b) ==> Pending(s, a))
    && s.cpIdx == (if !Pending(s, a) then a else if !Pending(s, b) then b else if !Pending(s, c) then c else a)
    && (forall i :: 0 <= i < 3 && s.st[i].Working? ==> i == s.cpIdx)
    && (s.cp.Decoding? ==> s.st[s.cpIdx].Working?)
    && (s.mcu.Playing? ==> s.st[a].Done? && s.len[a] == s.size && |s.mcu.got| <= s.size)
  }

  /** Kept by every step of every run, whatever the decoder does; in particular the slot being
      played is never the slot being decoded into. */
  lemma StepKeepsOrder(s: State, step: Step)
    requires Order(s) && Enabled(s, step)
    ensures Order(Next(s, step))
    ensures s.cp.Decoding? && s.mcu.Playing? ==> s.cpIdx != s.mcuIdx
  {
    hide Slot, Resume, Base;
    match step
    case CpEnd(retry) => EndKeepsOrder(s, retry);
    case McuExit => ExitKeepsOrder(s);
    case McuRelease => GiveBackKeepsOrder(s);
    case _ =>
  }

  lemma EndKeepsOrder(s: State, retry: bool)
    requires Order(s) && Enabled(s, CpEnd(retry))
    ensures Order(Next(s, CpEnd(retry)))
  {
    hide Slot, Resume, Base;
  }

  lemma ExitKeepsOrder(s: State)
    requires Order(s) && Enabled(s, McuExit)
    ensures Order(Next(s, McuExit))
  {
    hide Slot, Resume, Base;
  }

  lemma GiveBackKeepsOrder(s: State)
    requires Order(s) && Enabled(s, McuRelease)
    ensures Order(Next(s, McuRelease))
  {
    hide Slot, Resume, Base;
  }

  /** A decode attempt goes on where the slot's recorded length says, in every run, also when earlier
      attempts at the slot have left samples there. */
  predicate Places(s: State) {
    && Order(s)
    && (s.cp.Decoding? ==>
          && s.len[s.cpIdx] < s.size
          && s.cp.w == Base(s.size, s.cpIdx) + s.len[s.cpIdx]
          && s.cp.n <= s.size)
  }

  lemma StepKeepsPlaces(s: State, step: Step)
    requires Places(s) && Enabled(s, step)
    ensures Places(Next(s, step))
  {
    StepKeepsOrder(s, step);
    hide Order, Slot;
  }

  // ---------------------------------------------------------------- contents

  /** What the decoder writes stays in its slot.  A fresh attempt always does; one that resumes a
      partly filled slot need not, since `cp_a2dp_main` offers it the whole slot size. */
  predicate InSlot(s: State, step: Step) {
    step.CpWrite? && s.cp.Decoding? ==> s.cp.w + s.cp.n + |step.d| <= Base(s.size, s.cpIdx) + s.size
  }

  lemma OnlyResumedLeavesSlot(s: State, d: Pcm)
    requires Places(s) && Enabled(s, CpWrite(d)) && !InSlot(s, CpWrite(d))
    ensures s.len[s.cpIdx] > 0
  {
  }

  function Keep(s: State, i: nat): seq<Pcm>
    requires WellFormed(s) && i < 3
  {
    if s.st[i].Done? then [Slot(s.size, s.out, i)] else []
  }

  /** The decoded frames waiting for the MCU, oldest first. */
  function Held(s: State): seq<Pcm>
    requires WellFormed(s)
  {
    Keep(s, s.mcuIdx) + Keep(s, Rot(s.mcuIdx)) + Keep(s, Rot(Rot(s.mcuIdx)))
  }

  function Frames(rs: seq<Release>): seq<Pcm> {
    if rs == [] then [] else Frames(rs[..|rs| - 1]) + [rs[|rs| - 1].frame]
  }

  function Played(rs: seq<Release>): seq<Pcm> {
    if rs == [] then []
    else Played(rs[..|rs| - 1]) + if rs[|rs| - 1].played then [rs[|rs| - 1].frame] else []
  }

  function Skipped(rs: seq<Release>): (n: nat)
    ensures n == 0 ==> Played(rs) == Frames(rs)
  {
    if rs == [] then 0 else Skipped(rs[..|rs| - 1]) + if rs[|rs| - 1].played then 0 else 1
  }

  function Rejected(rs: seq<Release>): nat {
    if rs == [] then 0 else Rejected(rs[..|rs| - 1]) + if rs[|rs| - 1].whole then 0 else 1
  }

  lemma ReleaseSnoc(rs: seq<Release>, r: Release)
    ensures Frames(rs + [r]) == Frames(rs) + [r.frame]
    ensures Skipped(rs + [r]) == Skipped(rs) + if r.played then 0 else 1
    ensures Rejected(rs + [r]) == Rejected(rs) + if r.whole then 0 else 1
  {
    assert (rs + [r])[..|rs|] == rs && (rs + [r])[|rs|] == r;
  }

  predicate Contents(s: State, prefill: seq<Pcm>) {
    && Places(s)
    && Frames(s.released) + Held(s) == prefill + s.good
    && (forall i :: 0 <= i < 3 && s.st[i].Done? ==> s.len[i] == s.size)
    && (s.cp.Decoding? ==> s.cp.w + s.cp.n <= Base(s.size, s.cpIdx) + s.size)
    && (s.mcu.Playing? ==> s.mcu.got <= Slot(s.size, s.out, s.mcuIdx))
  }

  lemma ContentsOrder(s: State, prefill: seq<Pcm>)
    requires Contents(s, prefill)
    ensures Order(s) && WellFormed(s)
  {
  }

  lemma WriteKeepsOtherSlots(s: State, d: Pcm, i: nat)
    requires Places(s) && Enabled(s, CpWrite(d)) && InSlot(s, CpWrite(d)) && i < 3 && i != s.cpIdx
    ensures Slot(s.size, Next(s, CpWrite(d)).out, i) == Slot(s.size, s.out, i)
  {
    var out', lo := Next(s, CpWrite(d)).out, Base(s.size, i);
    assert forall k :: lo <= k < lo + s.size ==> out'[k] == s.out[k];
  }

  lemma WriteKeepsContents(s: State, d: Pcm, prefill: seq<Pcm>)
    requires Contents(s, prefill) && Enabled(s, CpWrite(d)) && InSlot(s, CpWrite(d))
    ensures Contents(Next(s, CpWrite(d)), prefill)
  {
    hide Slot;
    forall i | 0 <= i < 3 && i != s.cpIdx
      ensures Slot(s.size, Next(s, CpWrite(d)).out, i) == Slot(s.size, s.out, i)
    {
      WriteKeepsOtherSlots(s, d, i);
    }
    StepKeepsPlaces(s, CpWrite(d));
    var s' := Next(s, CpWrite(d));
    assert forall i :: 0 <= i < 3 ==> Keep(s', i) == Keep(s, i);
  }

  lemma CpBeginKeepsContents(s: State, prefill: seq<Pcm>)
    requires Contents(s, prefill) && Enabled(s, CpBegin)
    ensures Contents(Next(s, CpBegin), prefill)
  {
    hide Slot;
    StepKeepsPlaces(s, CpBegin);
    var s' := Next(s, CpBegin);
    assert forall i :: 0 <= i < 3 ==> Keep(s', i) == Keep(s, i);
  }

  lemma LookKeepsContents(s: State, prefill: seq<Pcm>)
    requires Contents(s, prefill) && Enabled(s, McuLook)
    ensures Contents(Next(s, McuLook), prefill)
  {
    hide Slot;
    StepKeepsPlaces(s, McuLook);
    var s' := Next(s, McuLook);
    assert forall i :: 0 <= i < 3 ==> Keep(s', i) == Keep(s, i);
  }

  lemma ExitKeepsContents(s: State, prefill: seq<Pcm>)
    requires Contents(s, prefill) && Enabled(s, McuExit)
    ensures Contents(Next(s, McuExit), prefill)
  {
    hide Slot, Frames, Held;
    StepKeepsPlaces(s, McuExit);
    ExitMovesHead(s);
  }

  lemma Associate(x: seq<Pcm>, y: seq<Pcm>, z: seq<Pcm>)
    ensures x + (y + z) == x + y + z
  {
  }

  lemma ExitMovesHead(s: State)
    requires Order(s) && Enabled(s, McuExit)
    ensures var s' := Next(s, McuExit);
            Frames(s'.released) + Held(s') == Frames(s.released) + Held(s)
  {
    hide Slot, Frames;
    var s' := Next(s, McuExit);
    var a := s.mcuIdx;
    if Pending(s, a) {
      var b, c := Rot(a), Rot(Rot(a));
      assert Held(s) == Keep(s, a) + Held(s') by {
        hide Order;
        assert Keep(s', a) == [] && Rot(c) == a;
        assert Keep(s, b) == Keep(s', b) && Keep(s, c) == Keep(s', c);
      }
      if s.st[a].Done? {
        ReleaseSnoc(s.released, Unplayed(s));
      }
      assert Frames(s'.released) == Frames(s.released) + Keep(s, a) by {
        hide Order, Held;
      }
      Associate(Frames(s.released), Keep(s, a), Held(s'));
    } else {
      assert forall i :: 0 <= i < 3 ==> Keep(s', i) == Keep(s, i);
    }
  }

  lemma McuCopyKeepsContents(s: State, prefill: seq<Pcm>)
    requires Contents(s, prefill) && Enabled(s, McuCopy)
    ensures Contents(Next(s, McuCopy), prefill)
  {
    hide Slot;
    StepKeepsPlaces(s, McuCopy);
    CopyReadsSlot(s);
  }

  lemma CopyReadsSlot(s: State)
    requires WellFormed(s) && Enabled(s, McuCopy) && s.mcu.got <= Slot(s.size, s.out, s.mcuIdx)
    ensures Next(s, McuCopy).mcu.got <= Slot(s.size, s.out, s.mcuIdx)
    ensures Held(Next(s, McuCopy)) == Held(s)
  {
  }

  lemma EndKeepsContents(s: State, retry: bool, prefill: seq<Pcm>)
    requires Contents(s, prefill) && Enabled(s, CpEnd(retry))
    ensures Contents(Next(s, CpEnd(retry)), prefill)
  {
    hide Held, Frames, Slot;
    StepKeepsPlaces(s, CpEnd(retry));
    EndKeepsFlow(s, retry, prefill);
  }

  lemma EndKeepsFlow(s: State, retry: bool, prefill: seq<Pcm>)
    requires Order(s) && Enabled(s, CpEnd(retry)) && (s.cp.n == s.size ==> s.cp.w == Base(s.size, s.cpIdx))
    requires Frames(s.released) + Held(s) == prefill + s.good
    ensures var s' := Next(s, CpEnd(retry));
            Frames(s'.released) + Held(s') == prefill + s'.good
  {
    EndExtendsHeld(s, retry);
    hide Order, Held, Frames, Slot;
    var s' := Next(s, CpEnd(retry));
    var more := s'.good[|s.good|..];
    assert s'.good == s.good + more;
    Associate(Frames(s.released), Held(s), more);
    Associate(prefill, s.good, more);
  }

  /** A finished slot joins the waiting frames at the end. */
  lemma EndExtendsHeld(s: State, retry: bool)
    requires Order(s) && Enabled(s, CpEnd(retry)) && (s.cp.n == s.size ==> s.cp.w == Base(s.size, s.cpIdx))
    ensures var s' := Next(s, CpEnd(retry));
            && s.good <= s'.good
            && Held(s') == Held(s) + s'.good[|s.good|..]
  {
    var s' := Next(s, CpEnd(retry));
    var d := s.cpIdx;
    if !retry && s.cp.n == s.size {
      assert s'.good[|s.good|..] == [s.out[s.cp.w..s.cp.w + s.size]] == Keep(s', d);
      hide Slot;
      assert Keep(s, d) == [];
      assert forall i :: 0 <= i < 3 && i != d ==> Keep(s', i) == Keep(s, i);
    } else {
      hide Slot;
      assert forall i :: 0 <= i < 3 ==> Keep(s', i) == Keep(s, i);
    }
  }

  lemma ReleaseKeepsContents(s: State, prefill: seq<Pcm>)
    requires Contents(s, prefill) && Enabled(s, McuRelease)
    ensures Contents(Next(s, McuRelease), prefill)
  {
    hide Slot, Frames, Held;
    StepKeepsPlaces(s, McuRelease);
    WholePrefix(s.mcu.got, Slot(s.size, s.out, s.mcuIdx));
    ReleaseMovesHead(s);
  }

  lemma WholePrefix(x: Pcm, y: Pcm)
    requires x <= y && |x| == |y|
    ensures x == y
  {
  }

  lemma ReleaseMovesHead(s: State)
    requires Order(s) && Enabled(s, McuRelease) && s.mcu.got == Slot(s.size, s.out, s.mcuIdx)
    ensures var s' := Next(s, McuRelease);
            Frames(s'.released) + Held(s') == Frames(s.released) + Held(s)
  {
    hide Slot, Frames;
    var s' := Next(s, McuRelease);
    var a := s.mcuIdx;
    var b, c := Rot(a), Rot(Rot(a));
    assert Held(s) == Keep(s, a) + Held(s') by {
      assert Keep(s', a) == [] && Rot(c) == a;
      assert Keep(s, b) == Keep(s', b) && Keep(s, c) == Keep(s', c);
    }
    ReleaseSnoc(s.released, Release(s.mcu.got, true, true));
    Associate(Frames(s.released), Keep(s, a), Held(s'));
  }

  lemma StepKeepsContents(s: State, step: Step, prefill: seq<Pcm>)
    requires Contents(s, prefill) && Enabled(s, step) && InSlot(s, step)
    ensures Contents(Next(s, step), prefill)
  {
    hide Contents, Next, Enabled;
    match step
    case CpWrite(d) => WriteKeepsContents(s, d, prefill);
    case CpEnd(retry) => EndKeepsContents(s, retry, prefill);
    case McuRelease => ReleaseKeepsContents(s, prefill);
    case CpBegin => CpBeginKeepsContents(s, prefill);
    case McuLook => LookKeepsContents(s, prefill);
    case McuExit => ExitKeepsContents(s, prefill);
    case McuCopy => McuCopyKeepsContents(s, prefill);
  }

  // ---------------------------------------------------------------- whole runs

  predicate Legal(s: State, steps: seq<Step>)
    decreases |steps|
  {
    steps == [] || (WellFormed(s) && Enabled(s, steps[0]) && Legal(Next(s, steps[0]), steps[1..]))
  }

  predicate AllInSlot(s: State, steps: seq<Step>)
    requires Legal(s, steps)
    decreases |steps|
  {
    steps == [] || (InSlot(s, steps[0]) && AllInSlot(Next(s, steps[0]), steps[1..]))
  }

  function Exec(s: State, steps: seq<Step>): State
    requires Legal(s, steps)
    decreases |steps|
  {
    if steps == [] then s else Exec(Next(s, steps[0]), steps[1..])
  }

  lemma {:induction false} RunKeepsOrder(s: State, steps: seq<Step>)
    requires Order(s) && Legal(s, steps)
    ensures Order(Exec(s, steps))
    decreases |steps|
  {
    hide Order, Enabled, Next;
    if steps != [] {
      StepKeepsOrder(s, steps[0]);
      RunKeepsOrder(Next(s, steps[0]), steps[1..]);
    }
  }

  lemma {:induction false} RunKeepsContents(s: State, steps: seq<Step>, prefill: seq<Pcm>)
    requires Contents(s, prefill) && Legal(s, steps) && AllInSlot(s, steps)
    ensures Contents(Exec(s, steps), prefill)
    decreases |steps|
  {
    hide Contents, Enabled, Next, InSlot;
    if steps != [] {
      StepKeepsContents(s, steps[0], prefill);
      RunKeepsContents(Next(s, steps[0]), steps[1..], prefill);
    }
  }

  /** The slots the MCU gives back are the prefilled ones and then the successfully decoded frames,
      in order, each once; what it has not given back yet is waiting in the slots. */
  lemma ReleasesDecodedFramesInOrder(s: State, first: nat, steps: seq<Step>)
    requires IsInit(s, first) && Legal(s, steps) && AllInSlot(s, steps)
    ensures var e := Exec(s, steps);
            && WellFormed(e)
            && Frames(e.released) + Held(e) == Held(s) + e.good
            && |Held(s)| == 3 - first
  {
    InitContents(s, first);
    RunKeepsContents(s, steps, Held(s));
    hide Slot, Exec, AllInSlot, Legal, Order;
    ContentsOrder(Exec(s, steps), Held(s));
  }

  lemma InitContents(s: State, first: nat)
    requires IsInit(s, first)
    ensures Contents(s, Held(s)) && |Held(s)| == 3 - first && Skipped(s.released) == Doomed(s) == 0
  {
    hide Slot;
  }

  // ---------------------------------------------------------------- the hand-over, counted step by step

  /** The decodes that came to an end, with or without a frame. */
  function Ends(steps: seq<Step>): nat {
    if steps == [] then 0 else (if steps[0] == CpEnd(false) then 1 else 0) + Ends(steps[1..])
  }

  /** The slots the MCU has given back: those it has played, and those it finds done or failed when it
      leaves without playing. */
  function GiveBacks(s: State, steps: seq<Step>): nat
    requires Legal(s, steps)
    decreases |steps|
  {
    if steps == [] then 0
    else (if GivesBack(s, steps[0]) then 1 else 0) + GiveBacks(Next(s, steps[0]), steps[1..])
  }

  predicate GivesBack(s: State, step: Step)
    requires WellFormed(s)
  {
    step.McuRelease? || (step.McuExit? && (s.st[s.mcuIdx].Done? || s.st[s.mcuIdx].Failed?))
  }

  /** The slots waiting for the MCU. */
  function Waiting(s: State): nat
    requires WellFormed(s)
  {
    (if Pending(s, 0) then 1 else 0) + (if Pending(s, 1) then 1 else 0) + (if Pending(s, 2) then 1 else 0)
  }

  lemma StepBalances(s: State, step: Step)
    requires Order(s) && Enabled(s, step)
    ensures var s', end, back := Next(s, step), step == CpEnd(false), GivesBack(s, step);
            && Waiting(s') + (if back then 1 else 0) == Waiting(s) + (if end then 1 else 0)
            && s'.cpIdx == (if end then Rot(s.cpIdx) else s.cpIdx)
            && s'.mcuIdx == if back then Rot(s.mcuIdx) else s.mcuIdx
  {
    hide Slot, Resume, Base;
  }

  /** The slot `n` turns after slot `i`. */
  function Turned(i: nat, n: nat): nat {
    (i + n) % 3
  }

  lemma TurnCounts(i: nat, turn: bool, j: nat, n: nat)
    requires i < 3 && j == if turn then Rot(i) else i
    ensures Turned(j, n) == Turned(i, (if turn then 1 else 0) + n)
  {
    if i == 2 {
      assert (3 + n) % 3 == n % 3;
    }
  }

  lemma StepHandsOver(s: State, step: Step, m: nat, n: nat)
    requires Order(s) && Enabled(s, step)
    ensures Order(Next(s, step)) && WellFormed(s) && WellFormed(Next(s, step))
    ensures var s', end, back := Next(s, step), step == CpEnd(false), GivesBack(s, step);
            && Waiting(s') + (if back then 1 else 0) == Waiting(s) + (if end then 1 else 0)
            && Turned(s'.cpIdx, m) == Turned(s.cpIdx, (if end then 1 else 0) + m)
            && Turned(s'.mcuIdx, n) == Turned(s.mcuIdx, (if back then 1 else 0) + n)
  {
    StepKeepsOrder(s, step);
    StepBalances(s, step);
    OrderIsWellFormed(s);
    TurnCounts(s.cpIdx, step == CpEnd(false), Next(s, step).cpIdx, m);
    TurnCounts(s.mcuIdx, GivesBack(s, step), Next(s, step).mcuIdx, n);
  }

  lemma {:induction false} RunBalances(s: State, steps: seq<Step>)
    requires Order(s) && Legal(s, steps)
    ensures var e := Exec(s, steps);
            && Order(e)
            && Waiting(e) + GiveBacks(s, steps) == Waiting(s) + Ends(steps)
            && e.cpIdx == Turned(s.cpIdx, Ends(steps))
            && e.mcuIdx == Turned(s.mcuIdx, GiveBacks(s, steps))
    decreases |steps|
  {
    hide *;
    OrderIsWellFormed(s);
    if steps == [] {
      LegalNil(s);
    } else {
      LegalCons(s, steps);
      var s1 := Next(s, steps[0]);
      StepHandsOver(s, steps[0], Ends(steps[1..]), GiveBacks(s1, steps[1..]));
      RunBalances(s1, steps[1..]);
    }
  }

  lemma LegalNil(s: State)
    requires WellFormed(s)
    ensures Legal(s, []) && Exec(s, []) == s && Ends([]) == 0 && GiveBacks(s, []) == 0
    ensures Turned(s.cpIdx, 0) == s.cpIdx && Turned(s.mcuIdx, 0) == s.mcuIdx
  {
    hide Enabled, Next, GivesBack;
  }

  lemma LegalCons(s: State, steps: seq<Step>)
    requires Legal(s, steps) && steps != []
    ensures WellFormed(s) && Enabled(s, steps[0]) && Legal(Next(s, steps[0]), steps[1..])
    ensures Exec(s, steps) == Exec(Next(s, steps[0]), steps[1..])
    ensures Ends(steps) == (if steps[0] == CpEnd(false) then 1 else 0) + Ends(steps[1..])
    ensures GiveBacks(s, steps) == (if GivesBack(s, steps[0]) then 1 else 0) + GiveBacks(Next(s, steps[0]), steps[1..])
  {
    hide Enabled, Next, GivesBack;
  }

  lemma OrderIsWellFormed(s: State)
    requires Order(s)
    ensures WellFormed(s)
  {
  }

  /** Over every run, whatever the decoder does: each decode that ends hands one slot over, also when it
      has failed, and the co-processor goes on to the next slot; each slot given back, failed ones
      included, takes the MCU on to the next one. */
  lemma HandOverBalances(s: State, first: nat, steps: seq<Step>)
    requires IsInit(s, first) && Legal(s, steps)
    ensures var e := Exec(s, steps);
            && WellFormed(e)
            && Waiting(e) + GiveBacks(s, steps) == 3 - first + Ends(steps)
            && e.cpIdx == Ends(steps) % 3
            && e.mcuIdx == (first + GiveBacks(s, steps)) % 3
  {
    RunBalances(s, steps);
    OrderIsWellFormed(Exec(s, steps));
    InitWaits(s, first);
    hide Order, Waiting, Legal, Exec, Ends, GiveBacks;
  }

  lemma InitWaits(s: State, first: nat)
    requires IsInit(s, first)
    ensures Waiting(s) == 3 - first && s.cpIdx == 0 && s.mcuIdx == first
  {
  }

  /** What the decoder puts out in full, read off its own steps: what it has written since it began, if
      that makes one frame when it ends. */
  function Produced(size: nat, written: Pcm, steps: seq<Step>): seq<Pcm>
    decreases |steps|
  {
    if steps == [] then []
    else
      (if steps[0] == CpEnd(false) && |written| == size then [written] else [])
      + Produced(size, Written(written, steps[0]), steps[1..])
  }

  function Written(written: Pcm, step: Step): Pcm {
    match step
    case CpBegin => []
    case CpWrite(d) => written + d
    case _ => written
  }

  predicate HasWritten(s: State, written: Pcm) {
    s.cp.Decoding? ==> s.cp.w + s.cp.n <= |s.out| && written == s.out[s.cp.w..s.cp.w + s.cp.n]
  }

  lemma {:induction false} RunIsProduced(s: State, written: Pcm, steps: seq<Step>)
    requires Places(s) && HasWritten(s, written) && Legal(s, steps)
    ensures var e := Exec(s, steps);
            e.good == s.good + Produced(s.size, written, steps)
    decreases |steps|
  {
    if steps != [] {
      var s1 := Next(s, steps[0]);
      StepKeepsPlaces(s, steps[0]);
      StepProduces(s, written, steps[0]);
      hide Places, Order, Enabled, Next, HasWritten;
      RunIsProduced(s1, Written(written, steps[0]), steps[1..]);
    }
  }

  lemma StepProduces(s: State, written: Pcm, step: Step)
    requires Places(s) && HasWritten(s, written) && Enabled(s, step)
    ensures var s' := Next(s, step);
            && HasWritten(s', Written(written, step))
            && s'.size == s.size
            && s'.good == s.good + if step == CpEnd(false) && |written| == s.size then [written] else []
  {
    OrderIsWellFormed(s);
    hide Places, Order, Slot, Base, Resume;
    match step
    case CpBegin => BeginProduces(s);
    case CpWrite(d) => WriteProduces(s, written, d);
    case _ =>
  }

  lemma BeginProduces(s: State)
    requires Places(s) && Enabled(s, CpBegin)
    ensures HasWritten(Next(s, CpBegin), []) && Next(s, CpBegin).good == s.good
  {
    StepKeepsPlaces(s, CpBegin);
    hide Order, Slot;
    var s' := Next(s, CpBegin);
    if s'.cp.Decoding? {
      assert s'.cp.n == 0;
    }
  }

  lemma WriteProduces(s: State, written: Pcm, d: Pcm)
    requires WellFormed(s) && HasWritten(s, written) && Enabled(s, CpWrite(d))
    ensures HasWritten(Next(s, CpWrite(d)), written + d) && Next(s, CpWrite(d)).good == s.good
  {
    hide Slot, Base, Resume;
    WriteExtends(s.out, s.cp.w, s.cp.n, d);
  }

  lemma WriteExtends(out: Pcm, w: nat, n: nat, d: Pcm)
    requires w + n + |d| <= |out|
    ensures var at := w + n;
            (out[..at] + d + out[at + |d|..])[w..at + |d|] == out[w..at] + d
  {
  }

  /** The frames that are held and handed on are, sample for sample, what the decoder wrote. */
  lemma GoodIsProduced(s: State, first: nat, steps: seq<Step>)
    requires IsInit(s, first) && Legal(s, steps)
    ensures Exec(s, steps).good == Produced(s.size, [], steps)
  {
    RunIsProduced(s, [], steps);
  }

  // ---------------------------------------------------------------- skipped frames

  /** `mcu_decode_a2dp_process` reads the slot state twice.  A decode that ends between the two reads
      is taken for one that was played. */
  predicate Overtaken(s: State, step: Step) {
    s.mcu.Missed? && step == CpEnd(false) && s.cp.Decoding? && s.cp.n == s.size && s.cpIdx == s.mcuIdx
  }

  function Overtakes(s: State, steps: seq<Step>): nat
    requires Legal(s, steps)
    decreases |steps|
  {
    if steps == [] then 0 else (if Overtaken(s, steps[0]) then 1 else 0) + Overtakes(Next(s, steps[0]), steps[1..])
  }

  /** Whether the MCU is about to skip the frame in its slot. */
  function Doomed(s: State): nat
    requires WellFormed(s)
  {
    if s.mcu.Missed? && s.st[s.mcuIdx].Done? then 1 else 0
  }

  lemma StepCountsSkips(s: State, step: Step, prefill: seq<Pcm>)
    requires Contents(s, prefill) && Enabled(s, step)
    ensures var s' := Next(s, step);
            Skipped(s'.released) + Doomed(s')
            == Skipped(s.released) + Doomed(s) + if Overtaken(s, step) then 1 else 0
  {
    hide Slot, Held, Frames, Skipped;
    match step
    case McuExit =>
      if s.st[s.mcuIdx].Done? {
        ReleaseSnoc(s.released, Unplayed(s));
      }
    case McuRelease => ReleaseSnoc(s.released, Release(s.mcu.got, true, true));
    case _ =>
  }

  lemma {:induction false} RunCountsSkips(s: State, steps: seq<Step>, prefill: seq<Pcm>)
    requires Contents(s, prefill) && Legal(s, steps) && AllInSlot(s, steps)
    ensures var e := Exec(s, steps);
            && WellFormed(e)
            && Skipped(e.released) + Doomed(e) == Skipped(s.released) + Doomed(s) + Overtakes(s, steps)
    decreases |steps|
  {
    hide Contents, Enabled, Next, InSlot, Overtaken, Skipped, Doomed;
    if steps == [] {
      ContentsOrder(s, prefill);
    } else {
      StepKeepsContents(s, steps[0], prefill);
      StepCountsSkips(s, steps[0], prefill);
      RunCountsSkips(Next(s, steps[0]), steps[1..], prefill);
    }
  }

  /** A frame is lost to the listener once for every decode that ends between the MCU's two reads of
      its slot, and never otherwise; with no such coincidence the MCU plays the prefilled slots and
      then every decoded frame in order, exactly once. */
  lemma PlaysAllUnlessOvertaken(s: State, first: nat, steps: seq<Step>)
    requires IsInit(s, first) && Legal(s, steps) && AllInSlot(s, steps)
    ensures var e := Exec(s, steps);
            && WellFormed(e)
            && Skipped(e.released) + Doomed(e) == Overtakes(s, steps)
            && (Overtakes(s, steps) == 0 ==> Played(e.released) + Held(e) == Held(s) + e.good)
  {
    ReleasesDecodedFramesInOrder(s, first, steps);
    InitContents(s, first);
    RunCountsSkips(s, steps, Held(s));
    hide Slot, Held, Exec, Overtakes, AllInSlot, Legal;
  }

  /** Such a coincidence does happen.  The MCU has played the one prefilled slot and looks at the next
      one while it is being decoded; the decode ends; the MCU gives the slot back. */
  lemma DecodesCanBeOvertaken(s: State, d: Pcm)
    requires IsInit(s, 2) && s.size == |d| == 1
    ensures var steps := [McuLook, McuCopy, McuRelease] + [CpBegin, CpWrite(d), McuLook, CpEnd(false), McuExit];
            && Legal(s, steps) && Overtakes(s, steps) == 1
            && Exec(s, steps).released == [Release(Slot(1, s.out, 2), true, true), Release(d, false, true)]
  {
    var overtaking := [CpBegin, CpWrite(d), McuLook, CpEnd(false), McuExit];
    PlaysPrefill(s);
    var s1 := Next(s, McuLook);
    var s2 := Next(s1, McuCopy);
    var s3 := Next(s2, McuRelease);
    OvertakesOnce(s3, d);
    hide Next, Enabled, Legal, Exec, Overtakes, Overtaken, IsInit;
    OneMore(s2, McuRelease, overtaking);
    OneMore(s1, McuCopy, [McuRelease] + overtaking);
    OneMore(s, McuLook, [McuCopy] + ([McuRelease] + overtaking));
    assert [McuLook, McuCopy, McuRelease] + overtaking == [McuLook] + ([McuCopy] + ([McuRelease] + overtaking));
  }

  lemma PlaysPrefill(s: State)
    requires IsInit(s, 2) && s.size == 1
    ensures Enabled(s, McuLook) && !Overtaken(s, McuLook)
    ensures var s1 := Next(s, McuLook);
            && Enabled(s1, McuCopy) && !Overtaken(s1, McuCopy)
            && var s2 := Next(s1, McuCopy);
            && Enabled(s2, McuRelease) && !Overtaken(s2, McuRelease)
            && Next(s2, McuRelease) ==
                 s.(st := [Idle, Idle, Idle], mcuIdx := 0, released := [Release(Slot(1, s.out, 2), true, true)])
  {
    var got := [s.out[2]];
    var s1, s2 := s.(mcu := Playing([])), s.(mcu := Playing(got));
    assert Slot(1, s.out, 2) == got;
    assert Next(s, McuLook) == s1;
    assert Next(s1, McuCopy) == s2 by {
      assert [] + got == got;
    }
    assert [Idle, Idle, Done][2 := Idle] == [Idle, Idle, Idle];
    assert s.released + [Release(got, true, true)] == [Release(got, true, true)];
  }

  lemma OvertakesOnce(s: State, d: Pcm)
    requires WellFormed(s) && s.size == |d| == 1 && s.st == [Idle, Idle, Idle] && s.cpIdx == s.mcuIdx == 0
    requires s.cp.CpIdle? && s.mcu.McuIdle?
    ensures var steps := [CpBegin, CpWrite(d), McuLook, CpEnd(false), McuExit];
            && Legal(s, steps) && Overtakes(s, steps) == 1
            && Exec(s, steps).released == s.released + [Release(d, false, true)]
  {
    hide Next, Enabled, Exec, Overtakes, Slot, Overtaken;
    OvertakeSteps(s, d);
    var s1 := Next(s, CpBegin);
    var s2 := Next(s1, CpWrite(d));
    var s3 := Next(s2, McuLook);
    var s4 := Next(s3, CpEnd(false));
    NoMore(Next(s4, McuExit));
    var t4 := [McuExit] + [];
    var t3 := [CpEnd(false)] + t4;
    var t2 := [McuLook] + t3;
    var t1 := [CpWrite(d)] + t2;
    OneMore(s4, McuExit, []);
    OneMore(s3, CpEnd(false), t4);
    OneMore(s2, McuLook, t3);
    OneMore(s1, CpWrite(d), t2);
    OneMore(s, CpBegin, t1);
    assert [CpBegin, CpWrite(d), McuLook, CpEnd(false), McuExit] == [CpBegin] + t1;
  }

  lemma OvertakeSteps(s: State, d: Pcm)
    requires WellFormed(s) && s.size == |d| == 1 && s.st == [Idle, Idle, Idle] && s.cpIdx == s.mcuIdx == 0
    requires s.cp.CpIdle? && s.mcu.McuIdle?
    ensures Enabled(s, CpBegin) && !Overtaken(s, CpBegin)
    ensures var s1 := Next(s, CpBegin);
            && Enabled(s1, CpWrite(d)) && !Overtaken(s1, CpWrite(d))
            && var s2 := Next(s1, CpWrite(d));
            && Enabled(s2, McuLook) && !Overtaken(s2, McuLook)
            && var s3 := Next(s2, McuLook);
            && Enabled(s3, CpEnd(false)) && Overtaken(s3, CpEnd(false))
            && var s4 := Next(s3, CpEnd(false));
            && Enabled(s4, McuExit) && !Overtaken(s4, McuExit)
            && Next(s4, McuExit).released == s.released + [Release(d, false, true)]
  {
    var s1 := s.(st := [Working, Idle, Idle], len := s.len[0 := 0], cp := Decoding(0, 0));
    var s2 := s1.(out := d + s.out[1..], cp := Decoding(0, 1));
    var s4 := s2.(st := [Done, Idle, Idle], len := s.len[0 := 1], cpIdx := 1, cp := CpIdle, good := s.good + [d],
                  mcu := Missed);
    assert Next(s, CpBegin) == s1;
    assert Next(s1, CpWrite(d)) == s2;
    assert Next(s2, McuLook) == s2.(mcu := Missed);
    assert Next(s2.(mcu := Missed), CpEnd(false)) == s4 by {
      assert s2.len[0 := s2.len[0] + 1] == s4.len && s2.out[0..1] == d;
    }
    assert Slot(1, s4.out, 0) == d;
  }

  lemma NoMore(s: State)
    ensures Legal(s, []) && Exec(s, []) == s && Overtakes(s, []) == 0
  {
  }

  lemma OneMore(s: State, step: Step, rest: seq<Step>)
    requires WellFormed(s) && Enabled(s, step) && Legal(Next(s, step), rest)
    ensures Legal(s, [step] + rest) && Exec(s, [step] + rest) == Exec(Next(s, step), rest)
    ensures Overtakes(s, [step] + rest) == (if Overtaken(s, step) then 1 else 0) + Overtakes(Next(s, step), rest)
  {
    assert ([step] + rest)[1..] == rest;
  }

  // ---------------------------------------------------------------- resumed slots

  /** A full frame that ends in a slot an earlier attempt had begun.  `cp_a2dp_main` offers such an
      attempt the whole slot size although part of the slot is filled. */
  predicate EndsResumed(s: State, step: Step)
    requires WellFormed(s)
  {
    step == CpEnd(false) && s.cp.Decoding? && s.cp.n == s.size && s.cp.w != Base(s.size, s.cpIdx)
  }

  /** A decode that ends in DONE leaves the length the MCU demands if and only if it did not resume. */
  lemma DoneIsPlayedIff(s: State)
    requires Places(s) && Enabled(s, CpEnd(false)) && s.cp.n == s.size
    ensures var e := Next(s, CpEnd(false));
            && e.st[s.cpIdx].Done?
            && (e.len[s.cpIdx] == e.size <==> !EndsResumed(s, CpEnd(false)))
  {
    hide Slot;
  }

  function ResumedEnds(s: State, steps: seq<Step>): nat
    requires Legal(s, steps)
    decreases |steps|
  {
    if steps == [] then 0
    else (if EndsResumed(s, steps[0]) then 1 else 0) + ResumedEnds(Next(s, steps[0]), steps[1..])
  }

  function Overlong(s: State, i: nat): nat
    requires WellFormed(s) && i < 3
  {
    if s.st[i].Done? && s.len[i] != s.size then 1 else 0
  }

  /** DONE slots waiting for the MCU that it will not play for their length. */
  function Unplayable(s: State): nat
    requires WellFormed(s)
  {
    Overlong(s, 0) + Overlong(s, 1) + Overlong(s, 2)
  }

  lemma StepCountsRejected(s: State, step: Step)
    requires Places(s) && Enabled(s, step)
    ensures var s' := Next(s, step);
            Rejected(s'.released) + Unplayable(s')
            == Rejected(s.released) + Unplayable(s) + if EndsResumed(s, step) then 1 else 0
  {
    hide Slot, Rejected, Base;
    match step
    case McuExit => ExitCountsRejected(s);
    case McuRelease => ReleaseSnoc(s.released, Release(s.mcu.got, true, true));
    case CpEnd(retry) => EndCountsRejected(s, retry);
    case CpBegin => BeginDooms(s);
    case _ => hide Order, Rot, Resume;
  }

  lemma BeginDooms(s: State)
    requires WellFormed(s) && Enabled(s, CpBegin)
    ensures var s' := Next(s, CpBegin);
            && Unplayable(s') == Unplayable(s) && s'.released == s.released && Condemned(s') == Condemned(s)
  {
    hide Slot, Base, Resume, Rot;
    var s' := Next(s, CpBegin);
    assert forall i :: 0 <= i < 3 ==> Overlong(s', i) == Overlong(s, i);
  }

  lemma ExitCountsRejected(s: State)
    requires WellFormed(s) && Enabled(s, McuExit)
    ensures var s' := Next(s, McuExit);
            Rejected(s'.released) + Unplayable(s') == Rejected(s.released) + Unplayable(s)
  {
    hide Slot, Rejected, Base;
    var s', m := Next(s, McuExit), s.mcuIdx;
    assert Overlong(s', m) == 0 || s' == s.(mcu := McuIdle);
    assert forall i :: 0 <= i < 3 && i != m ==> Overlong(s', i) == Overlong(s, i);
    if s.st[m].Done? {
      ReleaseSnoc(s.released, Unplayed(s));
    }
  }

  lemma EndCountsRejected(s: State, retry: bool)
    requires Places(s) && Enabled(s, CpEnd(retry))
    ensures Unplayable(Next(s, CpEnd(retry))) == Unplayable(s) + if EndsResumed(s, CpEnd(retry)) then 1 else 0
  {
    hide Slot, Base;
  }

  lemma {:induction false} RunCountsRejected(s: State, steps: seq<Step>)
    requires Places(s) && Legal(s, steps)
    ensures var e := Exec(s, steps);
            && Places(e)
            && Rejected(e.released) + Unplayable(e) == Rejected(s.released) + Unplayable(s) + ResumedEnds(s, steps)
    decreases |steps|
  {
    hide Order, Enabled, Next, EndsResumed, Rejected, Unplayable;
    if steps != [] {
      StepKeepsPlaces(s, steps[0]);
      StepCountsRejected(s, steps[0]);
      RunCountsRejected(Next(s, steps[0]), steps[1..]);
    }
  }

  /** Over every run, whatever the decoder does: the frames the MCU rejects for their length, or will
      reject, are exactly those decoded in full into a slot an earlier attempt had begun. */
  lemma RejectsExactlyResumed(s: State, first: nat, steps: seq<Step>)
    requires IsInit(s, first) && Legal(s, steps)
    ensures var e := Exec(s, steps);
            WellFormed(e) && Rejected(e.released) + Unplayable(e) == ResumedEnds(s, steps)
  {
    RunCountsRejected(s, steps);
  }

  /** Such a run: an attempt that runs dry leaves one of two samples, and the next one is offered two
      more.  The frame is rejected, and the prefilled slot behind has lost its first sample. */
  lemma DecodesCanResume(s: State, d1: Pcm, d: Pcm)
    requires IsInit(s, 1) && s.size == |d| == 2 && |d1| == 1
    ensures var steps := [CpBegin, CpWrite(d1), CpEnd(true), CpBegin, CpWrite(d), CpEnd(false)];
            && Legal(s, steps) && ResumedEnds(s, steps) == 1
            && var e := Exec(s, steps);
            && WellFormed(e) && e.size == 2
            && e.st[1].Done? && Slot(2, e.out, 1) == [d[1], s.out[3]]
  {
    hide Next, Enabled, Exec, ResumedEnds, Slot, EndsResumed, IsInit;
    ResumeSteps(s, d1, d);
    var s1 := Next(s, CpBegin);
    var s2 := Next(s1, CpWrite(d1));
    var s3 := Next(s2, CpEnd(true));
    var s4 := Next(s3, CpBegin);
    var s5 := Next(s4, CpWrite(d));
    var s6 := Next(s5, CpEnd(false));
    var t5 := [CpEnd(false)] + [];
    var t4 := [CpWrite(d)] + t5;
    var t3 := [CpBegin] + t4;
    var t2 := [CpEnd(true)] + t3;
    var t1 := [CpWrite(d1)] + t2;
    NoMoreResumed(s6);
    OneMoreResumed(s5, CpEnd(false), []);
    OneMoreResumed(s4, CpWrite(d), t5);
    OneMoreResumed(s3, CpBegin, t4);
    OneMoreResumed(s2, CpEnd(true), t3);
    OneMoreResumed(s1, CpWrite(d1), t2);
    OneMoreResumed(s, CpBegin, t1);
    assert [CpBegin, CpWrite(d1), CpEnd(true), CpBegin, CpWrite(d), CpEnd(false)] == [CpBegin] + t1;
  }

  lemma ResumeSteps(s: State, d1: Pcm, d: Pcm)
    requires IsInit(s, 1) && s.size == |d| == 2 && |d1| == 1
    ensures WellFormed(s) && Enabled(s, CpBegin) && !EndsResumed(s, CpBegin)
    ensures var s1 := Next(s, CpBegin);
            && Enabled(s1, CpWrite(d1)) && !EndsResumed(s1, CpWrite(d1))
            && var s2 := Next(s1, CpWrite(d1));
            && Enabled(s2, CpEnd(true)) && !EndsResumed(s2, CpEnd(true))
            && var s3 := Next(s2, CpEnd(true));
            && Enabled(s3, CpBegin) && !EndsResumed(s3, CpBegin)
            && var s4 := Next(s3, CpBegin);
            && Enabled(s4, CpWrite(d)) && !EndsResumed(s4, CpWrite(d))
            && var s5 := Next(s4, CpWrite(d));
            && Enabled(s5, CpEnd(false)) && EndsResumed(s5, CpEnd(false))
            && var s6 := Next(s5, CpEnd(false));
            && WellFormed(s6) && s6.size == 2
            && s6.st[1].Done? && Slot(2, s6.out, 1) == [d[1], s.out[3]]
  {
    var out1 := d1 + s.out[1..];
    var s1 := s.(st := [Working, Done, Done], len := s.len[0 := 0], cp := Decoding(0, 0));
    var s2 := s1.(out := out1, cp := Decoding(0, 1));
    var s3 := s2.(len := s.len[0 := 1], cp := CpIdle);
    var s4 := s3.(cp := Decoding(1, 0));
    var out5 := out1[..1] + d + out1[3..];
    assert Next(s, CpBegin) == s1;
    assert Next(s1, CpWrite(d1)) == s2;
    assert Next(s2, CpEnd(true)) == s3;
    assert Next(s3, CpBegin) == s4 by {
      assert s3.st[0 := Working] == s3.st;
    }
    assert Next(s4, CpWrite(d)).out == out5;
    assert out5[2..4] == [d[1], s.out[3]];
  }

  lemma NoMoreResumed(s: State)
    ensures Legal(s, []) && Exec(s, []) == s && ResumedEnds(s, []) == 0
  {
  }

  lemma OneMoreResumed(s: State, step: Step, rest: seq<Step>)
    requires WellFormed(s) && Enabled(s, step) && Legal(Next(s, step), rest)
    ensures Legal(s, [step] + rest) && Exec(s, [step] + rest) == Exec(Next(s, step), rest)
    ensures ResumedEnds(s, [step] + rest) == (if EndsResumed(s, step) then 1 else 0) + ResumedEnds(Next(s, step), rest)
  {
    assert ([step] + rest)[1..] == rest;
  }

  // ---------------------------------------------------------------- every lost frame

  /** The two ways a frame that was decoded in full is never heard. */
  predicate Loses(s: State, step: Step)
    requires WellFormed(s)
  {
    EndsResumed(s, step) || Overtaken(s, step)
  }

  function Losses(s: State, steps: seq<Step>): nat
    requires Legal(s, steps)
    decreases |steps|
  {
    if steps == [] then 0 else (if Loses(s, steps[0]) then 1 else 0) + Losses(Next(s, steps[0]), steps[1..])
  }

  /** Frames that are lost already but whose slot has not been given back. */
  function Condemned(s: State): nat
    requires WellFormed(s)
  {
    Unplayable(s) + if s.mcu.Missed? && s.st[s.mcuIdx].Done? && s.len[s.mcuIdx] == s.size then 1 else 0
  }

  lemma StepCountsLosses(s: State, step: Step)
    requires Places(s) && Enabled(s, step)
    ensures var s' := Next(s, step);
            Skipped(s'.released) + Condemned(s')
            == Skipped(s.released) + Condemned(s) + if Loses(s, step) then 1 else 0
  {
    hide Slot, Skipped, Base;
    match step
    case McuExit => ExitCountsLosses(s);
    case McuRelease => ReleaseCountsLosses(s);
    case CpEnd(retry) => EndCountsLosses(s, retry);
    case CpBegin => BeginDooms(s);
    case _ => hide Order, Rot, Resume;
  }

  lemma ExitCountsLosses(s: State)
    requires WellFormed(s) && Enabled(s, McuExit)
    ensures var s' := Next(s, McuExit);
            Skipped(s'.released) + Condemned(s') == Skipped(s.released) + Condemned(s)
  {
    hide Slot, Skipped, Base;
    var s', m := Next(s, McuExit), s.mcuIdx;
    assert Overlong(s', m) == 0 || s' == s.(mcu := McuIdle);
    assert forall i :: 0 <= i < 3 && i != m ==> Overlong(s', i) == Overlong(s, i);
    if s.st[m].Done? {
      ReleaseSnoc(s.released, Unplayed(s));
    }
  }

  lemma ReleaseCountsLosses(s: State)
    requires Places(s) && Enabled(s, McuRelease)
    ensures var s' := Next(s, McuRelease);
            Skipped(s'.released) + Condemned(s') == Skipped(s.released) + Condemned(s)
  {
    hide Slot, Skipped, Base;
    ReleaseSnoc(s.released, Release(s.mcu.got, true, true));
  }

  lemma EndCountsLosses(s: State, retry: bool)
    requires Places(s) && Enabled(s, CpEnd(retry))
    ensures Condemned(Next(s, CpEnd(retry))) == Condemned(s) + if Loses(s, CpEnd(retry)) then 1 else 0
  {
    hide Slot, Unplayable;
    EndCountsRejected(s, retry);
    if !retry && s.cp.n == s.size {
      DoneIsPlayedIff(s);
    }
  }

  lemma {:induction false} RunCountsLosses(s: State, steps: seq<Step>)
    requires Places(s) && Legal(s, steps)
    ensures var e := Exec(s, steps);
            && Places(e)
            && Skipped(e.released) + Condemned(e) == Skipped(s.released) + Condemned(s) + Losses(s, steps)
    decreases |steps|
  {
    hide Order, Enabled, Next, Loses, Skipped, Condemned;
    if steps != [] {
      StepKeepsPlaces(s, steps[0]);
      StepCountsLosses(s, steps[0]);
      RunCountsLosses(Next(s, steps[0]), steps[1..]);
    }
  }

  /** Over every run, whatever the decoder does: the frames given back unheard, or condemned to be,
      are exactly the full decodes that resumed a begun slot or ended between the MCU's two reads. */
  lemma LosesExactly(s: State, first: nat, steps: seq<Step>)
    requires IsInit(s, first) && Legal(s, steps)
    ensures var e := Exec(s, steps);
            WellFormed(e) && Skipped(e.released) + Condemned(e) == Losses(s, steps)
  {
    RunCountsLosses(s, steps);
  }

  /** Such a frame also overwrites what lies behind its slot: the beginning of the next slot, or,
      behind the last one, memory that is no slot's. */
  lemma ResumedFrameSpills(s: State, d: Pcm)
    requires Places(s) && s.cp.Decoding? && s.cp.n == 0 && |d| == s.size && Enabled(s, CpWrite(d))
    ensures var off, e, i := s.len[s.cpIdx], Next(s, CpWrite(d)), s.cpIdx;
            && Base(s.size, i) + s.size + off <= |e.out|
            && e.out[Base(s.size, i) + s.size..Base(s.size, i) + s.size + off] == d[s.size - off..]
            && (i < 2 ==> Slot(e.size, e.out, i + 1) == d[s.size - off..] + Slot(s.size, s.out, i + 1)[off..])
  {
    var off := s.len[s.cpIdx];
    hide Order, Next, Base, Enabled;
    ResumedWrite(s, d);
    Overwrites(s.out, s.cp.w, d, s.size - off, s.size);
  }

  lemma ResumedWrite(s: State, d: Pcm)
    requires Places(s) && s.cp.Decoding? && s.cp.n == 0 && |d| == s.size && Enabled(s, CpWrite(d))
    ensures var off, at, e, i := s.len[s.cpIdx], s.cp.w, Next(s, CpWrite(d)), s.cpIdx;
            && off < s.size && at + s.size <= |s.out| == |e.out|
            && e.out == s.out[..at] + d + s.out[at + |d|..]
            && Base(s.size, i) + off == at
            && (i < 2 ==> Base(s.size, i + 1) == at + (s.size - off) && Base(s.size, i + 1) + s.size <= |s.out|)
  {
    hide Order, Slot;
  }

  /** Reading `size` elements of a buffer from `k` elements into a stretch just written. */
  lemma Overwrites(out: Pcm, at: nat, d: Pcm, k: nat, size: nat)
    requires at + |d| <= |out| && k <= |d| == size
    ensures var e := out[..at] + d + out[at + |d|..];
            && e[at + k..at + size] == d[k..]
            && (at + k + size <= |out| ==> e[at + k..at + k + size] == d[k..] + out[at + k..at + k + size][size - k..])
  {
    var e, tail := out[..at] + d + out[at + |d|..], out[at + |d|..];
    assert e[at..at + size] == d && e[at + size..] == tail;
    assert e[at + k..at + size] == e[at..at + size][k..];
    if at + k + size <= |out| {
      assert e[at + k..at + k + size] == e[at + k..at + size] + tail[..k];
      assert out[at + k..at + k + size][size - k..] == tail[..k];
    }
  }

  // ---------------------------------------------------------------- the code

  class Slots {
    const size: nat
    const out: array<Sample>
    const st: array<SlotState>
    const len: array<nat>
    var cpIdx: nat
    var mcuIdx: nat
    ghost var good: seq<Pcm>
    ghost var released: seq<Release>

    ghost predicate Valid()
      reads this
    {
      && size > 0 && 3 * size <= out.Length && st.Length == len.Length == 3
      && cpIdx < 3 && mcuIdx < 3
    }

    ghost function View(cp: Cp, mcu: Mcu): (s: State)
      requires Valid()
      reads this, out, st, len
      ensures WellFormed(s)
    {
      State(size, out[..], st[..], len[..], cpIdx, mcuIdx, cp, mcu, good, released)
    }

    /** `mcu_decode_a2dp_init`; `first` is 1 for LHDC and 2 otherwise. */
    constructor (out: array<Sample>, size: nat, first: nat)
      requires size > 0 && 3 * size <= out.Length && 1 <= first <= 2
      ensures Valid() && fresh(st) && fresh(len) && this.out == out
      ensures IsInit(View(CpIdle, McuIdle), first)
    {
      this.size, this.out := size, out;
      st := new SlotState[3](i requires 0 <= i => if i >= first then Done else Idle);
      len := new nat[3](i requires 0 <= i => if i >= first then size else 0);
      cpIdx, mcuIdx := 0, first;
      good, released := [], [];
    }

    /** The slot choice of `cp_a2dp_main` and `cp_decode_a2dp_begin`. */
    method Begin() returns (busy: bool, w: nat)
      requires Valid()
      modifies st, len
      ensures Valid()
      ensures busy <==> Pending(old(View(CpIdle, McuIdle)), cpIdx)
      ensures View(if busy then CpIdle else Decoding(w, 0), McuIdle) == Next(old(View(CpIdle, McuIdle)), CpBegin)
    {
      var pcmLen := size;
      if st[cpIdx] == Working {
        if len[cpIdx] < size {
          pcmLen := size - len[cpIdx];
        } else {
          len[cpIdx] := 0;
        }
      }
      w := Base(size, cpIdx) + size - pcmLen;
      busy := st[cpIdx] != Idle && st[cpIdx] != Working;
      if !busy && st[cpIdx] == Idle {
        st[cpIdx] := Working;
        len[cpIdx] := 0;
      }
    }

    /** `cp_decode_a2dp_end`, after `n` samples were written from position `w` on. */
    method End(w: nat, n: nat, retry: bool)
      requires Valid() && w + n <= out.Length && (retry ==> n < size)
      modifies this`cpIdx, this`good, st, len
      ensures Valid()
      ensures View(CpIdle, McuIdle) == Next(old(View(Decoding(w, n), McuIdle)), CpEnd(retry))
    {
      len[cpIdx] := len[cpIdx] + n;
      if !retry {
        st[cpIdx] := if size == n then Done else Failed;
        if size == n {
          good := good + [out[..][w..w + n]];
        }
        cpIdx := if cpIdx + 1 >= 3 then 0 else cpIdx + 1;
      }
    }

    method CopyOut(pcm: array<Sample>, at: nat)
      requires Valid() && pcm.Length == size && pcm != out && at + size <= out.Length
      modifies pcm
      ensures pcm[..] == out[..][at..at + size]
    {
      for i := 0 to size
        invariant forall j :: 0 <= j < i ==> pcm[j] == out[at + j]
      {
        pcm[i] := out[at + i];
      }
    }

    /** `mcu_decode_a2dp_process` with no co-processor step in between. */
    method Process(pcm: array<Sample>) returns (ret: int)
      requires Valid() && pcm.Length == size && pcm != out
      modifies this`mcuIdx, this`released, st, pcm
      ensures Valid()
      ensures ret == 0 ==> pcm[..] == Slot(size, out[..], old(mcuIdx))
      ensures ret != 0 ==> pcm[..] == old(pcm[..])
      ensures var look := Next(old(View(CpIdle, McuIdle)), McuLook);
              && (ret == 0 <==> look.mcu.Playing?)
              && View(CpIdle, McuIdle) ==
                   if ret != 0 then Next(look, McuExit)
                   else Next(look.(mcu := Playing(Slot(size, out[..], old(mcuIdx)))), McuRelease)
    {
      ret := 0;
      if st[mcuIdx] != Done {
        ret := 1;
      } else if len[mcuIdx] != size {
        ret := 2;
      } else {
        CopyOut(pcm, Base(size, mcuIdx));
      }
      hide Slot;
      Leave(ret == 0);
    }

    /** Its exit: a finished slot is given back, whether it was played or not. */
    method Leave(ghost played: bool)
      requires Valid()
      modifies this`mcuIdx, this`released, st
      ensures Valid()
      ensures View(CpIdle, McuIdle) == GivenBack(old(View(CpIdle, McuIdle)), played)
    {
      if st[mcuIdx] == Done || st[mcuIdx] == Failed {
        if st[mcuIdx] == Done {
          released := released + [Release(Slot(size, out[..], mcuIdx), played, len[mcuIdx] == size)];
        }
        st[mcuIdx] := Idle;
        mcuIdx := if mcuIdx + 1 >= 3 then 0 else mcuIdx + 1;
      }
    }
  }

  function GivenBack(s: State, played: bool): State
    requires WellFormed(s)
  {
    if Pending(s, s.mcuIdx) then
      s.(st := s.st[s.mcuIdx := Idle], mcuIdx := Rot(s.mcuIdx),
         released := if s.st[s.mcuIdx].Done? then s.released + [Unplayed(s).(played := played)] else s.released)
    else s
  }
}
