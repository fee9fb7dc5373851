/** Which AAC packets reach the decoder in the end (apps/audioplayers/a2dpplay.cpp): from every
reachable state the two cores can bring home all that was stored, unless a packet is too long for
the decoder or for the cache; such a packet stops everything behind it for good.
*/
module AacDrain {
  import opened LengthPrefix
  import opened Ring
  import opened AacFraming
  import opened A2dpInCache
  import opened A2dpInterleaving
  import opened AacPipeline

  /** A packet the decoder accepts and that the cache can hold whole. */
  predicate Fits(size: nat, p: Payload) {
    |p| < 2048 && 2 + |p| < size
  }

  // ---------------------------------------------------------------- runs of the two cores

  /** Steps of the cores alone, without a new packet, lead from `a` to `b`. */
  predicate Leads(a: AacState, steps: seq<AacStep>, b: AacState) {
    && AacLegal(a, steps) && AacExec(a, steps) == b
    && forall i :: 0 <= i < |steps| ==> steps[i].Dev?
  }

  lemma LeadsOne(a: AacState, d: Step)
    requires AacEnabled(a, Dev(d))
    ensures Leads(a, [Dev(d)], AacNext(a, Dev(d)))
  {
    hide AacEnabled, AacNext;
    var steps, b := [Dev(d)], AacNext(a, Dev(d));
    assert steps[1..] == [] && AacLegal(b, []) && AacExec(b, []) == b;
  }

  lemma {:induction false} LeadsThen(a: AacState, xs: seq<AacStep>, b: AacState, ys: seq<AacStep>, c: AacState)
    requires Leads(a, xs, b) && Leads(b, ys, c)
    ensures Leads(a, xs + ys, c)
    decreases |xs|
  {
    hide AacEnabled, AacNext;
    if xs == [] {
      assert xs + ys == ys;
    } else {
      LeadsThen(AacNext(a, xs[0]), xs[1..], b, ys, c);
      assert (xs + ys)[1..] == xs[1..] + ys;
    }
  }

  /** What every step of a core keeps. */
  predicate Follows(a: AacState, b: AacState) {
    && AacInv(b) && b.sent == a.sent && |b.dev.mem| == |a.dev.mem| && |a.frames| <= |b.frames|
  }

  lemma CoreStep(a: AacState, d: Step)
    requires AacInv(a) && AacEnabled(a, Dev(d))
    ensures Follows(a, AacNext(a, Dev(d)))
  {
    AacStepKeepsInv(a, Dev(d));
    hide AacInv;
  }

  // ---------------------------------------------------------------- the co-processor finishes its load

  /** The next packet is all within what the co-processor may look at. */
  predicate HeadSeen(a: AacState)
    requires WellFormed(a.dev) && a.dev.cp.Reading?
  {
    && |a.frames| < |a.sent|
    && |a.sent[|a.frames|]| < MAX_FRAME && 2 + |a.sent[|a.frames|]| <= Seen(a.dev)
  }

  lemma HeaderIsOfHead(a: AacState)
    requires AacInv(a) && a.dev.cp.Reading? && |a.dev.cp.got| >= 2
    ensures |a.frames| < |a.sent| && FromU16(a.dev.cp.got[..2]) == |a.sent[|a.frames|]|
  {
    hide Stretch, Advance, DataLen, FreeLen, U16, FromU16, Behind, McuInv, Wanted, Seen, Encode;
    var s, got := a.dev, a.dev.cp.got;
    var rest := a.sent[|a.frames|..];
    assert a.sent == a.frames + rest;
    EncodeConcat(a.frames, rest);
    Cancel(Encode(a.frames), Unread(s), Behind(s), Encode(rest));
    StretchDrop(s.mem, s.rpos, |Unread(s)|, |got|);
    assert got == Encode(rest)[..|got|];
    HeaderOf(rest, got);
  }

  lemma HeaderOf(rest: seq<Payload>, got: seq<Byte>)
    requires forall p :: p in rest ==> |p| < 65536
    requires 2 <= |got| && got <= Encode(rest)
    ensures rest != [] && FromU16(got[..2]) == |rest[0]|
  {
    hide U16, FromU16;
    assert rest != [];
    var p := rest[0];
    U16RoundTrip(|p|);
    assert p in rest;
    assert Encode(rest) == U16(|p|) + p + Encode(rest[1..]);
    assert got == Encode(rest)[..|got|];
    assert got[..2] == Encode(rest)[..2] == U16(|p|);
  }

  lemma ReadOn(a: AacState)
    requires AacInv(a) && a.dev.cp.Reading? && Wants(Seen(a.dev), a.dev.cp.got)
    ensures AacEnabled(a, Dev(CpByte))
    ensures var b := AacNext(a, Dev(CpByte));
            && Follows(a, b) && b.frames == a.frames && b.dev.mcu == a.dev.mcu
            && b.dev.cp.Reading? && Seen(b.dev) == Seen(a.dev) && |b.dev.cp.got| == |a.dev.cp.got| + 1
  {
    hide Stretch, Advance, FreeLen, FromU16, Unread, Behind, McuInv, Encode;
    var s := a.dev;
    Unique(|s.mem|, s.rpos, |s.cp.got|);
    assert AacEnabled(a, Dev(CpByte)) by {
      hide DataLen;
    }
    CoreStep(a, CpByte);
    hide DataLen, Wants, Wanted;
  }

  /** The bytes it takes when it has stopped reading. */
  function Takes(seen: nat, got: seq<Byte>): nat {
    if seen >= 2 && |got| >= 2 && FromU16(got[..2]) < MAX_FRAME && 2 + FromU16(got[..2]) <= seen then |got| else 0
  }

  lemma Stopped(seen: nat, got: seq<Byte>)
    requires Wanted(seen, got) && !Wants(seen, got)
    ensures Done(seen, got, Takes(seen, got))
  {
    hide FromU16;
  }

  lemma ReadDone(a: AacState)
    requires AacInv(a) && a.dev.cp.Reading? && !Wants(Seen(a.dev), a.dev.cp.got)
    ensures var n := Takes(Seen(a.dev), a.dev.cp.got);
            && AacEnabled(a, Dev(CpFinish(n)))
            && var b := AacNext(a, Dev(CpFinish(n)));
            && Follows(a, b) && b.dev.cp.CpIdle? && b.dev.mcu == a.dev.mcu
            && (HeadSeen(a) ==> |b.frames| == |a.frames| + 1)
  {
    hide Stretch, Advance, FreeLen, FromU16, Unread, Behind, McuInv, Encode;
    var seen, got := Seen(a.dev), a.dev.cp.got;
    var n := Takes(seen, got);
    Stopped(seen, got);
    assert AacEnabled(a, Dev(CpFinish(n))) by {
      hide DataLen;
    }
    CoreStep(a, CpFinish(n));
    if HeadSeen(a) {
      assert |got| >= 2;
      HeaderIsOfHead(a);
    }
    hide AacInv;
  }

  lemma {:induction false} FinishRead(a: AacState) returns (steps: seq<AacStep>, b: AacState)
    requires AacInv(a) && a.dev.cp.Reading?
    ensures Leads(a, steps, b) && Follows(a, b) && b.dev.cp.CpIdle? && b.dev.mcu == a.dev.mcu
    ensures HeadSeen(a) ==> |b.frames| == |a.frames| + 1
    decreases Seen(a.dev) - |a.dev.cp.got|
  {
    if Wants(Seen(a.dev), a.dev.cp.got) {
      ReadOn(a);
      LeadsOne(a, CpByte);
      var a1 := AacNext(a, Dev(CpByte));
      hide AacEnabled, AacNext, AacInv, Leads;
      steps, b := FinishRead(a1);
      LeadsThen(a, [Dev(CpByte)], a1, steps, b);
      steps := [Dev(CpByte)] + steps;
    } else {
      var n := Takes(Seen(a.dev), a.dev.cp.got);
      ReadDone(a);
      LeadsOne(a, CpFinish(n));
      steps, b := [Dev(CpFinish(n))], AacNext(a, Dev(CpFinish(n)));
      hide AacEnabled, AacNext, AacInv, Leads;
    }
  }

  // ---------------------------------------------------------------- the MCU finishes its transfer

  function NextMove(s: State): Step {
    match s.mcu
    case Snapped(_) => McuPeek
    case Copying(_, k, n) => if k < n then McuByte else McuPublish
    case _ => McuDequeue
  }

  /** Steps left until the transfer is over. */
  function StepsLeft(s: State): nat {
    match s.mcu
    case McuIdle => 0
    case Snapped(_) => |s.mem| + 3
    case Copying(_, k, n) => if k <= n then n - k + 2 else 0
    case Published(_) => 1
  }

  /** The unread bytes there are once the transfer is over. */
  function Coming(s: State): nat
    requires WellFormed(s)
  {
    DataLen(|s.mem|, s.wpos, s.rpos) +
    match s.mcu
    case Snapped(r) => if r < |s.mem| then Min(|s.queue|, FreeLen(|s.mem|, s.wpos, r)) else 0
    case Copying(_, _, n) => n
    case _ => 0
  }

  lemma MoveKeepsComing(s: State)
    requires Inv(s) && !s.mcu.McuIdle?
    ensures Enabled(s, NextMove(s))
    ensures var t := Next(s, NextMove(s));
            Coming(t) == Coming(s) && t.cp == s.cp && StepsLeft(t) < StepsLeft(s)
  {
    hide Stretch, Advance, Unread, Behind, CpInv;
    if NextMove(s) == McuPublish {
      Published(s);
    }
  }

  lemma Published(s: State)
    requires Inv(s) && Enabled(s, McuPublish)
    ensures DataLen(|s.mem|, s.mcu.at, s.rpos) == DataLen(|s.mem|, s.wpos, s.rpos) + s.mcu.n
  {
    hide Stretch, Advance, DataLen, FreeLen;
    var size, n := |s.mem|, DataLen(|s.mem|, s.wpos, s.rpos);
    AdvanceAdvance(size, s.rpos, n, s.mcu.n);
    Unique(size, s.rpos, n + s.mcu.n);
  }

  lemma MoveOn(a: AacState)
    requires AacInv(a) && !a.dev.mcu.McuIdle?
    ensures AacEnabled(a, Dev(NextMove(a.dev)))
    ensures var b := AacNext(a, Dev(NextMove(a.dev)));
            && Follows(a, b) && b.frames == a.frames && b.dev.cp == a.dev.cp
            && Coming(b.dev) == Coming(a.dev) && StepsLeft(b.dev) < StepsLeft(a.dev)
  {
    hide Coming, StepsLeft, Next, Enabled;
    MoveKeepsComing(a.dev);
    CoreStep(a, NextMove(a.dev));
    hide AacInv;
  }

  lemma {:induction false} FinishMove(a: AacState) returns (steps: seq<AacStep>, b: AacState)
    requires AacInv(a)
    ensures Leads(a, steps, b) && Follows(a, b) && b.frames == a.frames
    ensures b.dev.mcu.McuIdle? && b.dev.cp == a.dev.cp && Coming(b.dev) == Coming(a.dev)
    decreases StepsLeft(a.dev)
  {
    if a.dev.mcu.McuIdle? {
      steps, b := [], a;
      hide AacInv;
    } else {
      var d := NextMove(a.dev);
      MoveOn(a);
      LeadsOne(a, d);
      var a1 := AacNext(a, Dev(d));
      hide AacEnabled, AacNext, AacInv, Leads, NextMove, StepsLeft, Coming;
      steps, b := FinishMove(a1);
      LeadsThen(a, [Dev(d)], a1, steps, b);
      steps := [Dev(d)] + steps;
    }
  }

  // ---------------------------------------------------------------- one packet more

  lemma StartMove(a: AacState)
    requires AacInv(a) && a.dev.mcu.McuIdle? && a.dev.cp.CpIdle?
    requires |a.frames| < |a.sent|
    ensures AacEnabled(a, Dev(McuSnap))
    ensures var b := AacNext(a, Dev(McuSnap));
            && Follows(a, b) && b.frames == a.frames && b.dev.cp.CpIdle?
            && Coming(b.dev) >= Min(2 + |a.sent[|a.frames|]|, |a.dev.mem| - 1)
  {
    hide Stretch, Advance, U16, McuInv, CpInv, Wanted, Encode;
    var s := a.dev;
    var rest := a.sent[|a.frames|..];
    assert a.sent == a.frames + rest;
    EncodeConcat(a.frames, rest);
    Cancel(Encode(a.frames), Unread(s), Behind(s), Encode(rest));
    assert |Encode(rest)| == DataLen(|s.mem|, s.wpos, s.rpos) + |s.queue|;
    HeadLength(rest);
    CoreStep(a, McuSnap);
    hide AacInv;
  }

  lemma HeadLength(rest: seq<Payload>)
    requires rest != []
    ensures |Encode(rest)| >= 2 + |rest[0]|
  {
  }

  lemma StartRead(a: AacState)
    requires AacInv(a) && a.dev.mcu.McuIdle? && a.dev.cp.CpIdle?
    ensures AacEnabled(a, Dev(CpSnap))
    ensures var b := AacNext(a, Dev(CpSnap));
            Follows(a, b) && b.frames == a.frames && b.dev.cp.Reading? && Seen(b.dev) == Coming(a.dev)
  {
    CoreStep(a, CpSnap);
    hide AacInv;
  }

  /** With both cores between two calls, one transfer and one load bring the next packet home. */
  lemma LoadNext(a: AacState) returns (steps: seq<AacStep>, b: AacState)
    requires AacInv(a) && a.dev.mcu.McuIdle? && a.dev.cp.CpIdle?
    requires |a.frames| < |a.sent| && Fits(|a.dev.mem|, a.sent[|a.frames|])
    ensures Leads(a, steps, b) && Follows(a, b) && |b.frames| > |a.frames|
  {
    StartMove(a);
    LeadsOne(a, McuSnap);
    var a1 := AacNext(a, Dev(McuSnap));
    hide AacEnabled, AacNext, AacInv, Leads, Coming, Seen;
    var xs, a2 := FinishMove(a1);
    StartRead(a2);
    LeadsOne(a2, CpSnap);
    var a3 := AacNext(a2, Dev(CpSnap));
    var ys;
    ys, b := FinishRead(a3);
    LeadsThen(a2, [Dev(CpSnap)], a3, ys, b);
    LeadsThen(a1, xs, a2, [Dev(CpSnap)] + ys, b);
    steps := [Dev(McuSnap)] + (xs + ([Dev(CpSnap)] + ys));
    LeadsThen(a, [Dev(McuSnap)], a1, xs + ([Dev(CpSnap)] + ys), b);
  }

  lemma SettleRead(a: AacState) returns (steps: seq<AacStep>, b: AacState)
    requires AacInv(a)
    ensures Leads(a, steps, b) && Follows(a, b) && b.dev.cp.CpIdle?
  {
    if a.dev.cp.Reading? {
      steps, b := FinishRead(a);
    } else {
      steps, b := [], a;
    }
    hide AacInv;
  }

  lemma DeliverNext(a: AacState) returns (steps: seq<AacStep>, b: AacState)
    requires AacInv(a) && |a.frames| < |a.sent| && Fits(|a.dev.mem|, a.sent[|a.frames|])
    ensures Leads(a, steps, b) && Follows(a, b) && |b.frames| > |a.frames|
  {
    hide AacInv, Leads, Fits;
    var xs, a1 := SettleRead(a);
    if |a1.frames| > |a.frames| {
      return xs, a1;
    }
    var ys, a2 := FinishMove(a1);
    var zs;
    zs, b := LoadNext(a2);
    LeadsThen(a1, ys, a2, zs, b);
    LeadsThen(a, xs, a1, ys + zs, b);
    steps := xs + (ys + zs);
  }

  // ---------------------------------------------------------------- all that is left

  /** All packets not yet handed to the decoder. */
  predicate AllFit(a: AacState) {
    forall k :: |a.frames| <= k < |a.sent| ==> Fits(|a.dev.mem|, a.sent[k])
  }

  lemma {:induction false} Drain(a: AacState) returns (steps: seq<AacStep>, b: AacState)
    requires AacInv(a) && AllFit(a)
    ensures Leads(a, steps, b) && Follows(a, b) && b.frames == a.sent
    decreases |a.sent| - |a.frames|
  {
    AtMostSent(a);
    if |a.frames| == |a.sent| {
      steps, b := [], a;
      hide AacInv;
    } else {
      hide AacInv, Leads, Fits;
      var xs, a1 := DeliverNext(a);
      var ys;
      ys, b := Drain(a1);
      LeadsThen(a, xs, a1, ys, b);
      steps := xs + ys;
    }
  }

  lemma FramesAreSent(a: AacState)
    requires AacInv(a)
    ensures a.frames <= a.sent
  {
  }

  lemma AtMostSent(a: AacState)
    requires AacInv(a)
    ensures |a.frames| <= |a.sent| && (|a.frames| == |a.sent| ==> a.frames == a.sent)
  {
    hide Inv, Encode;
  }

  // ---------------------------------------------------------------- what blocks

  lemma StepIsBlocked(a: AacState, step: AacStep, k: nat)
    requires AacInv(a) && AacEnabled(a, step)
    requires |a.frames| <= k < |a.sent| && !Fits(|a.dev.mem|, a.sent[k])
    ensures var b := AacNext(a, step);
            && |b.frames| <= k < |b.sent| && b.sent[k] == a.sent[k] && |b.dev.mem| == |a.dev.mem|
            && a.sent <= b.sent
  {
    if step.Dev? && step.step.CpFinish? && step.step.n > 0 {
      DeliverKeepsInv(a, step.step.n);
    }
  }

  lemma {:induction false} RunIsBlocked(a: AacState, steps: seq<AacStep>, k: nat)
    requires AacInv(a) && AacLegal(a, steps)
    requires |a.frames| <= k < |a.sent| && !Fits(|a.dev.mem|, a.sent[k])
    ensures var b := AacExec(a, steps);
            |b.frames| <= k && b.frames <= b.sent && a.sent <= b.sent
    decreases |steps|
  {
    FramesAreSent(a);
    hide AacInv, AacEnabled, AacNext, Fits;
    if steps != [] {
      StepIsBlocked(a, steps[0], k);
      AacStepKeepsInv(a, steps[0]);
      RunIsBlocked(AacNext(a, steps[0]), steps[1..], k);
    }
  }

  /** Some way for the two cores to go on, without a new packet, after which nothing is left. */
  predicate Drains(a: AacState, more: seq<AacStep>) {
    && AacLegal(a, more)
    && (forall i :: 0 <= i < |more| ==> more[i].Dev?)
    && AacExec(a, more).frames == a.sent
  }

  /** From every reachable state: all that was stored can still reach the decoder if and only if each
      packet that has not is below the decoder's limit and fits the cache. */
  lemma DrainsIff(mem: seq<Byte>, steps: seq<AacStep>)
    requires mem != [] && AacLegal(AacState(Init(mem), [], []), steps)
    ensures var a := AacExec(AacState(Init(mem), [], []), steps);
            (exists more :: Drains(a, more)) <==> AllFit(a)
  {
    var a0 := AacState(Init(mem), [], []);
    InitInv(mem);
    AacRunKeepsInv(a0, steps);
    var a := AacExec(a0, steps);
    hide AacInv, Fits, AacEnabled, AacNext;
    if AllFit(a) {
      var more, b := Drain(a);
      assert Drains(a, more);
    }
    if more :| Drains(a, more) {
      forall k | |a.frames| <= k < |a.sent|
        ensures Fits(|a.dev.mem|, a.sent[k])
      {
        if !Fits(|a.dev.mem|, a.sent[k]) {
          RunIsBlocked(a, more, k);
        }
      }
    }
  }

  /** And a packet that is too long for either stops the stream: whatever is sent and done later,
      neither it nor anything behind it reaches the decoder. */
  lemma TooLongBlocksForGood(mem: seq<Byte>, steps: seq<AacStep>, more: seq<AacStep>, k: nat)
    requires mem != [] && AacLegal(AacState(Init(mem), [], []), steps)
    requires var a := AacExec(AacState(Init(mem), [], []), steps);
             && AacLegal(a, more)
             && |a.frames| <= k < |a.sent| && !Fits(|a.dev.mem|, a.sent[k])
    ensures var a := AacExec(AacState(Init(mem), [], []), steps);
            AacExec(a, more).frames <= a.sent[..k]
  {
    var a0 := AacState(Init(mem), [], []);
    InitInv(mem);
    AacRunKeepsInv(a0, steps);
    var a := AacExec(a0, steps);
    hide AacInv, Fits, AacEnabled, AacNext, AacExec;
    RunIsBlocked(a, more, k);
  }

  // ---------------------------------------------------------------- the reset that a bad header asks for

  /** `decode_a2dp_end` empties the queue between two transfers.  The positions of the cache stay. */
  datatype ResetStep = Go(step: AacStep) | Reset

  predicate ResetEnabled(a: AacState, r: ResetStep) {
    match r
    case Go(step) => AacEnabled(a, step)
    case Reset => a.dev.mcu.McuIdle? && |a.dev.queue| <= |a.dev.stored|
  }

  /** What is thrown away no longer counts as stored. */
  function ResetNext(a: AacState, r: ResetStep): AacState
    requires ResetEnabled(a, r)
  {
    match r
    case Go(step) => AacNext(a, step)
    case Reset =>
      var s := a.dev;
      a.(dev := s.(queue := [], stored := s.stored[..|s.stored| - |s.queue|]))
  }

  predicate ResetLegal(a: AacState, rs: seq<ResetStep>)
    decreases |rs|
  {
    rs == [] || (ResetEnabled(a, rs[0]) && ResetLegal(ResetNext(a, rs[0]), rs[1..]))
  }

  function ResetExec(a: AacState, rs: seq<ResetStep>): AacState
    requires ResetLegal(a, rs)
    decreases |rs|
  {
    if rs == [] then a else ResetExec(ResetNext(a, rs[0]), rs[1..])
  }

  /** What the cache holds begins with a length the load function takes for a bad header. */
  predicate BadHead(s: State) {
    Inv(s) && LoadFrame(Unread(s)).BadHeader?
  }

  lemma BadHeadLoadsNothing(a: AacState, n: nat)
    requires BadHead(a.dev) && AacEnabled(a, Dev(CpFinish(n)))
    ensures n == 0
  {
    hide Stretch, Advance, FreeLen, FromU16, McuInv, Behind;
    var s := a.dev;
    StretchDrop(s.mem, s.rpos, |Unread(s)|, |s.cp.got|);
    assert |s.cp.got| >= 2 ==> s.cp.got[..2] == Unread(s)[..2];
  }

  /** It comes to that from every state whose next packet is too long for the decoder. */
  lemma BadHeadComes(a: AacState) returns (steps: seq<AacStep>, b: AacState)
    requires AacInv(a) && |a.dev.mem| > 2
    requires |a.frames| < |a.sent| && |a.sent[|a.frames|]| >= MAX_FRAME
    ensures Leads(a, steps, b) && BadHead(b.dev)
  {
    hide AacEnabled, AacNext, AacInv, Leads, BadHead;
    var xs, a1 := SettleBlocked(a);
    var ys, a2 := FinishMove(a1);
    StartMove(a2);
    LeadsOne(a2, McuSnap);
    var a3 := AacNext(a2, Dev(McuSnap));
    var zs;
    zs, b := FinishMove(a3);
    UnreadIsHead(b);
    LeadsThen(a2, [Dev(McuSnap)], a3, zs, b);
    LeadsThen(a1, ys, a2, [Dev(McuSnap)] + zs, b);
    steps := xs + (ys + ([Dev(McuSnap)] + zs));
    LeadsThen(a, xs, a1, ys + ([Dev(McuSnap)] + zs), b);
  }

  lemma SettleBlocked(a: AacState) returns (steps: seq<AacStep>, b: AacState)
    requires AacInv(a) && |a.frames| < |a.sent| && |a.sent[|a.frames|]| >= MAX_FRAME
    ensures Leads(a, steps, b) && Follows(a, b) && b.dev.cp.CpIdle? && b.frames == a.frames
  {
    hide AacInv, AacEnabled, AacNext;
    steps, b := SettleRead(a);
    RunIsBlocked(a, steps, |a.frames|);
    FramesAreSent(a);
  }

  lemma UnreadIsHead(a: AacState)
    requires AacInv(a) && a.dev.mcu.McuIdle? && Coming(a.dev) >= 2
    requires |a.frames| < |a.sent| && |a.sent[|a.frames|]| >= MAX_FRAME
    ensures BadHead(a.dev)
  {
    hide Stretch, Advance, FreeLen, FromU16, McuInv, CpInv, Behind, Wanted, Encode;
    var s := a.dev;
    var rest := a.sent[|a.frames|..];
    assert a.sent == a.frames + rest;
    EncodeConcat(a.frames, rest);
    Cancel(Encode(a.frames), Unread(s), Behind(s), Encode(rest));
    HeaderOf(rest, Unread(s));
  }

  lemma StepKeepsBadHead(a: AacState, step: AacStep)
    requires BadHead(a.dev) && AacEnabled(a, step)
    ensures BadHead(AacNext(a, step).dev) && AacNext(a, step).frames == a.frames
  {
    hide Stretch, Advance, DataLen, FreeLen, FromU16, McuInv, CpInv, Behind;
    var s := a.dev;
    match step
    case Send(p) => StepKeepsInv(s, Store(U16(|p|) + p));
    case Dev(d) =>
      StepKeepsInv(s, d);
      match d
      case McuByte => McuByteKeepsUnread(s);
      case McuPublish => PublishKeepsBadHead(s);
      case CpFinish(n) =>
        BadHeadLoadsNothing(a, n);
        CpFinishTakes(s, n);
        assert s.cp.got[..0] + Unread(Next(s, CpFinish(0))) == Unread(Next(s, CpFinish(0)));
      case _ =>
  }

  lemma PublishKeepsBadHead(s: State)
    requires BadHead(s) && Enabled(s, McuPublish)
    ensures BadHead(Next(s, McuPublish))
  {
    hide Stretch, Advance, DataLen, FreeLen, FromU16, CpInv, Behind;
    McuPublishExtendsUnread(s);
    SamePrefix(Unread(s), s.queue[..s.mcu.n]);
  }

  lemma SamePrefix(u: seq<Byte>, v: seq<Byte>)
    ensures |u| >= 2 ==> (u + v)[..2] == u[..2]
  {
  }

  lemma ResetKeepsBadHead(a: AacState)
    requires BadHead(a.dev) && ResetEnabled(a, Reset)
    ensures BadHead(ResetNext(a, Reset).dev) && ResetNext(a, Reset).frames == a.frames
  {
    hide Stretch, Advance, DataLen, FreeLen, FromU16;
    var s := a.dev;
    assert s.stored[..|s.stored| - |s.queue|] == s.taken + Unread(s) + [];
  }

  /** The reset does not help: the bad header stays at the head of the cache, and no further packet
      reaches the decoder, whatever the three parties do. */
  lemma {:induction false} ResetDoesNotUnblock(a: AacState, rs: seq<ResetStep>)
    requires BadHead(a.dev) && ResetLegal(a, rs)
    ensures var b := ResetExec(a, rs);
            BadHead(b.dev) && b.frames == a.frames
    decreases |rs|
  {
    hide BadHead, AacEnabled, AacNext;
    if rs != [] {
      match rs[0] {
        case Go(step) => StepKeepsBadHead(a, step);
        case Reset => ResetKeepsBadHead(a);
      }
      ResetDoesNotUnblock(ResetNext(a, rs[0]), rs[1..]);
    }
  }
}
