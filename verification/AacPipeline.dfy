/** AAC packets end to end: stored by the Bluetooth thread, moved by the MCU in whatever chunks,
loaded by the co-processor byte by byte while the other two keep running
(apps/audioplayers/a2dpplay.cpp).
*/
module AacPipeline {
  import opened LengthPrefix
  import opened Ring
  import opened AacFraming
  import opened A2dpInCache
  import opened A2dpInterleaving

  datatype AacState = AacState(
    dev: State,
    sent: seq<Payload>,          // packets stored
    frames: seq<Payload>)        // packets handed to the decoder

  datatype AacStep = Send(p: Payload) | Dev(step: Step)

  /** Whether `cp_load_aac_frame` is done once it has read `got` of the `seen` bytes it may look
      at, and then how many bytes it takes: those of a whole frame, or none. */
  predicate Done(seen: nat, got: seq<Byte>, n: nat) {
    if seen < 2 then n == 0
    else if |got| < 2 then false
    else
      var len := FromU16(got[..2]);
      if len >= MAX_FRAME || seen < 2 + len then n == 0
      else n == |got| == 2 + len
  }

  /** Whether it still has to read on: the two length bytes, and then a payload that is all there. */
  predicate Wants(seen: nat, got: seq<Byte>) {
    seen >= 2 && (|got| < 2 || (FromU16(got[..2]) < MAX_FRAME && |got| < 2 + FromU16(got[..2]) <= seen))
  }

  /** It has not read more than that. */
  predicate Wanted(seen: nat, got: seq<Byte>) {
    if seen < 2 then got == []
    else |got| <= 2 || (FromU16(got[..2]) < MAX_FRAME && |got| <= 2 + FromU16(got[..2]) <= seen)
  }

  /** The bytes the co-processor may look at. */
  function Seen(s: State): nat
    requires WellFormed(s) && s.cp.Reading?
  {
    if s.cp.w < |s.mem| then DataLen(|s.mem|, s.cp.w, s.rpos) else 0
  }

  /** It takes what the load function says, whatever else is behind the bytes it has read. */
  lemma DoneIsLoadFrame(u: seq<Byte>, got: seq<Byte>, n: nat)
    requires got <= u && Done(|u|, got, n)
    ensures n == Taken(LoadFrame(u))
    ensures n > 0 ==> got == u[..n] && LoadFrame(u).payload == got[2..]
  {
    if |got| >= 2 {
      assert got[..2] == u[..2];
    }
  }

  predicate AacEnabled(a: AacState, step: AacStep) {
    && WellFormed(a.dev)
    && match step
       case Send(p) => |p| < 65536
       case Dev(d) =>
         && !d.Store?
         && Enabled(a.dev, d)
         && (d.CpByte? ==> Wants(Seen(a.dev), a.dev.cp.got))
         && (d.CpFinish? ==> Done(Seen(a.dev), a.dev.cp.got, d.n))
  }

  function AacNext(a: AacState, step: AacStep): AacState
    requires AacEnabled(a, step)
  {
    match step
    case Send(p) => AacState(Next(a.dev, Store(U16(|p|) + p)), a.sent + [p], a.frames)
    case Dev(d) =>
      AacState(Next(a.dev, d), a.sent,
               if d.CpFinish? && d.n > 0 then a.frames + [a.dev.cp.got[2..]] else a.frames)
  }

  predicate AacInv(a: AacState) {
    && Inv(a.dev)
    && a.dev.stored == Encode(a.sent)
    && a.dev.taken == Encode(a.frames)
    && a.frames <= a.sent
    && (a.dev.cp.Reading? ==> Wanted(Seen(a.dev), a.dev.cp.got))
    && forall p :: p in a.sent ==> |p| < 65536
  }

  /** A whole frame read at the head of encoded packets is the first of them. */
  lemma FrameAtHead(rest: seq<Payload>, got: seq<Byte>)
    requires forall p :: p in rest ==> |p| < 65536
    requires 2 <= |got| && got <= Encode(rest) && |got| == 2 + FromU16(got[..2])
    ensures rest != [] && got == U16(|rest[0]|) + rest[0] && got[2..] == rest[0]
  {
    hide U16, FromU16;
    var p := rest[0];
    U16RoundTrip(|p|);
    assert p in rest;
    var s := Encode(rest);
    assert s == U16(|p|) + p + Encode(rest[1..]);
    assert got == s[..|got|];
    assert got[..2] == s[..2] == U16(|p|);
    assert got == s[..2 + |p|] == U16(|p|) + p;
  }

  lemma Cancel(x: seq<Byte>, u: seq<Byte>, v: seq<Byte>, y: seq<Byte>)
    requires x + u + v == x + y
    ensures u + v == y
  {
    assert u + v == (x + u + v)[|x|..] == (x + y)[|x|..];
  }

  lemma DeliverKeepsInv(a: AacState, n: nat)
    requires AacInv(a) && AacEnabled(a, Dev(CpFinish(n))) && n > 0
    ensures AacInv(AacNext(a, Dev(CpFinish(n))))
    ensures |a.frames| < |a.sent| && a.dev.cp.got[2..] == a.sent[|a.frames|]
  {
    hide Stretch, Advance, DataLen, FreeLen, U16, FromU16, Unread, Behind, McuInv, Encode;
    var s, got := a.dev, a.dev.cp.got;
    var k := |a.frames|;
    var rest := a.sent[k..];
    assert a.sent == a.frames + rest;
    EncodeConcat(a.frames, rest);
    Cancel(Encode(a.frames), Unread(s), Behind(s), Encode(rest));
    CpFinishTakes(s, n);
    assert got[..n] == got;
    assert got <= Encode(rest);
    FrameAtHead(rest, got);
    EncodeConcat(a.frames, [rest[0]]);
    EncodeOne(rest[0]);
    assert a.frames + [rest[0]] == a.sent[..k + 1];
    hide Inv, Done;
  }

  lemma SendKeepsInv(a: AacState, p: Payload)
    requires AacInv(a) && |p| < 65536 && WellFormed(a.dev)
    ensures AacInv(AacNext(a, Send(p)))
  {
    hide Stretch, Advance, DataLen, FreeLen, U16, McuInv, CpInv, Unread, Behind;
    EncodeConcat(a.sent, [p]);
    EncodeOne(p);
    StoreKeepsInv(a.dev, U16(|p|) + p);
  }

  lemma OtherKeepsInv(a: AacState, d: Step)
    requires AacInv(a) && AacEnabled(a, Dev(d)) && (d.CpFinish? ==> d.n == 0)
    ensures AacInv(AacNext(a, Dev(d)))
  {
    hide Stretch, Advance, DataLen, FreeLen, McuInv, CpInv, Unread, Behind;
    StepKeepsInv(a.dev, d);
    assert a.dev.taken + [] == a.dev.taken;
  }

  predicate AacLegal(a: AacState, steps: seq<AacStep>)
    decreases |steps|
  {
    steps == [] || (AacEnabled(a, steps[0]) && AacLegal(AacNext(a, steps[0]), steps[1..]))
  }

  function AacExec(a: AacState, steps: seq<AacStep>): AacState
    requires AacLegal(a, steps)
    decreases |steps|
  {
    if steps == [] then a else AacExec(AacNext(a, steps[0]), steps[1..])
  }

  lemma {:induction false} AacRunKeepsInv(a: AacState, steps: seq<AacStep>)
    requires AacInv(a) && AacLegal(a, steps)
    ensures AacInv(AacExec(a, steps))
    decreases |steps|
  {
    hide AacInv, AacEnabled, AacNext;
    if steps != [] {
      AacStepKeepsInv(a, steps[0]);
      AacRunKeepsInv(AacNext(a, steps[0]), steps[1..]);
    }
  }

  lemma AacStepKeepsInv(a: AacState, step: AacStep)
    requires AacInv(a) && AacEnabled(a, step)
    ensures AacInv(AacNext(a, step))
  {
    hide AacInv, AacNext;
    match step
    case Send(p) => SendKeepsInv(a, p);
    case Dev(d) =>
      if d.CpFinish? && d.n > 0 {
        DeliverKeepsInv(a, d.n);
      } else {
        OtherKeepsInv(a, d);
      }
  }

  lemma InitInv(mem: seq<Byte>)
    requires mem != []
    ensures AacInv(AacState(Init(mem), [], []))
  {
  }

  /** Over every interleaving and every chunking, the packets that reach the decoder are the packets
      stored, in order and whole; and once the bytes have drained, they are all of them. */
  lemma PacketsSurvive(mem: seq<Byte>, steps: seq<AacStep>)
    requires mem != [] && AacLegal(AacState(Init(mem), [], []), steps)
    ensures var a := AacExec(AacState(Init(mem), [], []), steps);
            && WellFormed(a.dev)
            && a.frames <= a.sent
            && (Unread(a.dev) == [] && Behind(a.dev) == [] ==> a.frames == a.sent)
  {
    hide Stretch, AacNext, AacEnabled, Unread, Behind;
    var a0 := AacState(Init(mem), [], []);
    InitInv(mem);
    AacRunKeepsInv(a0, steps);
    var a := AacExec(a0, steps);
    var rest := a.sent[|a.frames|..];
    assert a.sent == a.frames + rest;
    EncodeConcat(a.frames, rest);
    if Unread(a.dev) == [] && Behind(a.dev) == [] {
      assert Encode(a.frames) + [] + [] == Encode(a.frames);
      assert |Encode(rest)| == 0;
    }
  }
}
