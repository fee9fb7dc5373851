/** Reassembly of LHDC packets from media-packet fragments: `assemble_lhdc_packet` of
apps/audioplayers/a2dpplay.cpp.
*/
module LhdcAssembly {

  type Bytes = seq<bv8>

  /** One received packet: header byte, sequence number, payload. */
  datatype Fragment = Fragment(hdr: bv8, seqno: bv8, payload: Bytes)

  const S_MSK: bv8 := 0x40
  const L_MSK: bv8 := 0x20
  const FLAG_MSK: bv8 := 0xe0
  const PACKET_BUFFER_LENGTH := 4096

  predicate Single(f: Fragment) {
    f.hdr & FLAG_MSK == 0
  }

  predicate Starts(f: Fragment) {
    f.hdr & S_MSK != 0
  }

  predicate Ends(f: Fragment) {
    f.hdr & L_MSK != 0
  }

  // ---------------------------------------------------------------- one call

  /** `held` is the used part of `packet_buffer`; `waiting` is ASM_PKT_WAT_LST. */
  datatype Asm = Asm(synced: bool, serial: bv8, waiting: bool, held: Bytes)

  /** `ret` is 1 for a delivery, and then `out` is the packet. */
  datatype Outcome = Outcome(asm: Asm, ret: int, out: Bytes)

  const RESET := Asm(false, 0xff, false, [])

  predicate Gap(a: Asm, f: Fragment) {
    a.synced && f.seqno != a.serial
  }

  function Assemble(a: Asm, f: Fragment): Outcome {
    if Gap(a, f) then
      var a' := Asm(false, a.serial, false, []);
      if Single(f) || Starts(f) then Accept(a', f) else Outcome(a', 0, [])
    else
      Accept(if a.synced then a.(serial := f.seqno + 1) else a, f)
  }

  /** The switch at `lhdc_start`. */
  function Accept(a: Asm, f: Fragment): Outcome {
    if !a.waiting then
      if Single(f) then Outcome(Sync(a, f).(held := []), 1, f.payload)
      else if Starts(f) then
        if |a.held| + |f.payload| >= PACKET_BUFFER_LENGTH then Outcome(a.(held := []), 0, [])
        else Outcome(Sync(a, f).(waiting := true, held := f.payload), 0, [])
      else Outcome(a, -1, [])
    else if |a.held| + |f.payload| >= PACKET_BUFFER_LENGTH then
      Outcome(a.(waiting := false, held := []), -1, [])
    else if Ends(f) then Outcome(a.(waiting := false, held := []), 1, a.held + f.payload)
    else Outcome(a.(held := a.held + f.payload), 0, [])
  }

  function Sync(a: Asm, f: Fragment): Asm {
    if a.synced then a else a.(synced := true, serial := f.seqno + 1)
  }

  // ---------------------------------------------------------------- the code

  class Assembler {
    var serialNo: bv8
    var isSynced: bool
    var waitLast: bool
    const packetBuffer: array<bv8>
    var packetBufLen: nat

    ghost predicate Valid()
      reads this
    {
      && packetBuffer.Length == PACKET_BUFFER_LENGTH
      && packetBufLen < PACKET_BUFFER_LENGTH
      && (!waitLast ==> packetBufLen == 0)
    }

    ghost function View(): Asm
      requires Valid()
      reads this, packetBuffer
    {
      Asm(isSynced, serialNo, waitLast, packetBuffer[..packetBufLen])
    }

    /** `initial_lhdc_assemble_packet`. */
    constructor ()
      ensures Valid() && fresh(packetBuffer) && View() == RESET
    {
      packetBuffer := new bv8[PACKET_BUFFER_LENGTH](_ => 0);
      serialNo, isSynced, waitLast, packetBufLen := 0xff, false, false, 0;
    }

    method Restart()
      requires Valid()
      modifies this
      ensures Valid() && View() == Asm(false, old(serialNo), false, [])
    {
      isSynced, waitLast, packetBufLen := false, false, 0;
    }

    method CopyIn(at: nat, data: Bytes)
      requires at + |data| <= packetBuffer.Length
      modifies packetBuffer
      ensures packetBuffer[..at] == old(packetBuffer[..at])
      ensures packetBuffer[at..at + |data|] == data
      ensures packetBuffer[..at + |data|] == old(packetBuffer[..at]) + data
    {
      for i := 0 to |data|
        invariant packetBuffer[..at] == old(packetBuffer[..at])
        invariant packetBuffer[at..at + i] == data[..i]
      {
        packetBuffer[at + i] := data[i];
      }
      assert packetBuffer[..at + |data|] == packetBuffer[..at] + packetBuffer[at..at + |data|];
    }

    /** A packet is at least its two header bytes; an unfragmented one has to fit the buffer. */
    method AssemblePacket(input: Bytes) returns (ret: int, out: Bytes)
      requires Valid() && |input| >= 2
      requires Single(Fragment(input[0], input[1], input[2..])) ==> |input| - 2 <= PACKET_BUFFER_LENGTH
      modifies this, packetBuffer
      ensures Valid()
      ensures Outcome(View(), ret, out) == Assemble(old(View()), Fragment(input[0], input[1], input[2..]))
    {
      hide Single, Assemble, Accept;
      var f := Fragment(input[0], input[1], input[2..]);
      var drop := CheckSequence(f);
      if drop {
        return 0, [];
      }
      ret, out := AcceptPacket(f);
    }

    /** Restarts on a sequence gap; the packet is dropped unless it can begin something new. */
    method CheckSequence(f: Fragment) returns (drop: bool)
      requires Valid()
      modifies this
      ensures Valid()
      ensures Assemble(old(View()), f) == if drop then Outcome(View(), 0, []) else Accept(View(), f)
    {
      hide Single, Starts, Accept;
      drop := false;
      if isSynced {
        if f.seqno != serialNo {
          Restart();
          drop := !(Single(f) || Starts(f));
        } else {
          serialNo := f.seqno + 1;
        }
      }
    }

    method AcceptPacket(f: Fragment) returns (ret: int, out: Bytes)
      requires Valid() && (Single(f) ==> |f.payload| <= PACKET_BUFFER_LENGTH)
      modifies this, packetBuffer
      ensures Valid()
      ensures Outcome(View(), ret, out) == Accept(old(View()), f)
    {
      hide Single, Starts, Ends;
      ret, out := -1, [];
      var n := |f.payload|;
      if !waitLast {
        if Single(f) {
          CopyIn(0, f.payload);
          out := packetBuffer[..n];
          packetBufLen := 0;
          ret := 1;
        } else if Starts(f) {
          ret := 0;
          if packetBufLen + n >= PACKET_BUFFER_LENGTH {
            packetBufLen := 0;
            return;
          }
          CopyIn(0, f.payload);
          packetBufLen := n;
          waitLast := true;
        }
        if ret >= 0 && !isSynced {
          isSynced := true;
          serialNo := f.seqno + 1;
        }
      } else {
        if packetBufLen + n >= PACKET_BUFFER_LENGTH {
          packetBufLen := 0;
          waitLast := false;
          return;
        }
        CopyIn(packetBufLen, f.payload);
        packetBufLen := packetBufLen + n;
        ret := 0;
        if Ends(f) {
          out := packetBuffer[..packetBufLen];
          packetBufLen := 0;
          ret := 1;
          waitLast := false;
        }
      }
    }
  }

  // ---------------------------------------------------------------- runs

  function Payloads(fs: seq<Fragment>): Bytes {
    if fs == [] then [] else Payloads(fs[..|fs| - 1]) + fs[|fs| - 1].payload
  }

  function Exec(fs: seq<Fragment>): Asm {
    if fs == [] then RESET else Assemble(Exec(fs[..|fs| - 1]), fs[|fs| - 1]).asm
  }

  predicate Consecutive(fs: seq<Fragment>) {
    forall k :: 0 < k < |fs| ==> fs[k].seqno == fs[k - 1].seqno + 1
  }

  /** The calls since collecting last began: the latest ones of the run, up to its end. */
  function Collected(fs: seq<Fragment>): (run: seq<Fragment>)
    ensures |run| <= |fs| && run == fs[|fs| - |run|..]
  {
    if fs == [] then []
    else
      var prev, f := fs[..|fs| - 1], fs[|fs| - 1];
      var a := Exec(prev);
      var run := Collected(prev);
      if a.waiting && !Gap(a, f) then
        assert fs == prev + [f];
        run + [f]
      else [f]
  }

  /** Fragments collected so far: they begin with a start fragment, none of them ends the packet,
      and their numbers follow one another. */
  predicate OpenRun(fs: seq<Fragment>) {
    && fs != [] && Starts(fs[0]) && !Single(fs[0])
    && Consecutive(fs)
    && forall k :: 0 < k < |fs| ==> !Ends(fs[k])
  }

  lemma ExtendRun(run: seq<Fragment>, f: Fragment)
    requires OpenRun(run) && f.seqno == run[|run| - 1].seqno + 1
    ensures Consecutive(run + [f]) && Payloads(run + [f]) == Payloads(run) + f.payload
    ensures !Ends(f) ==> OpenRun(run + [f])
  {
    var longer := run + [f];
    ConsecutiveSnoc(run, f);
    assert Payloads(longer) == Payloads(run) + f.payload by {
      assert longer[..|run|] == run;
    }
    if !Ends(f) {
      hide Consecutive, Payloads, Starts, Ends, Single;
      forall k | 0 < k < |longer| ensures !Ends(longer[k]) {
        assert longer[k] == if k < |run| then run[k] else f;
      }
    }
  }

  lemma ConsecutiveSnoc(run: seq<Fragment>, f: Fragment)
    requires Consecutive(run) && run != [] && f.seqno == run[|run| - 1].seqno + 1
    ensures Consecutive(run + [f])
  {
  }

  lemma FirstOfRun(f: Fragment)
    requires Starts(f)
    ensures !Single(f) && OpenRun([f]) && Payloads([f]) == f.payload
  {
    assert [f][..0] == [];
    assert Payloads([f]) == [] + f.payload;
  }

  /** How one call changes what is held. */
  lemma HeldAfter(a: Asm, f: Fragment)
    requires (a.waiting ==> a.synced) && (!a.waiting ==> a.held == [])
    ensures var a' := Assemble(a, f).asm;
            if !a'.waiting then a'.held == []
            else
              && a'.synced && a'.serial == f.seqno + 1
              && if a.waiting && !Gap(a, f)
                 then f.seqno == a.serial && !Ends(f) && a'.held == a.held + f.payload
                 else Starts(f) && a'.held == f.payload
  {
    hide Single, Starts, Ends;
    if Gap(a, f) {
      AcceptedAfter(Asm(false, a.serial, false, []), f);
    } else {
      AcceptedAfter(if a.synced then a.(serial := f.seqno + 1) else a, f);
    }
    hide Accept;
  }

  lemma AcceptedAfter(a: Asm, f: Fragment)
    requires (a.waiting ==> a.synced) && (!a.waiting ==> a.held == []) && (a.synced ==> a.serial == f.seqno + 1)
    ensures var a' := Accept(a, f).asm;
            if !a'.waiting then a'.held == []
            else
              && a'.synced && a'.serial == f.seqno + 1
              && if a.waiting then !Ends(f) && a'.held == a.held + f.payload else Starts(f) && a'.held == f.payload
  {
    hide Single, Starts, Ends;
  }

  /** What is held is the payloads of the unbroken run `run`, the latest call's included. */
  predicate Holds(a: Asm, run: seq<Fragment>) {
    a.synced && OpenRun(run) && a.held == Payloads(run) && a.serial == run[|run| - 1].seqno + 1
  }

  /** In every reachable state: waiting for the last fragment implies being in sync, and what is
      held is the payloads of an unbroken run of calls up to the latest one. */
  lemma {:induction false} HeldIsOpenRun(fs: seq<Fragment>)
    ensures if Exec(fs).waiting then Holds(Exec(fs), Collected(fs)) else Exec(fs).held == []
  {
    if fs != [] {
      var prev, f := fs[..|fs| - 1], fs[|fs| - 1];
      HeldIsOpenRun(prev);
      HeldNext(prev, f, fs);
    }
  }

  lemma HeldNext(prev: seq<Fragment>, f: Fragment, fs: seq<Fragment>)
    requires fs != [] && prev == fs[..|fs| - 1] && f == fs[|fs| - 1]
    requires if Exec(prev).waiting then Holds(Exec(prev), Collected(prev)) else Exec(prev).held == []
    ensures if Exec(fs).waiting then Holds(Exec(fs), Collected(fs)) else Exec(fs).held == []
  {
    var a := Exec(prev);
    hide Assemble, OpenRun, Consecutive, Payloads;
    assert Exec(fs) == Assemble(a, f).asm;
    if Assemble(a, f).asm.waiting {
      HoldsNext(a, f, Collected(prev));
    } else {
      HeldAfter(a, f);
    }
  }

  lemma HoldsNext(a: Asm, f: Fragment, run: seq<Fragment>)
    requires if a.waiting then Holds(a, run) else a.held == []
    requires Assemble(a, f).asm.waiting
    ensures Holds(Assemble(a, f).asm, if a.waiting && !Gap(a, f) then run + [f] else [f])
  {
    hide OpenRun, Consecutive, Payloads, Assemble;
    HeldAfter(a, f);
    if a.waiting && !Gap(a, f) {
      ExtendRun(run, f);
    } else {
      FirstOfRun(f);
    }
  }

  /** Soundness: whatever is delivered is either one unfragmented packet or the payloads, in order,
      of the latest calls, numbered consecutively from a start fragment to a last one: never across
      a gap. */
  lemma DeliveriesAreWholePackets(fs: seq<Fragment>, f: Fragment)
    requires Assemble(Exec(fs), f).ret == 1
    ensures var out, run := Assemble(Exec(fs), f).out, Collected(fs);
            || (Single(f) && out == f.payload)
            || (OpenRun(run) && Ends(f) && Consecutive(run + [f]) && out == Payloads(run + [f]))
  {
    hide OpenRun, Consecutive, Payloads, Single, Starts, Ends, Exec, Collected;
    HeldIsOpenRun(fs);
    var a := Exec(fs);
    if a.waiting && !Gap(a, f) {
      ExtendRun(Collected(fs), f);
    }
  }

  // ---------------------------------------------------------------- completeness

  /** A fragmented packet as sent: start, plain fragments, last. */
  predicate Packet(fs: seq<Fragment>) {
    && |fs| >= 2
    && Starts(fs[0]) && !Ends(fs[0])
    && Tail(fs[1..])
    && Consecutive(fs)
  }

  predicate Tail(fs: seq<Fragment>) {
    && fs != []
    && Consecutive(fs)
    && Ends(fs[|fs| - 1])
    && (forall k :: 0 <= k < |fs| ==> !Starts(fs[k]))
    && (forall k :: 0 <= k < |fs| - 1 ==> !Ends(fs[k]))
  }

  /** The outcome of the last of a run of calls. */
  function LastOutcome(a: Asm, fs: seq<Fragment>): Outcome
    requires fs != []
    decreases |fs|
  {
    var o := Assemble(a, fs[0]);
    if |fs| == 1 then o else LastOutcome(o.asm, fs[1..])
  }

  lemma {:induction false} PayloadsCons(fs: seq<Fragment>)
    requires fs != []
    ensures Payloads(fs) == fs[0].payload + Payloads(fs[1..])
    decreases |fs|
  {
    if |fs| == 1 {
      assert fs[..0] == fs[1..] == [];
    } else {
      var front, last := fs[..|fs| - 1], fs[|fs| - 1].payload;
      PayloadsCons(front);
      assert front[1..] == fs[1..][..|fs| - 2];
      assert Payloads(fs[1..]) == Payloads(front[1..]) + last;
      assert Payloads(fs) == fs[0].payload + Payloads(front[1..]) + last;
    }
  }

  lemma NoPayloads(fs: seq<Fragment>)
    requires fs == []
    ensures Payloads(fs) == []
  {
  }

  lemma WaitingStep(a: Asm, f: Fragment)
    requires a.waiting && a.synced && f.seqno == a.serial
    ensures var o := Assemble(a, f);
            && o.asm.synced && o.asm.serial == f.seqno + 1
            && if |a.held| + |f.payload| >= PACKET_BUFFER_LENGTH then !o.asm.waiting && o.ret != 1
               else if Ends(f) then o.ret == 1 && o.out == a.held + f.payload
               else o.asm.waiting && o.asm.held == a.held + f.payload
  {
    hide Single, Starts, Ends;
  }

  lemma TailCons(fs: seq<Fragment>)
    requires Tail(fs)
    ensures fs != [] && (|fs| == 1 ==> Ends(fs[0]))
    ensures |fs| > 1 ==> !Ends(fs[0]) && Tail(fs[1..]) && fs[1].seqno == fs[0].seqno + 1
  {
  }

  lemma LastOutcomeCons(a: Asm, fs: seq<Fragment>)
    requires |fs| > 1
    ensures LastOutcome(a, fs) == LastOutcome(Assemble(a, fs[0]).asm, fs[1..])
  {
  }

  /** Behind `held` the payloads come out if they fit, and nothing does otherwise. */
  predicate Delivers(o: Outcome, held: Bytes, fs: seq<Fragment>) {
    if |held| + |Payloads(fs)| < PACKET_BUFFER_LENGTH then o.ret == 1 && o.out == held + Payloads(fs) else o.ret != 1
  }

  lemma {:induction false} WaitingTakesTail(a: Asm, fs: seq<Fragment>)
    requires a.waiting && a.synced && Tail(fs) && fs[0].seqno == a.serial
    ensures Delivers(LastOutcome(a, fs), a.held, fs)
    decreases |fs|
  {
    hide Single, Starts, Ends, Payloads, Assemble, Tail, LastOutcome;
    TailCons(fs);
    PayloadsCons(fs);
    WaitingStep(a, fs[0]);
    var a' := Assemble(a, fs[0]).asm;
    if |fs| == 1 {
      NoPayloads(fs[1..]);
      OnlyOutcome(a, fs);
    } else {
      LastOutcomeCons(a, fs);
      if a'.waiting {
        WaitingTakesTail(a', fs[1..]);
        Associate(a.held, fs[0].payload, Payloads(fs[1..]));
      } else {
        IdleIgnoresTail(a', fs[1..]);
      }
    }
  }

  lemma OnlyOutcome(a: Asm, fs: seq<Fragment>)
    requires |fs| == 1
    ensures LastOutcome(a, fs) == Assemble(a, fs[0])
  {
  }

  lemma Associate(x: Bytes, y: Bytes, z: Bytes)
    ensures x + y + z == x + (y + z)
  {
  }

  lemma {:induction false} IdleIgnoresTail(a: Asm, fs: seq<Fragment>)
    requires !a.waiting && Tail(fs) && (a.synced ==> fs[0].seqno == a.serial)
    ensures LastOutcome(a, fs).ret != 1
    decreases |fs|
  {
    hide Tail, LastOutcome, Starts, Ends, Single, Assemble;
    TailFlags(fs);
    TailCons(fs);
    IdleStep(a, fs[0]);
    if |fs| == 1 {
      EndsIsNotSingle(fs[0]);
      OnlyOutcome(a, fs);
    } else {
      LastOutcomeCons(a, fs);
      IdleIgnoresTail(Assemble(a, fs[0]).asm, fs[1..]);
    }
  }

  lemma TailFlags(fs: seq<Fragment>)
    requires Tail(fs)
    ensures fs != [] && !Starts(fs[0])
  {
  }

  lemma IdleStep(a: Asm, f: Fragment)
    requires !a.waiting && (a.synced ==> f.seqno == a.serial) && !Starts(f)
    ensures var o := Assemble(a, f);
            !o.asm.waiting && (o.asm.synced ==> o.asm.serial == f.seqno + 1) && (!Single(f) ==> o.ret != 1)
  {
    hide Single, Starts;
  }

  lemma EndsIsNotSingle(f: Fragment)
    requires Ends(f) || Starts(f)
    ensures !Single(f)
  {
  }

  /** A packet sent in order comes out at its last fragment, behind whatever was still being
      collected without a numbering gap, if all of that fits the buffer; otherwise nothing does. */
  lemma PacketOutcome(a: Asm, fs: seq<Fragment>)
    requires Packet(fs)
    requires (a.waiting ==> a.synced) && (!a.waiting ==> a.held == [])
    ensures var o := LastOutcome(a, fs);
            var glued := if Gap(a, fs[0]) then [] else a.held;
            Delivers(o, glued, fs)
  {
    hide Single, Starts, Ends, Payloads, Assemble, Tail, Consecutive, LastOutcome, Gap, Packet;
    TailNumbers(fs);
    EndsIsNotSingle(fs[0]);
    PayloadsCons(fs);
    StartIsHeld(a, fs[0]);
    LastOutcomeCons(a, fs);
    var a' := Assemble(a, fs[0]).asm;
    if a'.waiting {
      WaitingTakesTail(a', fs[1..]);
      Associate(if Gap(a, fs[0]) then [] else a.held, fs[0].payload, Payloads(fs[1..]));
    } else {
      IdleIgnoresTail(a', fs[1..]);
    }
  }

  /** Completeness, exactly: an in-order packet is delivered whole at its last fragment if and only
      if it fits the buffer and its start does not run into a packet still being collected.  A
      start fragment that follows an unfinished packet without a numbering gap is glued to it. */
  lemma PacketIsDeliveredIff(a: Asm, fs: seq<Fragment>)
    requires Packet(fs)
    requires (a.waiting ==> a.synced) && (!a.waiting ==> a.held == [])
    ensures var o := LastOutcome(a, fs);
            (o.ret == 1 && o.out == Payloads(fs)) <==>
            (|Payloads(fs)| < PACKET_BUFFER_LENGTH && (a.held == [] || Gap(a, fs[0])))
  {
    hide LastOutcome, Payloads, Tail, Consecutive;
    PacketOutcome(a, fs);
    EmptyPrefix(if Gap(a, fs[0]) then [] else a.held, Payloads(fs));
  }

  /** Such a packet: a start fragment whose packet was never finished is glued to the next packet. */
  lemma UnfinishedPacketIsGlued()
    ensures var held := Exec([Fragment(0x40, 0, [1])]);
            var fs := [Fragment(0x40, 1, [2]), Fragment(0x20, 2, [3])];
            Packet(fs) && LastOutcome(held, fs).ret == 1 && LastOutcome(held, fs).out == [1, 2, 3]
  {
    var f := Fragment(0x40, 0, [1]);
    var fs := [Fragment(0x40, 1, [2]), Fragment(0x20, 2, [3])];
    assert [f][..0] == [];
    assert Exec([f]) == Asm(true, 1, true, [1]);
    var second: seq<Fragment> := [fs[1]];
    assert fs[1..] == second && second[1..] == [];
    assert Assemble(Exec([f]), fs[0]).asm == Asm(true, 2, true, [1, 2]);
    assert [1, 2] + [3] == [1, 2, 3];
  }

  /** An unfragmented packet comes out at once if and only if it does not run into a packet still being
      collected.  Otherwise it becomes part of that packet, or, if it does not fit, ends it. */
  lemma SingleIsDeliveredIff(a: Asm, f: Fragment)
    requires Single(f)
    requires (a.waiting ==> a.synced) && (!a.waiting ==> a.held == [])
    ensures var o := Assemble(a, f);
            && (o.ret == 1 <==> !a.waiting || Gap(a, f))
            && (o.ret == 1 ==> o.out == f.payload && o.asm == Asm(true, f.seqno + 1, false, []))
            && (o.ret != 1 ==>
                  if |a.held| + |f.payload| < PACKET_BUFFER_LENGTH
                  then o.ret == 0 && o.asm == Asm(true, f.seqno + 1, true, a.held + f.payload)
                  else o.ret == -1 && o.asm == Asm(true, f.seqno + 1, false, []))
  {
  }

  /** Such a packet: it comes out inside the packet that was never finished. */
  lemma SingleIsSwallowed()
    ensures var held := Exec([Fragment(0x40, 0, [1])]);
            var f, last := Fragment(0, 1, [2]), Fragment(0x20, 2, [3]);
            && Single(f) && Assemble(held, f).ret == 0
            && Assemble(Assemble(held, f).asm, last).ret == 1
            && Assemble(Assemble(held, f).asm, last).out == [1, 2, 3]
  {
    var start := Fragment(0x40, 0, [1]);
    assert [start][..0] == [];
    assert Exec([start]) == Asm(true, 1, true, [1]);
    SingleIsDeliveredIff(Exec([start]), Fragment(0, 1, [2]));
    assert [1] + [2] == [1, 2] && [1, 2] + [3] == [1, 2, 3];
  }

  lemma EmptyPrefix(x: Bytes, y: Bytes)
    ensures x + y == y <==> x == []
    ensures |x + y| == |x| + |y|
  {
    if x + y == y {
      assert |x + y| == |y|;
    } else {
      assert [] + y == y;
    }
  }

  lemma TailNumbers(fs: seq<Fragment>)
    requires Packet(fs)
    ensures |fs| >= 2 && Starts(fs[0]) && !Ends(fs[0])
    ensures Tail(fs[1..]) && fs[1].seqno == fs[0].seqno + 1
  {
  }

  lemma StartIsHeld(a: Asm, f: Fragment)
    requires Starts(f) && !Single(f) && !Ends(f)
    requires (a.waiting ==> a.synced) && (!a.waiting ==> a.held == [])
    ensures var a' := Assemble(a, f).asm;
            var glued := if Gap(a, f) then [] else a.held;
            if |glued| + |f.payload| < PACKET_BUFFER_LENGTH
            then a'.waiting && a'.synced && a'.serial == f.seqno + 1 && a'.held == glued + f.payload
            else !a'.waiting && (a'.synced ==> a'.serial == f.seqno + 1)
  {
    hide Single, Starts, Ends;
  }

  // ---------------------------------------------------------------- every packet, by its flag bits

  /** The calls collect a packet, and this one does not break off its numbering. */
  predicate Collecting(a: Asm, f: Fragment) {
    a.waiting && !(a.synced && f.seqno != a.serial)
  }

  /** What each call does, told from the bits of the header byte: 0x80 marks a fragment, 0x40 a start,
      0x20 a last one. */
  lemma OutcomeByFlags(a: Asm, f: Fragment)
    requires (a.waiting ==> a.synced) && (!a.waiting ==> a.held == [])
    ensures var o, fits := Assemble(a, f), |a.held| + |f.payload| < 4096;
            Collecting(a, f) ==>
              if !fits then o.ret == -1 && o.asm == Asm(true, f.seqno + 1, false, [])
              else if f.hdr & 0x20 != 0 then
                o.ret == 1 && o.out == a.held + f.payload && o.asm == Asm(true, f.seqno + 1, false, [])
              else o.ret == 0 && o.asm == Asm(true, f.seqno + 1, true, a.held + f.payload)
    ensures var o, inStep := Assemble(a, f), a.synced && f.seqno == a.serial;
            !Collecting(a, f) ==>
              if f.hdr & 0xe0 == 0 then
                o.ret == 1 && o.out == f.payload && o.asm == Asm(true, f.seqno + 1, false, [])
              else if f.hdr & 0x40 != 0 && |f.payload| < 4096 then
                o.ret == 0 && o.asm == Asm(true, f.seqno + 1, true, f.payload)
              else
                && o.ret == (if f.hdr & 0x40 != 0 || (a.synced && !inStep) then 0 else -1)
                && o.asm == Asm(inStep, if inStep then f.seqno + 1 else a.serial, false, [])
  {
    FlagBits(f.hdr);
  }

  lemma FlagBits(hdr: bv8)
    ensures hdr & 0x40 != 0 ==> hdr & 0xe0 != 0
    ensures hdr & 0x20 != 0 ==> hdr & 0xe0 != 0
    ensures hdr & 0x80 != 0 ==> hdr & 0xe0 != 0
  {
  }
}
