/** The queues that turn call frames into processing frames: apps/audioplayers/bt_sco_chain_reframe.c.

The class is the code of both threads; its contracts hold for one thread at a time.
`ReframeInterleaving` takes the same operations apart and lets the threads interleave.
*/
module Reframe {

  type Pcm = int

  /** One sample instant of the `REFRAME_CHANNEL_QTY` microphone channels. */
  datatype Mics = Mics(ff: Pcm, fb: Pcm, vp: Pcm, echo: Pcm)

  const PROCESS := 320
  const CAPACITY := 4 * PROCESS
  const PREFILL := 2 * PROCESS

  const SILENT := Mics(0, 0, 0, 0)

  function Silence(n: nat): (s: seq<Pcm>)
    ensures |s| == n && forall i :: 0 <= i < n ==> s[i] == 0
  {
    seq(n, _ => 0)
  }

  /** The VP channel, which is all the default processing passes on. */
  function Voice(s: seq<Mics>): (v: seq<Pcm>)
    ensures |v| == |s| && forall i :: 0 <= i < |s| ==> v[i] == s[i].vp
  {
    seq(|s|, i requires 0 <= i < |s| => s[i].vp)
  }

  lemma VoiceConcat(s: seq<Mics>, t: seq<Mics>)
    ensures Voice(s + t) == Voice(s) + Voice(t)
  {
  }

  /** The guard of both writes. */
  predicate Fits(len: nat, n: nat) {
    len + n <= CAPACITY
  }

  /** `speech_copy_pcm`, ascending; within one buffer it is used to shift left. */
  method Copy<T>(dst: array<T>, at: nat, src: array<T>, from: nat, n: nat)
    requires at + n <= dst.Length && from + n <= src.Length
    requires dst == src ==> at <= from
    modifies dst
    ensures dst[at..at + n] == old(src[from..from + n])
    ensures dst[..at] == old(dst[..at]) && dst[at + n..] == old(dst[at + n..])
  {
    for i := 0 to n
      invariant dst[at..at + i] == old(src[from..from + i])
      invariant dst[..at] == old(dst[..at]) && dst[at + i..] == old(dst[at + i..])
      invariant forall j :: from + i <= j < src.Length ==> src[j] == old(src[j])
    {
      dst[at + i] := src[from + i];
    }
  }

  /** `speech_set_pcm`. */
  method Set<T>(dst: array<T>, value: T, n: nat)
    requires n <= dst.Length
    modifies dst
    ensures forall i :: 0 <= i < n ==> dst[i] == value
    ensures dst[n..] == old(dst[n..])
  {
    for i := 0 to n
      invariant forall j :: 0 <= j < i ==> dst[j] == value
      invariant dst[n..] == old(dst[n..])
    {
      dst[i] := value;
    }
  }

  class Reframer {
    const inQueue: array<Mics>
    const outQueue: array<Pcm>
    const processBuf: array<Mics>
    const processOut: array<Pcm>
    var inLen: nat
    var outLen: nat

    ghost predicate Valid()
      reads this
    {
      && inQueue.Length == outQueue.Length == CAPACITY
      && processBuf.Length == processOut.Length == PROCESS
      && inQueue != processBuf && outQueue != processOut
      && inLen <= CAPACITY && outLen <= CAPACITY
    }

    ghost function In(): seq<Mics>
      requires Valid()
      reads this, inQueue
    {
      inQueue[..inLen]
    }

    ghost function Out(): seq<Pcm>
      requires Valid()
      reads this, outQueue
    {
      outQueue[..outLen]
    }

    /** `bt_sco_chain_reframe_open`. */
    constructor ()
      ensures Valid() && fresh(inQueue) && fresh(outQueue) && fresh(processBuf) && fresh(processOut)
      ensures In() == [] && Out() == Silence(640)
    {
      inQueue := new Mics[CAPACITY](_ => SILENT);
      outQueue := new Pcm[CAPACITY](_ => 0);
      processBuf := new Mics[PROCESS](_ => SILENT);
      processOut := new Pcm[PROCESS](_ => 0);
      inLen, outLen := 0, PREFILL;
    }

    method WriteInput(pcm: array<Mics>, n: nat) returns (ret: int)
      requires Valid() && n <= pcm.Length && pcm != inQueue
      modifies this`inLen, inQueue
      ensures Valid() && ret in {0, -1}
      ensures ret == 0 <==> Fits(|old(In())|, n)
      ensures In() == if ret == 0 then old(In()) + pcm[..n] else old(In())
    {
      if inLen + n > CAPACITY {
        return -1;
      }
      Copy(inQueue, inLen, pcm, 0, n);
      inLen := inLen + n;
      ret := 0;
    }

    method ReadInput(pcm: array<Mics>, n: nat) returns (ret: int)
      requires Valid() && n <= pcm.Length && pcm != inQueue
      modifies this`inLen, inQueue, pcm
      ensures Valid() && ret in {0, -1}
      ensures ret == 0 <==> n <= |old(In())|
      ensures ret == 0 ==> old(In()) == pcm[..n] + In()
      ensures ret != 0 ==> In() == old(In()) && forall i :: 0 <= i < n ==> pcm[i] == SILENT
    {
      ret := 0;
      if inLen >= n {
        Copy(pcm, 0, inQueue, 0, n);
        Copy(inQueue, 0, inQueue, n, inLen - n);
        inLen := inLen - n;
      } else {
        Set(pcm, SILENT, n);
        ret := -1;
      }
    }

    method WriteOutput(pcm: array<Pcm>, n: nat) returns (ret: int)
      requires Valid() && n <= pcm.Length && pcm != outQueue
      modifies this`outLen, outQueue
      ensures Valid() && ret in {0, -1}
      ensures ret == 0 <==> Fits(|old(Out())|, n)
      ensures Out() == if ret == 0 then old(Out()) + pcm[..n] else old(Out())
    {
      if outLen + n > CAPACITY {
        return -1;
      }
      Copy(outQueue, outLen, pcm, 0, n);
      outLen := outLen + n;
      ret := 0;
    }

    method ReadOutput(pcm: array<Pcm>, n: nat) returns (ret: int)
      requires Valid() && n <= pcm.Length && pcm != outQueue
      modifies this`outLen, outQueue, pcm
      ensures Valid() && ret in {0, -1}
      ensures ret == 0 <==> n <= |old(Out())|
      ensures ret == 0 ==> old(Out()) == pcm[..n] + Out()
      ensures ret != 0 ==> Out() == old(Out()) && pcm[..n] == Silence(n)
    {
      if outLen < n {
        Set(pcm, 0, n);
        return -1;
      }
      Copy(pcm, 0, outQueue, 0, n);
      Copy(outQueue, 0, outQueue, n, outLen - n);
      outLen := outLen - n;
      ret := 0;
    }

    /** `bt_sco_chain_reframe_tx_process`, up to the signal. */
    method TxProcess(frame: array<Mics>, n: nat, out: array<Pcm>)
      requires Valid() && n <= frame.Length && n <= out.Length
      requires frame != inQueue && out != outQueue
      modifies this`inLen, this`outLen, inQueue, outQueue, out
      ensures Valid()
      ensures Queues(In(), Out()) == Called(old(Queues(In(), Out())), frame[..n])
      ensures out[..n] == Supplied(old(Queues(In(), Out())), n)
    {
      var _ := WriteInput(frame, n);
      var _ := ReadOutput(out, n);
    }

    /** What `_reframe_thread` does on one signal. */
    method Drain()
      requires Valid()
      modifies this`inLen, this`outLen, inQueue, outQueue, processBuf, processOut
      ensures Valid()
      ensures Queues(In(), Out()) == Drained(old(In()), old(Out()))
    {
      while true
        invariant Valid()
        invariant Drained(In(), Out()) == Drained(old(In()), old(Out()))
        decreases inLen
      {
        ghost var was := In();
        var ret := ReadInput(processBuf, PROCESS);
        if ret != 0 || outLen + PROCESS > CAPACITY {
          assert ret == 0 ==> In() == was[PROCESS..];
          return;
        }
        assert processBuf[..] == was[..PROCESS] && In() == was[PROCESS..];
        Process();
        ret := WriteOutput(processOut, PROCESS);
        assert processOut[..] == processOut[..PROCESS];
      }
    }

    method Process()
      requires Valid()
      modifies processOut
      ensures processOut[..] == Voice(processBuf[..])
    {
      for i := 0 to PROCESS
        invariant forall j :: 0 <= j < i ==> processOut[j] == processBuf[j].vp
      {
        processOut[i] := processBuf[i].vp;
      }
    }
  }

  // ---------------------------------------------------------------- one drain

  datatype Queues = Queues(ins: seq<Mics>, outs: seq<Pcm>)

  /** Whole frames move across while there is room; a frame taken without room behind it is lost. */
  function Drained(ins: seq<Mics>, outs: seq<Pcm>): Queues
    decreases |ins|
  {
    if |ins| < PROCESS then Queues(ins, outs)
    else if !Fits(|outs|, PROCESS) then Queues(ins[PROCESS..], outs)
    else Drained(ins[PROCESS..], outs + Voice(ins[..PROCESS]))
  }

  /** Everything the reader can still expect. */
  function Coming(q: Queues): seq<Pcm> {
    q.outs + Voice(q.ins)
  }

  /** The whole processing frames among `n` samples. */
  function Whole(n: nat): (w: nat)
    ensures w <= n < w + PROCESS
  {
    if n < PROCESS then 0 else PROCESS + Whole(n - PROCESS)
  }

  /** The room test, in samples. */
  lemma FitsIff(len: nat, n: nat)
    ensures Fits(len, n) <==> len + n <= 1280
  {
  }

  /** A drain loses nothing exactly when there is room for all the whole frames it finds. */
  lemma {:induction false} DrainKeepsComingIff(ins: seq<Mics>, outs: seq<Pcm>)
    ensures Coming(Drained(ins, outs)) == Coming(Queues(ins, outs)) <==>
            |ins| < PROCESS || Fits(|outs|, Whole(|ins|))
    ensures Fits(|outs|, Whole(|ins|)) ==> |Drained(ins, outs).ins| < PROCESS
    decreases |ins|
  {
    hide Voice;
    if |ins| < PROCESS {
    } else if !Fits(|outs|, PROCESS) {
      assert |Coming(Drained(ins, outs))| == |outs| + |ins| - PROCESS;
    } else {
      var rest := ins[PROCESS..];
      var more := outs + Voice(ins[..PROCESS]);
      DrainKeepsComingIff(rest, more);
      assert Whole(|ins|) == PROCESS + Whole(|rest|);
      assert Coming(Queues(ins, outs)) == Coming(Queues(rest, more)) by {
        hide Drained, Fits;
        VoiceConcat(ins[..PROCESS], rest);
        assert ins == ins[..PROCESS] + rest;
      }
    }
  }

  /** When there is no room for all of them it loses one processing frame and no more: the first that
      finds none.  Those before it have gone across, those behind it still wait. */
  lemma {:induction false} DrainLosesOneFrame(ins: seq<Mics>, outs: seq<Pcm>)
    requires |outs| <= 1280 && |outs| + Whole(|ins|) > 1280
    ensures var m := Whole(1280 - |outs|);
            && m + 320 <= |ins|
            && Drained(ins, outs) == Queues(ins[m + 320..], outs + Voice(ins[..m]))
    decreases |ins|
  {
    hide Voice;
    if Fits(|outs|, PROCESS) {
      var rest, head := ins[PROCESS..], ins[..PROCESS];
      DrainLosesOneFrame(rest, outs + Voice(head));
      var m := Whole(1280 - |outs|);
      VoiceConcat(head, rest[..m - PROCESS]);
      assert ins[..m] == head + rest[..m - PROCESS];
      assert ins[m + PROCESS..] == rest[m..];
      assert outs + Voice(head) + Voice(rest[..m - PROCESS]) == outs + Voice(ins[..m]);
    } else {
      assert ins[..0] == [] && Voice([]) == [] by { NoVoice(); }
      assert outs + [] == outs;
    }
  }

  lemma NoVoice()
    ensures Voice([]) == []
  {
  }

  // ---------------------------------------------------------------- draining after every call

  /** The queues after one call: an overfull input queue refuses the whole frame, an output queue
      that cannot fill a frame keeps what it has. */
  function Called(q: Queues, frame: seq<Mics>): Queues {
    Queues(if Fits(|q.ins|, |frame|) then q.ins + frame else q.ins,
           if |frame| <= |q.outs| then q.outs[|frame|..] else q.outs)
  }

  function Serve(q: Queues, frame: seq<Mics>): Queues {
    var c := Called(q, frame);
    Drained(c.ins, c.outs)
  }

  function Supplied(q: Queues, n: nat): (s: seq<Pcm>)
    ensures |s| == n
  {
    if n <= |q.outs| then q.outs[..n] else Silence(n)
  }

  /** What the callers of a whole session receive. */
  function Session(q: Queues, frames: seq<seq<Mics>>): seq<Pcm>
    decreases |frames|
  {
    if frames == [] then [] else Supplied(q, |frames[0]|) + Session(Serve(q, frames[0]), frames[1..])
  }

  function Joined(frames: seq<seq<Mics>>): seq<Mics> {
    if frames == [] then [] else frames[0] + Joined(frames[1..])
  }

  /** Between drained calls less than one processing frame waits and `PREFILL` samples are on
      their way in all. */
  predicate Settled(q: Queues) {
    |q.ins| < PROCESS && |q.ins| + |q.outs| == PREFILL
  }

  lemma ServeKeepsSettled(q: Queues, frame: seq<Mics>)
    requires Settled(q) && |frame| <= PROCESS
    ensures Settled(Serve(q, frame))
    ensures Coming(q) + Voice(frame) == Supplied(q, |frame|) + Coming(Serve(q, frame))
  {
    var ins, outs := q.ins + frame, q.outs[|frame|..];
    DrainKeepsComingIff(ins, outs);
    VoiceConcat(q.ins, frame);
    var d := Drained(ins, outs);
    assert Coming(d) == outs + (Voice(q.ins) + Voice(frame));
    assert |Coming(d)| == PREFILL;
    assert q.outs == Supplied(q, |frame|) + outs;
  }

  /** Frames of at most a processing frame (the code's are 120 or 240 samples), drained after every
      call: the callers hear the prefill and then exactly what was spoken. */
  lemma {:induction false} SessionIsDelay(q: Queues, frames: seq<seq<Mics>>)
    requires Settled(q) && forall i :: 0 <= i < |frames| ==> |frames[i]| <= PROCESS
    ensures |Session(q, frames)| == |Joined(frames)|
    ensures Session(q, frames) <= Coming(q) + Voice(Joined(frames))
    decreases |frames|
  {
    hide Drained, Serve, Settled, Coming;
    if frames == [] {
    } else {
      var f := frames[0];
      ServeKeepsSettled(q, f);
      SessionIsDelay(Serve(q, f), frames[1..]);
      VoiceConcat(f, Joined(frames[1..]));
      Chain(Coming(q), Voice(f), Supplied(q, |f|), Coming(Serve(q, f)), Voice(Joined(frames[1..])),
            Session(Serve(q, f), frames[1..]));
    }
  }

  lemma Chain(c: seq<Pcm>, v: seq<Pcm>, s: seq<Pcm>, c': seq<Pcm>, w: seq<Pcm>, r: seq<Pcm>)
    requires c + v == s + c' && r <= c' + w
    ensures s + r <= c + (v + w)
  {
    assert c + (v + w) == (c + v) + w == s + (c' + w);
  }

  /** The same from power-on, with the prefill spelled out. */
  lemma OpenedSessionIsDelay(frames: seq<seq<Mics>>)
    requires forall i :: 0 <= i < |frames| ==> |frames[i]| <= 320
    ensures var heard := Session(Queues([], Silence(640)), frames);
            heard == (Silence(640) + Voice(Joined(frames)))[..|Joined(frames)|]
  {
    SessionIsDelay(Queues([], Silence(PREFILL)), frames);
    assert Coming(Queues([], Silence(PREFILL))) == Silence(PREFILL);
  }
}
