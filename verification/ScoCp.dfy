/** The one-deep pipeline between the application core and the co-processor:
apps/audioplayers/bt_sco_chain_cp.c.

`Shared` is the memory both cores use without a lock; `cpState` alone says whose it is.  The class
is the code; the state machine lets the two cores interleave copy by copy, and every run of it is
shown to be what strictly alternating cores would do.
*/
module ScoCp {
  import opened Wrappers

  type Pcm = seq<int>
  type Status = int

  /** What the algorithm works on, in place. */
  datatype Frame = Frame(pcm: Pcm, ref: Pcm, fb: Pcm, len: nat, status: Status)

  /** `sco_cp_algo` keeps state between frames, so its effect on the last frame of a history is a
      function of the whole history. */
  type Algo = seq<Frame> -> Frame

  datatype Config = Config(frameLen: nat, channels: nat)

  /** The algorithm works within its buffers and returns at most one channel. */
  ghost predicate Good(algo: Algo, cfg: Config) {
    forall h: seq<Frame> :: h != [] ==>
      var f, r := h[|h| - 1], algo(h);
      && |r.pcm| == |f.pcm| && |r.ref| == |f.ref| && |r.fb| == |f.fb|
      && r.len <= cfg.frameLen && r.len <= |f.pcm|
  }

  datatype Shared = Shared(inPcm: Pcm, inRef: Pcm, inFb: Pcm, outPcm: Pcm, len: nat,
                           statusIn: Status, statusOut: Status)

  datatype Call = Call(pcm: Pcm, ref: Option<Pcm>, fb: Option<Pcm>, status: Status)

  /** `pcm_buf` up to the returned length. */
  datatype Reply = Reply(pcm: Pcm, status: Status)

  function Given(o: Option<Pcm>, otherwise: Pcm): Pcm {
    if o.Some? then o.value else otherwise
  }

  function Zeros(n: nat): (s: Pcm)
    ensures |s| == n && forall i :: 0 <= i < n ==> s[i] == 0
  {
    seq(n, _ => 0)
  }

  predicate ValidCall(cfg: Config, c: Call) {
    && |c.pcm| == cfg.frameLen * cfg.channels
    && (c.ref.Some? ==> |c.ref.value| == cfg.frameLen)
    && (c.fb.Some? ==> |c.fb.value| == cfg.frameLen)
  }

  predicate Shape(cfg: Config, m: Shared) {
    && |m.inPcm| == cfg.frameLen * cfg.channels
    && |m.inRef| == |m.inFb| == |m.outPcm| == cfg.frameLen
  }

  /** What is on offer to the next caller. */
  function Offer(m: Shared): Reply
    requires m.len <= |m.outPcm|
  {
    Reply(m.outPcm[..m.len], m.statusOut)
  }

  // ---------------------------------------------------------------- one core's copies

  const AP_COPIES := 7
  const CP_COPIES := 3

  /** The application core's `k`-th access to the shared memory; the fifth and sixth only read. */
  function ApCopy(m: Shared, c: Call, k: nat): Shared {
    match k
    case 0 => m.(inPcm := c.pcm)
    case 1 => m.(inRef := Given(c.ref, m.inRef))
    case 2 => m.(inFb := Given(c.fb, m.inFb))
    case 3 => m.(statusIn := c.status)
    case 6 => m.(len := |c.pcm|)
    case _ => m
  }

  function Exchanged(m: Shared, c: Call): Shared {
    Shared(c.pcm, Given(c.ref, m.inRef), Given(c.fb, m.inFb), m.outPcm, |c.pcm|, c.status, m.statusOut)
  }

  function InFrame(m: Shared): Frame {
    Frame(m.inPcm, m.inRef, m.inFb, m.len, m.statusIn)
  }

  /** The co-processor's `k`-th access; `r` is what the algorithm makes of the frame. */
  function CpCopy(m: Shared, r: Frame, k: nat): Shared
    requires r.len <= |m.inPcm| && r.len <= |m.outPcm|
  {
    match k
    case 0 => m.(inPcm := r.pcm, inRef := r.ref, inFb := r.fb, len := r.len, statusIn := r.status)
    case 1 => m.(outPcm := m.inPcm[..r.len] + m.outPcm[r.len..])
    case 2 => m.(statusOut := m.statusIn)
    case _ => m
  }

  function Processed(m: Shared, r: Frame): Shared
    requires r.len <= |r.pcm| && r.len <= |m.outPcm|
  {
    Shared(r.pcm, r.ref, r.fb, r.pcm[..r.len] + m.outPcm[r.len..], r.len, r.status, r.status)
  }

  // ---------------------------------------------------------------- the code

  datatype CpState = CpNone | CpIdle | CpWorking

  method Copy(dst: array<int>, src: array<int>, n: nat)
    requires dst != src && n <= dst.Length && n <= src.Length
    modifies dst
    ensures dst[..] == src[..n] + old(dst[n..])
  {
    for i := 0 to n
      invariant dst[..i] == src[..i] && dst[i..] == old(dst[i..])
    {
      dst[i] := src[i];
    }
    assert dst[..] == dst[..n] + dst[n..];
  }

  class Pipeline {
    const frameLen: nat
    const channels: nat
    const inPcm: array<int>
    const outPcm: array<int>
    const inRef: array<int>
    const inFb: array<int>
    var pcmLen: nat
    var statusIn: Status
    var statusOut: Status
    var cpState: CpState
    ghost var history: seq<Frame>          // the frames the algorithm has worked on

    ghost predicate Valid()
      reads this
    {
      && inPcm.Length == frameLen * channels
      && inRef.Length == inFb.Length == outPcm.Length == frameLen
      && inPcm != outPcm && inPcm != inRef && inPcm != inFb
      && outPcm != inRef && outPcm != inFb && inRef != inFb
    }

    ghost function View(): Shared
      requires Valid()
      reads this, inPcm, outPcm, inRef, inFb
    {
      Shared(inPcm[..], inRef[..], inFb[..], outPcm[..], pcmLen, statusIn, statusOut)
    }

    /** `sco_cp_init`; `status` is what the static status words hold. */
    constructor (frameLen: nat, channels: nat, status: Status)
      requires 0 < channels <= 3 && frameLen <= 256
      ensures Valid() && fresh(inPcm) && fresh(outPcm) && fresh(inRef) && fresh(inFb)
      ensures this.frameLen == frameLen && this.channels == channels
      ensures cpState == CpIdle && history == []
      ensures View() == Fresh(Config(frameLen, channels), status)
    {
      this.frameLen, this.channels := frameLen, channels;
      inPcm := new int[frameLen * channels](_ => 0);
      outPcm := new int[frameLen](_ => 0);
      inRef := new int[frameLen](_ => 0);
      inFb := new int[frameLen](_ => 0);
      pcmLen := frameLen;
      statusIn, statusOut := status, status;
      cpState := CpIdle;
      history := [];
    }

    /** `sco_cp_process` once the co-processor is no longer working; before `sco_cp_init` or after
        `sco_cp_deinit` it leaves everything alone. */
    method Process(pcm: array<int>, ref: array?<int>, fb: array?<int>, len: nat, status: Status)
      returns (len': nat, status': Status)
      requires Valid() && cpState != CpWorking && pcmLen <= frameLen
      requires len == pcm.Length == frameLen * channels && pcmLen <= len
      requires ref != null ==> ref.Length == frameLen && Apart(ref)
      requires fb != null ==> fb.Length == frameLen && Apart(fb)
      requires Apart(pcm) && pcm != ref && pcm != fb
      modifies this`pcmLen, this`statusIn, this`cpState, inPcm, inRef, inFb, pcm
      ensures Valid() && len' <= pcm.Length
      ensures old(cpState) == CpNone ==>
                && cpState == CpNone && View() == old(View())
                && pcm[..] == old(pcm[..]) && len' == len && status' == status
      ensures old(cpState) == CpIdle ==>
                && cpState == CpWorking
                && View() == Exchanged(old(View()), old(AsCall(pcm, ref, fb, status)))
                && Reply(pcm[..len'], status') == Offer(old(View()))
    {
      if cpState != CpIdle {
        return len, status;
      }
      ghost var m := View();
      Copy(inPcm, pcm, len);
      if ref != null {
        Copy(inRef, ref, frameLen);
      }
      if fb != null {
        Copy(inFb, fb, frameLen);
      }
      statusIn := status;
      Copy(pcm, outPcm, pcmLen);
      status' := statusOut;
      len' := pcmLen;
      pcmLen := len;
      cpState := CpWorking;
      assert inPcm[..] == old(pcm[..]);
    }

    ghost predicate Apart(a: array<int>)
      requires Valid()
      reads this
    {
      a != inPcm && a != outPcm && a != inRef && a != inFb
    }

    ghost function AsCall(pcm: array<int>, ref: array?<int>, fb: array?<int>, status: Status): Call
      reads pcm, if ref != null then {ref} else {}, if fb != null then {fb} else {}
    {
      Call(pcm[..], if ref == null then None else Some(ref[..]), if fb == null then None else Some(fb[..]), status)
    }

    /** `sco_cp_main`, on the co-processor. */
    method Run(ghost algo: Algo, result: Frame)
      requires Valid() && Good(algo, Config(frameLen, channels))
      requires result == algo(history + [InFrame(View())])
      modifies this`pcmLen, this`statusIn, this`statusOut, this`cpState, this`history, inPcm, inRef, inFb, outPcm
      ensures Valid() && cpState == CpIdle
      ensures |result.pcm| == inPcm.Length && result.len <= frameLen
      ensures View() == Processed(old(View()), result)
      ensures history == old(history) + [InFrame(old(View()))]
    {
      ghost var h := history + [InFrame(View())];
      assert h[|h| - 1] == InFrame(View());
      history := h;
      Store(inPcm, result.pcm);
      Store(inRef, result.ref);
      Store(inFb, result.fb);
      pcmLen, statusIn := result.len, result.status;
      Copy(outPcm, inPcm, pcmLen);
      statusOut := statusIn;
      cpState := CpIdle;
    }
  }

  method Store(a: array<int>, s: seq<int>)
    requires a.Length == |s|
    modifies a
    ensures a[..] == s
  {
    for i := 0 to |s|
      invariant a[..i] == s[..i]
    {
      a[i] := s[i];
    }
  }

  function Fresh(cfg: Config, status: Status): Shared {
    Shared(Zeros(cfg.frameLen * cfg.channels), Zeros(cfg.frameLen), Zeros(cfg.frameLen), Zeros(cfg.frameLen),
           cfg.frameLen, status, status)
  }

  // ---------------------------------------------------------------- both cores at once

  datatype Ap =
    | Outside
    | Spinning(call: Call)                             // waiting while the co-processor works
    | Copying(call: Call, k: nat, got: Reply)          // k accesses done
    | Sending                                          // state published, event not sent

  datatype Cp =
    | Sleeping
    | Running(k: nat)

  datatype State = State(
    mem: Shared,
    cpState: CpState,
    event: bool,
    ap: Ap,
    cp: Cp,
    history: seq<Frame>,                   // the frames the algorithm has worked on
    calls: seq<Call>,                      // calls handed over
    replies: seq<Reply>,                   // what those calls returned
    base: Shared)                          // the memory when its present owner got it

  datatype Step = Enter(call: Call) | Poll | Access | Publish | Send | Wake | CpAccess | Finish

  predicate Enabled(cfg: Config, s: State, step: Step) {
    match step
    case Enter(call) => s.ap.Outside? && ValidCall(cfg, call)
    case Poll => s.ap.Spinning?
    case Access => s.ap.Copying? && s.ap.k < AP_COPIES
    case Publish => s.ap.Copying? && s.ap.k == AP_COPIES
    case Send => s.ap.Sending?
    case Wake => s.cp.Sleeping? && s.event
    case CpAccess => s.cp.Running? && s.cp.k < CP_COPIES
    case Finish => s.cp.Running? && s.cp.k == CP_COPIES
  }

  /** What the algorithm makes of the frame it is, or was last, given. */
  function Result(algo: Algo, s: State): Frame {
    algo(if s.cp == Running(0) then s.history + [InFrame(s.mem)] else s.history)
  }

  /** The copies of a step stay within the buffers. */
  predicate InBounds(algo: Algo, s: State, step: Step) {
    && (step.Access? && s.ap.Copying? ==> s.mem.len <= |s.mem.outPcm|)
    && (step.CpAccess? ==> Result(algo, s).len <= |s.mem.inPcm| && Result(algo, s).len <= |s.mem.outPcm|)
  }

  function Next(algo: Algo, cfg: Config, s: State, step: Step): State
    requires Enabled(cfg, s, step) && InBounds(algo, s, step)
  {
    match step
    case Enter(call) => s.(ap := Spinning(call))
    case Poll =>
      if s.cpState == CpIdle then s.(ap := Copying(s.ap.call, 0, Reply([], 0)), base := s.mem)
      else if s.cpState == CpWorking then s
      else s.(ap := Outside)
    case Access =>
      var k, got := s.ap.k, s.ap.got;
      s.(mem := ApCopy(s.mem, s.ap.call, k),
         ap := Copying(s.ap.call, k + 1,
                       if k == 4 then got.(pcm := Offer(s.mem).pcm)
                       else if k == 5 then got.(status := s.mem.statusOut) else got))
    case Publish =>
      s.(cpState := CpWorking, ap := Sending, base := s.mem,
         calls := s.calls + [s.ap.call], replies := s.replies + [s.ap.got])
    case Send => s.(ap := Outside, event := true)
    case Wake => s.(cp := Running(0), event := false)
    case CpAccess =>
      s.(mem := CpCopy(s.mem, Result(algo, s), s.cp.k), cp := Running(s.cp.k + 1),
         history := if s.cp.k == 0 then s.history + [InFrame(s.mem)] else s.history)
    case Finish => s.(cp := Sleeping, cpState := CpIdle, base := s.mem)
  }

  function Init(cfg: Config, status: Status): State {
    var m := Fresh(cfg, status);
    State(m, CpIdle, false, Outside, Sleeping, [], [], [], m)
  }

  // ---------------------------------------------------------------- ownership

  /** `cpState` decides who may touch the shared memory; the hand-overs are never in doubt. */
  predicate Ownership(s: State) {
    && (s.cpState == CpIdle ==> s.cp.Sleeping? && !s.event && !s.ap.Sending?)
    && (s.cpState == CpWorking ==>
          && !s.ap.Copying?
          && (if s.ap.Sending? then !s.event && s.cp.Sleeping? else s.event == s.cp.Sleeping?))
    && s.cpState != CpNone
    && (s.ap.Copying? ==> s.ap.k <= AP_COPIES) && (s.cp.Running? ==> s.cp.k <= CP_COPIES)
  }

  /** At most one core is at the shared memory. */
  lemma StepKeepsOwnership(algo: Algo, cfg: Config, s: State, step: Step)
    requires Ownership(s) && Enabled(cfg, s, step) && InBounds(algo, s, step)
    ensures Ownership(Next(algo, cfg, s, step))
    ensures !(s.ap.Copying? && s.cp.Running?)
  {
    hide ApCopy, CpCopy, Result;
  }

  // ---------------------------------------------------------------- what the pipeline means

  /** The pipeline between calls: what the algorithm has seen, the side inputs it keeps when a call
      brings none, and the offer to the next caller. */
  datatype Dsp = Dsp(history: seq<Frame>, ref: Pcm, fb: Pcm, offer: Reply)

  function Seen(d: Dsp, c: Call): seq<Frame> {
    d.history + [Frame(c.pcm, Given(c.ref, d.ref), Given(c.fb, d.fb), |c.pcm|, c.status)]
  }

  function Output(r: Frame): Reply {
    Reply(if r.len <= |r.pcm| then r.pcm[..r.len] else [], r.status)
  }

  /** After the algorithm has worked on all of `calls`, one after the other. */
  function After(algo: Algo, cfg: Config, status: Status, calls: seq<Call>): Dsp {
    if calls == [] then Dsp([], Zeros(cfg.frameLen), Zeros(cfg.frameLen), Reply(Zeros(cfg.frameLen), status))
    else
      var n := |calls| - 1;
      var d := After(algo, cfg, status, calls[..n]);
      var r := algo(Seen(d, calls[n]));
      Dsp(Seen(d, calls[n]), r.ref, r.fb, Output(r))
  }

  /** The reply to call `k`: the output for the calls before it. */
  function ReplyTo(algo: Algo, cfg: Config, status: Status, calls: seq<Call>, k: nat): Reply
    requires k <= |calls|
  {
    After(algo, cfg, status, calls[..k]).offer
  }

  /** Memory `m` holds what the pipeline is to hold between calls. */
  predicate Rests(cfg: Config, m: Shared, d: Dsp) {
    && Shape(cfg, m)
    && m.inRef == d.ref && m.inFb == d.fb && m.len <= cfg.frameLen
    && Offer(m) == d.offer
  }

  /** Memory `m` holds call `c`, accepted when the pipeline stood at `d`. */
  predicate Loaded(cfg: Config, m: Shared, d: Dsp, c: Call) {
    && Shape(cfg, m)
    && d.history + [InFrame(m)] == Seen(d, c)
  }

  lemma ExchangeLoads(cfg: Config, m: Shared, d: Dsp, c: Call)
    requires Rests(cfg, m, d) && ValidCall(cfg, c)
    ensures Loaded(cfg, Exchanged(m, c), d, c)
  {
  }

  lemma ProcessRests(algo: Algo, cfg: Config, m: Shared, d: Dsp, c: Call)
    requires Good(algo, cfg) && Loaded(cfg, m, d, c)
    ensures var r := algo(Seen(d, c));
            && r.len <= |m.inPcm| && r.len <= |m.outPcm| && |r.pcm| == |m.inPcm|
            && Rests(cfg, Processed(m, r), Dsp(Seen(d, c), r.ref, r.fb, Output(r)))
  {
    var h := Seen(d, c);
    assert h[|h| - 1] == InFrame(m);
    var r := algo(h);
    assert (r.pcm[..r.len] + m.outPcm[r.len..])[..r.len] == r.pcm[..r.len];
  }

  // ---------------------------------------------------------------- interleaving is alternation

  /** After `k` of its accesses, the application core has done this much to the memory it took over. */
  function ApDone(m: Shared, c: Call, k: nat): Shared
  {
    if k == 0 then m else ApCopy(ApDone(m, c, k - 1), c, k - 1)
  }

  lemma ApDoneIs(m: Shared, c: Call, k: nat)
    requires k <= AP_COPIES
    ensures ApDone(m, c, k) ==
            Shared(if k > 0 then c.pcm else m.inPcm, if k > 1 then Given(c.ref, m.inRef) else m.inRef,
                   if k > 2 then Given(c.fb, m.inFb) else m.inFb, m.outPcm,
                   if k > 6 then |c.pcm| else m.len, if k > 3 then c.status else m.statusIn, m.statusOut)
  {
    if k > 0 {
      ApDoneIs(m, c, k - 1);
    }
  }

  /** Likewise the co-processor, given the algorithm's result. */
  function CpDone(m: Shared, r: Frame, k: nat): Shared
    requires r.len <= |r.pcm| && r.len <= |m.outPcm| && |r.pcm| == |m.inPcm| && k <= CP_COPIES
  {
    var m1 := m.(inPcm := r.pcm, inRef := r.ref, inFb := r.fb, len := r.len, statusIn := r.status);
    if k == 0 then m else if k == 1 then m1
    else if k == 2 then m1.(outPcm := r.pcm[..r.len] + m.outPcm[r.len..])
    else Processed(m, r)
  }

  predicate Copies(algo: Algo, cfg: Config, status: Status, s: State) {
    var n := |s.calls|;
    match s.cpState
    case CpNone => false
    case CpIdle =>
      var d := After(algo, cfg, status, s.calls);
      && s.history == d.history
      && Rests(cfg, s.base, d)
      && (match s.ap
          case Copying(call, k, got) =>
            && k <= AP_COPIES && ValidCall(cfg, call)
            && s.mem == ApDone(s.base, call, k)
            && (k > 4 ==> got.pcm == d.offer.pcm) && (k > 5 ==> got.status == d.offer.status)
          case _ => s.mem == s.base)
    case CpWorking =>
      && n > 0
      && var d, c := After(algo, cfg, status, s.calls[..n - 1]), s.calls[n - 1];
      && Loaded(cfg, s.base, d, c)
      && (match s.cp
          case Running(k) =>
            var r := algo(Seen(d, c));
            && k <= CP_COPIES
            && s.history == (if k == 0 then d.history else Seen(d, c))
            && r.len <= |r.pcm| && r.len <= |s.base.outPcm| && |r.pcm| == |s.base.inPcm|
            && s.mem == CpDone(s.base, r, k)
          case Sleeping => s.mem == s.base && s.history == d.history)
  }

  predicate Entered(cfg: Config, s: State) {
    s.ap.Spinning? || s.ap.Copying? ==> ValidCall(cfg, s.ap.call)
  }

  predicate Answered(algo: Algo, cfg: Config, status: Status, s: State) {
    && |s.replies| == |s.calls|
    && forall k :: 0 <= k < |s.calls| ==> s.replies[k] == ReplyTo(algo, cfg, status, s.calls, k)
  }

  predicate Inv(algo: Algo, cfg: Config, status: Status, s: State) {
    && Ownership(s) && Entered(cfg, s)
    && Copies(algo, cfg, status, s)
    && Answered(algo, cfg, status, s)
  }

  lemma InvInBounds(algo: Algo, cfg: Config, status: Status, s: State, step: Step)
    requires Good(algo, cfg) && Inv(algo, cfg, status, s) && Enabled(cfg, s, step)
    ensures InBounds(algo, s, step)
  {
    hide Good, After, Answered, ApDone;
    if step.Access? {
      ApDoneIs(s.base, s.ap.call, s.ap.k);
    }
  }

  lemma StepKeepsInv(algo: Algo, cfg: Config, status: Status, s: State, step: Step)
    requires Good(algo, cfg) && Inv(algo, cfg, status, s) && Enabled(cfg, s, step)
    ensures InBounds(algo, s, step) && Inv(algo, cfg, status, Next(algo, cfg, s, step))
  {
    InvInBounds(algo, cfg, status, s, step);
    StepKeepsOwnership(algo, cfg, s, step);
    match step
    case Access => AccessKeepsCopies(algo, cfg, status, s);
    case Publish => PublishKeepsInv(algo, cfg, status, s);
    case Wake => WakeKeepsCopies(algo, cfg, status, s);
    case CpAccess => CpAccessKeepsCopies(algo, cfg, status, s);
    case Finish => FinishKeepsCopies(algo, cfg, status, s);
    case _ => hide Good, After, ReplyTo, Rests, Loaded, ApCopy, CpCopy, CpDone;
  }

  lemma AccessKeepsCopies(algo: Algo, cfg: Config, status: Status, s: State)
    requires Inv(algo, cfg, status, s) && Enabled(cfg, s, Access) && InBounds(algo, s, Access)
    ensures Copies(algo, cfg, status, Next(algo, cfg, s, Access))
  {
    hide After, ApDone, Answered;
    ApDoneIs(s.base, s.ap.call, s.ap.k);
    ApDoneIs(s.base, s.ap.call, s.ap.k + 1);
  }

  lemma PublishKeepsInv(algo: Algo, cfg: Config, status: Status, s: State)
    requires Inv(algo, cfg, status, s) && Enabled(cfg, s, Publish)
    ensures Copies(algo, cfg, status, Next(algo, cfg, s, Publish))
    ensures Answered(algo, cfg, status, Next(algo, cfg, s, Publish))
  {
    hide After, ApDone, Rests, Loaded, ApCopy;
    var s' := Next(algo, cfg, s, Publish);
    var n := |s.calls|;
    assert s'.calls[..n] == s.calls;
    ApDoneIs(s.base, s.ap.call, AP_COPIES);
    ExchangeLoads(cfg, s.base, After(algo, cfg, status, s.calls), s.ap.call);
    assert Answered(algo, cfg, status, s') by {
      hide Copies;
      assert s'.calls[..n] == s.calls[..n];
      forall k | 0 <= k < n ensures s'.calls[..k] == s.calls[..k] {
      }
    }
  }

  lemma WakeKeepsCopies(algo: Algo, cfg: Config, status: Status, s: State)
    requires Good(algo, cfg) && Inv(algo, cfg, status, s) && Enabled(cfg, s, Wake)
    ensures Copies(algo, cfg, status, Next(algo, cfg, s, Wake))
  {
    hide Good, After, Answered, Rests, Loaded;
    var n := |s.calls|;
    ProcessRests(algo, cfg, s.base, After(algo, cfg, status, s.calls[..n - 1]), s.calls[n - 1]);
  }

  lemma CpAccessKeepsCopies(algo: Algo, cfg: Config, status: Status, s: State)
    requires Inv(algo, cfg, status, s) && Enabled(cfg, s, CpAccess) && InBounds(algo, s, CpAccess)
    ensures Copies(algo, cfg, status, Next(algo, cfg, s, CpAccess))
  {
    hide After, Answered;
  }

  lemma FinishKeepsCopies(algo: Algo, cfg: Config, status: Status, s: State)
    requires Good(algo, cfg) && Inv(algo, cfg, status, s) && Enabled(cfg, s, Finish)
    ensures Copies(algo, cfg, status, Next(algo, cfg, s, Finish))
  {
    hide Good, Answered, Rests, Loaded;
    var n := |s.calls|;
    ProcessRests(algo, cfg, s.base, After(algo, cfg, status, s.calls[..n - 1]), s.calls[n - 1]);
  }

  // ---------------------------------------------------------------- whole runs

  ghost predicate Legal(algo: Algo, cfg: Config, s: State, steps: seq<Step>)
    decreases |steps|
  {
    steps == [] ||
    (Enabled(cfg, s, steps[0])
     && (InBounds(algo, s, steps[0]) ==> Legal(algo, cfg, Next(algo, cfg, s, steps[0]), steps[1..])))
  }

  /** The run up to its end, or up to a copy that would leave its buffer. */
  ghost function Exec(algo: Algo, cfg: Config, s: State, steps: seq<Step>): State
    requires Legal(algo, cfg, s, steps)
    decreases |steps|
  {
    if steps == [] || !InBounds(algo, s, steps[0]) then s
    else Exec(algo, cfg, Next(algo, cfg, s, steps[0]), steps[1..])
  }

  ghost predicate AllInBounds(algo: Algo, cfg: Config, s: State, steps: seq<Step>)
    requires Legal(algo, cfg, s, steps)
    decreases |steps|
  {
    steps == [] || (InBounds(algo, s, steps[0]) && AllInBounds(algo, cfg, Next(algo, cfg, s, steps[0]), steps[1..]))
  }

  lemma {:induction false} RunKeepsInv(algo: Algo, cfg: Config, status: Status, s: State, steps: seq<Step>)
    requires Good(algo, cfg) && Inv(algo, cfg, status, s) && Legal(algo, cfg, s, steps)
    ensures AllInBounds(algo, cfg, s, steps) && Inv(algo, cfg, status, Exec(algo, cfg, s, steps))
    decreases |steps|
  {
    hide Good, Inv, Enabled, InBounds, Next;
    if steps != [] {
      StepKeepsInv(algo, cfg, status, s, steps[0]);
      RunKeepsInv(algo, cfg, status, Next(algo, cfg, s, steps[0]), steps[1..]);
    }
  }

  lemma InitInv(algo: Algo, cfg: Config, status: Status)
    requires cfg.channels > 0
    ensures Inv(algo, cfg, status, Init(cfg, status))
  {
    assert Zeros(cfg.frameLen)[..cfg.frameLen] == Zeros(cfg.frameLen);
  }

  /** Over every interleaving of the two cores: no copy leaves its buffer, the cores are never at the
      shared memory together, and every call but the first returns what the algorithm makes of the
      call before it, the first one frame of silence. */
  lemma PipelineDelaysByOne(algo: Algo, cfg: Config, status: Status, steps: seq<Step>, k: nat)
    requires Good(algo, cfg) && cfg.channels > 0 && Legal(algo, cfg, Init(cfg, status), steps)
    requires k < |Exec(algo, cfg, Init(cfg, status), steps).replies|
    ensures AllInBounds(algo, cfg, Init(cfg, status), steps)
    ensures var s := Exec(algo, cfg, Init(cfg, status), steps);
            && !(s.ap.Copying? && s.cp.Running?)
            && |s.calls| == |s.replies|
            && s.replies[k] ==
                 if k == 0 then Reply(Zeros(cfg.frameLen), status)
                 else Output(algo(Seen(After(algo, cfg, status, s.calls[..k - 1]), s.calls[k - 1])))
  {
    InitInv(algo, cfg, status);
    RunKeepsInv(algo, cfg, status, Init(cfg, status), steps);
    hide Good, Legal, Exec, AllInBounds, Init, Copies;
    var s := Exec(algo, cfg, Init(cfg, status), steps);
    assert s.replies[k] == ReplyTo(algo, cfg, status, s.calls, k);
    if k > 0 {
      assert s.calls[..k][..k - 1] == s.calls[..k - 1];
    }
  }

  // ---------------------------------------------------------------- what the algorithm hears

  /** The frames the algorithm works on, told from the calls alone: voice and status of its own call,
      the reference and feedback the call brings, or, when it brings none, what the algorithm left of
      the ones before, silence at first. */
  ghost predicate Hears(algo: Algo, cfg: Config, history: seq<Frame>, calls: seq<Call>) {
    && |history| <= |calls|
    && forall k :: 0 <= k < |history| ==> HearsCall(algo, cfg, history, calls[k], k)
  }

  ghost predicate HearsCall(algo: Algo, cfg: Config, history: seq<Frame>, c: Call, k: nat)
    requires k < |history|
  {
    var f := history[k];
    && f.pcm == c.pcm && f.len == |c.pcm| && f.status == c.status
    && (c.ref.Some? ==> f.ref == c.ref.value)
    && (c.fb.Some? ==> f.fb == c.fb.value)
    && (c.ref.None? ==> f.ref == if k == 0 then seq(cfg.frameLen, _ => 0) else algo(history[..k]).ref)
    && (c.fb.None? ==> f.fb == if k == 0 then seq(cfg.frameLen, _ => 0) else algo(history[..k]).fb)
  }

  lemma {:induction false} AfterHears(algo: Algo, cfg: Config, status: Status, calls: seq<Call>)
    ensures var d := After(algo, cfg, status, calls);
            && |d.history| == |calls|
            && Hears(algo, cfg, d.history, calls)
            && d.offer == (if calls == [] then Reply(seq(cfg.frameLen, _ => 0), status) else Output(algo(d.history)))
            && d.ref == (if calls == [] then seq(cfg.frameLen, _ => 0) else algo(d.history).ref)
            && d.fb == if calls == [] then seq(cfg.frameLen, _ => 0) else algo(d.history).fb
  {
    if calls == [] {
      assert Zeros(cfg.frameLen) == seq(cfg.frameLen, _ => 0);
    } else {
      hide Hears, HearsCall, Output;
      var n := |calls| - 1;
      var prev := After(algo, cfg, status, calls[..n]);
      AfterHears(algo, cfg, status, calls[..n]);
      HearsMore(algo, cfg, prev, calls, n);
    }
  }

  lemma HearsMore(algo: Algo, cfg: Config, d: Dsp, calls: seq<Call>, n: nat)
    requires |calls| == n + 1 && |d.history| == n && Hears(algo, cfg, d.history, calls[..n])
    requires d.ref == if n == 0 then seq(cfg.frameLen, _ => 0) else algo(d.history).ref
    requires d.fb == if n == 0 then seq(cfg.frameLen, _ => 0) else algo(d.history).fb
    ensures Hears(algo, cfg, Seen(d, calls[n]), calls)
  {
    var h := Seen(d, calls[n]);
    forall k | 0 <= k <= n ensures HearsCall(algo, cfg, h, calls[k], k) {
      assert h[..k] == d.history[..k];
      if k == n {
        assert d.history[..n] == d.history;
      } else {
        assert HearsCall(algo, cfg, d.history, calls[..n][k], k);
      }
    }
  }

  lemma HearsPrefix(algo: Algo, cfg: Config, history: seq<Frame>, calls: seq<Call>, n: nat)
    requires n <= |calls| && Hears(algo, cfg, history, calls[..n])
    ensures Hears(algo, cfg, history, calls)
  {
    hide HearsCall;
    forall k | 0 <= k < |history| ensures HearsCall(algo, cfg, history, calls[k], k) {
      assert calls[..n][k] == calls[k];
    }
  }

  lemma InvHears(algo: Algo, cfg: Config, status: Status, s: State)
    requires Inv(algo, cfg, status, s)
    ensures Hears(algo, cfg, s.history, s.calls) && |s.calls| <= |s.history| + 1
  {
    hide Hears, HearsCall, After, Rests, Loaded, ApDone, CpDone, Answered, Ownership, Seen;
    var n := |s.calls|;
    AfterHears(algo, cfg, status, s.calls);
    if s.cpState == CpWorking {
      var d := After(algo, cfg, status, s.calls[..n - 1]);
      AfterHears(algo, cfg, status, s.calls[..n - 1]);
      HearsPrefix(algo, cfg, d.history, s.calls, n - 1);
      AfterSnoc(algo, cfg, status, s.calls);
    }
  }

  lemma AfterSnoc(algo: Algo, cfg: Config, status: Status, calls: seq<Call>)
    requires calls != []
    ensures var n := |calls| - 1;
            After(algo, cfg, status, calls).history == Seen(After(algo, cfg, status, calls[..n]), calls[n])
  {
  }

  lemma {:induction false} AfterHistoryPrefix(algo: Algo, cfg: Config, status: Status, calls: seq<Call>, k: nat)
    requires k <= |calls|
    ensures |After(algo, cfg, status, calls).history| == |calls|
    ensures After(algo, cfg, status, calls[..k]).history == After(algo, cfg, status, calls).history[..k]
  {
    var n := |calls| - 1;
    if calls != [] {
      AfterHistoryPrefix(algo, cfg, status, calls[..n], if k <= n then k else 0);
    }
    if k <= n {
      assert calls[..n][..k] == calls[..k];
    } else {
      assert calls[..k] == calls;
    }
  }

  /** What call `k` gets back, told from the frames the algorithm has worked on: what it put out for
      the `k`-th, silence at first. */
  ghost predicate Returns(algo: Algo, cfg: Config, status: Status, history: seq<Frame>, reply: Reply, k: nat) {
    && k <= |history|
    && if k == 0 then reply.pcm == seq(cfg.frameLen, _ => 0) && reply.status == status
       else
         var f := algo(history[..k]);
         f.len <= |f.pcm| && reply.pcm == f.pcm[..f.len] && reply.status == f.status
  }

  lemma InvReturns(algo: Algo, cfg: Config, status: Status, s: State, k: nat)
    requires Good(algo, cfg) && Inv(algo, cfg, status, s) && k < |s.replies|
    ensures Returns(algo, cfg, status, s.history, s.replies[k], k)
  {
    hide After, Rests, Loaded, ApDone, CpDone, Ownership, Seen, Output;
    var n := |s.calls|;
    AfterHears(algo, cfg, status, s.calls[..k]);
    AfterHistoryPrefix(algo, cfg, status, s.calls, k);
    assert s.history[..k] == After(algo, cfg, status, s.calls).history[..k] by {
      if s.cpState == CpWorking {
        AfterSnoc(algo, cfg, status, s.calls);
        AfterHistoryPrefix(algo, cfg, status, s.calls, n - 1);
      }
    }
    assert s.replies[k] == After(algo, cfg, status, s.calls[..k]).offer;
    if k > 0 {
      OutputIs(algo, cfg, s.history[..k]);
    }
  }

  lemma OutputIs(algo: Algo, cfg: Config, h: seq<Frame>)
    requires Good(algo, cfg) && h != []
    ensures var f := algo(h);
            f.len <= |f.pcm| && |f.pcm| == |h[|h| - 1].pcm| && Output(f) == Reply(f.pcm[..f.len], f.status)
  {
  }

  /** Over every interleaving: each frame the algorithm has worked on is the one its call brought, and
      each call returns what the algorithm has put out for the frame before. */
  lemma AlgorithmHearsCalls(algo: Algo, cfg: Config, status: Status, steps: seq<Step>)
    requires Good(algo, cfg) && cfg.channels > 0 && Legal(algo, cfg, Init(cfg, status), steps)
    ensures var s := Exec(algo, cfg, Init(cfg, status), steps);
            && Hears(algo, cfg, s.history, s.calls)
            && |s.calls| == |s.replies| <= |s.history| + 1
            && forall k :: 0 <= k < |s.replies| ==> Returns(algo, cfg, status, s.history, s.replies[k], k)
  {
    InitInv(algo, cfg, status);
    RunKeepsInv(algo, cfg, status, Init(cfg, status), steps);
    hide Good, Legal, Exec, Init, Copies, Hears, Returns, Ownership, Entered;
    var s := Exec(algo, cfg, Init(cfg, status), steps);
    InvHears(algo, cfg, status, s);
    forall k | 0 <= k < |s.replies| ensures Returns(algo, cfg, status, s.history, s.replies[k], k) {
      InvReturns(algo, cfg, status, s, k);
    }
  }
}
