/** The audio caller and the reframe thread running at once (apps/audioplayers/bt_sco_chain_reframe.c).

The queue guards are tested outside the lock, so another step can come between a guard and the
locked body it protects.  One step below is one guard or one locked body; steps of the two threads
interleave freely.
*/
module ReframeInterleaving {
  import opened Reframe

  /** Where the caller is inside `bt_sco_chain_reframe_tx_process`. */
  datatype Caller =
    | Outside
    | GuardedIn(frame: seq<Mics>, room: bool)
    | Written
    | GuardedOut(enough: bool)
    | Replied

  /** Where the thread is; `block` is what `g_process_buf` holds. */
  datatype Thread =
    | Waiting
    | Looping
    | Taken(block: seq<Mics>)              // read, output length not looked at yet
    | Processing(block: seq<Mics>)         // output length was found to suffice
    | GuardedWrite(block: seq<Mics>)       // and found again by `_write_output_queue`

  /** Samples that moved together, and whether they got through. */
  datatype Piece<T> = Piece(data: seq<T>, kept: bool)

  datatype State = State(
    n: nat,                                // IO_FRAME_LEN
    ins: seq<Mics>,
    outs: seq<Pcm>,
    signalled: bool,
    caller: Caller,
    thread: Thread,
    inputs: seq<Piece<Mics>>,              // frames offered; not kept: input overflow
    blocks: seq<Piece<Mics>>,              // frames taken by the thread; not kept: dropped
    replies: seq<Piece<Pcm>>,              // frames handed back; not kept: underflow
    broken: bool)                          // a locked body has run outside its buffer

  datatype Step =
    | CallIn(frame: seq<Mics>) | CallWrite | CallGuard | CallRead | CallSignal
    | Wake | Read | Check | Guard | Write

  // ---------------------------------------------------------------- steps

  predicate Enabled(s: State, step: Step) {
    match step
    case CallIn(frame) => s.caller.Outside? && |frame| == s.n
    case CallWrite => s.caller.GuardedIn?
    case CallGuard => s.caller.Written?
    case CallRead => s.caller.GuardedOut?
    case CallSignal => s.caller.Replied?
    case Wake => s.thread.Waiting? && s.signalled
    case Read => s.thread.Looping?
    case Check => s.thread.Taken?
    case Guard => s.thread.Processing?
    case Write => s.thread.GuardedWrite?
  }

  function Next(s: State, step: Step): State
    requires Enabled(s, step)
  {
    match step
    case CallIn(frame) => s.(caller := GuardedIn(frame, Fits(|s.ins|, s.n)))
    case CallWrite =>
      var GuardedIn(frame, room) := s.caller;
      var s' := s.(caller := Written, inputs := s.inputs + [Piece(frame, room)]);
      if room then s'.(ins := s.ins + frame, broken := s.broken || !Fits(|s.ins|, |frame|)) else s'
    case CallGuard => s.(caller := GuardedOut(s.n <= |s.outs|))
    case CallRead =>
      if !s.caller.enough then s.(caller := Replied, replies := s.replies + [Piece(Silence(s.n), false)])
      else if s.n > |s.outs| then s.(broken := true)
      else s.(caller := Replied, replies := s.replies + [Piece(s.outs[..s.n], true)], outs := s.outs[s.n..])
    case CallSignal => s.(caller := Outside, signalled := true)
    case Wake => s.(thread := Looping, signalled := false)
    case Read =>
      if |s.ins| < PROCESS then s.(thread := Waiting)
      else s.(thread := Taken(s.ins[..PROCESS]), ins := s.ins[PROCESS..])
    case Check =>
      if Fits(|s.outs|, PROCESS) then s.(thread := Processing(s.thread.block))
      else s.(thread := Waiting, blocks := s.blocks + [Piece(s.thread.block, false)])
    case Guard =>
      if Fits(|s.outs|, PROCESS) then s.(thread := GuardedWrite(s.thread.block))
      else s.(thread := Looping, blocks := s.blocks + [Piece(s.thread.block, false)])
    case Write =>
      s.(thread := Looping, blocks := s.blocks + [Piece(s.thread.block, true)],
         outs := s.outs + Voice(s.thread.block),
         broken := s.broken || !Fits(|s.outs|, |s.thread.block|))
  }

  function Init(n: nat): State {
    State(n, [], Silence(PREFILL), false, Outside, Waiting, [], [], [], false)
  }

  // ---------------------------------------------------------------- histories

  function All<T>(ps: seq<Piece<T>>): seq<T> {
    if ps == [] then [] else All(ps[..|ps| - 1]) + ps[|ps| - 1].data
  }

  function Kept<T>(ps: seq<Piece<T>>): seq<T> {
    if ps == [] then []
    else Kept(ps[..|ps| - 1]) + if ps[|ps| - 1].kept then ps[|ps| - 1].data else []
  }

  function Lost<T>(ps: seq<Piece<T>>): (n: nat)
    ensures n <= |ps|
  {
    if ps == [] then 0 else Lost(ps[..|ps| - 1]) + if ps[|ps| - 1].kept then 0 else 1
  }

  ghost predicate Sized<T>(ps: seq<Piece<T>>, n: nat) {
    forall i :: 0 <= i < |ps| ==> |ps[i].data| == n
  }

  lemma Extend<T>(ps: seq<Piece<T>>, p: Piece<T>)
    ensures All(ps + [p]) == All(ps) + p.data
    ensures Kept(ps + [p]) == Kept(ps) + if p.kept then p.data else []
    ensures Lost(ps + [p]) == Lost(ps) + if p.kept then 0 else 1
  {
    assert (ps + [p])[..|ps|] == ps;
  }

  lemma {:induction false} Sizes<T>(ps: seq<Piece<T>>, n: nat)
    requires Sized(ps, n)
    ensures |All(ps)| == n * |ps|
    ensures |Kept(ps)| == n * (|ps| - Lost(ps))
    ensures Lost(ps) == 0 ==> Kept(ps) == All(ps)
  {
    if ps == [] {
    } else {
      var front := ps[..|ps| - 1];
      Sizes(front, n);
      Times(n, |front|);
      Times(n, |front| - Lost(front));
    }
  }

  lemma Times(n: nat, k: nat)
    ensures n * (k + 1) == n * k + n
  {
  }

  // ---------------------------------------------------------------- safety and contents

  function Held(t: Thread): seq<Mics> {
    if t.Waiting? || t.Looping? then [] else t.block
  }

  /** Each length has one thread that adds to it and one that takes from it, so what a guard saw
      still holds when the locked body it lets through runs. */
  predicate Guards(s: State) {
    && !s.broken && |s.ins| <= CAPACITY && |s.outs| <= CAPACITY
    && (s.caller.GuardedIn? ==> |s.caller.frame| == s.n && (s.caller.room ==> Fits(|s.ins|, s.n)))
    && (s.caller.GuardedOut? && s.caller.enough ==> s.n <= |s.outs|)
    && (s.thread.Taken? || s.thread.Processing? || s.thread.GuardedWrite? ==> |s.thread.block| == PROCESS)
    && (s.thread.Processing? || s.thread.GuardedWrite? ==> Fits(|s.outs|, PROCESS))
  }

  lemma StepKeepsGuards(s: State, step: Step)
    requires Guards(s) && Enabled(s, step)
    ensures Guards(Next(s, step))
    ensures step.Guard? ==> Next(s, step).thread.GuardedWrite?
  {
  }

  ghost predicate Shapes(s: State) {
    && Sized(s.inputs, s.n) && Sized(s.blocks, PROCESS) && Sized(s.replies, s.n)
    && |s.inputs| == |s.replies| + (if s.caller.Written? || s.caller.GuardedOut? then 1 else 0)
  }

  /** What was accepted is what the thread has taken and what still waits. */
  predicate InFlow(inputs: seq<Piece<Mics>>, blocks: seq<Piece<Mics>>, held: seq<Mics>, ins: seq<Mics>) {
    Kept(inputs) == All(blocks) + held + ins
  }

  /** What was put out, prefill first, is what was handed back and what still waits. */
  predicate OutFlow(blocks: seq<Piece<Mics>>, replies: seq<Piece<Pcm>>, outs: seq<Pcm>) {
    Silence(PREFILL) + Voice(Kept(blocks)) == Kept(replies) + outs
  }

  ghost predicate Inv(s: State) {
    && Guards(s)
    && Shapes(s)
    && InFlow(s.inputs, s.blocks, Held(s.thread), s.ins)
    && OutFlow(s.blocks, s.replies, s.outs)
  }

  lemma StepKeepsShapes(s: State, step: Step)
    requires Guards(s) && Shapes(s) && Enabled(s, step)
    ensures Shapes(Next(s, step))
  {
  }

  lemma StepKeepsInv(s: State, step: Step)
    requires Inv(s) && Enabled(s, step)
    ensures Inv(Next(s, step)) && Next(s, step).n == s.n
  {
    StepKeepsGuards(s, step);
    StepKeepsShapes(s, step);
    hide Shapes, InFlow, OutFlow, Silence, Voice;
    match step
    case CallWrite =>
      Accepts(s.inputs, s.blocks, Held(s.thread), s.ins, Piece(s.caller.frame, s.caller.room));
    case CallRead =>
      if s.caller.enough {
        Replies(s.blocks, s.replies, s.outs, s.n);
      } else {
        Underflows(s.blocks, s.replies, s.outs, Silence(s.n));
      }
    case Read =>
      if |s.ins| >= PROCESS {
        Takes(s.inputs, s.blocks, s.ins);
      }
    case Check =>
      if !Fits(|s.outs|, PROCESS) {
        Finishes(s.inputs, s.blocks, s.thread.block, s.ins, s.replies, s.outs, false);
      }
    case Write =>
      Finishes(s.inputs, s.blocks, s.thread.block, s.ins, s.replies, s.outs, true);
    case _ =>
  }

  lemma Accepts(inputs: seq<Piece<Mics>>, blocks: seq<Piece<Mics>>, held: seq<Mics>, ins: seq<Mics>, p: Piece<Mics>)
    requires InFlow(inputs, blocks, held, ins)
    ensures InFlow(inputs + [p], blocks, held, if p.kept then ins + p.data else ins)
  {
    Extend(inputs, p);
  }

  lemma Takes(inputs: seq<Piece<Mics>>, blocks: seq<Piece<Mics>>, ins: seq<Mics>)
    requires InFlow(inputs, blocks, [], ins) && |ins| >= PROCESS
    ensures InFlow(inputs, blocks, ins[..PROCESS], ins[PROCESS..])
  {
    assert ins == ins[..PROCESS] + ins[PROCESS..];
  }

  lemma Replies(blocks: seq<Piece<Mics>>, replies: seq<Piece<Pcm>>, outs: seq<Pcm>, n: nat)
    requires OutFlow(blocks, replies, outs) && n <= |outs|
    ensures OutFlow(blocks, replies + [Piece(outs[..n], true)], outs[n..])
  {
    hide Voice, Silence;
    Extend(replies, Piece(outs[..n], true));
    assert outs == outs[..n] + outs[n..];
  }

  lemma Underflows(blocks: seq<Piece<Mics>>, replies: seq<Piece<Pcm>>, outs: seq<Pcm>, data: seq<Pcm>)
    requires OutFlow(blocks, replies, outs)
    ensures OutFlow(blocks, replies + [Piece(data, false)], outs)
  {
    Extend(replies, Piece(data, false));
  }

  /** The thread is done with a block: it was written to the output queue, or dropped. */
  lemma Finishes(inputs: seq<Piece<Mics>>, blocks: seq<Piece<Mics>>, block: seq<Mics>, ins: seq<Mics>,
                 replies: seq<Piece<Pcm>>, outs: seq<Pcm>, kept: bool)
    requires InFlow(inputs, blocks, block, ins) && OutFlow(blocks, replies, outs)
    ensures InFlow(inputs, blocks + [Piece(block, kept)], [], ins)
    ensures OutFlow(blocks + [Piece(block, kept)], replies, if kept then outs + Voice(block) else outs)
  {
    hide Voice, Silence;
    Extend(blocks, Piece(block, kept));
    if kept {
      VoiceConcat(Kept(blocks), block);
      Regroup(Silence(PREFILL), Voice(Kept(blocks)), Voice(block));
      Regroup(Kept(replies), outs, Voice(block));
    } else {
      assert Kept(blocks) + [] == Kept(blocks);
    }
  }

  lemma Regroup(a: seq<Pcm>, b: seq<Pcm>, c: seq<Pcm>)
    ensures a + (b + c) == (a + b) + c
  {
  }

  predicate Legal(s: State, steps: seq<Step>)
    decreases |steps|
  {
    steps == [] || (Enabled(s, steps[0]) && Legal(Next(s, steps[0]), steps[1..]))
  }

  function Exec(s: State, steps: seq<Step>): State
    requires Legal(s, steps)
    decreases |steps|
  {
    if steps == [] then s else Exec(Next(s, steps[0]), steps[1..])
  }

  lemma {:induction false} RunKeepsInv(s: State, steps: seq<Step>)
    requires Inv(s) && Legal(s, steps)
    ensures Inv(Exec(s, steps)) && Exec(s, steps).n == s.n
    decreases |steps|
  {
    hide Inv, Enabled, Next;
    if steps != [] {
      StepKeepsInv(s, steps[0]);
      RunKeepsInv(Next(s, steps[0]), steps[1..]);
    }
  }

  lemma InitInv(n: nat)
    ensures Inv(Init(n))
  {
  }

  /** Over every interleaving: no locked body leaves its buffer, both queues stay within capacity,
      and what was accepted went through the queues in order, losing exactly the dropped frames. */
  lemma RunIsSafe(n: nat, steps: seq<Step>)
    requires Legal(Init(n), steps)
    ensures var s := Exec(Init(n), steps);
            && !s.broken && |s.ins| <= 1280 && |s.outs| <= 1280
            && Kept(s.inputs) == All(s.blocks) + Held(s.thread) + s.ins
            && Silence(PREFILL) + Voice(Kept(s.blocks)) == Kept(s.replies) + s.outs
  {
    InitInv(n);
    RunKeepsInv(Init(n), steps);
  }

  /** Nothing is created or lost but by an overflow, an underflow or a drop: the latency in samples
      at any moment between calls. */
  lemma LatencyIsConserved(n: nat, steps: seq<Step>)
    requires Legal(Init(n), steps)
    ensures var s := Exec(Init(n), steps);
            s.caller.Outside? ==>
              |s.ins| + |Held(s.thread)| + |s.outs|
              == 640 + n * (Lost(s.replies) - Lost(s.inputs)) - 320 * Lost(s.blocks)
  {
    InitInv(n);
    RunKeepsInv(Init(n), steps);
    var s := Exec(Init(n), steps);
    Balance(s);
  }

  /** The same at every moment, also inside a call: a frame is added before one is removed. */
  lemma Balance(s: State)
    requires Inv(s)
    ensures |s.ins| + |Held(s.thread)| + |s.outs|
            == PREFILL + s.n * (|s.inputs| - |s.replies| + Lost(s.replies) - Lost(s.inputs))
               - PROCESS * Lost(s.blocks)
  {
    hide Guards, Voice, All, Kept, Lost;
    Sizes(s.inputs, s.n);
    Sizes(s.blocks, PROCESS);
    Sizes(s.replies, s.n);
    Distribute(s.n, |s.inputs| - Lost(s.inputs), |s.replies| - Lost(s.replies));
  }

  lemma Distribute(n: nat, a: int, b: int)
    ensures n * (a - b) == n * a - n * b
  {
  }

  // ---------------------------------------------------------------- draining between calls

  /** Every call begins with the thread back in its wait and no signal pending. */
  predicate Drained(s: State, steps: seq<Step>)
    requires Legal(s, steps)
    decreases |steps|
  {
    steps == [] || ((steps[0].CallIn? ==> Resting(s)) && Drained(Next(s, steps[0]), steps[1..]))
  }

  predicate Resting(s: State) {
    s.thread.Waiting? && !s.signalled
  }

  function InTransit(s: State): nat {
    |s.ins| + |Held(s.thread)| + |s.outs|
  }

  ghost predicate Settled(s: State) {
    && Guards(s)
    && Lost(s.inputs) == Lost(s.blocks) == Lost(s.replies) == 0
    && InTransit(s) == PREFILL + (if s.caller.Written? || s.caller.GuardedOut? then s.n else 0)
    && match s.caller
       case Outside => Resting(s) ==> |s.ins| < PROCESS
       case GuardedIn(_, room) => Resting(s) && room && |s.ins| < PROCESS
       case Written => Resting(s) && |s.ins| < PROCESS + s.n
       case GuardedOut(enough) => Resting(s) && enough && |s.ins| < PROCESS + s.n
       case Replied => Resting(s)
  }

  lemma StepKeepsSettled(s: State, step: Step)
    requires Settled(s) && s.n <= PROCESS && Enabled(s, step) && (step.CallIn? ==> Resting(s))
    ensures Settled(Next(s, step)) && Next(s, step).n == s.n
  {
    hide Lost;
    StepKeepsGuards(s, step);
    var s' := Next(s, step);
    match step
    case CallWrite => Extend(s.inputs, s'.inputs[|s.inputs|]);
    case CallRead => Extend(s.replies, s'.replies[|s.replies|]);
    case Write => Extend(s.blocks, s'.blocks[|s.blocks|]);
    case _ =>
  }

  lemma {:induction false} DrainedRunSettles(s: State, steps: seq<Step>)
    requires Settled(s) && s.n <= PROCESS && Legal(s, steps) && Drained(s, steps)
    ensures Settled(Exec(s, steps)) && Exec(s, steps).n == s.n
    decreases |steps|
  {
    hide Settled, Enabled, Next, Resting;
    if steps != [] {
      StepKeepsSettled(s, steps[0]);
      DrainedRunSettles(Next(s, steps[0]), steps[1..]);
    }
  }

  /** If the thread drains between calls (frames are 120 or 240 samples, never more than a
      processing frame), nothing overflows, underflows or is dropped, and what the caller has been
      handed is the prefill followed by the voice it put in. */
  lemma DrainedRunIsDelay(n: nat, steps: seq<Step>)
    requires n <= PROCESS && Legal(Init(n), steps) && Drained(Init(n), steps)
    ensures var s := Exec(Init(n), steps);
            && Lost(s.inputs) == Lost(s.blocks) == Lost(s.replies) == 0
            && All(s.replies) <= Silence(PREFILL) + Voice(All(s.inputs))
  {
    DrainedRunSettles(Init(n), steps);
    InitInv(n);
    RunKeepsInv(Init(n), steps);
    var s := Exec(Init(n), steps);
    Sizes(s.inputs, n);
    Sizes(s.blocks, PROCESS);
    Sizes(s.replies, n);
    HeardIsPrefix(s);
  }

  lemma HeardIsPrefix(s: State)
    requires Inv(s) && Lost(s.inputs) == 0
    requires Kept(s.blocks) == All(s.blocks) && Kept(s.inputs) == All(s.inputs) && Kept(s.replies) == All(s.replies)
    ensures All(s.replies) <= Silence(PREFILL) + Voice(All(s.inputs))
  {
    hide Guards, Shapes, All, Kept, Lost, Voice, Silence;
    var rest := Held(s.thread) + s.ins;
    assert All(s.inputs) == All(s.blocks) + rest by {
      assert All(s.blocks) + Held(s.thread) + s.ins == All(s.blocks) + rest;
    }
    VoiceConcat(All(s.blocks), rest);
    Regroup(Silence(PREFILL), Voice(All(s.blocks)), Voice(rest));
    Regroup(All(s.replies), s.outs, Voice(rest));
  }

  // ---------------------------------------------------------------- not draining

  function CallSteps(f: seq<Mics>): seq<Step> {
    [CallIn(f), CallWrite, CallGuard, CallRead, CallSignal]
  }

  /** A whole call with no step of the thread in between. */
  function AfterCall(s: State, f: seq<Mics>): State {
    var room, enough := Fits(|s.ins|, s.n), s.n <= |s.outs|;
    s.(inputs := s.inputs + [Piece(f, room)], ins := if room then s.ins + f else s.ins,
       replies := s.replies + [if enough then Piece(s.outs[..s.n], true) else Piece(Silence(s.n), false)],
       outs := if enough then s.outs[s.n..] else s.outs,
       signalled := true)
  }

  lemma OneCall(s: State, f: seq<Mics>, rest: seq<Step>)
    requires s.caller.Outside? && |f| == s.n && Legal(AfterCall(s, f), rest)
    ensures Legal(s, CallSteps(f) + rest) && Exec(s, CallSteps(f) + rest) == Exec(AfterCall(s, f), rest)
  {
    hide Next, Enabled, Legal, Exec, AfterCall;
    StepsOfCall(s, f);
    var s1 := Next(s, CallIn(f));
    var s2 := Next(s1, CallWrite);
    var s3 := Next(s2, CallGuard);
    var s4 := Next(s3, CallRead);
    var t4 := [CallSignal] + rest;
    var t3 := [CallRead] + t4;
    var t2 := [CallGuard] + t3;
    var t1 := [CallWrite] + t2;
    Prepend(s4, CallSignal, rest);
    Prepend(s3, CallRead, t4);
    Prepend(s2, CallGuard, t3);
    Prepend(s1, CallWrite, t2);
    Prepend(s, CallIn(f), t1);
    assert CallSteps(f) + rest == [CallIn(f)] + t1;
  }

  lemma StepsOfCall(s: State, f: seq<Mics>)
    requires s.caller.Outside? && |f| == s.n
    ensures Enabled(s, CallIn(f))
    ensures var s1 := Next(s, CallIn(f));
            && Enabled(s1, CallWrite)
            && var s2 := Next(s1, CallWrite);
            && Enabled(s2, CallGuard)
            && var s3 := Next(s2, CallGuard);
            && Enabled(s3, CallRead)
            && var s4 := Next(s3, CallRead);
            && Enabled(s4, CallSignal) && Next(s4, CallSignal) == AfterCall(s, f)
  {
    hide Silence;
  }

  lemma Prepend(s: State, step: Step, rest: seq<Step>)
    requires Enabled(s, step) && Legal(Next(s, step), rest)
    ensures Legal(s, [step] + rest) && Exec(s, [step] + rest) == Exec(Next(s, step), rest)
  {
    assert ([step] + rest)[1..] == rest;
  }

  /** Whole calls in a row, and the state they lead to, while the thread does nothing. */
  function Calls(fs: seq<seq<Mics>>): seq<Step> {
    if fs == [] then [] else CallSteps(fs[0]) + Calls(fs[1..])
  }

  function AfterCalls(s: State, fs: seq<seq<Mics>>): State
    decreases |fs|
  {
    if fs == [] then s else AfterCalls(AfterCall(s, fs[0]), fs[1..])
  }

  lemma {:induction false} CallsRun(s: State, fs: seq<seq<Mics>>)
    requires s.caller.Outside? && forall i :: 0 <= i < |fs| ==> |fs[i]| == s.n
    ensures Legal(s, Calls(fs)) && Exec(s, Calls(fs)) == AfterCalls(s, fs)
    decreases |fs|
  {
    if fs != [] {
      CallsRun(AfterCall(s, fs[0]), fs[1..]);
      hide Legal, Exec;
      OneCall(s, fs[0], Calls(fs[1..]));
    }
  }

  /** A call overflows or underflows by what it finds, and takes as much as it brings. */
  lemma AfterCallLoses(s: State, f: seq<Mics>)
    requires |f| == s.n
    ensures var t := AfterCall(s, f);
            && t.n == s.n
            && Lost(t.inputs) == Lost(s.inputs) + (if Fits(|s.ins|, s.n) then 0 else 1)
            && Lost(t.replies) == Lost(s.replies) + (if s.n <= |s.outs| then 0 else 1)
            && |t.ins| == |s.ins| + (if Fits(|s.ins|, s.n) then s.n else 0)
            && |t.outs| == |s.outs| - (if s.n <= |s.outs| then s.n else 0)
  {
    var t := AfterCall(s, f);
    Extend(s.inputs, t.inputs[|s.inputs|]);
    Extend(s.replies, t.replies[|s.replies|]);
  }

  /** Exactly how long calls can go on without the thread: from any state, no frame underflows if and
      only if the output queue holds all of them, and none overflows if and only if the input queue
      has room for all of them. */
  lemma {:induction false} UndrainedCallsLoseIff(s: State, fs: seq<seq<Mics>>)
    requires forall i :: 0 <= i < |fs| ==> |fs[i]| == s.n
    ensures var t := AfterCalls(s, fs);
            && Lost(t.replies) >= Lost(s.replies) && Lost(t.inputs) >= Lost(s.inputs)
            && (Lost(t.replies) == Lost(s.replies) <==> fs == [] || s.n * |fs| <= |s.outs|)
            && (Lost(t.inputs) == Lost(s.inputs) <==> fs == [] || |s.ins| + s.n * |fs| <= 1280)
    decreases |fs|
  {
    hide AfterCall, Lost;
    if fs != [] {
      AfterCallLoses(s, fs[0]);
      UndrainedCallsLoseIff(AfterCall(s, fs[0]), fs[1..]);
      Times(s.n, |fs| - 1);
      assert |fs| > 1 ==> s.n * (|fs| - 1) >= s.n by { AtLeastOnce(s.n, |fs| - 1); }
    }
  }

  lemma AtLeastOnce(n: nat, k: int)
    requires k >= 0
    ensures k >= 1 ==> n * k >= n
    ensures n * k >= 0 && (k == 0 ==> n * k == 0)
  {
  }

  /** So from power-on with 240-sample frames, two calls before the thread gets the processor are
      served and three are not. */
  lemma ThreeUndrainedCallsUnderflow(f: seq<Mics>)
    requires |f| == 240
    ensures Legal(Init(240), Calls([f, f])) && Lost(Exec(Init(240), Calls([f, f])).replies) == 0
    ensures Legal(Init(240), Calls([f, f, f])) && Lost(Exec(Init(240), Calls([f, f, f])).replies) > 0
  {
    var s := Init(240);
    CallsRun(s, [f, f]);
    CallsRun(s, [f, f, f]);
    UndrainedCallsLoseIff(s, [f, f]);
    UndrainedCallsLoseIff(s, [f, f, f]);
    hide AfterCalls, Calls, Exec, Legal, Silence;
    assert |s.outs| == PREFILL && Lost(s.replies) == 0;
  }

  // ---------------------------------------------------------------- the thread alone

  predicate OfThread(steps: seq<Step>) {
    forall i :: 0 <= i < |steps| ==>
      steps[i].Wake? || steps[i].Read? || steps[i].Check? || steps[i].Guard? || steps[i].Write?
  }

  /** What a run of the thread leaves alone. */
  predicate CallerUntouched(s: State, t: State) {
    t.n == s.n && t.caller == s.caller && t.inputs == s.inputs && t.replies == s.replies
  }

  lemma NextOfThread(s: State, step: Step, rest: seq<Step>, t: State)
    requires Enabled(s, step) && OfThread([step]) && OfThread(rest)
    requires Legal(Next(s, step), rest) && Exec(Next(s, step), rest) == t && CallerUntouched(Next(s, step), t)
    ensures Legal(s, [step] + rest) && Exec(s, [step] + rest) == t && OfThread([step] + rest)
    ensures CallerUntouched(s, t)
  {
    Prepend(s, step, rest);
    assert [step][0] == step;
    forall i | 0 <= i < |[step] + rest|
      ensures var x := ([step] + rest)[i]; x.Wake? || x.Read? || x.Check? || x.Guard? || x.Write?
    {
      assert ([step] + rest)[i] == if i == 0 then step else rest[i - 1];
    }
  }

  lemma Nothing(s: State)
    ensures Legal(s, []) && Exec(s, []) == s && OfThread([]) && CallerUntouched(s, s)
  {
  }

  /** Left to itself, the thread does what the drain of the sequential code does. */
  lemma {:induction false} ThreadDrains(s: State) returns (steps: seq<Step>, t: State)
    requires s.thread.Looping?
    ensures Legal(s, steps) && OfThread(steps) && Exec(s, steps) == t && CallerUntouched(s, t)
    ensures Queues(t.ins, t.outs) == Reframe.Drained(s.ins, s.outs)
    ensures t.thread.Waiting? && t.signalled == s.signalled
    decreases |s.ins|
  {
    hide Legal, Exec, OfThread, CallerUntouched, Fits;
    var s1 := Next(s, Read);
    assert [Read][0] == Read && [Check][0] == Check && [Guard][0] == Guard && [Write][0] == Write;
    OneOfThread();
    if |s.ins| < PROCESS {
      t := s1;
      Nothing(t);
      NextOfThread(s, Read, [], t);
      steps := [Read] + [];
    } else if !Fits(|s.outs|, PROCESS) {
      t := Next(s1, Check);
      Nothing(t);
      NextOfThread(s1, Check, [], t);
      NextOfThread(s, Read, [Check] + [], t);
      steps := [Read] + ([Check] + []);
    } else {
      var s2 := Next(s1, Check);
      var s3 := Next(s2, Guard);
      var s4 := Next(s3, Write);
      var rest;
      rest, t := ThreadDrains(s4);
      NextOfThread(s3, Write, rest, t);
      NextOfThread(s2, Guard, [Write] + rest, t);
      NextOfThread(s1, Check, [Guard] + ([Write] + rest), t);
      NextOfThread(s, Read, [Check] + ([Guard] + ([Write] + rest)), t);
      steps := [Read] + ([Check] + ([Guard] + ([Write] + rest)));
    }
  }

  lemma OneOfThread()
    ensures OfThread([Wake]) && OfThread([Read]) && OfThread([Check]) && OfThread([Guard]) && OfThread([Write])
  {
  }

  /** So one call, followed by the thread until it waits again, is one call of a session of the
      sequential code: the interleaved steps refine it. */
  lemma CallIsServed(s: State, f: seq<Mics>) returns (steps: seq<Step>, t: State)
    requires s.caller.Outside? && Resting(s) && |f| == s.n
    ensures OfThread(steps) && Legal(s, CallSteps(f) + steps) && Exec(s, CallSteps(f) + steps) == t
    ensures Queues(t.ins, t.outs) == Serve(Queues(s.ins, s.outs), f)
    ensures t.caller.Outside? && Resting(t) && t.n == s.n
    ensures |t.replies| == |s.replies| + 1 && t.replies[..|s.replies|] == s.replies
    ensures t.replies[|s.replies|].data == Supplied(Queues(s.ins, s.outs), s.n)
  {
    var a := AfterCall(s, f);
    var rest;
    rest, t := ThreadDrains(Next(a, Wake));
    OneOfThread();
    hide Legal, Exec, OfThread;
    NextOfThread(a, Wake, rest, t);
    steps := [Wake] + rest;
    OneCall(s, f, steps);
  }
}
