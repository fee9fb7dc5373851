/** Length-prefixed messages in a byte queue: apps/app_rpc/rpc_queue.c.

The byte queue is shown to be a FIFO of whole messages, for every sequence of operations, with the
exact condition on a message's length under which that is so.
*/
module RpcQueue {
  import opened LengthPrefix
  import opened Ring
  import opened Wrappers
  import CQueue

  type Message = seq<Byte>

  const HEADER_BYTES := 2
  const MAX_MESSAGE := 65535

  // ---------------------------------------------------------------- the byte format

  predicate Sendable(m: Message) {
    1 <= |m| <= MAX_MESSAGE
  }

  /** Splits bytes into messages by their length prefixes; `None` when a message is cut short. */
  function Decode(s: seq<Byte>): Option<seq<Message>> {
    if s == [] then Some([])
    else if |s| < HEADER_BYTES then None
    else
      var n := FromU16(s[..2]);
      if |s| < HEADER_BYTES + n then None
      else
        match Decode(s[2 + n..])
        case None => None
        case Some(ms) => Some([s[2..2 + n]] + ms)
  }

  lemma EncodeAppend(ms: seq<Message>, m: Message)
    ensures Encode(ms + [m]) == Encode(ms) + U16(|m|) + m
  {
    EncodeConcat(ms, [m]);
    EncodeOne(m);
  }

  /** Where the parts of a message lie at the head of a queue. */
  lemma HeadOf(s: seq<Byte>, m: Message, rest: seq<Byte>)
    requires s == U16(|m|) + m + rest && |m| <= MAX_MESSAGE
    ensures |s| == 2 + |m| + |rest| && FromU16(s[..2]) == |m|
    ensures s[2..2 + |m|] == m && s[2 + |m|..] == rest && s[2..] == m + rest
  {
    U16RoundTrip(|m|);
    assert s[..2] == U16(|m|);
  }

  lemma DecodeHead(s: seq<Byte>, m: Message, rest: seq<Byte>)
    requires s == U16(|m|) + m + rest && |m| <= MAX_MESSAGE
    ensures Decode(s) == match Decode(rest)
                         case None => None
                         case Some(more) => Some([m] + more)
  {
    HeadOf(s, m, rest);
  }

  /** A queue that starts with whole messages decodes to those and then whatever follows. */
  lemma {:induction false} DecodeEncode(ms: seq<Message>, rest: seq<Byte>)
    requires forall m :: m in ms ==> Sendable(m)
    ensures Decode(Encode(ms) + rest) == match Decode(rest)
                                         case None => None
                                         case Some(more) => Some(ms + more)
  {
    if ms == [] {
      assert Encode(ms) + rest == rest;
      assert forall more: seq<Message> :: ms + more == more;
    } else {
      assert Sendable(ms[0]);
      assert Encode(ms) + rest == U16(|ms[0]|) + ms[0] + (Encode(ms[1..]) + rest);
      DecodeHead(Encode(ms) + rest, ms[0], Encode(ms[1..]) + rest);
      DecodeEncode(ms[1..], rest);
      assert forall more: seq<Message> :: [ms[0]] + (ms[1..] + more) == ms + more;
    }
  }

  /** Distinct queues of messages have distinct bytes: the framing loses nothing. */
  lemma EncodeInjective(xs: seq<Message>, ys: seq<Message>)
    requires forall m :: m in xs ==> Sendable(m)
    requires forall m :: m in ys ==> Sendable(m)
    requires Encode(xs) == Encode(ys)
    ensures xs == ys
  {
    DecodeEncode(xs, []);
    DecodeEncode(ys, []);
    assert Encode(xs) + [] == Encode(ys) + [];
    assert xs + [] == xs && ys + [] == ys;
  }

  // ---------------------------------------------------------------- the operations on bytes

  /** Accepted or not, and what the queue then holds.  The room is tested with the length cut to
      16 bits; the payload goes in only if all of it fits. */
  function PushBytes(s: seq<Byte>, capacity: nat, data: Message): (bool, seq<Byte>)
    requires |s| <= capacity
  {
    var free := capacity - |s|;
    if |data| == 0 || |data| % 65536 + HEADER_BYTES > free then (false, s)
    else (true, s + U16(|data|) + if |data| + HEADER_BYTES <= free then data else [])
  }

  function NextLength(s: seq<Byte>): nat {
    if |s| < HEADER_BYTES then 0 else FromU16(s[..2])
  }

  function Body(s: seq<Byte>): seq<Byte> {
    if |s| < HEADER_BYTES then s else s[2..]
  }

  /** What popping `n` bytes returns and leaves; too few bytes give `n` zeros. */
  function PopBytes(s: seq<Byte>, n: nat): (r: (seq<Byte>, seq<Byte>))
    ensures |r.0| == n && |r.1| <= |s|
  {
    if n <= |Body(s)| then (Body(s)[..n], Body(s)[n..]) else (Zeros(n), Body(s))
  }

  method Init(size: nat) returns (q: CQueue.Queue)
    requires size > 0
    ensures q.Valid() && fresh(q) && fresh(q.base) && q.base.Length == size
    ensures Decode(q.contents) == Some([])
  {
    q := new CQueue.Queue(size);
  }

  method Push(q: CQueue.Queue, data: Message) returns (ok: bool)
    requires q.Valid()
    modifies q`write, q`len, q`contents, q.base
    ensures q.Valid() && q.base == old(q.base)
    ensures (ok, q.contents) == PushBytes(old(q.contents), q.base.Length, data)
  {
    hide Stretch, U16;
    ok := false;
    if |data| > 0 {
      var dataLen := |data| % 65536;
      var available := q.Available();
      if dataLen + HEADER_BYTES <= available {
        U16RoundTrip(|data|);
        var _ := q.Enqueue(U16(dataLen));
        var _ := q.Enqueue(data);
        ok := true;
        assert forall s: seq<Byte> :: s + [] == s;
      }
    }
  }

  /** The length is assembled from one or two segments, wherever the ring cuts it. */
  method NextEntryLength(q: CQueue.Queue) returns (length: nat)
    requires q.Valid()
    ensures length == NextLength(q.contents)
  {
    hide Stretch;
    var _, n1, n2 := q.Peek(HEADER_BYTES);
    var bytes: seq<Byte> := [0, 0];
    bytes := q.base[q.read..q.read + n1] + bytes[n1..];
    bytes := bytes[..n1] + q.base[..n2] + bytes[n1 + n2..];
    length := FromU16(bytes);
  }

  /** Removes the two peeked segments and clears the memory they occupied. */
  method DropAndClear(q: CQueue.Queue, n1: nat, n2: nat)
    requires q.Valid() && n1 + n2 <= q.len
    requires q.read + n1 <= q.base.Length && (n2 == 0 || q.read + n1 == q.base.Length)
    modifies q`read, q`len, q`contents, q.base
    ensures q.Valid() && q.base == old(q.base)
    ensures q.contents == old(q.contents)[n1 + n2..]
    ensures Stretch(q.base[..], old(q.read), n1 + n2) == Zeros(n1 + n2)
  {
    hide Stretch;
    var at := q.read;
    var _ := q.Dequeue(n1 + n2);
    BehindIsClear(q.base.Length, at, n1, n2, q.len);
    q.Zero(at, n1);
    q.Zero(0, n2);
    TwoRunsOfZeros(q.base[..], at, n1, n2);
  }

  function Zeros(n: nat): (s: seq<Byte>)
    ensures |s| == n && forall i :: 0 <= i < n ==> s[i] == 0
  {
    seq(n, _ => 0)
  }

  lemma TwoRunsOfZeros(b: seq<Byte>, at: nat, n1: nat, n2: nat)
    requires at < |b| && at + n1 <= |b| && n1 + n2 <= |b| && (n2 == 0 || at + n1 == |b|)
    requires forall k :: at <= k < at + n1 || 0 <= k < n2 ==> b[k] == 0
    ensures Stretch(b, at, n1 + n2) == Zeros(n1 + n2)
  {
  }

  /** Where a popped message's bytes begin. */
  function BodyStart(size: nat, read: nat, s: seq<Byte>): nat
    requires read < size && |s| <= size
  {
    if |s| < HEADER_BYTES then read else Advance(size, read, HEADER_BYTES)
  }

  /** The bytes of a message that was there are cleared behind it. */
  method Pop(q: CQueue.Queue, n: nat) returns (buff: seq<Byte>)
    requires q.Valid()
    modifies q`read, q`len, q`contents, q.base
    ensures q.Valid() && q.base == old(q.base)
    ensures (buff, q.contents) == PopBytes(old(q.contents), n)
    ensures n <= |Body(old(q.contents))| ==>
              Stretch(q.base[..], BodyStart(q.base.Length, old(q.read), old(q.contents)), n) == Zeros(n)
  {
    hide Stretch;
    var _ := q.Dequeue(HEADER_BYTES);
    var _, n1, n2 := q.Peek(n);
    if n == n1 + n2 {
      buff := q.base[q.read..q.read + n1] + q.base[..n2];
      DropAndClear(q, n1, n2);
    } else {
      buff := Zeros(n);
    }
  }

  // ---------------------------------------------------------------- refinement

  /** A push is refused, changing nothing, for want of data or of room; an accepted one appends its
      message to the queue of messages exactly if that fits the 16-bit length.  A longer one is
      accepted with a wrong prefix. */
  lemma PushAppendsIff(ms: seq<Message>, capacity: nat, data: Message)
    requires forall m :: m in ms ==> Sendable(m)
    requires |Encode(ms)| <= capacity
    ensures var (ok, s') := PushBytes(Encode(ms), capacity, data);
            && (Decode(s') == Some(ms + [data]) <==> ok && |data| <= MAX_MESSAGE)
            && (Decode(s') == Some(ms) <==> !ok)
            && (|data| <= MAX_MESSAGE ==> (ok <==> data != [] && |Encode(ms + [data])| <= capacity))
  {
    hide Encode, Decode, U16;
    var s := Encode(ms);
    var (ok, s') := PushBytes(s, capacity, data);
    EncodeAppend(ms, data);
    if !ok {
      assert Decode([]) == Some([]) by { DecodeNothing(); }
      DecodeEncode(ms, []);
      assert s + [] == s && ms + [] == ms;
    } else {
      AcceptedPush(ms, capacity, data);
    }
  }

  lemma DecodeNothing()
    ensures Decode([]) == Some([])
  {
  }

  lemma AcceptedPush(ms: seq<Message>, capacity: nat, data: Message)
    requires forall m :: m in ms ==> Sendable(m)
    requires |Encode(ms)| <= capacity && PushBytes(Encode(ms), capacity, data).0
    ensures var s' := PushBytes(Encode(ms), capacity, data).1;
            Decode(s') != Some(ms) && (Decode(s') == Some(ms + [data]) <==> |data| <= MAX_MESSAGE)
  {
    var s' := PushBytes(Encode(ms), capacity, data).1;
    var rest := U16(|data|) + s'[|Encode(ms)| + 2..];
    assert s' == Encode(ms) + rest;
    hide PushBytes, Encode, U16;
    DecodeEncode(ms, rest);
    if Decode(rest).Some? {
      MoreIsDecoded(ms, rest);
    }
    if |data| <= MAX_MESSAGE {
      assert rest == U16(|data|) + data + [] by {
        FittingPush(Encode(ms), capacity, data);
      }
      DecodeHead(rest, data, []);
      DecodeNothing();
      assert [data] + [] == [data];
    } else if Decode(s') == Some(ms + [data]) {
      DecodedAreShort(s', |ms|);
    }
  }

  lemma FittingPush(s: seq<Byte>, capacity: nat, data: Message)
    requires |s| <= capacity && |data| <= MAX_MESSAGE && PushBytes(s, capacity, data).0
    ensures PushBytes(s, capacity, data).1[|s| + 2..] == data
  {
  }

  lemma MoreIsDecoded(ms: seq<Message>, rest: seq<Byte>)
    requires rest != [] && Decode(rest).Some?
    ensures ms + Decode(rest).value != ms
  {
    assert |ms + Decode(rest).value| > |ms|;
  }

  lemma {:induction false} DecodedAreShort(s: seq<Byte>, i: int)
    requires Decode(s).Some?
    ensures 0 <= i < |Decode(s).value| ==> |Decode(s).value[i]| <= MAX_MESSAGE
  {
    if s != [] && i > 0 {
      DecodedAreShort(s[2 + FromU16(s[..2])..], i - 1);
    }
  }

  /** What becomes of any longer message that is accepted into an empty queue: the peeked length is
      the real one modulo 65536, and popping it gives a piece of the message, the rest being taken
      for further messages, or nothing of it at all where it did not fit. */
  lemma OversizedPushBreaksFraming(capacity: nat, data: Message)
    requires |data| > MAX_MESSAGE && PushBytes([], capacity, data).0
    ensures var s' := PushBytes([], capacity, data).1;
            var n := |data| % 65536;
            && NextLength(s') == n
            && PopBytes(s', n) == if |data| + HEADER_BYTES <= capacity then (data[..n], data[n..]) else (Zeros(n), [])
  {
    var s' := PushBytes([], capacity, data).1;
    U16RoundTrip(|data|);
    assert s'[..2] == U16(|data|);
  }

  /** The peeked length is the head message's, and popping that length, and no other, takes exactly
      the head message. */
  lemma PopTakesHead(ms: seq<Message>)
    requires ms != [] && forall m :: m in ms ==> Sendable(m)
    ensures NextLength(Encode(ms)) == |ms[0]|
    ensures forall n :: PopBytes(Encode(ms), n) == (ms[0], Encode(ms[1..])) <==> n == NextLength(Encode(ms))
  {
    assert Sendable(ms[0]);
    HeadOf(Encode(ms), ms[0], Encode(ms[1..]));
  }

  // ---------------------------------------------------------------- whole runs

  /** A caller pushes, peeks, or takes the next message as rpc_bth_dsp.c does: peek the length, pop
      it. */
  datatype Op = PushOp(data: Message) | PeekOp | TakeOp

  datatype Reply = Pushed(ok: bool) | Peeked(length: nat) | Took(bytes: seq<Byte>)

  function RunBytes(s: seq<Byte>, capacity: nat, ops: seq<Op>): (seq<Byte>, seq<Reply>)
    requires |s| <= capacity
    decreases |ops|
  {
    if ops == [] then (s, [])
    else
      match ops[0]
      case PushOp(d) =>
        var (ok, s') := PushBytes(s, capacity, d);
        var (end, replies) := RunBytes(s', capacity, ops[1..]);
        (end, [Pushed(ok)] + replies)
      case PeekOp =>
        var (end, replies) := RunBytes(s, capacity, ops[1..]);
        (end, [Peeked(NextLength(s))] + replies)
      case TakeOp =>
        var (m, s') := PopBytes(s, NextLength(s));
        var (end, replies) := RunBytes(s', capacity, ops[1..]);
        (end, [Took(m)] + replies)
  }

  /** The specification: a bounded queue of messages, each charged two bytes for its length. */
  function RunMessages(ms: seq<Message>, capacity: nat, ops: seq<Op>): (seq<Message>, seq<Reply>)
    decreases |ops|
  {
    if ops == [] then (ms, [])
    else
      match ops[0]
      case PushOp(d) =>
        var ok := d != [] && |Encode(ms)| + HEADER_BYTES + |d| <= capacity;
        var (end, replies) := RunMessages(if ok then ms + [d] else ms, capacity, ops[1..]);
        (end, [Pushed(ok)] + replies)
      case PeekOp =>
        var (end, replies) := RunMessages(ms, capacity, ops[1..]);
        (end, [Peeked(if ms == [] then 0 else |ms[0]|)] + replies)
      case TakeOp =>
        var (end, replies) := RunMessages(if ms == [] then [] else ms[1..], capacity, ops[1..]);
        (end, [Took(if ms == [] then [] else ms[0])] + replies)
  }

  lemma PushStep(ms: seq<Message>, capacity: nat, d: Message)
    requires |Encode(ms)| <= capacity && |d| <= MAX_MESSAGE
    ensures var ok := d != [] && |Encode(ms)| + HEADER_BYTES + |d| <= capacity;
            && PushBytes(Encode(ms), capacity, d) == (ok, Encode(if ok then ms + [d] else ms))
            && |Encode(if ok then ms + [d] else ms)| <= capacity
  {
    EncodeAppend(ms, d);
  }

  lemma TakeStep(ms: seq<Message>)
    requires forall m :: m in ms ==> Sendable(m)
    ensures NextLength(Encode(ms)) == if ms == [] then 0 else |ms[0]|
    ensures PopBytes(Encode(ms), NextLength(Encode(ms))) ==
              if ms == [] then ([], Encode([])) else (ms[0], Encode(ms[1..]))
    ensures ms != [] ==> |Encode(ms[1..])| <= |Encode(ms)|
  {
    if ms != [] {
      PopTakesHead(ms);
    }
  }

  /** Every run of pushes, peeks and takes behaves as on a queue of messages. */
  lemma {:induction false} QueueRefinesFifo(ms: seq<Message>, capacity: nat, ops: seq<Op>)
    requires forall m :: m in ms ==> Sendable(m)
    requires |Encode(ms)| <= capacity
    requires forall op :: op in ops && op.PushOp? ==> |op.data| <= MAX_MESSAGE
    ensures var (end, replies) := RunMessages(ms, capacity, ops);
            && RunBytes(Encode(ms), capacity, ops) == (Encode(end), replies)
            && forall m :: m in end ==> Sendable(m)
    decreases |ops|
  {
    hide Encode, PushBytes, PopBytes, NextLength;
    if ops != [] {
      match ops[0]
      case PushOp(d) =>
        assert ops[0] in ops;
        PushStep(ms, capacity, d);
        var ok := d != [] && |Encode(ms)| + HEADER_BYTES + |d| <= capacity;
        QueueRefinesFifo(if ok then ms + [d] else ms, capacity, ops[1..]);
      case PeekOp =>
        TakeStep(ms);
        QueueRefinesFifo(ms, capacity, ops[1..]);
      case TakeOp =>
        TakeStep(ms);
        QueueRefinesFifo(if ms == [] then [] else ms[1..], capacity, ops[1..]);
    }
  }
}
