/** An mSBC stream over a lossy link (apps/audioplayers/plc_utils.c): which of the packets that arrive
pass, from what the link does alone.

Two things make the detector refuse an undamaged packet: its number, after a loss it did not see,
and its data, when that is the same as two arrivals before.
*/
module PacketLink {
  import opened PacketLoss
  import opened ScoPackets

  // ---------------------------------------------------------------- the link

  /** Packet `p` of the stream, undamaged. */
  ghost predicate Good(p: nat, a: Arrival, pattern: bv8)
    requires a.offset < PACKET_SIZE
  {
    && (exists payload :: a.pkt == Stamp(p, payload) && payload[..3] == [0xad, 0, 0])
    && a.crcMatches && !PartlyMuted(a.pkt, pattern, a.offset)
  }

  /** A packet that is stopped before the number check whatever came before it. */
  predicate Bad(a: Arrival, pattern: bv8)
    requires a.offset < PACKET_SIZE
  {
    !Audible(a, pattern) || ParseHeader(a.pkt, a.crcMatches).err != 0
  }

  /** A packet that gets as far as the number check unless it is taken for a conflict, and its number. */
  predicate Numbered(p: nat, a: Arrival, pattern: bv8)
    requires a.offset < PACKET_SIZE
  {
    !Bad(a, pattern) && Sn(a) == SeqNum(p)
  }

  /** What the link does to packet `p` of the stream. */
  datatype Event =
    | Deliver(a: Arrival)
    | Replace(a: Arrival)                  // something bad arrives in its place
    | Renumber(a: Arrival, d: nat)         // something arrives that carries the number of packet p - d
    | Delete

  predicate InRange(events: seq<Event>) {
    forall i :: 0 <= i < |events| && !events[i].Delete? ==> events[i].a.offset < PACKET_SIZE
  }

  /** The link from packet `p` of the stream on. */
  ghost predicate Link(p: nat, events: seq<Event>, pattern: bv8)
    requires InRange(events)
    decreases |events|
  {
    events == [] ||
    match events[0]
    case Deliver(a) => Good(p, a, pattern) && Link(p + 1, events[1..], pattern)
    case Replace(a) => Bad(a, pattern) && Link(p + 1, events[1..], pattern)
    case Renumber(a, d) => Numbered(p + 3 * d, a, pattern) && Link(p + 1, events[1..], pattern)
    case Delete => Link(p + 1, events[1..], pattern)
  }

  /** Whatever arrives is one of these. */
  lemma EveryArrivalIsAnEvent(p: nat, a: Arrival, pattern: bv8)
    requires a.offset < PACKET_SIZE
    ensures Bad(a, pattern) || exists d :: 0 <= d < 4 && Numbered(p + 3 * d, a, pattern)
  {
    if !Bad(a, pattern) {
      hide Muted, PartlyMuted, ParseHeader;
      ParsedIs(a.pkt, a.crcMatches);
      var k :| 0 <= k < 4 && ParseHeader(a.pkt, a.crcMatches) == Header(0, SeqNum(k));
      var d := (p + 4 - k) % 4;
      assert (p + 3 * d) % 4 == k % 4;
      assert SeqNum(p + 3 * d) == SeqNum(k);
      assert Numbered(p + 3 * d, a, pattern);
    }
  }

  /** Which arrivals pass. */
  function Passed(s: Pld, events: seq<Event>, pattern: bv8): seq<bool>
    requires InRange(events)
    decreases |events|
  {
    if events == [] then []
    else if events[0].Delete? then Passed(s, events[1..], pattern)
    else [Type(s, events[0].a, pattern) == Pass] + Passed(After(s, events[0].a, pattern), events[1..], pattern)
  }

  // ---------------------------------------------------------------- which packets pass

  /** How far the detector is behind the stream; nothing is expected after a loss. */
  datatype Track = Lost | Behind(drift: nat)

  /** Whether the number check lets through a packet numbered `d` less than the next of the stream. */
  predicate Meets(t: Track, d: nat) {
    t.Lost? || (t.drift + 3 * d) % 4 == 0
  }

  predicate InStep(t: Track) {
    Meets(t, 0)
  }

  /** The last two arrivals, and what the conflict check found for the last two it saw. */
  datatype Seen = Seen(older: Packet, newer: Packet, c0: bool, c1: bool)

  predicate Repeats(seen: Seen, pkt: Packet) {
    !seen.c1 && SameData(seen.older, pkt)
  }

  function Shown(seen: Seen, a: Arrival, pattern: bv8): Seen
    requires a.offset < PACKET_SIZE
  {
    if Audible(a, pattern) then Seen(seen.newer, a.pkt, Repeats(seen, a.pkt), seen.c0)
    else Seen(seen.newer, a.pkt, seen.c0, seen.c1)
  }

  /** Which arrivals pass, without the detector: one with a number if that is in step and the packet
      does not repeat the data of two arrivals before; after any refusal the number check starts
      afresh. */
  function Expected(t: Track, seen: Seen, events: seq<Event>, pattern: bv8): seq<bool>
    requires InRange(events)
    decreases |events|
  {
    if events == [] then []
    else
      match events[0]
      case Deliver(a) =>
        var pass := InStep(t) && !Repeats(seen, a.pkt);
        [pass] + Expected(if pass then Behind(0) else Lost, Shown(seen, a, pattern), events[1..], pattern)
      case Replace(a) => [false] + Expected(Lost, Shown(seen, a, pattern), events[1..], pattern)
      case Renumber(a, d) =>
        var pass := Meets(t, d) && !Repeats(seen, a.pkt);
        [pass] + Expected(if pass then Behind(d) else Lost, Shown(seen, a, pattern), events[1..], pattern)
      case Delete => Expected(if t.Lost? then Lost else Behind(t.drift + 1), seen, events[1..], pattern)
  }

  function SeenBy(s: Pld): Seen {
    Seen(s.older, s.newer, s.conflict0, s.conflict1)
  }

  predicate Tracks(s: Pld, t: Track, p: nat) {
    match t
    case Lost => s.last == NONE
    case Behind(drift) => s.last == SeqNum(p + 3 * (drift + 1))
  }

  lemma AfterShows(s: Pld, a: Arrival, pattern: bv8)
    requires a.offset < PACKET_SIZE
    ensures SeenBy(After(s, a, pattern)) == Shown(SeenBy(s), a, pattern)
  {
    hide Muted, PartlyMuted, Type, Bump, SameData;
  }

  lemma SameSeqNum(p: nat, q: nat, k: nat)
    requires q == p + 4 * k
    ensures SeqNum(q) == SeqNum(p)
  {
    assert q % 4 == p % 4;
  }

  lemma NumberedReaches(s: Pld, p: nat, a: Arrival, pattern: bv8)
    requires a.offset < PACKET_SIZE && Numbered(p, a, pattern)
    ensures Cause(s, a, pattern) == Pass <==> !Repeats(SeenBy(s), a.pkt)
  {
    hide Muted, PartlyMuted, ParseHeader, SameData;
  }

  lemma GoodIsNumbered(p: nat, a: Arrival, pattern: bv8)
    requires Pattern(pattern) && a.offset < PACKET_SIZE && Good(p, a, pattern)
    ensures Numbered(p, a, pattern)
  {
    var payload :| a.pkt == Stamp(p, payload) && payload[..3] == [0xad, 0, 0];
    assert a.pkt[0] == HEADER && a.pkt[1] == SEQ_BYTES[p % 4];
    assert payload[..3] == [a.pkt[2], a.pkt[3], a.pkt[4]];
    hide Stamp, Muted, PartlyMuted, ParseHeader;
    ParseInvertsStamp(a.pkt, a.crcMatches, p % 4);
    StampIsHeard(p, payload, a.pkt, pattern);
  }

  lemma BadStops(s: Pld, a: Arrival, pattern: bv8)
    requires a.offset < PACKET_SIZE && Bad(a, pattern)
    ensures Cause(s, a, pattern) != Pass
  {
    hide Muted, PartlyMuted, Conflicts, ParseHeader;
  }

  lemma ReplaceLoses(s: Pld, a: Arrival, p: nat, pattern: bv8)
    requires a.offset < PACKET_SIZE && Cause(s, a, pattern) != Pass
    ensures Type(s, a, pattern) != Pass && Tracks(After(s, a, pattern), Lost, p + 1)
  {
    hide Cause;
  }

  lemma DeleteMoves(s: Pld, t: Track, p: nat)
    requires Tracks(s, t, p)
    ensures Tracks(s, if t.Lost? then Lost else Behind(t.drift + 1), p + 1)
  {
    if t.Behind? {
      SameSeqNum(p + 3 * (t.drift + 1), p + 1 + 3 * (t.drift + 2), 1);
    }
  }

  /** What the number check does with the number of packet `p - d`. */
  lemma NumberKeepsTrack(s: Pld, t: Track, p: nat, d: nat, a: Arrival, pattern: bv8)
    requires Tracks(s, t, p) && a.offset < PACKET_SIZE
    requires Cause(s, a, pattern) == Pass && Sn(a) == SeqNum(p + 3 * d)
    ensures Type(s, a, pattern) == Pass <==> Meets(t, d)
    ensures Tracks(After(s, a, pattern), if Meets(t, d) then Behind(d) else Lost, p + 1)
  {
    hide Cause, SeqNum, NextNum, Sn, Bump, Conflicts, Audible;
    SameSeqNum(p + 3 * d, p + 1 + 3 * (d + 1), 1);
    if t.Behind? {
      var last := p + 3 * (t.drift + 1);
      NextNumCounts(last, p + 3 * d);
      SmallSeqNum(last);
      assert (p + 3 * d) % 4 == (last + 1) % 4 <==> (t.drift + 3 * d) % 4 == 0 by {
        DriftMeets(p, t.drift, d);
      }
    }
  }

  lemma SmallSeqNum(p: nat)
    ensures SeqNum(p) != NONE
  {
  }

  lemma DriftMeets(p: nat, drift: nat, d: nat)
    ensures (p + 3 * d) % 4 == (p + 3 * (drift + 1) + 1) % 4 <==> (drift + 3 * d) % 4 == 0
  {
  }

  lemma NumberedIsExpected(s: Pld, t: Track, p: nat, d: nat, a: Arrival, pattern: bv8)
    requires Tracks(s, t, p) && a.offset < PACKET_SIZE && Numbered(p + 3 * d, a, pattern)
    ensures var pass := Meets(t, d) && !Repeats(SeenBy(s), a.pkt);
            && (Type(s, a, pattern) == Pass <==> pass)
            && Tracks(After(s, a, pattern), if pass then Behind(d) else Lost, p + 1)
  {
    hide Tracks, Cause, Type, After, Meets, Bad, Repeats;
    NumberedReaches(s, p + 3 * d, a, pattern);
    if Repeats(SeenBy(s), a.pkt) {
      ReplaceLoses(s, a, p, pattern);
    } else {
      NumberKeepsTrack(s, t, p, d, a, pattern);
    }
  }

  lemma DeliverIsExpected(s: Pld, t: Track, p: nat, a: Arrival, pattern: bv8)
    requires Pattern(pattern) && Tracks(s, t, p) && a.offset < PACKET_SIZE && Good(p, a, pattern)
    ensures var pass := InStep(t) && !Repeats(SeenBy(s), a.pkt);
            && (Type(s, a, pattern) == Pass <==> pass)
            && Tracks(After(s, a, pattern), if pass then Behind(0) else Lost, p + 1)
  {
    hide Tracks, Cause, Type, After, Good, Numbered, Meets, Repeats;
    GoodIsNumbered(p, a, pattern);
    NumberedIsExpected(s, t, p, 0, a, pattern);
  }

  /** Over every behaviour of the link and from any state, exactly the expected packets pass. */
  lemma {:induction false} PassesExactly(s: Pld, t: Track, p: nat, events: seq<Event>, pattern: bv8)
    requires Pattern(pattern) && Tracks(s, t, p)
    requires InRange(events) && Link(p, events, pattern)
    ensures Passed(s, events, pattern) == Expected(t, SeenBy(s), events, pattern)
    decreases |events|
  {
    hide Tracks, Cause, Type, After, Good, Bad, Numbered, Repeats, Shown, SeenBy, Meets;
    if events != [] {
      var rest := events[1..];
      match events[0]
      case Deliver(a) =>
        DeliverIsExpected(s, t, p, a, pattern);
        AfterShows(s, a, pattern);
        var pass := InStep(t) && !Repeats(SeenBy(s), a.pkt);
        PassesExactly(After(s, a, pattern), if pass then Behind(0) else Lost, p + 1, rest, pattern);
      case Replace(a) =>
        BadStops(s, a, pattern);
        ReplaceLoses(s, a, p, pattern);
        AfterShows(s, a, pattern);
        PassesExactly(After(s, a, pattern), Lost, p + 1, rest, pattern);
      case Renumber(a, d) =>
        NumberedIsExpected(s, t, p, d, a, pattern);
        AfterShows(s, a, pattern);
        var pass := Meets(t, d) && !Repeats(SeenBy(s), a.pkt);
        PassesExactly(After(s, a, pattern), if pass then Behind(d) else Lost, p + 1, rest, pattern);
      case Delete =>
        DeleteMoves(s, t, p);
        PassesExactly(s, if t.Lost? then Lost else Behind(t.drift + 1), p + 1, rest, pattern);
    }
  }

  // ---------------------------------------------------------------- without repetitions

  /** No undamaged packet repeats the data of two arrivals before. */
  predicate NoRepeats(older: Packet, newer: Packet, events: seq<Event>)
    decreases |events|
  {
    events == [] ||
    match events[0]
    case Deliver(a) => !SameData(older, a.pkt) && NoRepeats(newer, a.pkt, events[1..])
    case Replace(a) => NoRepeats(newer, a.pkt, events[1..])
    case Renumber(a, _) => !SameData(older, a.pkt) && NoRepeats(newer, a.pkt, events[1..])
    case Delete => NoRepeats(older, newer, events[1..])
  }

  /** What the number check alone lets through. */
  function ByNumber(t: Track, events: seq<Event>): seq<bool>
    decreases |events|
  {
    if events == [] then []
    else
      match events[0]
      case Deliver(_) => [InStep(t)] + ByNumber(if InStep(t) then Behind(0) else Lost, events[1..])
      case Replace(_) => [false] + ByNumber(Lost, events[1..])
      case Renumber(_, d) => [Meets(t, d)] + ByNumber(if Meets(t, d) then Behind(d) else Lost, events[1..])
      case Delete => ByNumber(if t.Lost? then Lost else Behind(t.drift + 1), events[1..])
  }

  /** Then the numbers decide alone. */
  lemma {:induction false} NumbersDecide(t: Track, seen: Seen, events: seq<Event>, pattern: bv8)
    requires InRange(events) && NoRepeats(seen.older, seen.newer, events)
    ensures Expected(t, seen, events, pattern) == ByNumber(t, events)
    decreases |events|
  {
    hide SameData, Audible, Meets;
    if events != [] {
      var rest := events[1..];
      match events[0]
      case Deliver(a) =>
        NumbersDecide(if InStep(t) then Behind(0) else Lost, Shown(seen, a, pattern), rest, pattern);
      case Replace(a) => NumbersDecide(Lost, Shown(seen, a, pattern), rest, pattern);
      case Renumber(a, d) =>
        NumbersDecide(if Meets(t, d) then Behind(d) else Lost, Shown(seen, a, pattern), rest, pattern);
      case Delete => NumbersDecide(if t.Lost? then Lost else Behind(t.drift + 1), seen, rest, pattern);
    }
  }

  // ---------------------------------------------------------------- without deletions

  /** No undamaged packet numbered `p` can have the data of `x`. */
  predicate Unlike(x: Packet, p: nat) {
    !(x[0] == HEADER && x[1] == SEQ_BYTES[p % 4] && x[2] == 0xad && x[3] == 0 && x[4] == 0)
  }

  /** A packet that cannot be mistaken for any of the stream's, whatever its check sum. */
  predicate Foreign(a: Arrival, pattern: bv8) {
    Muted(a.pkt, pattern) || ParseHeader(a.pkt, true).err != 0
  }

  ghost predicate Undeleted(p: nat, events: seq<Event>, pattern: bv8)
    requires InRange(events)
    decreases |events|
  {
    events == [] ||
    match events[0]
    case Deliver(a) => Good(p, a, pattern) && Undeleted(p + 1, events[1..], pattern)
    case Replace(a) => Foreign(a, pattern) && Undeleted(p + 1, events[1..], pattern)
    case _ => false
  }

  lemma UnlikeIsEnough(x: Packet, p: nat, a: Arrival, pattern: bv8)
    requires a.offset < PACKET_SIZE && Unlike(x, p) && Good(p, a, pattern)
    ensures !SameData(x, a.pkt)
  {
    var payload :| a.pkt == Stamp(p, payload) && payload[..3] == [0xad, 0, 0];
    assert payload[..3] == [a.pkt[2], a.pkt[3], a.pkt[4]];
  }

  /** Packets two apart carry different numbers. */
  lemma GoodIsUnlike(p: nat, a: Arrival, pattern: bv8)
    requires a.offset < PACKET_SIZE && Good(p, a, pattern)
    ensures Unlike(a.pkt, p + 2)
  {
    var payload :| a.pkt == Stamp(p, payload) && payload[..3] == [0xad, 0, 0];
    assert a.pkt[1] == SEQ_BYTES[p % 4];
    TwoApart(p);
  }

  lemma TwoApart(p: nat)
    ensures SEQ_BYTES[p % 4] != SEQ_BYTES[(p + 2) % 4]
  {
    NextMod(p);
    NextMod(p + 1);
  }

  lemma ForeignIsUnlike(a: Arrival, p: nat, pattern: bv8)
    requires Pattern(pattern) && a.offset < PACKET_SIZE && Foreign(a, pattern)
    ensures Unlike(a.pkt, p) && Bad(a, pattern)
  {
    hide PartlyMuted, ParseHeader;
    ParseInvertsStamp(a.pkt, true, p % 4);
    if Muted(a.pkt, pattern) {
      assert a.pkt[0] == pattern;
    } else {
      CheckSumHelpsNobody(a.pkt, a.crcMatches);
    }
  }

  lemma CheckSumHelpsNobody(pkt: Packet, crcMatches: bool)
    requires ParseHeader(pkt, true).err != 0
    ensures ParseHeader(pkt, crcMatches).err != 0
  {
  }

  /** Without deletions no undamaged packet ever looks like a conflict. */
  lemma {:induction false} UndeletedHasNoConflicts(older: Packet, newer: Packet, p: nat, events: seq<Event>,
                                                   pattern: bv8)
    requires Pattern(pattern) && InRange(events) && Undeleted(p, events, pattern)
    requires Unlike(older, p) && Unlike(newer, p + 1)
    ensures NoRepeats(older, newer, events) && Link(p, events, pattern)
    decreases |events|
  {
    hide Good, Bad, Foreign, Unlike, SameData;
    if events != [] {
      match events[0]
      case Deliver(a) =>
        UnlikeIsEnough(older, p, a, pattern);
        GoodIsUnlike(p, a, pattern);
        UndeletedHasNoConflicts(newer, a.pkt, p + 1, events[1..], pattern);
      case Replace(a) =>
        ForeignIsUnlike(a, p + 2, pattern);
        UndeletedHasNoConflicts(newer, a.pkt, p + 1, events[1..], pattern);
      case _ =>
    }
  }

  lemma {:induction false} ByNumberUndeleted(t: Track, p: nat, events: seq<Event>, pattern: bv8, i: nat)
    requires InStep(t) && InRange(events) && Undeleted(p, events, pattern) && i < |events|
    ensures |ByNumber(t, events)| == |events| && ByNumber(t, events)[i] == events[i].Deliver?
    decreases |events|
  {
    hide Good, Foreign;
    var rest := events[1..];
    if rest != [] {
      ByNumberUndeleted(if events[0].Deliver? then Behind(0) else Lost, p + 1, rest, pattern,
                        if i == 0 then 0 else i - 1);
    }
  }

  /** In step, with foreign packets in the place of any others but none missing, exactly the stream's
      own packets pass. */
  lemma UndeletedIsExpected(t: Track, seen: Seen, p: nat, events: seq<Event>, pattern: bv8, i: nat)
    requires Pattern(pattern) && InStep(t) && Unlike(seen.older, p) && Unlike(seen.newer, p + 1)
    requires InRange(events) && Undeleted(p, events, pattern) && i < |events|
    ensures |Expected(t, seen, events, pattern)| == |events|
    ensures Expected(t, seen, events, pattern)[i] == events[i].Deliver?
  {
    hide *;
    UndeletedHasNoConflicts(seen.older, seen.newer, p, events, pattern);
    NumbersDecide(t, seen, events, pattern);
    ByNumberUndeleted(t, p, events, pattern, i);
  }

  /** So it is from power-on. */
  lemma UndeletedStreamPasses(p: nat, events: seq<Event>, pattern: bv8, i: nat)
    requires Pattern(pattern) && InRange(events) && Undeleted(p, events, pattern) && i < |events|
    ensures |Passed(FRESH, events, pattern)| == |events|
    ensures Passed(FRESH, events, pattern)[i] == events[i].Deliver?
  {
    hide Link, Undeleted, Passed, Expected;
    UndeletedHasNoConflicts(ZERO, ZERO, p, events, pattern);
    PassesExactly(FRESH, Lost, p, events, pattern);
    UndeletedIsExpected(Lost, SeenBy(FRESH), p, events, pattern, i);
  }

  // ---------------------------------------------------------------- deletions from a constant stream

  /** Undamaged packets `q`, `q + 1`, ... of a stream whose payload never changes, as in silence. */
  ghost predicate Constant(q: nat, x: Payload, as_: seq<Arrival>, pattern: bv8) {
    forall i :: 0 <= i < |as_| ==>
      as_[i].offset < PACKET_SIZE && Good(q + i, as_[i], pattern) && as_[i].pkt == Stamp(q + i, x)
  }

  function Deliveries(as_: seq<Arrival>): (events: seq<Event>)
    ensures |events| == |as_| && forall i :: 0 <= i < |as_| ==> events[i] == Deliver(as_[i])
  {
    seq(|as_|, i requires 0 <= i < |as_| => Deliver(as_[i]))
  }

  lemma {:induction false} ConstantIsUndeleted(q: nat, x: Payload, as_: seq<Arrival>, pattern: bv8)
    requires Constant(q, x, as_, pattern)
    ensures InRange(Deliveries(as_)) && Undeleted(q, Deliveries(as_), pattern) && Link(q, Deliveries(as_), pattern)
    decreases |as_|
  {
    hide Good, Stamp;
    if as_ != [] {
      ConstantIsUndeleted(q + 1, x, as_[1..], pattern);
      assert Deliveries(as_)[1..] == Deliveries(as_[1..]);
    }
  }

  /** What a gap of `k` packets costs in good ones. */
  function GapCost(k: nat): nat {
    match k % 4
    case 0 => 0
    case 2 => 2
    case _ => 1
  }

  /** `flags` are false up to `n` and true from there on. */
  predicate FalseBefore(flags: seq<bool>, n: nat) {
    forall i :: 0 <= i < |flags| ==> (flags[i] <==> i >= n)
  }

  lemma FalseThen(flags: seq<bool>, n: nat)
    requires FalseBefore(flags, n)
    ensures FalseBefore([false] + flags, n + 1)
  {
  }

  lemma NumbersDiffer(x: Payload, p: nat, q: nat)
    requires p % 4 != q % 4
    ensures Unlike(Stamp(p, x), q)
  {
  }

  lemma NumbersAgree(x: Payload, p: nat, q: nat)
    requires p % 4 == q % 4
    ensures Stamp(p, x) == Stamp(q, x)
  {
  }

  /** From here on nothing is lost. */
  lemma Recovered(t: Track, seen: Seen, q: nat, x: Payload, as_: seq<Arrival>, pattern: bv8)
    requires Pattern(pattern) && Constant(q, x, as_, pattern) && InRange(Deliveries(as_)) && InStep(t)
    requires Unlike(seen.older, q) && Unlike(seen.newer, q + 1)
    ensures var flags := Expected(t, seen, Deliveries(as_), pattern);
            |flags| == |as_| && FalseBefore(flags, 0)
  {
    hide Good, Unlike, Constant, Expected;
    ConstantIsUndeleted(q, x, as_, pattern);
    var events := Deliveries(as_);
    forall i | 0 <= i < |as_|
      ensures |Expected(t, seen, events, pattern)| == |as_| && Expected(t, seen, events, pattern)[i]
    {
      UndeletedIsExpected(t, seen, q, events, pattern, i);
    }
    if as_ == [] {
      assert Expected(t, seen, [], pattern) == [] by { NothingExpected(t, seen, pattern); }
      assert events == [];
    } else {
      UndeletedIsExpected(t, seen, q, events, pattern, 0);
    }
  }

  lemma NothingExpected(t: Track, seen: Seen, pattern: bv8)
    ensures Expected(t, seen, [], pattern) == []
  {
  }

  lemma ExpectedCons(t: Track, seen: Seen, a: Arrival, as_: seq<Arrival>, pattern: bv8)
    requires a.offset < PACKET_SIZE && InRange(Deliveries(as_)) && InRange(Deliveries([a] + as_))
    ensures var pass := InStep(t) && !Repeats(seen, a.pkt);
            Expected(t, seen, Deliveries([a] + as_), pattern)
            == [pass] + Expected(if pass then Behind(0) else Lost, Shown(seen, a, pattern), Deliveries(as_), pattern)
  {
    assert Deliveries([a] + as_)[1..] == Deliveries(as_);
  }

  /** What an undamaged packet leaves behind. */
  lemma GoodIsShown(q: nat, seen: Seen, a: Arrival, pattern: bv8)
    requires Pattern(pattern) && a.offset < PACKET_SIZE && Good(q, a, pattern)
    ensures Shown(seen, a, pattern) == Seen(seen.newer, a.pkt, Repeats(seen, a.pkt), seen.c0)
  {
    hide Stamp, PartlyMuted, Repeats;
    var payload :| a.pkt == Stamp(q, payload) && payload[..3] == [0xad, 0, 0];
    StampIsHeard(q, payload, a.pkt, pattern);
  }

  lemma StampIsHeard(q: nat, payload: Payload, pkt: Packet, pattern: bv8)
    requires Pattern(pattern) && pkt == Stamp(q, payload)
    ensures !Muted(pkt, pattern)
  {
    assert pkt[0] == HEADER;
  }

  lemma ConstantCons(q: nat, x: Payload, as_: seq<Arrival>, pattern: bv8)
    requires Constant(q, x, as_, pattern) && as_ != []
    ensures as_[0].offset < PACKET_SIZE && Good(q, as_[0], pattern) && as_[0].pkt == Stamp(q, x)
    ensures Constant(q + 1, x, as_[1..], pattern) && as_ == [as_[0]] + as_[1..]
    ensures InRange(Deliveries(as_)) && InRange(Deliveries(as_[1..]))
  {
    hide Good, Stamp;
  }

  /** An undamaged packet that is refused, then whatever comes. */
  lemma RefusedCons(t: Track, seen: Seen, q: nat, x: Payload, as_: seq<Arrival>, pattern: bv8, n: nat)
    requires Pattern(pattern) && Constant(q, x, as_, pattern) && InRange(Deliveries(as_)) && as_ != []
    requires !InStep(t) || Repeats(seen, Stamp(q, x))
    requires InRange(Deliveries(as_[1..]))
    requires var seen' := Seen(seen.newer, Stamp(q, x), Repeats(seen, Stamp(q, x)), seen.c0);
             var flags := Expected(Lost, seen', Deliveries(as_[1..]), pattern);
             |flags| == |as_| - 1 && FalseBefore(flags, n)
    ensures var flags := Expected(t, seen, Deliveries(as_), pattern);
            |flags| == |as_| && FalseBefore(flags, n + 1)
  {
    hide Good, Stamp, Constant, Expected, Repeats, Shown, InStep, FalseBefore;
    ConstantCons(q, x, as_, pattern);
    GoodIsShown(q, seen, as_[0], pattern);
    ExpectedCons(t, seen, as_[0], as_[1..], pattern);
    FalseThen(Expected(Lost, Shown(seen, as_[0], pattern), Deliveries(as_[1..]), pattern), n);
  }

  lemma NothingArrives(t: Track, seen: Seen, n: nat, pattern: bv8)
    ensures Expected(t, seen, Deliveries([]), pattern) == [] && FalseBefore([], n)
  {
    assert Deliveries([]) == [];
  }

  /** Packets `p` and `p + 1` have passed and `k` more are missing, `k` odd: the next is out of step. */
  lemma AfterOddGap(p: nat, k: nat, x: Payload, as_: seq<Arrival>, pattern: bv8)
    requires Pattern(pattern) && Constant(p + 2 + k, x, as_, pattern) && InRange(Deliveries(as_))
    requires k % 4 == 1 || k % 4 == 3
    ensures var seen := Seen(Stamp(p, x), Stamp(p + 1, x), false, false);
            var flags := Expected(Behind(k), seen, Deliveries(as_), pattern);
            |flags| == |as_| && FalseBefore(flags, 1)
  {
    hide *;
    var q, seen := p + 2 + k, Seen(Stamp(p, x), Stamp(p + 1, x), false, false);
    if as_ == [] {
      NothingArrives(Behind(k), seen, 1, pattern);
    } else {
      OddGapIsOutOfStep(x, p, k);
      ConstantCons(q, x, as_, pattern);
      GoodIsUnlike(q, as_[0], pattern);
      var seen' := Seen(Stamp(p + 1, x), Stamp(q, x), Repeats(seen, Stamp(q, x)), false);
      LostIsInStep();
      Recovered(Lost, seen', q + 1, x, as_[1..], pattern);
      RefusedCons(Behind(k), seen, q, x, as_, pattern, 0);
    }
  }

  lemma OddGapIsOutOfStep(x: Payload, p: nat, k: nat)
    requires k % 4 == 1 || k % 4 == 3
    ensures !InStep(Behind(k)) && Unlike(Stamp(p + 1, x), p + 2 + k + 1)
  {
    GapNumbers(p, k);
    hide Stamp, Unlike;
    NumbersDiffer(x, p + 1, p + 2 + k + 1);
  }

  lemma LostIsInStep()
    ensures InStep(Lost)
  {
  }

  /** Two more than a multiple of four: the next two repeat what was heard last. */
  lemma AfterGapOfTwo(p: nat, k: nat, x: Payload, as_: seq<Arrival>, pattern: bv8)
    requires Pattern(pattern) && Constant(p + 2 + k, x, as_, pattern) && InRange(Deliveries(as_))
    requires k % 4 == 2
    ensures var seen := Seen(Stamp(p, x), Stamp(p + 1, x), false, false);
            var flags := Expected(Behind(k), seen, Deliveries(as_), pattern);
            |flags| == |as_| && FalseBefore(flags, 2)
  {
    var q, seen := p + 2 + k, Seen(Stamp(p, x), Stamp(p + 1, x), false, false);
    if as_ == [] {
      NothingArrives(Behind(k), seen, 2, pattern);
    } else {
      GapNumbers(p, k);
      NumbersAgree(x, p, q);
      NumbersAgree(x, p + 1, q + 1);
      var seen' := Seen(Stamp(p + 1, x), Stamp(q, x), true, false);
      assert Repeats(seen, Stamp(q, x));
      hide Stamp, Constant, Expected, Unlike, InStep, FalseBefore;
      ConstantCons(q, x, as_, pattern);
      GoodIsUnlike(q, as_[0], pattern);
      RepeatedAgain(p, q, seen', x, as_, pattern);
      RefusedCons(Behind(k), seen, q, x, as_, pattern, 1);
    }
  }

  lemma RepeatedAgain(p: nat, q: nat, seen: Seen, x: Payload, as_: seq<Arrival>, pattern: bv8)
    requires Pattern(pattern) && Stamp(p + 1, x) == Stamp(q + 1, x) && as_ != []
    requires Constant(q, x, as_, pattern) && InRange(Deliveries(as_[1..]))
    requires seen == Seen(Stamp(p + 1, x), Stamp(q, x), true, false)
    ensures var flags := Expected(Lost, seen, Deliveries(as_[1..]), pattern);
            |flags| == |as_| - 1 && FalseBefore(flags, 1)
  {
    var more := as_[1..];
    if more == [] {
      NothingArrives(Lost, seen, 1, pattern);
    } else {
      assert Repeats(seen, Stamp(q + 1, x));
      assert InStep(Lost);
      hide Stamp, Constant, Expected, Unlike, FalseBefore, InStep, Repeats;
      ConstantCons(q, x, as_, pattern);
      ConstantCons(q + 1, x, more, pattern);
      GoodIsUnlike(q, as_[0], pattern);
      GoodIsUnlike(q + 1, more[0], pattern);
      Recovered(Lost, Seen(Stamp(q, x), Stamp(q + 1, x), true, true), q + 2, x, more[1..], pattern);
      RefusedCons(Lost, seen, q + 1, x, more, pattern, 0);
    }
  }

  lemma AfterGap(p: nat, k: nat, x: Payload, as_: seq<Arrival>, pattern: bv8)
    requires Pattern(pattern) && Constant(p + 2 + k, x, as_, pattern) && InRange(Deliveries(as_))
    ensures var seen := Seen(Stamp(p, x), Stamp(p + 1, x), false, false);
            var flags := Expected(Behind(k), seen, Deliveries(as_), pattern);
            |flags| == |as_| && FalseBefore(flags, GapCost(k))
  {
    hide Stamp, Constant, Expected, Unlike, FalseBefore;
    if k % 4 == 0 {
      GapNumbers(p, k);
      NumbersDiffer(x, p, p + 2 + k);
      NumbersDiffer(x, p + 1, p + 3 + k);
      Recovered(Behind(k), Seen(Stamp(p, x), Stamp(p + 1, x), false, false), p + 2 + k, x, as_, pattern);
    } else if k % 4 == 2 {
      AfterGapOfTwo(p, k, x, as_, pattern);
    } else {
      AfterOddGap(p, k, x, as_, pattern);
    }
  }

  lemma GapNumbers(p: nat, k: nat)
    ensures k % 4 == 2 <==> (p + 2 + k) % 4 == p % 4
    ensures k % 4 == 2 <==> (p + 3 + k) % 4 == (p + 1) % 4
  {
    SameNumber(p, k + 2);
    SameNumber(p + 1, k + 2);
  }

  lemma SameNumber(p: nat, d: nat)
    ensures (p + d) % 4 == p % 4 <==> d % 4 == 0
  {
  }

  lemma OnePassed(s: Pld, t: Track, p: nat, a: Arrival, pattern: bv8)
    requires Pattern(pattern) && Tracks(s, t, p) && a.offset < PACKET_SIZE && Good(p, a, pattern)
    requires Type(s, a, pattern) == Pass
    ensures var e := After(s, a, pattern);
            && Tracks(e, Behind(0), p + 1)
            && SeenBy(e) == Seen(SeenBy(s).newer, a.pkt, false, SeenBy(s).c0)
  {
    hide Good, Type, After, Tracks, Repeats, Shown, SeenBy, InStep;
    DeliverIsExpected(s, t, p, a, pattern);
    AfterShows(s, a, pattern);
    GoodIsShown(p, SeenBy(s), a, pattern);
  }

  /** After two packets of a constant stream that passed, what the detector remembers. */
  lemma TwoPassed(s: Pld, t: Track, p: nat, x: Payload, a: Arrival, b: Arrival, pattern: bv8)
    requires Pattern(pattern) && Tracks(s, t, p) && Constant(p, x, [a, b], pattern)
    requires a.offset < PACKET_SIZE && b.offset < PACKET_SIZE
    requires Type(s, a, pattern) == Pass && Type(After(s, a, pattern), b, pattern) == Pass
    ensures var e := After(After(s, a, pattern), b, pattern);
            && SeenBy(e) == Seen(Stamp(p, x), Stamp(p + 1, x), false, false)
            && Tracks(e, Behind(0), p + 2)
  {
    hide *;
    ConstantPair(p, x, a, b, pattern);
    var s1 := After(s, a, pattern);
    OnePassed(s, t, p, a, pattern);
    OnePassed(s1, Behind(0), p + 1, b, pattern);
  }

  lemma ConstantPair(p: nat, x: Payload, a: Arrival, b: Arrival, pattern: bv8)
    requires Constant(p, x, [a, b], pattern)
    ensures a.offset < PACKET_SIZE && Good(p, a, pattern) && a.pkt == Stamp(p, x)
    ensures b.offset < PACKET_SIZE && Good(p + 1, b, pattern) && b.pkt == Stamp(p + 1, x)
  {
    hide Good, Stamp;
    assert [a, b][0] == a && [a, b][1] == b;
  }

  lemma Deletions(s: Pld, p: nat, k: nat)
    requires Tracks(s, Behind(0), p)
    ensures Tracks(s, Behind(k), p + k)
  {
    SameSeqNum(p + 3, p + k + 3 * (k + 1), k);
  }

  /** The exact cost of a gap in a constant stream: when two of its packets have passed, and `k` have
      then vanished, the next `GapCost(k)` undamaged packets are refused and all after them pass. */
  lemma GapCostsExactly(s: Pld, t: Track, p: nat, k: nat, x: Payload, a: Arrival, b: Arrival, as_: seq<Arrival>,
                        pattern: bv8)
    requires Pattern(pattern) && Tracks(s, t, p) && Constant(p, x, [a, b], pattern)
    requires a.offset < PACKET_SIZE && b.offset < PACKET_SIZE
    requires Type(s, a, pattern) == Pass && Type(After(s, a, pattern), b, pattern) == Pass
    requires Constant(p + 2 + k, x, as_, pattern) && InRange(Deliveries(as_))
    ensures var flags := Passed(After(After(s, a, pattern), b, pattern), Deliveries(as_), pattern);
            |flags| == |as_| && FalseBefore(flags, GapCost(k))
  {
    hide Good, Stamp, Type, After, Tracks, SeenBy, Constant, Expected, Passed, Link, FalseBefore, GapCost, InRange;
    TwoPassed(s, t, p, x, a, b, pattern);
    Deletions(After(After(s, a, pattern), b, pattern), p + 2, k);
    ConstantIsUndeleted(p + 2 + k, x, as_, pattern);
    PassesExactly(After(After(s, a, pattern), b, pattern), Behind(k), p + 2 + k, Deliveries(as_), pattern);
    AfterGap(p, k, x, as_, pattern);
  }

  /** From power-on: packets 0 and 1 of silence pass, 2 and 3 vanish, and 4 and 5, which arrive
      undamaged, are refused although only one gap lies behind them. */
  lemma SilentGapOfTwoCostsTwo(x: Payload, a: Arrival, b: Arrival, as_: seq<Arrival>, pattern: bv8)
    requires Pattern(pattern) && a.offset < PACKET_SIZE && b.offset < PACKET_SIZE
    requires Constant(0, x, [a, b], pattern) && Constant(4, x, as_, pattern) && InRange(Deliveries(as_))
    ensures Type(FRESH, a, pattern) == Pass && Type(After(FRESH, a, pattern), b, pattern) == Pass
    ensures var flags := Passed(After(After(FRESH, a, pattern), b, pattern), Deliveries(as_), pattern);
            |flags| == |as_| && forall i :: 0 <= i < |as_| ==> (flags[i] <==> i >= 2)
  {
    FirstTwoPass(x, a, b, pattern);
    assert Tracks(FRESH, Lost, 0) && GapCost(2) == 2;
    hide Good, Stamp, Type, After, Tracks, Constant, Passed;
    GapCostsExactly(FRESH, Lost, 0, 2, x, a, b, as_, pattern);
  }

  lemma FirstTwoPass(x: Payload, a: Arrival, b: Arrival, pattern: bv8)
    requires Pattern(pattern) && a.offset < PACKET_SIZE && b.offset < PACKET_SIZE
    requires Constant(0, x, [a, b], pattern)
    ensures Type(FRESH, a, pattern) == Pass && Type(After(FRESH, a, pattern), b, pattern) == Pass
  {
    assert [a, b][0] == a && [a, b][1] == b;
    assert Unlike(ZERO, 0) && Unlike(ZERO, 1) && Tracks(FRESH, Lost, 0);
    hide Good, Stamp, Type, After, Tracks, Unlike, SameData;
    UnlikeIsEnough(ZERO, 0, a, pattern);
    UnlikeIsEnough(ZERO, 1, b, pattern);
    DeliverIsExpected(FRESH, Lost, 0, a, pattern);
    AfterShows(FRESH, a, pattern);
    assert SeenBy(After(FRESH, a, pattern)).older == ZERO;
    DeliverIsExpected(After(FRESH, a, pattern), Behind(0), 1, b, pattern);
  }
}
