/** Loss tracking of the configurable SCO codec: apps/audioplayers/bt_sco_codec_xxxx.c.

The decoder locks on to the packet numbers it hears and flags a packet for concealment when it is
muted, mis-framed or out of sequence.
*/
module XxxxCodec {
  import opened ScoPackets

  const INVALID := 0xff

  datatype Histogram = Histogram(total: nat, mute: nat, parser: nat, seqErrors: nat)

  /** `awaited` is `g_decoder_seq_index`: the number the next packet should carry, or INVALID. */
  datatype Decoder = Decoder(awaited: nat, hist: Histogram)

  const START := Decoder(INVALID, Histogram(0, 0, 0, 0))

  predicate Usable(d: Decoder) {
    d.awaited < 4 || d.awaited == INVALID
  }

  predicate Misframed(pkt: Packet) {
    pkt[0] != HEADER || pkt[59] != PADDING
  }

  /** The sequence number a header byte stands for. */
  function PacketIndex(b: bv8): (index: nat)
    ensures if b in SEQ_BYTES then index < 4 && SEQ_BYTES[index] == b else index == INVALID
  {
    if b == SEQ_BYTES[0] then 0 else if b == SEQ_BYTES[1] then 1
    else if b == SEQ_BYTES[2] then 2 else if b == SEQ_BYTES[3] then 3 else INVALID
  }

  function Advanced(awaited: nat): (r: nat)
    requires awaited < 4 || awaited == INVALID
    ensures r < 4 || r == INVALID
  {
    if awaited == INVALID then INVALID else (awaited + 1) % 4
  }

  datatype Verdict = Verdict(decoder: Decoder, plc: bool)

  /** One round of the decoder's packet loop. */
  function Judge(d: Decoder, pkt: Packet, pattern: bv8): (v: Verdict)
    requires Usable(d)
    ensures Usable(v.decoder)
  {
    var h := d.hist.(total := d.hist.total + 1);
    var index := PacketIndex(pkt[1]);
    if Muted(pkt, pattern) then Verdict(Decoder(Advanced(d.awaited), h.(mute := h.mute + 1)), true)
    else if Misframed(pkt) then Verdict(Decoder(Advanced(d.awaited), h.(parser := h.parser + 1)), true)
    else if d.awaited == INVALID && index != INVALID then Verdict(Decoder(Advanced(index), h), false)
    else if d.awaited == INVALID || d.awaited != index then
      Verdict(Decoder(Advanced(if index < 4 then index else d.awaited), h.(seqErrors := h.seqErrors + 1)), true)
    else Verdict(Decoder(Advanced(d.awaited), h), false)
  }

  datatype Run = Run(decoder: Decoder, plc: seq<bool>)

  function JudgeAll(d: Decoder, pkts: seq<Packet>, pattern: bv8): (r: Run)
    requires Usable(d)
    ensures Usable(r.decoder) && |r.plc| == |pkts|
    decreases |pkts|
  {
    if pkts == [] then Run(d, [])
    else
      var v := Judge(d, pkts[0], pattern);
      var r := JudgeAll(v.decoder, pkts[1..], pattern);
      Run(r.decoder, [v.plc] + r.plc)
  }

  // ---------------------------------------------------------------- the code

  class Receiver {
    const pattern: bv8
    var seqIndex: nat
    var total: nat
    var btMute: nat
    var parser: nat
    var seqErrors: nat

    ghost predicate Valid()
      reads this
    {
      seqIndex < 4 || seqIndex == INVALID
    }

    ghost function View(): (d: Decoder)
      requires Valid()
      reads this
      ensures Usable(d)
    {
      Decoder(seqIndex, Histogram(total, btMute, parser, seqErrors))
    }

    constructor (pattern: bv8)
      ensures Valid() && View() == START && this.pattern == pattern
    {
      this.pattern := pattern;
      seqIndex := INVALID;
      total, btMute, parser, seqErrors := 0, 0, 0, 0;
    }

    /** `bt_sco_codec_xxxx_decoder`; `plc` tells which packets are concealed instead of decoded. */
    method Decode(buf: seq<bv8>) returns (plc: seq<bool>)
      requires Valid()
      modifies this
      ensures Valid()
      ensures Run(View(), plc) == JudgeAll(old(View()), Packets(buf, |buf| / PACKET_SIZE), pattern)
    {
      plc := [];
      ghost var d := View();
      for i := 0 to |buf| / PACKET_SIZE
        invariant Valid()
        invariant Run(View(), plc) == JudgeAll(d, Packets(buf, i), pattern)
      {
        hide Judge, JudgeAll;
        PacketFits(|buf|, i);
        var pkt: Packet := buf[PACKET_SIZE * i..PACKET_SIZE * (i + 1)];
        var flag := Receive(pkt);
        JudgeSnoc(d, Packets(buf, i), pkt, pattern);
        plc := plc + [flag];
      }
    }

    method Receive(pkt: Packet) returns (plc: bool)
      requires Valid()
      modifies this
      ensures Valid()
      ensures Verdict(View(), plc) == Judge(old(View()), pkt, pattern)
    {
      var mute := CheckControllerMutePattern(pkt, pattern);
      if mute {
        btMute := btMute + 1;
        plc := true;
      } else if pkt[0] != HEADER || pkt[59] != PADDING {
        parser := parser + 1;
        plc := true;
      } else {
        var index := GetPacketIndex(pkt[1]);
        if seqIndex == INVALID {
          if index == INVALID {
            seqErrors := seqErrors + 1;
            plc := true;
          } else {
            seqIndex := index;
            plc := false;
          }
        } else if seqIndex != index {
          seqErrors := seqErrors + 1;
          if index < 4 {
            seqIndex := index;
          }
          plc := true;
        } else {
          plc := false;
        }
      }
      total := total + 1;
      if seqIndex != INVALID {
        seqIndex := (seqIndex + 1) % 4;
      }
    }
  }

  method GetPacketIndex(b: bv8) returns (index: nat)
    ensures index == PacketIndex(b)
  {
    index := 0;
    while index < 4
      invariant index <= 4 && b !in SEQ_BYTES[..index]
    {
      if SEQ_BYTES[index] == b {
        return;
      }
      index := index + 1;
    }
    index := INVALID;
  }

  lemma PacketFits(size: nat, i: nat)
    requires i < size / PACKET_SIZE
    ensures PACKET_SIZE * (i + 1) <= size
  {
  }

  /** The first `n` packets of a buffer. */
  function Packets(buf: seq<bv8>, n: nat): (s: seq<Packet>)
    requires n <= |buf| / PACKET_SIZE
    ensures |s| == n
  {
    if n == 0 then []
    else
      PacketFits(|buf|, n - 1);
      Packets(buf, n - 1) + [buf[PACKET_SIZE * (n - 1)..PACKET_SIZE * n]]
  }

  lemma {:induction false} JudgeSnoc(d: Decoder, pkts: seq<Packet>, pkt: Packet, pattern: bv8)
    requires Usable(d)
    ensures var r := JudgeAll(d, pkts, pattern);
            var v := Judge(r.decoder, pkt, pattern);
            JudgeAll(d, pkts + [pkt], pattern) == Run(v.decoder, r.plc + [v.plc])
    decreases |pkts|
  {
    hide Judge;
    if pkts == [] {
      var v := Judge(d, pkt, pattern);
      assert JudgeAll(v.decoder, [], pattern) == Run(v.decoder, []);
    } else {
      JudgeSnoc(Judge(d, pkts[0], pattern).decoder, pkts[1..], pkt, pattern);
      assert (pkts + [pkt])[1..] == pkts[1..] + [pkt];
    }
  }

  // ---------------------------------------------------------------- the histogram

  function Flagged(plc: seq<bool>): nat {
    if plc == [] then 0 else (if plc[0] then 1 else 0) + Flagged(plc[1..])
  }

  function Losses(h: Histogram): nat {
    h.mute + h.parser + h.seqErrors
  }

  /** Whatever arrives, every packet is counted once, and once more under exactly one cause if it
      was concealed: total = accepted + mute + parser + seq. */
  lemma {:induction false} HistogramBalances(d: Decoder, pkts: seq<Packet>, pattern: bv8)
    requires Usable(d)
    ensures var r := JudgeAll(d, pkts, pattern);
            && r.decoder.hist.total == d.hist.total + |pkts|
            && Losses(r.decoder.hist) == Losses(d.hist) + Flagged(r.plc)
    decreases |pkts|
  {
    hide Muted, Misframed, PacketIndex;
    if pkts != [] {
      var v := Judge(d, pkts[0], pattern);
      HistogramBalances(v.decoder, pkts[1..], pattern);
      var rest := JudgeAll(v.decoder, pkts[1..], pattern).plc;
      assert ([v.plc] + rest)[1..] == rest;
    }
  }

  function MutedIn(pkts: seq<Packet>, pattern: bv8): nat {
    if pkts == [] then 0 else (if Muted(pkts[0], pattern) then 1 else 0) + MutedIn(pkts[1..], pattern)
  }

  /** Packets that are heard but begin or end wrongly. */
  function MisframedIn(pkts: seq<Packet>, pattern: bv8): nat {
    if pkts == [] then 0
    else
      (if !Muted(pkts[0], pattern) && (pkts[0][0] != 0x01 || pkts[0][59] != 0) then 1 else 0)
      + MisframedIn(pkts[1..], pattern)
  }

  /** Each counter counts its own cause: muted packets, mis-framed ones, and whatever else was
      concealed. */
  lemma {:induction false} HistogramByCause(d: Decoder, pkts: seq<Packet>, pattern: bv8)
    requires Usable(d)
    ensures var r := JudgeAll(d, pkts, pattern);
            && r.decoder.hist.mute == d.hist.mute + MutedIn(pkts, pattern)
            && r.decoder.hist.parser == d.hist.parser + MisframedIn(pkts, pattern)
            && r.decoder.hist.seqErrors + MutedIn(pkts, pattern) + MisframedIn(pkts, pattern)
               == d.hist.seqErrors + Flagged(r.plc)
    decreases |pkts|
  {
    HistogramBalances(d, pkts, pattern);
    hide Muted, PacketIndex;
    if pkts != [] {
      HistogramByCause(Judge(d, pkts[0], pattern).decoder, pkts[1..], pattern);
    }
  }

  // ---------------------------------------------------------------- a stream over a lossy link

  /** What the link does to the next packet of the stream. */
  datatype Event =
    | Deliver(payload: Payload)
    | Replace(pkt: Packet)                 // some other packet arrives in its place
    | Delete                               // nothing arrives

  /** A packet no encoder sends: muted, mis-framed or with an unknown sequence byte. */
  predicate Foreign(pkt: Packet, pattern: bv8) {
    Muted(pkt, pattern) || Misframed(pkt) || pkt[1] !in SEQ_BYTES
  }

  /** What arrives of the stream from packet `p` on. */
  function Received(p: nat, events: seq<Event>): seq<Packet>
    decreases |events|
  {
    if events == [] then []
    else
      (match events[0]
       case Deliver(payload) => [Stamp(p, payload)]
       case Replace(pkt) => [pkt]
       case Delete => []) + Received(p + 1, events[1..])
  }

  /** How far the decoder is from the stream, modulo 4; nothing yet before the first good packet. */
  datatype Track = Unlocked | Behind(drift: nat)

  function Mod4(x: nat): nat {
    x % 4
  }

  /** How far the number of a packet that arrives as packet `p` is from `p`. */
  function Slip(p: nat, pkt: Packet): nat
    requires pkt[1] in SEQ_BYTES
  {
    Mod4(p + 4 - PacketIndex(pkt[1]))
  }

  function Moved(t: Track, p: nat, e: Event, pattern: bv8): Track {
    match e
    case Deliver(_) => Behind(0)
    case Replace(pkt) => if Foreign(pkt, pattern) then t else Behind(Slip(p, pkt))
    case Delete => if t.Unlocked? then t else Behind(Mod4(t.drift + 1))
  }

  /** The concealment flags as the link's behaviour alone determines them: a packet is concealed if it
      is foreign or if its number is not as far from the stream's as the decoder is. */
  function Flags(t: Track, p: nat, events: seq<Event>, pattern: bv8): seq<bool>
    decreases |events|
  {
    if events == [] then []
    else
      (match events[0]
       case Deliver(_) => [t.Behind? && Mod4(t.drift) != 0]
       case Replace(pkt) => [Foreign(pkt, pattern) || (t.Behind? && Mod4(t.drift) != Slip(p, pkt))]
       case Delete => []) + Flags(Moved(t, p, events[0], pattern), p + 1, events[1..], pattern)
  }

  predicate Tracks(d: Decoder, t: Track, p: nat) {
    match t
    case Unlocked => d.awaited == INVALID
    case Behind(drift) => d.awaited < 4 && (d.awaited + drift) % 4 == p % 4
  }

  lemma StampIsGood(p: nat, payload: Payload, pattern: bv8)
    requires Pattern(pattern)
    ensures var pkt := Stamp(p, payload);
            !Foreign(pkt, pattern) && PacketIndex(pkt[1]) == p % 4 && Slip(p, pkt) == 0
  {
    var pkt := Stamp(p, payload);
    assert pkt[0] == HEADER && pkt[1] == SEQ_BYTES[p % 4] && pkt[59] == PADDING;
    Remainder4(p + 4 - p % 4, p / 4 + 1, 0);
  }

  /** A packet with a number is concealed unless the decoder awaits that number; either way the
      decoder goes on from there. */
  lemma NumberedKeepsTrack(d: Decoder, t: Track, p: nat, pkt: Packet, pattern: bv8)
    requires Usable(d) && Tracks(d, t, p) && !Foreign(pkt, pattern)
    ensures var v := Judge(d, pkt, pattern);
            Tracks(v.decoder, Behind(Slip(p, pkt)), p + 1) && (v.plc <==> t.Behind? && Mod4(t.drift) != Slip(p, pkt))
  {
    var j := PacketIndex(pkt[1]);
    SlipTracks(p, j);
    if t.Behind? {
      AwaitedByDrift(d.awaited, t.drift, p, j);
    }
    hide Muted, Misframed, PacketIndex;
  }

  lemma SlipTracks(p: nat, j: nat)
    requires j < 4
    ensures ((j + 1) % 4 + Mod4(p + 4 - j)) % 4 == (p + 1) % 4
  {
    AddMod(Mod4(p + 4 - j), j + 1);
    AddMod(j + 1, p + 4 - j);
    MultiplesVanish(p + 1, 1);
  }

  lemma AwaitedByDrift(a: nat, drift: nat, p: nat, j: nat)
    requires a < 4 && j < 4 && (a + drift) % 4 == p % 4
    ensures a == j <==> Mod4(drift) == Mod4(p + 4 - j)
  {
    var r := p % 4;
    Difference(drift, (a + drift) / 4, r, a);
    Difference(p + 4 - j, p / 4 + 1, r, j);
  }

  lemma Difference(x: nat, h: int, r: nat, a: nat)
    requires x == 4 * h + r - a && r < 4 && a < 4
    ensures Mod4(x) == if r >= a then r - a else r + 4 - a
  {
    if r >= a {
      Remainder4(x, h, r - a);
    } else {
      Remainder4(x, h - 1, r + 4 - a);
    }
  }

  lemma ForeignKeepsTrack(d: Decoder, t: Track, p: nat, pkt: Packet, pattern: bv8)
    requires Usable(d) && Tracks(d, t, p) && Foreign(pkt, pattern)
    ensures var v := Judge(d, pkt, pattern);
            Tracks(v.decoder, t, p + 1) && v.plc
  {
    hide Muted, Misframed;
    AdvancedTracks(d, t, p);
    hide Advanced, Tracks;
  }

  lemma AdvancedTracks(d: Decoder, t: Track, p: nat)
    requires Usable(d) && Tracks(d, t, p)
    ensures forall h :: Tracks(Decoder(Advanced(d.awaited), h), t, p + 1)
  {
    if t.Behind? {
      NextMod(d.awaited + t.drift);
      NextMod(p);
      AddMod(t.drift, d.awaited + 1);
    }
  }

  lemma AddMod(x: nat, y: nat)
    ensures (x + y % 4) % 4 == (x + y) % 4
  {
    MultiplesVanish(x + y % 4, y / 4);
  }

  lemma MultiplesVanish(m: nat, k: nat)
    ensures (m + 4 * k) % 4 == m % 4
  {
    Remainder4(m + 4 * k, m / 4 + k, m % 4);
  }

  lemma DriftAdds(drift: nat, k: nat)
    ensures Mod4(Mod4(drift + 1) + k) == Mod4(drift + (k + 1))
  {
    MultiplesVanish((drift + 1) % 4 + k, (drift + 1) / 4);
  }

  lemma Remainder4(m: nat, h: int, r: nat)
    requires m == 4 * h + r && r < 4
    ensures m % 4 == r
  {
  }

  lemma ArrivalKeepsTrack(d: Decoder, t: Track, p: nat, e: Event, rest: seq<Event>, pattern: bv8)
    requires Usable(d) && Tracks(d, t, p) && Pattern(pattern) && !e.Delete?
    ensures var pkt := if e.Deliver? then Stamp(p, e.payload) else e.pkt;
            var v := Judge(d, pkt, pattern);
            && Tracks(v.decoder, Moved(t, p, e, pattern), p + 1)
            && Received(p, [e] + rest) == [pkt] + Received(p + 1, rest)
            && Flags(t, p, [e] + rest, pattern) == [v.plc] + Flags(Moved(t, p, e, pattern), p + 1, rest, pattern)
  {
    var pkt := if e.Deliver? then Stamp(p, e.payload) else e.pkt;
    if e.Deliver? {
      StampIsGood(p, e.payload, pattern);
    }
    if Foreign(pkt, pattern) {
      ForeignKeepsTrack(d, t, p, pkt, pattern);
    } else {
      NumberedKeepsTrack(d, t, p, pkt, pattern);
    }
    hide Foreign, Stamp, Judge, Tracks, Slip, Mod4;
    assert ([e] + rest)[1..] == rest;
  }

  /** Over every link behaviour, whatever packets it puts in, and from power-on or any later moment:
      the decoder conceals exactly the foreign packets and those whose number has slipped from the
      stream's by another amount than the decoder has. */
  lemma {:induction false} ConcealsExactly(d: Decoder, t: Track, p: nat, events: seq<Event>, pattern: bv8)
    requires Usable(d) && Tracks(d, t, p) && Pattern(pattern)
    ensures JudgeAll(d, Received(p, events), pattern).plc == Flags(t, p, events, pattern)
    decreases |events|
  {
    hide Muted, Misframed, Foreign, Stamp, Judge, Tracks, Slip, Mod4;
    if events != [] {
      var e, rest := events[0], events[1..];
      assert events == [e] + rest;
      if e.Delete? {
        DeleteMovesTrack(d, t, p, pattern);
        assert Received(p, events) == Received(p + 1, rest);
        assert Flags(t, p, events, pattern) == Flags(Moved(t, p, e, pattern), p + 1, rest, pattern);
        ConcealsExactly(d, Moved(t, p, e, pattern), p + 1, rest, pattern);
      } else {
        var pkt := if e.Deliver? then Stamp(p, e.payload) else e.pkt;
        ArrivalKeepsTrack(d, t, p, e, rest, pattern);
        Cons(d, pkt, Received(p + 1, rest), pattern);
        ConcealsExactly(Judge(d, pkt, pattern).decoder, Moved(t, p, e, pattern), p + 1, rest, pattern);
      }
    }
  }

  lemma DeleteMovesTrack(d: Decoder, t: Track, p: nat, pattern: bv8)
    requires Tracks(d, t, p)
    ensures Tracks(d, Moved(t, p, Delete, pattern), p + 1)
  {
    if t.Behind? {
      NextMod(d.awaited + t.drift);
      NextMod(p);
      AddMod(d.awaited, t.drift + 1);
    }
  }

  lemma Cons(d: Decoder, pkt: Packet, rest: seq<Packet>, pattern: bv8)
    requires Usable(d)
    ensures var v := Judge(d, pkt, pattern);
            JudgeAll(d, [pkt] + rest, pattern).plc == [v.plc] + JudgeAll(v.decoder, rest, pattern).plc
  {
    hide Judge;
    assert ([pkt] + rest)[1..] == rest;
  }

  /** Without deletions, and as long as no packet is given another's number, the decoder keeps lock:
      exactly the replaced packets are concealed. */
  lemma {:induction false} ReplacementsKeepLock(events: seq<Event>, t: Track, p: nat, i: nat, pattern: bv8)
    requires t == Unlocked || t == Behind(0)
    requires forall k :: 0 <= k < |events| ==>
               events[k].Deliver? || (events[k].Replace? && Foreign(events[k].pkt, pattern))
    requires i < |events|
    ensures |Flags(t, p, events, pattern)| == |events|
    ensures Flags(t, p, events, pattern)[i] == events[i].Replace?
    decreases |events|
  {
    hide Foreign, Slip;
    var rest := events[1..];
    if rest != [] {
      ReplacementsKeepLock(rest, Moved(t, p, events[0], pattern), p + 1, if i == 0 then 0 else i - 1, pattern);
    }
  }

  /** A packet that arrives with another packet's number costs two: itself, and the next good one. */
  lemma RenumberedCostsTwo(p: nat, pkt: Packet, payload: Payload, rest: seq<Event>, pattern: bv8)
    requires !Foreign(pkt, pattern) && Slip(p, pkt) != 0
    ensures Flags(Behind(0), p, [Replace(pkt), Deliver(payload)] + rest, pattern)
            == [true, true] + Flags(Behind(0), p + 2, rest, pattern)
  {
    hide Muted, Misframed;
    var events := [Replace(pkt), Deliver(payload)] + rest;
    var later := [Deliver(payload)] + rest;
    assert events[1..] == later && later[1..] == rest;
    assert Mod4(Slip(p, pkt)) == Slip(p, pkt);
    assert Flags(Behind(Slip(p, pkt)), p + 1, later, pattern) == [true] + Flags(Behind(0), p + 2, rest, pattern);
  }

  /** `k` deletions, then a delivery. */
  function Gap(k: nat, payload: Payload, rest: seq<Event>): seq<Event> {
    if k == 0 then [Deliver(payload)] + rest else [Delete] + Gap(k - 1, payload, rest)
  }

  lemma GapCons(k: nat, payload: Payload, rest: seq<Event>)
    ensures var events := Gap(k, payload, rest);
            && events != [] && events[0] == (if k == 0 then Deliver(payload) else Delete)
            && events[1..] == if k == 0 then rest else Gap(k - 1, payload, rest)
  {
  }

  /** `k` packets vanishing in a row cost one further concealed packet if, with the drift there was,
      they are not a multiple of four, and none otherwise; then lock is back. */
  lemma {:induction false} DeletionsCostOne(drift: nat, p: nat, k: nat, payload: Payload, rest: seq<Event>,
                                            pattern: bv8)
    ensures Flags(Behind(drift), p, Gap(k, payload, rest), pattern)
            == [Mod4(drift + k) != 0] + Flags(Behind(0), p + k + 1, rest, pattern)
    decreases k
  {
    hide Gap, Flags, Mod4;
    GapCons(k, payload, rest);
    FlagsCons(Behind(drift), p, Gap(k, payload, rest), pattern);
    if k > 0 {
      DeletionsCostOne(Mod4(drift + 1), p + 1, k - 1, payload, rest, pattern);
      DriftAdds(drift, k - 1);
    }
  }

  lemma FlagsCons(t: Track, p: nat, events: seq<Event>, pattern: bv8)
    requires t.Behind? && events != []
    ensures events[0].Delete? ==>
              Flags(t, p, events, pattern) == Flags(Behind(Mod4(t.drift + 1)), p + 1, events[1..], pattern)
    ensures events[0].Deliver? ==>
              Flags(t, p, events, pattern) == [Mod4(t.drift) != 0] + Flags(Behind(0), p + 1, events[1..], pattern)
  {
    if events[0].Delete? {
      var t' := Moved(t, p, Delete, pattern);
      assert [] + Flags(t', p + 1, events[1..], pattern) == Flags(t', p + 1, events[1..], pattern);
    }
  }
}
