/** Loss detection on mSBC packets: apps/audioplayers/plc_utils.c.

Every packet is classified by a chain of checks; the last of them compares sequence numbers.  The
header byte comes from `ScoPackets`; the table-driven check sum of the codec header is a parameter.
*/
module PacketLoss {
  import opened ScoPackets

  const NONE: bv8 := 0xff

  /** `plc_type_t`, in its order. */
  datatype PlcType =
    | Pass | ControllerMute | HeaderError | CrcError | PadError | DataMissing
    | SequenceDiscontinue | BleConflict | DecoderError | TransmitterOffset

  const TYPES := 10

  function Index(t: PlcType): (i: nat)
    ensures i < TYPES
  {
    match t
    case Pass => 0 case ControllerMute => 1 case HeaderError => 2 case CrcError => 3
    case PadError => 4 case DataMissing => 5 case SequenceDiscontinue => 6
    case BleConflict => 7 case DecoderError => 8 case TransmitterOffset => 9
  }

  // ---------------------------------------------------------------- the synchronization header

  /** What `sco_parse_synchronization_header` yields: its return value, and `sn` if that is 0. */
  datatype Header = Header(err: int, sn: bv8)

  function ParseHeader(pkt: Packet, crcMatches: bool): (h: Header)
    ensures -4 <= h.err <= 0 && (h.err == 0 ==> h.sn < 4)
  {
    if pkt[0] != 0x01 || pkt[1] & 0x0f != 0x08 || pkt[2] != 0xad then Header(-1, NONE)
    else
      var sn1 := (pkt[1] & 0x30) >> 4;
      var sn2 := (pkt[1] & 0xc0) >> 6;
      if sn1 != 0 && sn1 != 3 then Header(-2, NONE)
      else if sn2 != 0 && sn2 != 3 then Header(-3, NONE)
      else if pkt[3] != 0 || pkt[4] != 0 || !crcMatches then Header(-4, NONE)
      else Header(0, (sn1 & 0x01) | (sn2 & 0x02))
  }

  /** The parser accepts exactly the four header bytes encoders send, and reads back the number of
      the packet: it inverts `g_sco_packet_seq`. */
  lemma ParseInvertsStamp(pkt: Packet, crcMatches: bool, i: nat)
    requires i < 4
    ensures ParseHeader(pkt, crcMatches) == Header(0, SeqNum(i)) <==>
            && pkt[0] == HEADER && pkt[1] == SEQ_BYTES[i] && pkt[2] == 0xad
            && pkt[3] == 0 && pkt[4] == 0 && crcMatches
  {
  }

  lemma ParseAcceptsOnlyStamps(pkt: Packet, crcMatches: bool)
    requires ParseHeader(pkt, crcMatches).err == 0
    ensures pkt[1] in SEQ_BYTES
  {
  }

  function SeqNum(p: nat): (n: bv8)
    ensures n < 4
  {
    (p % 4) as bv8
  }

  // ---------------------------------------------------------------- one packet

  const WORD := 0x1_0000_0000

  /** `PacketLossState`; `newer` and `older` are the two packets in `last_pkt`. */
  datatype Pld = Pld(
    last: bv8,                             // last_seq_num
    older: Packet,
    newer: Packet,
    conflict0: bool,                       // prev_ble_sco_conflict_flag
    conflict1: bool,
    hist: Hist)

  type Hist = h: seq<nat> | |h| == TYPES witness seq(TYPES, _ => 0)

  const ZERO: Packet := seq(PACKET_SIZE, _ => 0)
  const FRESH := Pld(NONE, ZERO, ZERO, false, false, seq(TYPES, _ => 0))

  /** A packet as it reaches the detector: how far the transmitter is off, whether the check sum of
      the codec header matches, and whether the codec will manage to decode it. */
  datatype Arrival = Arrival(pkt: Packet, offset: nat, crcMatches: bool, decodes: bool)

  /** `msbc_check_transmitter_offset`: one end of the packet is muted. */
  predicate PartlyMuted(pkt: Packet, pattern: bv8, offset: nat)
    requires offset < PACKET_SIZE
  {
    && offset != 0
    && !(offset == 1 && pattern == 0)
    && if pkt[0] == pattern then forall i :: 0 <= i < PACKET_SIZE - offset ==> pkt[i] == pattern
       else pkt[59] == pattern && forall i :: PACKET_SIZE - offset <= i < PACKET_SIZE ==> pkt[i] == pattern
  }

  predicate SameData(x: Packet, y: Packet) {
    forall i :: 0 <= i < PACKET_SIZE - 1 ==> x[i] == y[i]
  }

  /** The packet of two rounds ago again. */
  predicate Conflicts(s: Pld, pkt: Packet) {
    !s.conflict1 && SameData(s.older, pkt)
  }

  /** The conflict history only moves for packets that get past the mute checks. */
  predicate Audible(a: Arrival, pattern: bv8)
    requires a.offset < PACKET_SIZE
  {
    !Muted(a.pkt, pattern) && !PartlyMuted(a.pkt, pattern, a.offset)
  }

  /** What stops the packet before its sequence number is looked at; `Pass` if nothing does. */
  function Cause(s: Pld, a: Arrival, pattern: bv8): PlcType
    requires a.offset < PACKET_SIZE
  {
    if Muted(a.pkt, pattern) then ControllerMute
    else if PartlyMuted(a.pkt, pattern, a.offset) then TransmitterOffset
    else if Conflicts(s, a.pkt) then BleConflict
    else
      var err := ParseHeader(a.pkt, a.crcMatches).err;
      if err == 0 then Pass else if err == -4 then CrcError else HeaderError
  }

  /** `get_next_sequence_num`. */
  function NextNum(n: bv8): bv8 {
    if n == 3 then 0 else n + 1
  }

  function Sn(a: Arrival): bv8 {
    ParseHeader(a.pkt, a.crcMatches).sn
  }

  function Type(s: Pld, a: Arrival, pattern: bv8): PlcType
    requires a.offset < PACKET_SIZE
  {
    var c := Cause(s, a, pattern);
    if c != Pass || s.last == NONE || Sn(a) == NextNum(s.last) then c else SequenceDiscontinue
  }

  /** `packet_loss_detection_update_histogram`, on 32-bit counters. */
  function Bump(h: Hist, t: PlcType): Hist {
    var h' := if t == DecoderError then h[0 := (h[0] + WORD - 1) % WORD] else h;
    h'[Index(t) := (h'[Index(t)] + 1) % WORD]
  }

  function After(s: Pld, a: Arrival, pattern: bv8): Pld
    requires a.offset < PACKET_SIZE
  {
    var t := Type(s, a, pattern);
    Pld(if t == Pass then Sn(a) else NONE,
        s.newer, a.pkt,
        if Audible(a, pattern) then Conflicts(s, a.pkt) else s.conflict0,
        if Audible(a, pattern) then s.conflict0 else s.conflict1,
        Bump(s.hist, t))
  }

  // ---------------------------------------------------------------- the code

  class Detector {
    const pattern: bv8
    var lastSeqNum: bv8
    const lastPkt: array<bv8>
    var conflict0: bool
    var conflict1: bool
    const hist: array<nat>

    ghost predicate Valid()
      reads this
    {
      lastPkt.Length == 2 * PACKET_SIZE && hist.Length == TYPES
    }

    ghost function View(): Pld
      requires Valid()
      reads this, lastPkt, hist
    {
      Pld(lastSeqNum, lastPkt[..PACKET_SIZE], lastPkt[PACKET_SIZE..], conflict0, conflict1, hist[..])
    }

    /** `packet_loss_detection_init`. */
    constructor (pattern: bv8)
      ensures Valid() && fresh(lastPkt) && fresh(hist) && View() == FRESH && this.pattern == pattern
    {
      this.pattern := pattern;
      lastSeqNum := NONE;
      lastPkt := new bv8[2 * PACKET_SIZE](_ => 0);
      conflict0, conflict1 := false, false;
      hist := new nat[TYPES](_ => 0);
    }

    method UpdateBleScoConflict(pkt: Packet) returns (ret: bool)
      requires Valid()
      modifies lastPkt
      ensures ret == Conflicts(old(View()), pkt)
      ensures View() == old(View()).(older := old(View()).newer, newer := pkt)
    {
      ret := false;
      if !conflict1 {
        ret := true;
        for i := 0 to PACKET_SIZE - 1
          invariant ret <==> forall j :: 0 <= j < i ==> lastPkt[j] == pkt[j]
        {
          if lastPkt[i] != pkt[i] {
            ret := false;
          }
        }
      }
      for i := 0 to PACKET_SIZE
        invariant forall j :: 0 <= j < i ==> lastPkt[j] == old(lastPkt[PACKET_SIZE + j])
        invariant forall j :: PACKET_SIZE <= j < 2 * PACKET_SIZE ==> lastPkt[j] == old(lastPkt[j])
      {
        lastPkt[i] := lastPkt[PACKET_SIZE + i];
      }
      for i := 0 to PACKET_SIZE
        invariant forall j :: 0 <= j < PACKET_SIZE ==> lastPkt[j] == old(lastPkt[PACKET_SIZE + j])
        invariant forall j :: 0 <= j < i ==> lastPkt[PACKET_SIZE + j] == pkt[j]
      {
        lastPkt[PACKET_SIZE + i] := pkt[i];
      }
    }

    method UpdateHistogram(t: PlcType)
      requires Valid()
      modifies hist
      ensures hist[..] == Bump(old(hist[..]), t)
    {
      if t == DecoderError {
        hist[0] := (hist[0] + WORD - 1) % WORD;
      }
      hist[Index(t)] := (hist[Index(t)] + 1) % WORD;
    }

    /** `packet_loss_detection_process`; `crcMatches` stands for the check sum of the codec header. */
    method Process(pkt: Packet, offset: nat, crcMatches: bool, ghost decodes: bool) returns (t: PlcType)
      requires Valid() && offset < PACKET_SIZE
      modifies this, lastPkt, hist
      ensures Valid()
      ensures var a := Arrival(pkt, offset, crcMatches, decodes);
              t == Type(old(View()), a, pattern) && View() == After(old(View()), a, pattern)
    {
      hide Conflicts, Muted, PartlyMuted, Bump, ParseHeader;
      t := Pass;
      var conflict := UpdateBleScoConflict(pkt);
      var mute := CheckControllerMutePattern(pkt, pattern);
      var partly := CheckTransmitterOffset(pkt, pattern, offset);
      if mute {
        t := ControllerMute;
        lastSeqNum := NONE;
      } else if partly {
        t := TransmitterOffset;
        lastSeqNum := NONE;
      } else {
        conflict0, conflict1 := conflict, conflict0;
        if conflict {
          t := BleConflict;
          lastSeqNum := NONE;
        } else {
          t := CheckHeader(ParseHeader(pkt, crcMatches));
        }
      }
      UpdateHistogram(t);
    }

    method CheckHeader(h: Header) returns (t: PlcType)
      requires Valid() && -4 <= h.err <= 0
      modifies this`lastSeqNum
      ensures t == if h.err == -4 then CrcError else if h.err != 0 then HeaderError
                   else if h.sn != NONE && (old(lastSeqNum) == NONE || h.sn == NextNum(old(lastSeqNum))) then Pass
                   else SequenceDiscontinue
      ensures lastSeqNum == if t == Pass then h.sn else NONE
    {
      if -3 <= h.err < 0 {
        t := HeaderError;
        lastSeqNum := NONE;
      } else if h.err == -4 {
        t := CrcError;
        lastSeqNum := NONE;
      } else if lastSeqNum == NONE {
        t := if h.sn == NONE then SequenceDiscontinue else Pass;
        lastSeqNum := h.sn;
      } else if h.sn == NONE {
        lastSeqNum := NONE;
        t := SequenceDiscontinue;
      } else if h.sn == NextNum(lastSeqNum) {
        lastSeqNum := h.sn;
        t := Pass;
      } else {
        lastSeqNum := NONE;
        t := SequenceDiscontinue;
      }
    }

    /** The accounting of `bt_sco_codec_msbc_decoder` around the codec call. */
    method Handle(pkt: Packet, offset: nat, crcMatches: bool, decodes: bool) returns (t: PlcType)
      requires Valid() && offset < PACKET_SIZE
      modifies this, lastPkt, hist
      ensures Valid()
      ensures Outcome(View(), t) == Handled(old(View()), Arrival(pkt, offset, crcMatches, decodes), pattern)
    {
      hide Type, After;
      t := Process(pkt, offset, crcMatches, decodes);
      if t == Pass && !decodes {
        t := DecoderError;
        UpdateHistogram(t);
      }
    }
  }

  method CheckTransmitterOffset(pkt: Packet, pattern: bv8, offset: nat) returns (r: bool)
    requires offset < PACKET_SIZE
    ensures r <==> PartlyMuted(pkt, pattern, offset)
  {
    if offset == 0 || (offset == 1 && pattern == 0x00) {
      return false;
    }
    var lo, hi;
    if pkt[0] == pattern {
      lo, hi := 0, PACKET_SIZE - offset;
    } else if pkt[PACKET_SIZE - 1] == pattern {
      lo, hi := PACKET_SIZE - offset, PACKET_SIZE;
    } else {
      return false;
    }
    for i := lo to hi
      invariant forall j :: lo <= j < i ==> pkt[j] == pattern
    {
      if pkt[i] != pattern {
        return false;
      }
    }
    return true;
  }

  datatype Outcome = Outcome(state: Pld, verdict: PlcType)

  /** A packet that passed but would not decode is recounted. */
  function Handled(s: Pld, a: Arrival, pattern: bv8): Outcome
    requires a.offset < PACKET_SIZE
  {
    var t, s' := Type(s, a, pattern), After(s, a, pattern);
    if t == Pass && !a.decodes then Outcome(s'.(hist := Bump(s'.hist, DecoderError)), DecoderError)
    else Outcome(s', t)
  }

  // ---------------------------------------------------------------- sequence numbers

  /** What stops a packet of an encoder's stream, and the number it carries. */
  lemma StreamPacketReachesIff(s: Pld, p: nat, payload: Payload, a: Arrival, pattern: bv8)
    requires Pattern(pattern) && a.offset < PACKET_SIZE && a.pkt == Stamp(p, payload)
    ensures Cause(s, a, pattern) == Pass <==>
            && payload[..3] == [0xad, 0, 0] && a.crcMatches
            && !Conflicts(s, a.pkt) && !PartlyMuted(a.pkt, pattern, a.offset)
    ensures Cause(s, a, pattern) == Pass ==> Sn(a) == SeqNum(p)
  {
    hide Conflicts, PartlyMuted, ParseHeader;
    assert a.pkt[0] == HEADER && a.pkt[1] == SEQ_BYTES[p % 4];
    assert payload[..3] == [a.pkt[2], a.pkt[3], a.pkt[4]];
    ParseInvertsStamp(a.pkt, a.crcMatches, p % 4);
    if ParseHeader(a.pkt, a.crcMatches).err == 0 {
      ParsedIs(a.pkt, a.crcMatches);
    }
  }

  lemma ParsedIs(pkt: Packet, crcMatches: bool)
    requires ParseHeader(pkt, crcMatches).err == 0
    ensures exists k :: 0 <= k < 4 && pkt[1] == SEQ_BYTES[k] && ParseHeader(pkt, crcMatches) == Header(0, SeqNum(k))
    ensures pkt[2] == 0xad && pkt[3] == pkt[4] == 0 && crcMatches
  {
    ParseAcceptsOnlyStamps(pkt, crcMatches);
    var k := if pkt[1] == SEQ_BYTES[0] then 0 else if pkt[1] == SEQ_BYTES[1] then 1
             else if pkt[1] == SEQ_BYTES[2] then 2 else 3;
    ParseInvertsStamp(pkt, crcMatches, k);
  }

  lemma NextNumCounts(p: nat, q: nat)
    ensures SeqNum(q) == NextNum(SeqNum(p)) <==> q % 4 == (p + 1) % 4
  {
    var i, j := p % 4, q % 4;
    NextMod(p);
    assert NextNum(i as bv8) == ((i + 1) % 4) as bv8;
  }

  /** A packet that reaches the sequence check passes exactly if the one before it was lost or
      carries the number before its own. */
  lemma PassesIff(s: Pld, a: Arrival, b: Arrival, pattern: bv8)
    requires a.offset < PACKET_SIZE && b.offset < PACKET_SIZE
    requires Cause(After(s, a, pattern), b, pattern) == Pass
    ensures Type(After(s, a, pattern), b, pattern) == Pass <==>
            Type(s, a, pattern) != Pass || Sn(b) == NextNum(Sn(a))
  {
    hide Cause, Audible, Conflicts, Bump, Muted, PartlyMuted, NextNum;
    PassedHasNumber(s, a, pattern);
  }

  lemma PassedHasNumber(s: Pld, a: Arrival, pattern: bv8)
    requires a.offset < PACKET_SIZE
    ensures Type(s, a, pattern) == Pass ==> Sn(a) < 4
  {
    hide Conflicts, Muted, PartlyMuted, ParseHeader;
  }

  /** `k` packets of the stream vanish between two that reach the check: the later one passes
      exactly if `k` is a multiple of four. */
  lemma DeletionPassesIff(s: Pld, p: nat, k: nat, x: Payload, y: Payload, a: Arrival, b: Arrival, pattern: bv8)
    requires Pattern(pattern) && a.offset < PACKET_SIZE && b.offset < PACKET_SIZE
    requires a.pkt == Stamp(p, x) && b.pkt == Stamp(p + 1 + k, y)
    requires Type(s, a, pattern) == Pass && Cause(After(s, a, pattern), b, pattern) == Pass
    ensures Type(After(s, a, pattern), b, pattern) == Pass <==> k % 4 == 0
  {
    hide Cause, After, Stamp, SeqNum, NextNum, Sn;
    PassesIff(s, a, b, pattern);
    StreamPacketReachesIff(s, p, x, a, pattern);
    StreamPacketReachesIff(After(s, a, pattern), p + 1 + k, y, b, pattern);
    NextNumCounts(p, p + 1 + k);
    assert (p + 1 + k) % 4 == (p + 1) % 4 <==> k % 4 == 0;
  }

  // ---------------------------------------------------------------- whole runs

  predicate Usable(as_: seq<Arrival>) {
    forall i :: 0 <= i < |as_| ==> as_[i].offset < PACKET_SIZE
  }

  datatype History = History(state: Pld, verdicts: seq<PlcType>)

  function HandleAll(s: Pld, as_: seq<Arrival>, pattern: bv8): (h: History)
    requires Usable(as_)
    ensures |h.verdicts| == |as_|
  {
    if as_ == [] then History(s, [])
    else
      var n := |as_| - 1;
      var h := HandleAll(s, as_[..n], pattern);
      var o := Handled(h.state, as_[n], pattern);
      History(o.state, h.verdicts + [o.verdict])
  }

  function Count(verdicts: seq<PlcType>, t: PlcType): (n: nat)
    ensures n <= |verdicts|
  {
    if verdicts == [] then 0
    else Count(verdicts[..|verdicts| - 1], t) + if verdicts[|verdicts| - 1] == t then 1 else 0
  }

  lemma CountSnoc(verdicts: seq<PlcType>, v: PlcType, t: PlcType)
    ensures Count(verdicts + [v], t) == Count(verdicts, t) + if v == t then 1 else 0
  {
    assert (verdicts + [v])[..|verdicts|] == verdicts;
  }

  /** The counters are the counts, modulo their width. */
  ghost predicate Tallies(h: Hist, verdicts: seq<PlcType>) {
    forall t :: h[Index(t)] == Count(verdicts, t) % WORD
  }

  lemma NextWord(c: nat)
    ensures (c % WORD + 1) % WORD == (c + 1) % WORD
    ensures ((c + 1) % WORD + WORD - 1) % WORD == c % WORD
  {
    var k, r := c / WORD, c % WORD;
    if r + 1 < WORD {
      WordRemainder(c + 1, k, r + 1);
      WordRemainder(r + WORD, 1, r);
    } else {
      WordRemainder(c + 1, k + 1, 0);
    }
  }

  lemma WordRemainder(m: nat, k: nat, r: nat)
    requires m == WORD * k + r && r < WORD
    ensures m % WORD == r
  {
  }

  lemma BumpTallies(h: Hist, verdicts: seq<PlcType>, t: PlcType)
    requires Tallies(h, verdicts) && t != DecoderError
    ensures Tallies(Bump(h, t), verdicts + [t])
  {
    forall u ensures Bump(h, t)[Index(u)] == Count(verdicts + [t], u) % WORD {
      CountSnoc(verdicts, t, u);
      NextWord(Count(verdicts, u));
      assert h[Index(u)] == Count(verdicts, u) % WORD;
      assert Index(u) == Index(t) <==> u == t;
    }
  }

  /** Recounting takes back the very count the packet had been given. */
  lemma RecountTallies(h: Hist, verdicts: seq<PlcType>)
    requires Tallies(h, verdicts)
    ensures Tallies(Bump(Bump(h, Pass), DecoderError), verdicts + [DecoderError])
    ensures |verdicts| + 1 < WORD ==> Bump(h, Pass)[0] > 0
  {
    var c := Count(verdicts, Pass);
    NextWord(c);
    NextWord(Count(verdicts, DecoderError));
    assert h[Index(Pass)] == c % WORD && h[Index(DecoderError)] == Count(verdicts, DecoderError) % WORD;
    var h' := Bump(h, Pass);
    assert h'[0] == (c + 1) % WORD && h'[8] == Count(verdicts, DecoderError) % WORD;
    forall u ensures Bump(h', DecoderError)[Index(u)] == Count(verdicts + [DecoderError], u) % WORD {
      CountSnoc(verdicts, DecoderError, u);
      assert h[Index(u)] == Count(verdicts, u) % WORD;
      assert Index(u) == 8 <==> u == DecoderError;
      assert Index(u) == 0 <==> u == Pass;
    }
  }

  /** Over every run, every histogram entry is the number of packets with that final verdict, modulo
      2^32. */
  lemma {:induction false} HistogramCounts(as_: seq<Arrival>, pattern: bv8)
    requires Usable(as_)
    ensures var h := HandleAll(FRESH, as_, pattern);
            Tallies(h.state.hist, h.verdicts)
    decreases |as_|
  {
    if as_ == [] {
    } else {
      var n := |as_| - 1;
      HistogramCounts(as_[..n], pattern);
      var h := HandleAll(FRESH, as_[..n], pattern);
      VerdictTallies(h.state, h.verdicts, as_[n], pattern);
    }
  }

  lemma VerdictTallies(s: Pld, verdicts: seq<PlcType>, a: Arrival, pattern: bv8)
    requires a.offset < PACKET_SIZE && Tallies(s.hist, verdicts)
    ensures var o := Handled(s, a, pattern);
            Tallies(o.state.hist, verdicts + [o.verdict])
  {
    hide Tallies, Bump, Audible, Conflicts, Muted, PartlyMuted, ParseHeader;
    var t := Type(s, a, pattern);
    if t == Pass && !a.decodes {
      RecountTallies(s.hist, verdicts);
    } else {
      BumpTallies(s.hist, verdicts, t);
    }
  }

  function Sum(h: seq<nat>): nat {
    if h == [] then 0 else Sum(h[..|h| - 1]) + h[|h| - 1]
  }

  function TypeAt(i: nat): PlcType
    requires i < TYPES
    ensures Index(TypeAt(i)) == i
  {
    [Pass, ControllerMute, HeaderError, CrcError, PadError, DataMissing,
     SequenceDiscontinue, BleConflict, DecoderError, TransmitterOffset][i]
  }

  /** So the entries add up to the packets processed: modulo 2^32 for any run, and exactly as long as
      there are fewer than that. */
  lemma HistogramSum(as_: seq<Arrival>, pattern: bv8)
    requires Usable(as_)
    ensures var h := HandleAll(FRESH, as_, pattern).state.hist;
            && Sum(h) % WORD == |as_| % WORD
            && (|as_| < WORD ==> Sum(h) == |as_|)
  {
    hide HandleAll, Sum, Tallies, Counts, Usable;
    HistogramCounts(as_, pattern);
    var h := HandleAll(FRESH, as_, pattern);
    CountsSum(Counts(h.verdicts), h.verdicts);
    TalliesAreCounts(h.state.hist, h.verdicts);
    SumModulo(h.state.hist, Counts(h.verdicts));
  }

  lemma TalliesAreCounts(h: Hist, verdicts: seq<PlcType>)
    requires Tallies(h, verdicts)
    ensures forall i :: 0 <= i < TYPES ==> h[i] == Counts(verdicts)[i] % WORD
    ensures |verdicts| < WORD ==> h == Counts(verdicts)
  {
    hide TypeAt;
    forall i | 0 <= i < TYPES ensures h[i] == Counts(verdicts)[i] % WORD {
      assert h[Index(TypeAt(i))] == Count(verdicts, TypeAt(i)) % WORD;
    }
    if |verdicts| < WORD {
      forall i | 0 <= i < TYPES ensures h[i] == Counts(verdicts)[i] {
        assert Counts(verdicts)[i] == Count(verdicts, TypeAt(i)) < WORD;
      }
    }
  }

  function Counts(verdicts: seq<PlcType>): (c: Hist)
    ensures forall i :: 0 <= i < TYPES ==> c[i] == Count(verdicts, TypeAt(i))
  {
    seq(TYPES, i requires 0 <= i < TYPES => Count(verdicts, TypeAt(i)))
  }

  lemma {:induction false} SumModulo(h: seq<nat>, c: seq<nat>)
    requires |h| == |c| && forall i :: 0 <= i < |h| ==> h[i] == c[i] % WORD
    ensures Sum(h) % WORD == Sum(c) % WORD
    decreases |h|
  {
    if h != [] {
      var n := |h| - 1;
      SumModulo(h[..n], c[..n]);
      AddModulo(Sum(h[..n]), Sum(c[..n]), c[n]);
    }
  }

  lemma AddModulo(x: nat, y: nat, z: nat)
    requires x % WORD == y % WORD
    ensures (x + z % WORD) % WORD == (y + z) % WORD
  {
    var r := (x % WORD + z % WORD) % WORD;
    var k := (x % WORD + z % WORD) / WORD;
    WordRemainder(x + z % WORD, x / WORD + k, r);
    WordRemainder(y + z, y / WORD + z / WORD + k, r);
  }

  lemma {:induction false} CountsSum(c: Hist, verdicts: seq<PlcType>)
    requires forall i :: 0 <= i < TYPES ==> c[i] == Count(verdicts, TypeAt(i))
    ensures Sum(c) == |verdicts|
    decreases |verdicts|
  {
    if verdicts == [] {
      SumZero(c);
    } else {
      var n := |verdicts| - 1;
      var v := verdicts[n];
      var i := Index(v);
      var c' := Counts(verdicts[..n]);
      CountsSum(c', verdicts[..n]);
      forall j | 0 <= j < TYPES ensures c[j] == if j == i then c'[j] + 1 else c'[j] {
        CountSnoc(verdicts[..n], v, TypeAt(j));
        assert verdicts == verdicts[..n] + [v];
        assert TypeAt(j) == v <==> j == i;
      }
      SumUpdate(c', i, c[i]);
      assert c'[i := c[i]] == c;
    }
  }

  lemma {:induction false} SumZero(h: seq<nat>)
    requires forall i :: 0 <= i < |h| ==> h[i] == 0
    ensures Sum(h) == 0
  {
    if h != [] {
      SumZero(h[..|h| - 1]);
    }
  }

  lemma {:induction false} SumUpdate(h: seq<nat>, i: nat, x: nat)
    requires i < |h|
    ensures Sum(h[i := x]) == Sum(h) - h[i] + x
  {
    var n := |h| - 1;
    if i < n {
      assert h[i := x][..n] == h[..n][i := x];
      SumUpdate(h[..n], i, x);
    } else {
      assert h[i := x][..n] == h[..n];
    }
  }

  // ---------------------------------------------------------------- repeated packets

  /** The conflict history is there so that one repetition is not reported twice.  After a conflict,
      the same data two packets later is reported again exactly if the packet in between was muted
      (then the history did not move) and the check before the conflict found none. */
  lemma ConflictRepeatsIff(s: Pld, x: Arrival, y: Arrival, z: Arrival, pattern: bv8)
    requires x.offset < PACKET_SIZE && y.offset < PACKET_SIZE && z.offset < PACKET_SIZE
    requires Cause(s, x, pattern) == BleConflict && Audible(z, pattern) && SameData(x.pkt, z.pkt)
    ensures Cause(After(After(s, x, pattern), y, pattern), z, pattern) == BleConflict <==>
            !Audible(y, pattern) && !s.conflict0
  {
    hide Muted, PartlyMuted, ParseHeader, Bump, Type, SameData;
    assert Conflicts(s, x.pkt) && Audible(x, pattern);
  }

  /** And it does happen from power-on: packets A, B, A, a mute, A again, with nothing wrong but the
      mute, are reported as two conflicts. */
  lemma ConflictIsReportedTwice(p: nat, x: Payload, y: Payload, a: Arrival, b: Arrival, mute: Arrival, pattern: bv8)
    requires Pattern(pattern) && a.offset == b.offset == mute.offset == 0
    requires a.pkt == Stamp(p, x) && b.pkt == Stamp(p + 1, y) && Muted(mute.pkt, pattern)
    ensures var third := After(After(FRESH, a, pattern), b, pattern);
            && Cause(third, a, pattern) == BleConflict
            && Cause(After(After(third, a, pattern), mute, pattern), a, pattern) == BleConflict
  {
    assert a.pkt[0] == HEADER && b.pkt[0] == HEADER && ZERO[0] == 0;
    assert Audible(a, pattern) && Audible(b, pattern) && !Audible(mute, pattern);
    hide Muted, PartlyMuted, ParseHeader, Bump, Type, Stamp;
    var third := After(After(FRESH, a, pattern), b, pattern);
    assert third.older == a.pkt && !third.conflict0 && !third.conflict1;
    ConflictRepeatsIff(third, a, mute, a, pattern);
  }

  // ---------------------------------------------------------------- the transmitter's offset

  /** A packet as the decoder cuts it out of two neighbouring ones of the link, `offset` bytes late. */
  function Cut(x: Packet, y: Packet, offset: nat): (w: Packet)
    requires offset < PACKET_SIZE
    ensures forall i :: 0 <= i < PACKET_SIZE ==>
              w[i] == if i < PACKET_SIZE - offset then x[i + offset] else y[i + offset - PACKET_SIZE]
  {
    (x + y)[offset..offset + PACKET_SIZE]
  }

  /** A packet lost on the link: all of it is the mute pattern. */
  predicate AllPattern(b: Packet, pattern: bv8) {
    forall i :: 0 <= i < PACKET_SIZE ==> b[i] == pattern
  }

  /** Offsets at which the two parts are looked at. */
  predicate Checked(offset: nat, pattern: bv8) {
    0 < offset < PACKET_SIZE && !(offset == 1 && pattern == 0)
  }

  /** One packet lost on the link damages the two that are cut across it.  The later one is always
      refused for it, unless it is mute altogether; the earlier one if and only if it does not happen
      to begin with the pattern. */
  lemma LostPacketRefusesBoth(s: Pld, b0: Packet, b1: Packet, b2: Packet, a: Arrival, pattern: bv8)
    requires Checked(a.offset, pattern) && AllPattern(b1, pattern) && !Muted(a.pkt, pattern)
    ensures a.pkt == Cut(b1, b2, a.offset) ==> Type(s, a, pattern) == TransmitterOffset
    ensures a.pkt == Cut(b0, b1, a.offset) ==> (Type(s, a, pattern) == TransmitterOffset <==> a.pkt[0] != pattern)
  {
    hide ParseHeader, Conflicts;
    if a.pkt == Cut(b0, b1, a.offset) {
      FrontIsHeard(a.pkt, pattern, a.offset);
    }
  }

  lemma FrontIsHeard(w: Packet, pattern: bv8, offset: nat)
    requires 0 < offset < PACKET_SIZE && !Muted(w, pattern)
    requires forall i :: PACKET_SIZE - offset <= i < PACKET_SIZE ==> w[i] == pattern
    ensures exists i :: 0 <= i < PACKET_SIZE - offset && w[i] != pattern
  {
    var i :| 0 <= i < PACKET_SIZE - 1 && w[i] != pattern;
    assert i < PACKET_SIZE - offset;
  }

  /** At pattern 0x55 no packet of an encoder is ever refused for an offset. */
  lemma StampIsNotRefused(s: Pld, p: nat, payload: Payload, a: Arrival)
    requires a.offset < PACKET_SIZE && a.pkt == Stamp(p, payload)
    ensures Type(s, a, 0x55) != TransmitterOffset
  {
    hide ParseHeader, Conflicts;
    assert a.pkt[0] == HEADER && a.pkt[59] == PADDING;
  }

  /** At pattern 0 the padding byte looks mute, and one is refused if and only if its payload ends in
      silence for the rest of the offset. */
  lemma StampIsRefusedIff(s: Pld, p: nat, payload: Payload, a: Arrival)
    requires a.offset < PACKET_SIZE && a.pkt == Stamp(p, payload)
    ensures Type(s, a, 0) == TransmitterOffset <==>
            1 < a.offset <= 58 && forall i :: 58 - a.offset <= i < 57 ==> payload[i] == 0
  {
    hide ParseHeader, Conflicts;
    var o := a.offset;
    assert a.pkt[0] == HEADER && a.pkt[1] == SEQ_BYTES[p % 4] && a.pkt[59] == PADDING;
    assert SEQ_BYTES[p % 4] != 0;
    assert forall i :: 2 <= i < 59 ==> a.pkt[i] == payload[i - 2];
    if 1 < o <= 58 && forall i :: 58 - o <= i < 57 ==> payload[i] == 0 {
      assert forall i :: PACKET_SIZE - o <= i < 59 ==> a.pkt[i] == payload[i - 2];
    } else if 1 < o <= 58 {
      var i :| 58 - o <= i < 57 && payload[i] != 0;
      assert a.pkt[i + 2] != 0;
    } else if o == 59 {
      assert a.pkt[1] != 0;
    }
  }

  // ---------------------------------------------------------------- every verdict, by its bytes

  lemma SameDataIff(x: Packet, y: Packet)
    ensures SameData(x, y) <==> x[..59] == y[..59]
  {
    if x[..59] == y[..59] {
      assert forall i :: 0 <= i < 59 ==> x[i] == x[..59][i] == y[..59][i] == y[i];
    }
  }

  lemma HeaderBytes(pkt: Packet, crcMatches: bool)
    ensures var err := ParseHeader(pkt, crcMatches).err;
            var known := pkt[0] == 0x01 && pkt[1] in SEQ_BYTES && pkt[2] == 0xad;
            && (err == 0 <==> known && pkt[3] == 0 && pkt[4] == 0 && crcMatches)
            && (err == -4 <==> known && !(pkt[3] == 0 && pkt[4] == 0 && crcMatches))
  {
  }

  /** The verdict on any packet, the checks taken in their order: wholly mute, mute at one end, the
      data of two packets before again, a header that is not an encoder's, a codec header that is
      damaged; only then the number counts. */
  lemma VerdictByBytes(s: Pld, a: Arrival, pattern: bv8)
    requires a.offset < PACKET_SIZE
    ensures var t, known := Type(s, a, pattern), a.pkt[0] == 0x01 && a.pkt[1] in SEQ_BYTES && a.pkt[2] == 0xad;
            if a.pkt[..59] == seq(59, _ => pattern) then t == ControllerMute
            else if PartlyMuted(a.pkt, pattern, a.offset) then t == TransmitterOffset
            else if !s.conflict1 && s.older[..59] == a.pkt[..59] then t == BleConflict
            else if !known then t == HeaderError
            else if a.pkt[3] != 0 || a.pkt[4] != 0 || !a.crcMatches then t == CrcError
            else t == Pass || t == SequenceDiscontinue
  {
    hide Muted, PartlyMuted, SameData, ParseHeader;
    MutedIff(a.pkt, pattern);
    SameDataIff(s.older, a.pkt);
    HeaderBytes(a.pkt, a.crcMatches);
  }
}
