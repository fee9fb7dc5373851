/** Re-alignment of received SCO bytes: the delay line of apps/audioplayers/bt_sco_codec_cvsd.c and
the sliding packet windows of apps/audioplayers/bt_sco_codec_msbc.c.

Both keep the tail of one call for the next.  What the decoders see over any number of calls is
shown to be the received stream, shifted.
*/
module Realign {
  type Bytes = seq<bv8>

  method Move(dst: array<bv8>, at: nat, src: array<bv8>, from: nat, n: nat)
    requires at + n <= dst.Length && from + n <= src.Length
    requires dst == src ==> at <= from
    modifies dst
    ensures dst[..] == old(dst[..at] + src[from..from + n] + dst[at + n..])
  {
    ghost var head, data, tail := dst[..at], src[from..from + n], dst[at + n..];
    for i := 0 to n
      invariant dst[..at] == head && dst[at + n..] == tail
      invariant forall j :: 0 <= j < i ==> dst[at + j] == data[j]
      invariant forall j :: i <= j < n ==> src[from + j] == data[j]
    {
      dst[at + i] := src[from + i];
    }
    assert dst[at..at + n] == data;
    assert dst[..] == dst[..at] + dst[at..at + n] + dst[at + n..];
  }

  // ---------------------------------------------------------------- CVSD

  const CVSD_PACKET := 120
  const CVSD_MUTE: bv8 := 0x55

  predicate WholePackets(n: nat) {
    n % CVSD_PACKET == 0
  }

  lemma OnePacketLess(n: nat)
    requires WholePackets(n) && n > 0
    ensures n >= CVSD_PACKET && WholePackets(n - CVSD_PACKET)
  {
  }

  predicate MutePattern(s: Bytes) {
    forall i :: 0 <= i < |s| ==> s[i] == CVSD_MUTE
  }

  /** Which packets of `s` are concealed. */
  function MuteFlags(s: Bytes): seq<bool> {
    if |s| < CVSD_PACKET then []
    else
      var n := |s| - CVSD_PACKET;
      MuteFlags(s[..n]) + [MutePattern(s[n..])]
  }

  lemma FlagsSnoc(head: Bytes, packet: Bytes)
    requires |packet| == CVSD_PACKET
    ensures MuteFlags(head + packet) == MuteFlags(head) + [MutePattern(packet)]
  {
    assert (head + packet)[..|head|] == head && (head + packet)[|head|..] == packet;
  }

  lemma {:induction false} MuteFlagsAt(s: Bytes, k: nat)
    requires WholePackets(|s|) && CVSD_PACKET * (k + 1) <= |s|
    ensures CVSD_PACKET * |MuteFlags(s)| == |s| && k < |MuteFlags(s)|
    ensures MuteFlags(s)[k] <==> forall i :: 120 * k <= i < 120 * k + 120 ==> s[i] == 0x55
    decreases |s|
  {
    var n := |s| - CVSD_PACKET;
    OnePacketLess(|s|);
    FlagCount(s[..n]);
    hide WholePackets;
    if CVSD_PACKET * (k + 1) <= n {
      MuteFlagsAt(s[..n], k);
      hide MutePattern;
    } else {
      LastPacket(s, k);
      LastFlag(s);
      hide MuteFlags, MutePattern;
    }
  }

  lemma LastFlag(s: Bytes)
    requires |s| >= CVSD_PACKET
    ensures var n := |s| - CVSD_PACKET;
            && |MuteFlags(s)| == |MuteFlags(s[..n])| + 1
            && (MuteFlags(s)[|MuteFlags(s)| - 1] <==> forall i :: n <= i < |s| ==> s[i] == 0x55)
  {
    var n := |s| - CVSD_PACKET;
    var last := s[n..];
    assert forall i :: n <= i < |s| ==> s[i] == last[i - n];
    assert forall j :: 0 <= j < CVSD_PACKET ==> last[j] == s[n + j];
  }

  lemma LastPacket(s: Bytes, k: nat)
    requires WholePackets(|s|) && |s| - CVSD_PACKET < CVSD_PACKET * (k + 1) <= |s|
    ensures |s| == CVSD_PACKET * k + CVSD_PACKET
  {
  }

  lemma {:induction false} FlagCount(s: Bytes)
    requires WholePackets(|s|)
    ensures CVSD_PACKET * |MuteFlags(s)| == |s|
  {
    if |s| > 0 {
      OnePacketLess(|s|);
      FlagCount(s[..|s| - CVSD_PACKET]);
    }
  }

  class DelayLine {
    const offset: nat                      // CVSD_OFFSET_BYTES: 118 or 120
    const all: array<bv8>                  // cvsd_buf_all

    ghost predicate Valid() {
      offset <= CVSD_PACKET && all.Length == CVSD_PACKET + offset
    }

    /** The bytes held back for the next call. */
    ghost function Pending(): (p: Bytes)
      requires Valid()
      reads all
      ensures |p| == offset
    {
      all[..offset]
    }

    constructor (offset: nat)
      requires offset <= CVSD_PACKET
      ensures Valid() && fresh(all) && this.offset == offset
      ensures Pending() == Silence(offset)
    {
      this.offset := offset;
      all := new bv8[CVSD_PACKET + offset](_ => CVSD_MUTE);
    }

    /** The packet loop of `bt_sco_codec_cvsd_decoder`: the caller's bytes are replaced, packet by
        packet, by those to decode; `plc` tells which packets are concealed. */
    method Shift(buf: array<bv8>) returns (plc: seq<bool>)
      requires Valid() && buf != all && WholePackets(buf.Length)
      modifies all, buf
      ensures Valid() && buf[..] + Pending() == old(Pending() + buf[..])
      ensures plc == MuteFlags(buf[..])
    {
      plc := [];
      var at := 0;
      ghost var stream := Pending() + buf[..];
      assert buf[..0] + Pending() + buf[0..] == stream && MuteFlags(buf[..0]) == [];
      hide MuteFlags, MutePattern, WholePackets, Pending;
      while at < buf.Length
        invariant at <= buf.Length && WholePackets(buf.Length - at)
        invariant buf[..at] + Pending() + buf[at..] == stream
        invariant plc == MuteFlags(buf[..at])
      {
        OnePacketLess(buf.Length - at);
        ghost var head := buf[..at];
        var muted := ShiftAndCheck(buf, at);
        at := at + CVSD_PACKET;
        FlagsSnoc(head, buf[at - CVSD_PACKET..at]);
        assert buf[..at] == head + buf[at - CVSD_PACKET..at];
        plc := plc + [muted];
      }
      assert buf[..at] == buf[..] && buf[at..] == [];
    }

    /** One round of the loop. */
    method ShiftAndCheck(buf: array<bv8>, at: nat) returns (muted: bool)
      requires Valid() && buf != all && at + CVSD_PACKET <= buf.Length
      modifies all, buf
      ensures buf[..at] == old(buf[..at])
      ensures var next := at + CVSD_PACKET;
              buf[..next] + Pending() + buf[next..] == old(buf[..at] + Pending() + buf[at..])
      ensures muted <==> MutePattern(buf[at..at + CVSD_PACKET])
    {
      hide MutePattern;
      var next := at + CVSD_PACKET;
      ghost var head, held, x, rest := buf[..at], Pending(), buf[at..next], buf[next..];
      assert buf[at..] == x + rest;
      ShiftPacket(buf, at);
      muted := CheckMutePattern(buf, at);
      assert buf[..next] == head + buf[at..next];
      Exchange(head, held, x, buf[at..next], Pending(), rest);
    }

    method ShiftPacket(buf: array<bv8>, at: nat)
      requires Valid() && buf != all && at + CVSD_PACKET <= buf.Length
      modifies all, buf
      ensures buf[..at] == old(buf[..at]) && buf[at + CVSD_PACKET..] == old(buf[at + CVSD_PACKET..])
      ensures buf[at..at + CVSD_PACKET] + Pending() == old(Pending() + buf[at..at + CVSD_PACKET])
    {
      ghost var held, x := Pending(), buf[at..at + CVSD_PACKET];
      Move(all, offset, buf, at, CVSD_PACKET);
      assert all[..] == held + x;
      ghost var head, rest := buf[..at], buf[at + CVSD_PACKET..];
      Move(buf, at, all, 0, CVSD_PACKET);
      assert buf[..] == head + (held + x)[..CVSD_PACKET] + rest;
      Move(all, 0, all, CVSD_PACKET, offset);
      assert Pending() == (held + x)[CVSD_PACKET..];
    }
  }

  lemma Exchange(head: Bytes, held: Bytes, x: Bytes, y: Bytes, held': Bytes, rest: Bytes)
    requires y + held' == held + x
    ensures head + y + held' + rest == head + held + (x + rest)
  {
    assert head + y + held' == head + (y + held') == head + held + x;
  }

  /** `check_cvsd_mute_pattern` of the packet at `at`. */
  method CheckMutePattern(buf: array<bv8>, at: nat) returns (muted: bool)
    requires at + CVSD_PACKET <= buf.Length
    ensures muted <==> MutePattern(buf[at..at + CVSD_PACKET])
  {
    for i := 0 to CVSD_PACKET
      invariant MutePattern(buf[at..at + i])
    {
      if buf[at + i] != CVSD_MUTE {
        assert buf[at..at + CVSD_PACKET][i] != CVSD_MUTE;
        return false;
      }
    }
    return true;
  }

  function Silence(n: nat): (s: Bytes)
    ensures |s| == n && MutePattern(s)
  {
    seq(n, _ => CVSD_MUTE)
  }

  /** What any number of calls put out, given what is pending: each call's contract, composed. */
  function Delayed(pending: Bytes, calls: seq<Bytes>): Bytes
    decreases |calls|
  {
    if calls == [] then []
    else (pending + calls[0])[..|calls[0]|] + Delayed((pending + calls[0])[|calls[0]|..], calls[1..])
  }

  function Joined(calls: seq<Bytes>): Bytes {
    if calls == [] then [] else calls[0] + Joined(calls[1..])
  }

  lemma {:induction false} DelayedIsPrefix(pending: Bytes, calls: seq<Bytes>)
    ensures |Delayed(pending, calls)| == |Joined(calls)|
    ensures Delayed(pending, calls) <= pending + Joined(calls)
    decreases |calls|
  {
    if calls != [] {
      var n := |calls[0]|;
      var both := pending + calls[0];
      DelayedIsPrefix(both[n..], calls[1..]);
      assert pending + Joined(calls) == both[..n] + (both[n..] + Joined(calls[1..]));
    }
  }

  /** From power-on: the mute pattern for `offset` bytes, then exactly what was received. */
  lemma CvsdIsDelay(offset: nat, calls: seq<Bytes>)
    ensures Delayed(Silence(offset), calls) == (Silence(offset) + Joined(calls))[..|Joined(calls)|]
  {
    DelayedIsPrefix(Silence(offset), calls);
  }

  // ---------------------------------------------------------------- mSBC

  const MSBC_PACKET := 60
  const CELLS := 3 * MSBC_PACKET + 1

  /** Where the first window starts: offsets 0 and 1 are served from the packet just received. */
  function LowDelay(offset: nat): (low: nat)
    requires offset < MSBC_PACKET
    ensures low <= MSBC_PACKET || offset == 1
  {
    if offset <= 1 then offset + MSBC_PACKET else offset
  }

  /** One call's windows, back to back, over the buffer's cells. */
  function Windows(cells: Bytes, low: nat, size: nat): (w: Bytes)
    requires low + size <= |cells|
    ensures |w| == size
  {
    cells[low..low + size]
  }

  class WindowBuffer {
    const all: array<bv8>                  // msbc_buf_all
    const offset: nat                      // msbc_offset, with sync held

    ghost predicate Valid() {
      all.Length == CELLS && offset < MSBC_PACKET
    }

    constructor (offset: nat)
      requires offset < MSBC_PACKET
      ensures Valid() && fresh(all) && this.offset == offset
      ensures all[..] == seq(CELLS, _ => 0)
    {
      this.offset := offset;
      all := new bv8[CELLS](_ => 0);
    }

    /** The data path of `bt_sco_codec_msbc_decoder` for a call of whole packets, at most two, with
        sync held and no drift: load, cut out the windows, carry the tail. */
    method Extract(input: array<bv8>) returns (packets: seq<Bytes>)
      requires Valid() && input != all
      requires input.Length % MSBC_PACKET == 0 && input.Length <= 2 * MSBC_PACKET
      modifies all
      ensures Valid()
      ensures |packets| == input.Length / MSBC_PACKET
      ensures forall j :: 0 <= j < |packets| ==> |packets[j]| == MSBC_PACKET
      ensures Concat(packets) == Windows(old(Loaded(all[..], input[..])), LowDelay(offset), input.Length)
      ensures all[..] == Carried(old(all[..]), old(input[..]))
    {
      hide Concat;
      ghost var cells := Loaded(all[..], input[..]);
      Load(input);
      packets := Cut(input.Length);
      assert all[..] == cells;
      Move(all, 0, all, input.Length, MSBC_PACKET);
    }

    method Load(input: array<bv8>)
      requires Valid() && input != all && input.Length <= 2 * MSBC_PACKET
      modifies all
      ensures all[..] == old(Loaded(all[..], input[..]))
    {
      Move(all, MSBC_PACKET, input, 0, input.Length);
      assert old(input[0..input.Length]) == old(input[..]);
      assert old(all[..MSBC_PACKET]) == old(all[..])[..MSBC_PACKET];
      assert old(all[MSBC_PACKET + input.Length..]) == old(all[..])[MSBC_PACKET + input.Length..];
    }

    method Cut(size: nat) returns (packets: seq<Bytes>)
      requires Valid() && size % MSBC_PACKET == 0 && size <= 2 * MSBC_PACKET
      ensures |packets| == size / MSBC_PACKET
      ensures forall j :: 0 <= j < |packets| ==> |packets[j]| == MSBC_PACKET
      ensures Concat(packets) == Windows(all[..], LowDelay(offset), size)
    {
      var low := LowDelay(offset);
      packets := [];
      for j := 0 to size / MSBC_PACKET
        invariant |packets| == j && forall k :: 0 <= k < j ==> |packets[k]| == MSBC_PACKET
        invariant Concat(packets) == all[low..low + MSBC_PACKET * j]
      {
        hide Concat;
        var at := low + MSBC_PACKET * j;
        var packet := all[at..at + MSBC_PACKET];
        ConcatSnoc(packets, packet);
        assert all[low..at + MSBC_PACKET] == all[low..at] + packet;
        packets := packets + [packet];
      }
      assert all[low..low + size] == all[..][low..low + size];
    }
  }

  /** The cells after loading a call's bytes behind the carry. */
  function Loaded(cells: Bytes, input: Bytes): (r: Bytes)
    requires |cells| == CELLS && |input| <= 2 * MSBC_PACKET
    ensures |r| == CELLS
  {
    cells[..MSBC_PACKET] + input + cells[MSBC_PACKET + |input|..]
  }

  function Concat(packets: seq<Bytes>): Bytes {
    if packets == [] then [] else packets[0] + Concat(packets[1..])
  }

  lemma {:induction false} ConcatSnoc(packets: seq<Bytes>, p: Bytes)
    ensures Concat(packets + [p]) == Concat(packets) + p
  {
    if packets == [] {
      assert [p][1..] == [];
    } else {
      assert (packets + [p])[1..] == packets[1..] + [p];
      ConcatSnoc(packets[1..], p);
    }
  }

  /** The cells after a call, and what any number of calls extract. */
  function Carried(cells: Bytes, input: Bytes): (r: Bytes)
    requires |cells| == CELLS && |input| <= 2 * MSBC_PACKET
    ensures |r| == CELLS
  {
    var l := Loaded(cells, input);
    l[|input|..|input| + MSBC_PACKET] + l[MSBC_PACKET..]
  }

  ghost predicate Short(calls: seq<Bytes>) {
    forall i :: 0 <= i < |calls| ==> |calls[i]| <= 2 * MSBC_PACKET
  }

  function Extracted(cells: Bytes, low: nat, calls: seq<Bytes>): Bytes
    requires |cells| == CELLS && low <= MSBC_PACKET + 1 && Short(calls)
    decreases |calls|
  {
    if calls == [] then []
    else Windows(Loaded(cells, calls[0]), low, |calls[0]|)
         + Extracted(Carried(cells, calls[0]), low, calls[1..])
  }

  /** For every offset but 1 the windows tile the stream: from `low` bytes into the carry followed by
      everything received, without gap or overlap across any number of calls. */
  lemma {:induction false} WindowsTile(cells: Bytes, low: nat, calls: seq<Bytes>)
    requires |cells| == CELLS && low <= MSBC_PACKET && Short(calls)
    ensures var stream := cells[..MSBC_PACKET] + Joined(calls);
            Extracted(cells, low, calls) == stream[low..low + |Joined(calls)|]
    decreases |calls|
  {
    if calls == [] {
    } else {
      var x, rest := calls[0], Joined(calls[1..]);
      WindowsTile(Carried(cells, x), low, calls[1..]);
      ExtractedCons(cells, low, calls);
      hide *;
      OneCall(cells, x, low, rest);
    }
  }

  lemma ExtractedCons(cells: Bytes, low: nat, calls: seq<Bytes>)
    requires |cells| == CELLS && low <= MSBC_PACKET + 1 && Short(calls) && calls != []
    ensures Short(calls[1..]) && |calls[0]| <= 2 * MSBC_PACKET
    ensures Extracted(cells, low, calls) ==
              Windows(Loaded(cells, calls[0]), low, |calls[0]|) + Extracted(Carried(cells, calls[0]), low, calls[1..])
    ensures Joined(calls) == calls[0] + Joined(calls[1..])
  {
  }

  lemma OneCall(cells: Bytes, x: Bytes, low: nat, rest: Bytes)
    requires |cells| == CELLS && low <= MSBC_PACKET && |x| <= 2 * MSBC_PACKET
    ensures var stream := cells[..MSBC_PACKET] + (x + rest);
            var next := Carried(cells, x)[..MSBC_PACKET] + rest;
            stream[low..low + |x + rest|] == Windows(Loaded(cells, x), low, |x|) + next[low..low + |rest|]
  {
    var head := cells[..MSBC_PACKET] + x;
    LoadedIs(cells, x);
    assert Windows(Loaded(cells, x), low, |x|) == head[low..low + |x|];
    hide Loaded, Carried, Windows;
    var stream, next := cells[..MSBC_PACKET] + (x + rest), Carried(cells, x)[..MSBC_PACKET] + rest;
    assert stream == head + rest;
    assert stream[|x|..] == next;
    assert stream[low..low + |x|] == head[low..low + |x|];
    SplitEqual(head[low..low + |x|], next[low..low + |rest|], stream, next, low, |rest|);
  }

  lemma LoadedIs(cells: Bytes, x: Bytes)
    requires |cells| == CELLS && |x| <= 2 * MSBC_PACKET
    ensures var head := cells[..MSBC_PACKET] + x;
            && Loaded(cells, x)[..MSBC_PACKET + |x|] == head
            && Carried(cells, x)[..MSBC_PACKET] == head[|x|..]
            && Loaded(cells, x)[MSBC_PACKET + |x|..] == cells[MSBC_PACKET + |x|..]
            && Carried(cells, x)[MSBC_PACKET + |x|] == cells[MSBC_PACKET + |x|]
  {
    var l := Loaded(cells, x);
    assert l[..MSBC_PACKET + |x|] == cells[..MSBC_PACKET] + x;
    assert Carried(cells, x)[..MSBC_PACKET] == l[|x|..|x| + MSBC_PACKET];
  }

  // ---------------------------------------------------------------- offset 1

  /** Offset 1 needs one byte more than a call brings: the last byte of a call's last window is
      whatever the cell behind the received bytes holds. */
  lemma OneCallAtOffsetOne(cells: Bytes, x: Bytes, rest: Bytes)
    requires |cells| == CELLS && 0 < |x| <= 2 * MSBC_PACKET && rest != []
    ensures var stream := cells[..MSBC_PACKET] + (x + rest);
            var tail := Carried(cells, x)[..MSBC_PACKET] + rest;
            var low := LowDelay(1);
            && (stream[low..low + |x|] == Windows(Loaded(cells, x), low, |x|) <==> cells[MSBC_PACKET + |x|] == rest[0])
            && stream[low + |x|..] == tail[low..]
            && Carried(cells, x)[MSBC_PACKET + |x|] == cells[MSBC_PACKET + |x|]
  {
    LoadedIs(cells, x);
    LastByte(cells, x, rest);
    hide Loaded, Carried, Windows;
    var head := cells[..MSBC_PACKET] + x;
    assert cells[..MSBC_PACKET] + (x + rest) == head + rest;
    assert (head + rest)[|x|..] == head[|x|..] + rest;
  }

  lemma LastByte(cells: Bytes, x: Bytes, rest: Bytes)
    requires |cells| == CELLS && 0 < |x| <= 2 * MSBC_PACKET && rest != []
    ensures var stream, low := cells[..MSBC_PACKET] + (x + rest), LowDelay(1);
            stream[low..low + |x|] == Windows(Loaded(cells, x), low, |x|) <==> cells[MSBC_PACKET + |x|] == rest[0]
  {
    var low := LowDelay(1);
    var w, v := Windows(Loaded(cells, x), low, |x|), (cells[..MSBC_PACKET] + (x + rest))[low..low + |x|];
    assert w == x[1..] + [cells[MSBC_PACKET + |x|]];
    assert v == x[1..] + [rest[0]];
    hide Loaded, Windows;
    assert w[|x| - 1] == cells[MSBC_PACKET + |x|] && v[|x| - 1] == rest[0];
  }

  /** The bytes of the calls and the one behind them. */
  function Followed(calls: seq<Bytes>, next: bv8): (s: Bytes)
    ensures |s| == |Joined(calls)| + 1
  {
    Joined(calls) + [next]
  }

  /** At offset 1 the packets cut out of these calls are the stream's, from its second byte on. */
  ghost predicate TilesAtOne(cells: Bytes, calls: seq<Bytes>, next: bv8)
    requires |cells| == CELLS && Short(calls)
  {
    var stream := cells[..MSBC_PACKET] + Followed(calls, next);
    Extracted(cells, LowDelay(1), calls) == stream[LowDelay(1)..LowDelay(1) + |Joined(calls)|]
  }

  /** One call at a time: its last byte has to match, and the rest has to tile. */
  lemma TilesCons(cells: Bytes, calls: seq<Bytes>, next: bv8)
    requires |cells| == CELLS && Short(calls) && calls != [] && calls[0] != []
    ensures Short(calls[1..])
    ensures TilesAtOne(cells, calls, next) <==>
              cells[MSBC_PACKET + |calls[0]|] == Followed(calls[1..], next)[0]
              && TilesAtOne(Carried(cells, calls[0]), calls[1..], next)
    ensures Carried(cells, calls[0])[MSBC_PACKET + |calls[0]|] == cells[MSBC_PACKET + |calls[0]|]
  {
    hide Loaded, Carried, Windows, Extracted, Joined, Followed;
    var x, more, low := calls[0], calls[1..], LowDelay(1);
    var cells', rest := Carried(cells, x), Followed(more, next);
    var stream, tail := cells[..MSBC_PACKET] + (x + rest), cells'[..MSBC_PACKET] + rest;
    ExtractedCons(cells, low, calls);
    FollowedCons(calls, next);
    OneCallAtOffsetOne(cells, x, rest);
    SplitEqual(Windows(Loaded(cells, x), low, |x|), Extracted(cells', low, more), stream, tail, low, |Joined(more)|);
  }

  /** A call that brings nothing changes nothing. */
  lemma TilesEmptyCons(cells: Bytes, calls: seq<Bytes>, next: bv8)
    requires |cells| == CELLS && Short(calls) && calls != [] && calls[0] == []
    ensures Short(calls[1..]) && Carried(cells, calls[0]) == cells
    ensures TilesAtOne(cells, calls, next) <==> TilesAtOne(cells, calls[1..], next)
  {
    var low := LowDelay(1);
    assert Loaded(cells, []) == cells;
    assert Windows(cells, low, 0) == [];
    assert [] + Joined(calls[1..]) == Joined(calls[1..]);
    assert Carried(cells, []) == cells;
    hide Loaded, Carried, Windows;
    ExtractedCons(cells, low, calls);
    assert [] + Extracted(cells, low, calls[1..]) == Extracted(cells, low, calls[1..]);
  }

  /** The byte `n` cells behind the carry after the calls `before`: from the latest that brought more
      than `n` bytes. */
  function LeftBehind(cells: Bytes, before: seq<Bytes>, n: nat): bv8
    requires |cells| == CELLS && n <= 2 * MSBC_PACKET
  {
    if before == [] then cells[MSBC_PACKET + n]
    else
      var last := before[|before| - 1];
      if |last| > n then last[n] else LeftBehind(cells, before[..|before| - 1], n)
  }

  lemma {:induction false} LeftBehindCons(cells: Bytes, x: Bytes, before: seq<Bytes>, n: nat)
    requires |cells| == CELLS && n <= 2 * MSBC_PACKET && |x| <= 2 * MSBC_PACKET
    ensures LeftBehind(cells, [x] + before, n) == LeftBehind(Carried(cells, x), before, n)
    decreases |before|
  {
    var all := [x] + before;
    if before == [] {
      assert all[..0] == [] && all[|all| - 1] == x;
      assert LeftBehind(cells, all[..0], n) == cells[MSBC_PACKET + n];
    } else {
      hide Carried;
      var front := before[..|before| - 1];
      assert all[..|all| - 1] == [x] + front && all[|all| - 1] == before[|before| - 1];
      LeftBehindCons(cells, x, front, n);
    }
  }

  /** The last byte of call `i`'s last window is the stream's next byte. */
  predicate MeetsNext(cells: Bytes, calls: seq<Bytes>, next: bv8, i: nat)
    requires |cells| == CELLS && i < |calls| && |calls[i]| <= 2 * MSBC_PACKET
  {
    calls[i] != [] ==> LeftBehind(cells, calls[..i], |calls[i]|) == Followed(calls[i + 1..], next)[0]
  }

  lemma MeetsNextCons(cells: Bytes, calls: seq<Bytes>, next: bv8, i: nat)
    requires |cells| == CELLS && Short(calls) && 0 < i < |calls|
    ensures |calls[0]| <= 2 * MSBC_PACKET
    ensures MeetsNext(cells, calls, next, i) <==> MeetsNext(Carried(cells, calls[0]), calls[1..], next, i - 1)
  {
    hide Carried, LeftBehind, Followed;
    var rest := calls[1..];
    assert calls[..i] == [calls[0]] + rest[..i - 1];
    assert calls[i + 1..] == rest[i..];
    LeftBehindCons(cells, calls[0], rest[..i - 1], |calls[i]|);
  }

  /** For offset 1 and calls of any sizes, the windows tile the stream over any number of calls if and
      only if the byte each call finds behind its own is the one the stream goes on with. */
  lemma {:induction false} OffsetOneTilesIff(cells: Bytes, calls: seq<Bytes>, next: bv8)
    requires |cells| == CELLS && Short(calls)
    ensures TilesAtOne(cells, calls, next) <==> forall i :: 0 <= i < |calls| ==> MeetsNext(cells, calls, next, i)
    decreases |calls|
  {
    if calls == [] {
    } else {
      hide TilesAtOne, Carried, MeetsNext;
      var cells', rest := Carried(cells, calls[0]), calls[1..];
      FirstMeets(cells, calls, next);
      OffsetOneTilesIff(cells', rest, next);
      forall i | 0 < i < |calls|
        ensures MeetsNext(cells, calls, next, i) <==> MeetsNext(cells', rest, next, i - 1)
      {
        MeetsNextCons(cells, calls, next, i);
      }
      assert forall j :: 0 <= j < |rest| ==>
               (MeetsNext(cells', rest, next, j) <==> MeetsNext(cells, calls, next, j + 1));
    }
  }

  lemma FirstMeets(cells: Bytes, calls: seq<Bytes>, next: bv8)
    requires |cells| == CELLS && Short(calls) && calls != []
    ensures Short(calls[1..]) && |calls[0]| <= 2 * MSBC_PACKET
    ensures TilesAtOne(cells, calls, next) <==>
              MeetsNext(cells, calls, next, 0) && TilesAtOne(Carried(cells, calls[0]), calls[1..], next)
  {
    hide TilesAtOne, Carried, Followed;
    if calls[0] == [] {
      TilesEmptyCons(cells, calls, next);
    } else {
      TilesCons(cells, calls, next);
      assert calls[..0] == [];
    }
  }

  ghost predicate Uniform(calls: seq<Bytes>, n: nat) {
    forall i :: 0 <= i < |calls| ==> |calls[i]| == n
  }

  /** Every call after the first begins with `b`. */
  predicate Continue(calls: seq<Bytes>, b: bv8) {
    forall i :: 0 < i < |calls| ==> calls[i] != [] && calls[i][0] == b
  }

  /** For calls of one size: every call after the first, and the byte that follows the last, has to
      begin with the byte that lay behind the first call's bytes when they came in. */
  lemma {:induction false} UniformCallsTileIff(cells: Bytes, n: nat, calls: seq<Bytes>, next: bv8)
    requires |cells| == CELLS && 0 < n <= 2 * MSBC_PACKET && Uniform(calls, n)
    ensures Short(calls)
    ensures TilesAtOne(cells, calls, next) <==>
              calls == [] || (next == cells[MSBC_PACKET + n] && Continue(calls, cells[MSBC_PACKET + n]))
    decreases |calls|
  {
    if calls == [] {
    } else {
      hide TilesAtOne, Carried, Followed, Continue;
      UniformCallsTileIff(Carried(cells, calls[0]), n, calls[1..], next);
      TilesCons(cells, calls, next);
      FirstOfRest(calls[1..], next);
      ContinueCons(calls, cells[MSBC_PACKET + n]);
    }
  }

  lemma FollowedCons(calls: seq<Bytes>, next: bv8)
    requires calls != []
    ensures Followed(calls, next) == calls[0] + Followed(calls[1..], next)
  {
  }

  lemma SplitEqual(w: Bytes, e: Bytes, stream: Bytes, tail: Bytes, low: nat, m: nat)
    requires low + |w| + m <= |stream| && low + m <= |tail| && stream[low + |w|..] == tail[low..]
    ensures w + e == stream[low..low + (|w| + m)] <==> w == stream[low..low + |w|] && e == tail[low..low + m]
  {
    var s := stream[low..low + (|w| + m)];
    assert s[..|w|] == stream[low..low + |w|];
    assert s[|w|..] == stream[low + |w|..][..m] == tail[low..][..m] == tail[low..low + m];
    assert s == s[..|w|] + s[|w|..];
    assert (w + e)[..|w|] == w && (w + e)[|w|..] == e;
  }

  lemma FirstOfRest(calls: seq<Bytes>, next: bv8)
    requires calls != [] ==> calls[0] != []
    ensures Followed(calls, next)[0] == if calls == [] then next else calls[0][0]
  {
  }

  lemma ContinueCons(calls: seq<Bytes>, b: bv8)
    requires calls != [] && forall i :: 0 <= i < |calls| ==> calls[i] != []
    ensures Continue(calls, b) <==> (|calls| > 1 ==> calls[1][0] == b) && Continue(calls[1..], b)
  {
    if Continue(calls[1..], b) {
      assert forall i :: 1 < i < |calls| ==> calls[i] == calls[1..][i - 1];
    }
  }

  /** Such a stream: from power-on, one packet of ones with a one behind it. */
  lemma OffsetOneCanFail(calls: seq<Bytes>)
    requires calls == [seq(MSBC_PACKET, _ => 1)]
    ensures Short(calls) && !TilesAtOne(seq(CELLS, _ => 0), calls, 1)
  {
    UniformCallsTileIff(seq(CELLS, _ => 0), MSBC_PACKET, calls, 1);
  }
}
