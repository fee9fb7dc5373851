/** What the packet windows of apps/audioplayers/bt_sco_codec_msbc.c make of the stream of an encoder
that arrives late: for every offset and every division into calls, the encoder's packets.
*/
module WindowStream {
  import opened Realign
  import ScoPackets

  // ---------------------------------------------------------------- an encoder's stream at offset 1

  /** Calls of whole packets, as the code assumes: none, one or two. */
  ghost predicate WholeCalls(calls: seq<Bytes>) {
    forall i :: 0 <= i < |calls| ==> |calls[i]| == 0 || |calls[i]| == MSBC_PACKET || |calls[i]| == 2 * MSBC_PACKET
  }

  function PacketsIn(x: Bytes): nat {
    if x == [] then 0 else if |x| == MSBC_PACKET then 1 else 2
  }

  function PacketsOf(calls: seq<Bytes>): nat {
    if calls == [] then 0 else PacketsIn(calls[0]) + PacketsOf(calls[1..])
  }

  lemma {:induction false} JoinedLength(calls: seq<Bytes>)
    requires WholeCalls(calls)
    ensures |Joined(calls)| == MSBC_PACKET * PacketsOf(calls)
  {
    if calls != [] {
      JoinedLength(calls[1..]);
    }
  }

  lemma {:induction false} JoinedSplit(calls: seq<Bytes>, next: bv8, i: nat)
    requires i <= |calls|
    ensures Followed(calls, next) == Joined(calls[..i]) + Followed(calls[i..], next)
    decreases i
  {
    hide Followed;
    if i == 0 {
      assert calls[..0] == [] && calls[0..] == calls;
    } else {
      var rest := calls[1..];
      JoinedSplit(rest, next, i - 1);
      FollowedCons(calls, next);
      assert calls[..i][1..] == rest[..i - 1] && rest[i - 1..] == calls[i..];
    }
  }

  /** Byte 60 k of a stream behind one foreign byte ends packet k - 1. */
  lemma PaddingBehind(whole: Bytes, first: bv8, p: nat, payloads: seq<ScoPackets.Payload>, k: nat)
    requires whole == [first] + ScoPackets.Stream(p, payloads) && 0 < k && MSBC_PACKET * k < |whole|
    ensures whole[MSBC_PACKET * k] == 0
  {
    ScoPackets.StreamAt(p, payloads, k - 1);
    var s := ScoPackets.Stream(p, payloads);
    assert s[MSBC_PACKET * (k - 1)..MSBC_PACKET * k][MSBC_PACKET - 1] == s[MSBC_PACKET * k - 1];
    hide ScoPackets.Stream;
  }

  /** Byte `60 k` of call `i`, if it is not the stream's first, or the byte behind the calls before `i`. */
  lemma PaddingInCall(calls: seq<Bytes>, next: bv8, first: bv8, p: nat, payloads: seq<ScoPackets.Payload>,
                      i: nat, k: nat)
    requires WholeCalls(calls) && Followed(calls, next) == [first] + ScoPackets.Stream(p, payloads)
    requires i <= |calls| && PacketsOf(calls[..i]) + k > 0
    requires MSBC_PACKET * k < |Followed(calls[i..], next)|
    ensures Followed(calls[i..], next)[MSBC_PACKET * k] == 0
  {
    hide Followed, ScoPackets.Stream, PacketsOf, Joined;
    JoinedSplit(calls, next, i);
    JoinedLength(calls[..i]);
    PaddingBehind(Followed(calls, next), first, p, payloads, PacketsOf(calls[..i]) + k);
  }

  lemma {:induction false} LeftBehindIsPadding(calls: seq<Bytes>, next: bv8, first: bv8, p: nat,
                                               payloads: seq<ScoPackets.Payload>, i: nat, k: nat)
    requires WholeCalls(calls) && Followed(calls, next) == [first] + ScoPackets.Stream(p, payloads)
    requires i <= |calls| && 1 <= k <= 2
    ensures LeftBehind(seq(CELLS, _ => 0), calls[..i], MSBC_PACKET * k) == 0
    decreases i
  {
    hide Followed, ScoPackets.Stream, PacketsOf;
    if i > 0 {
      var last := calls[i - 1];
      assert calls[..i][..i - 1] == calls[..i - 1] && calls[..i][i - 1] == last;
      LeftBehindIsPadding(calls, next, first, p, payloads, i - 1, k);
      if |last| > MSBC_PACKET * k {
        FollowedCons(calls[i - 1..], next);
        PaddingInCall(calls, next, first, p, payloads, i - 1, k);
      }
    }
  }

  lemma {:induction false} PacketsOfSnoc(calls: seq<Bytes>, x: Bytes)
    ensures PacketsOf(calls + [x]) == PacketsOf(calls) + PacketsIn(x)
  {
    if calls == [] {
      assert [x][1..] == [];
    } else {
      assert (calls + [x])[1..] == calls[1..] + [x];
      PacketsOfSnoc(calls[1..], x);
    }
  }

  lemma EncoderStreamMeetsNext(calls: seq<Bytes>, next: bv8, first: bv8, p: nat,
                               payloads: seq<ScoPackets.Payload>, i: nat)
    requires WholeCalls(calls) && Followed(calls, next) == [first] + ScoPackets.Stream(p, payloads)
    requires i < |calls|
    ensures MeetsNext(seq(CELLS, _ => 0), calls, next, i)
  {
    hide Followed, ScoPackets.Stream, PacketsOf, LeftBehind;
    var x := calls[i];
    if x != [] {
      LeftBehindIsPadding(calls, next, first, p, payloads, i, PacketsIn(x));
      assert calls[..i + 1] == calls[..i] + [x];
      PacketsOfSnoc(calls[..i], x);
      PaddingInCall(calls, next, first, p, payloads, i + 1, 0);
    }
  }

  /** From power-on those cells are 0, which is also the padding byte of every packet.  So a stream that
      an encoder numbered, arriving one byte late in calls of whole packets of any sizes, comes out
      packet by packet even at offset 1. */
  lemma OffsetOneTilesEncoderStream(calls: seq<Bytes>, next: bv8, first: bv8, p: nat,
                                    payloads: seq<ScoPackets.Payload>)
    requires WholeCalls(calls)
    requires Followed(calls, next) == [first] + ScoPackets.Stream(p, payloads)
    ensures Short(calls)
    ensures Extracted(seq(CELLS, _ => 0), LowDelay(1), calls) == ScoPackets.Stream(p, payloads)
  {
    var cells: Bytes := seq(CELLS, _ => 0);
    var s := ScoPackets.Stream(p, payloads);
    hide WholeCalls, Followed, MeetsNext, Extracted, ScoPackets.Stream;
    forall i | 0 <= i < |calls| ensures |calls[i]| <= 2 * MSBC_PACKET && MeetsNext(cells, calls, next, i) {
      WholeIsShort(calls, i);
      EncoderStreamMeetsNext(calls, next, first, p, payloads, i);
    }
    OffsetOneTilesIff(cells, calls, next);
    assert (cells[..MSBC_PACKET] + ([first] + s))[LowDelay(1)..LowDelay(1) + |s|] == s;
  }

  lemma WholeIsShort(calls: seq<Bytes>, i: nat)
    requires WholeCalls(calls) && i < |calls|
    ensures |calls[i]| <= 2 * MSBC_PACKET
  {
  }

  // ---------------------------------------------------------------- an encoder's stream at every offset

  lemma {:induction false} StreamPrefix(p: nat, payloads: seq<ScoPackets.Payload>, m: nat)
    requires m <= |payloads|
    ensures ScoPackets.Stream(p, payloads)[..MSBC_PACKET * m] == ScoPackets.Stream(p, payloads[..m])
    decreases |payloads|
  {
    var n := |payloads| - 1;
    if m <= n {
      StreamPrefix(p, payloads[..n], m);
      assert payloads[..n][..m] == payloads[..m];
      assert ScoPackets.Stream(p, payloads)[..MSBC_PACKET * n] == ScoPackets.Stream(p, payloads[..n]);
    } else {
      assert payloads[..m] == payloads;
    }
  }

  /** Window `w` of what the calls bring out. */
  function Window(e: Bytes, w: nat): Bytes
    requires MSBC_PACKET * (w + 1) <= |e|
  {
    e[MSBC_PACKET * w..MSBC_PACKET * (w + 1)]
  }

  /** The calls bring `foreign` bytes and then packets `p`, `p + 1`, ..., possibly not to their end. */
  ghost predicate Arrives(calls: seq<Bytes>, foreign: Bytes, p: nat, payloads: seq<ScoPackets.Payload>) {
    WholeCalls(calls) && Joined(calls) <= foreign + ScoPackets.Stream(p, payloads)
  }

  lemma WholeIsShortAll(calls: seq<Bytes>)
    requires WholeCalls(calls)
    ensures Short(calls)
  {
  }

  /** Behind the carry and the foreign bytes lies the stream. */
  lemma CutOut(e: Bytes, head: Bytes, j: Bytes, foreign: Bytes, s: Bytes, low: nat, u: nat, a: nat)
    requires |e| == |j| && low <= |head| && e == (head + j)[low..low + |j|] && j <= foreign + s
    requires low + u == |head| + |foreign| + a
    requires u + MSBC_PACKET <= |e| && |foreign| + a + MSBC_PACKET <= |j|
    ensures a + MSBC_PACKET <= |s| && e[u..u + MSBC_PACKET] == s[a..a + MSBC_PACKET]
  {
    var x, y := e[u..u + MSBC_PACKET], s[a..a + MSBC_PACKET];
    forall k | 0 <= k < MSBC_PACKET ensures x[k] == y[k] {
      assert x[k] == (head + j)[low + u + k] == j[|foreign| + a + k] == (foreign + s)[|foreign| + a + k];
    }
  }

  lemma StreamWindow(e: Bytes, head: Bytes, j: Bytes, foreign: Bytes, p: nat, payloads: seq<ScoPackets.Payload>,
                     low: nat, w: nat, i: nat)
    requires |head| == MSBC_PACKET && |e| == |j| && low <= MSBC_PACKET && e == (head + j)[low..low + |j|]
    requires j <= foreign + ScoPackets.Stream(p, payloads)
    requires low + MSBC_PACKET * w == MSBC_PACKET + |foreign| + MSBC_PACKET * i
    requires MSBC_PACKET * (w + 1) <= |e| && |foreign| + MSBC_PACKET * (i + 1) <= |j|
    ensures i < |payloads| && Window(e, w) == ScoPackets.Stamp(p + i, payloads[i])
  {
    hide ScoPackets.Stream, ScoPackets.Stamp;
    CutOut(e, head, j, foreign, ScoPackets.Stream(p, payloads), low, MSBC_PACKET * w, MSBC_PACKET * i);
    assert MSBC_PACKET * (i + 1) <= MSBC_PACKET * |payloads|;
    ScoPackets.StreamAt(p, payloads, i);
  }

  lemma LaterWindow(offset: nat, calls: seq<Bytes>, foreign: Bytes, p: nat, payloads: seq<ScoPackets.Payload>, w: nat)
    requires offset < MSBC_PACKET && offset != 1 && |foreign| == offset && Arrives(calls, foreign, p, payloads)
    requires MSBC_PACKET * (w + 1) <= |Joined(calls)| && (offset > 1 ==> w > 0)
    ensures var i := if offset == 0 then w else w - 1;
            && Short(calls) && |Extracted(seq(CELLS, _ => 0), LowDelay(offset), calls)| == |Joined(calls)|
            && i < |payloads|
            && Window(Extracted(seq(CELLS, _ => 0), LowDelay(offset), calls), w) == ScoPackets.Stamp(p + i, payloads[i])
  {
    var cells: Bytes := seq(CELLS, _ => 0);
    var i := if offset == 0 then w else w - 1;
    WholeIsShortAll(calls);
    WindowsTile(cells, LowDelay(offset), calls);
    assert Joined(calls) <= foreign + ScoPackets.Stream(p, payloads);
    var e, low := Extracted(cells, LowDelay(offset), calls), LowDelay(offset);
    hide *;
    StreamWindow(e, cells[..MSBC_PACKET], Joined(calls), foreign, p, payloads, low, w, i);
  }

  lemma WindowAtOffsetOne(calls: seq<Bytes>, foreign: Bytes, p: nat, payloads: seq<ScoPackets.Payload>, w: nat)
    requires |foreign| == 1 && Arrives(calls, foreign, p, payloads)
    requires MSBC_PACKET * (w + 1) <= |Joined(calls)|
    ensures Short(calls) && |Extracted(seq(CELLS, _ => 0), LowDelay(1), calls)| == |Joined(calls)|
    ensures w < |payloads|
    ensures Window(Extracted(seq(CELLS, _ => 0), LowDelay(1), calls), w) == ScoPackets.Stamp(p + w, payloads[w])
  {
    var m := PacketsOf(calls);
    JoinedLength(calls);
    hide Joined, Extracted, ScoPackets.Stream, WholeCalls, ScoPackets.Stamp, PacketsOf;
    var j, s := Joined(calls), ScoPackets.Stream(p, payloads);
    assert j == (foreign + s)[..|j|];
    StreamPrefix(p, payloads, m);
    var t := ScoPackets.Stream(p, payloads[..m]);
    var next := t[|t| - 1];
    assert Followed(calls, next) == [foreign[0]] + t by {
      assert foreign == [foreign[0]];
      assert t == t[..|t| - 1] + [next];
    }
    OffsetOneTilesEncoderStream(calls, next, foreign[0], p, payloads[..m]);
    ScoPackets.StreamAt(p, payloads[..m], w);
  }

  /** For every offset: what arrives that many bytes late is cut into the stream's own packets, over
      every division into calls; at offsets 0 and 1 from the first window on, otherwise behind one
      window of silence and the foreign bytes. */
  lemma EveryOffsetCutsPackets(offset: nat, calls: seq<Bytes>, foreign: Bytes, p: nat,
                               payloads: seq<ScoPackets.Payload>, w: nat)
    requires offset < MSBC_PACKET && |foreign| == offset && Arrives(calls, foreign, p, payloads)
    requires MSBC_PACKET * (w + 1) <= |Joined(calls)|
    ensures Short(calls) && |Extracted(seq(CELLS, _ => 0), LowDelay(offset), calls)| == |Joined(calls)|
    ensures var e := Extracted(seq(CELLS, _ => 0), LowDelay(offset), calls);
            if offset <= 1 then w < |payloads| && Window(e, w) == ScoPackets.Stamp(p + w, payloads[w])
            else if w == 0 then Window(e, w) == seq(MSBC_PACKET - offset, _ => 0) + foreign
            else w - 1 < |payloads| && Window(e, w) == ScoPackets.Stamp(p + (w - 1), payloads[w - 1])
  {
    hide Extracted, Arrives, Window, Joined, ScoPackets.Stamp;
    if offset == 1 {
      WindowAtOffsetOne(calls, foreign, p, payloads, w);
    } else if offset == 0 || w > 0 {
      LaterWindow(offset, calls, foreign, p, payloads, w);
    } else {
      FirstWindow(offset, calls, foreign, p, payloads);
    }
  }

  lemma FirstWindow(offset: nat, calls: seq<Bytes>, foreign: Bytes, p: nat, payloads: seq<ScoPackets.Payload>)
    requires 1 < offset < MSBC_PACKET && |foreign| == offset && Arrives(calls, foreign, p, payloads)
    requires MSBC_PACKET <= |Joined(calls)|
    ensures Short(calls) && |Extracted(seq(CELLS, _ => 0), LowDelay(offset), calls)| == |Joined(calls)|
    ensures Window(Extracted(seq(CELLS, _ => 0), LowDelay(offset), calls), 0)
            == seq(MSBC_PACKET - offset, _ => 0) + foreign
  {
    var cells: Bytes := seq(CELLS, _ => 0);
    WholeIsShortAll(calls);
    WindowsTile(cells, LowDelay(offset), calls);
    var j, s := Joined(calls), ScoPackets.Stream(p, payloads);
    assert j <= foreign + s;
    hide Joined, Extracted, ScoPackets.Stream, WholeCalls, Arrives;
    SilenceFirst(j, foreign, s, offset);
  }

  lemma SilenceFirst(j: Bytes, foreign: Bytes, s: Bytes, offset: nat)
    requires 1 < offset < MSBC_PACKET && |foreign| == offset && j <= foreign + s && |j| >= MSBC_PACKET
    ensures var stream: Bytes := seq(CELLS, _ => 0)[..MSBC_PACKET] + j;
            stream[offset..offset + |j|][..MSBC_PACKET] == seq(MSBC_PACKET - offset, _ => 0) + foreign
  {
    var silence: Bytes := seq(CELLS, _ => 0);
    assert j[..offset] == foreign;
    assert silence[..MSBC_PACKET][offset..] == seq(MSBC_PACKET - offset, _ => 0);
  }
}
