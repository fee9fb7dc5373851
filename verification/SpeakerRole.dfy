/** Master election between two speakers (apps/btspeaker/btspeaker_main.cpp).

Each speaker broadcasts a confirm frame with its own status and its view of the other; each
decides its role from the frame it receives.  The nested decision is shown to be a strict total
order on speakers, so that two devices deciding independently agree.
*/
module SpeakerRole {
  import opened Crc8

  datatype Role = Master | Slave | Unknown

  function Octet(b: bv8): (n: nat)
    ensures n < 256
  {
    b as int
  }

  /** SPEAKER_CONNECTION_STATUS_INFO_T: a byte of bit fields and the 16-bit setup time. */
  datatype Status = Status(flags: bv8, rtcLow: bv8, rtcHigh: bv8) {
    predicate AppActive() { flags & 0xf0 != 0 }
    predicate Mobile() { flags & 0x03 != 0 }
    function Rtc(): nat { Octet(rtcLow) + 256 * Octet(rtcHigh) }
  }

  datatype Speaker = Speaker(addr: Bytes, status: Status)

  // ---------------------------------------------------------------- the decision

  function ByTime(peer: Status, local: Status): Role {
    if peer.Rtc() > local.Rtc() then Master
    else if peer.Rtc() < local.Rtc() then Slave
    else Unknown
  }

  /** `app_speaker_decision_local_device_role`, branch by branch. */
  function Decide(peer: Status, local: Status): Role {
    if peer.AppActive() && local.AppActive() then
      if peer.Mobile() && local.Mobile() then ByTime(peer, local)
      else if peer.Mobile() then Slave
      else if local.Mobile() then Master
      else ByTime(peer, local)
    else if peer.AppActive() then Slave
    else if local.AppActive() then Master
    else
      if peer.Mobile() && local.Mobile() then ByTime(peer, local)
      else if peer.Mobile() then Slave
      else if local.Mobile() then Master
      else ByTime(peer, local)
  }

  /** The sign of `memcmp`: that of the first difference. */
  function Compare(a: Bytes, b: Bytes): int
    requires |a| == |b|
  {
    if a == [] then 0
    else if a[0] != b[0] then (if a[0] > b[0] then 1 else -1)
    else Compare(a[1..], b[1..])
  }

  // ---------------------------------------------------------------- confirm frames

  const FRAME_LEN := 20

  function StatusBytes(s: Status): (b: Bytes)
    ensures |b| == 3
  {
    [s.flags, s.rtcLow, s.rtcHigh]
  }

  function StatusFrom(b: Bytes): Status
    requires |b| == 3
  {
    Status(b[0], b[1], b[2])
  }

  predicate ValidSpeaker(s: Speaker) {
    |s.addr| == 6
  }

  /** What the sender fills in before the check byte: itself as local, the other as peer. */
  function ConfirmBody(own: Speaker, other: Speaker): (b: Bytes)
    requires ValidSpeaker(own) && ValidSpeaker(other)
    ensures |b| == FRAME_LEN - 1
  {
    [0x22] + own.addr + StatusBytes(own.status) + other.addr + StatusBytes(other.status)
  }

  function BuildConfirm(own: Speaker, other: Speaker): (f: Bytes)
    requires ValidSpeaker(own) && ValidSpeaker(other)
    ensures |f| == FRAME_LEN
  {
    ConfirmBody(own, other) + [Crc(ConfirmBody(own, other))]
  }

  /** `app_speaker_ble_scan_data_handle_tws_discovery_cfm` on a device with address `self`. */
  function HandleConfirm(f: Bytes, self: Bytes): Role
    requires |f| == FRAME_LEN && |self| == 6
  {
    if !Accepted(f) || f[10..16] != self then Unknown
    else
      var role := Decide(StatusFrom(f[7..10]), StatusFrom(f[16..19]));
      if role.Unknown? then (if Compare(f[1..7], f[10..16]) > 0 then Slave else Master)
      else role
  }

  // ---------------------------------------------------------------- the order

  /** Lexicographic precedence: active profile, mobile connection, earlier setup, larger address. */
  predicate Beats(a: Speaker, b: Speaker)
    requires ValidSpeaker(a) && ValidSpeaker(b)
  {
    if a.status.AppActive() != b.status.AppActive() then a.status.AppActive()
    else if a.status.Mobile() != b.status.Mobile() then a.status.Mobile()
    else if a.status.Rtc() != b.status.Rtc() then a.status.Rtc() < b.status.Rtc()
    else Compare(a.addr, b.addr) > 0
  }

  /** Nothing the decision looks at differs. */
  predicate Tied(a: Status, b: Status) {
    a.AppActive() == b.AppActive() && a.Mobile() == b.Mobile() && a.Rtc() == b.Rtc()
  }

  lemma {:induction false} CompareIsOrder(a: Bytes, b: Bytes, c: Bytes)
    requires |a| == |b| == |c|
    ensures Compare(a, b) == -Compare(b, a)
    ensures Compare(a, b) == 0 <==> a == b
    ensures Compare(a, b) > 0 && Compare(b, c) > 0 ==> Compare(a, c) > 0
  {
    if a != [] {
      CompareIsOrder(a[1..], b[1..], c[1..]);
      assert a == [a[0]] + a[1..] && b == [b[0]] + b[1..];
    }
  }

  lemma BeatsIsStrictTotalOrder(a: Speaker, b: Speaker, c: Speaker)
    requires ValidSpeaker(a) && ValidSpeaker(b) && ValidSpeaker(c)
    ensures !(Beats(a, b) && Beats(b, a))
    ensures Beats(a, b) && Beats(b, c) ==> Beats(a, c)
    ensures Beats(a, b) || Beats(b, a) <==> !(Tied(a.status, b.status) && a.addr == b.addr)
  {
    hide Compare;
    CompareIsOrder(a.addr, b.addr, c.addr);
  }

  /** A speaker that receives the other's frame takes the master role exactly when it is not beaten. */
  lemma ConfirmDecidesByOrder(own: Speaker, other: Speaker)
    requires ValidSpeaker(own) && ValidSpeaker(other)
    ensures HandleConfirm(BuildConfirm(own, other), other.addr) == if Beats(own, other) then Slave else Master
  {
    hide Crc, Compare;
    var body := ConfirmBody(own, other);
    var f := BuildConfirm(own, other);
    FrameParts(own, other);
    assert f[..FRAME_LEN - 1] == body && Accepted(f);
  }

  lemma FrameParts(own: Speaker, other: Speaker)
    requires ValidSpeaker(own) && ValidSpeaker(other)
    ensures var f := BuildConfirm(own, other);
            && f[1..7] == own.addr && f[10..16] == other.addr
            && StatusFrom(f[7..10]) == own.status && StatusFrom(f[16..19]) == other.status
  {
    hide Crc;
    var f := BuildConfirm(own, other);
    assert f[7..10] == StatusBytes(own.status);
    assert f[16..19] == StatusBytes(other.status);
  }

  /** Two speakers that see each other as they are: exactly one becomes master and the other slave,
      if and only if they differ in anything the decision looks at.  Otherwise both claim master. */
  lemma ExactlyOneMasterIff(a: Speaker, b: Speaker)
    requires ValidSpeaker(a) && ValidSpeaker(b)
    ensures var roleA := HandleConfirm(BuildConfirm(b, a), a.addr);
            var roleB := HandleConfirm(BuildConfirm(a, b), b.addr);
            && (roleA == Master <==> !Beats(b, a))
            && (roleB == Master <==> !Beats(a, b))
            && ((roleA == Master && roleB == Slave) || (roleA == Slave && roleB == Master)
                <==> !(Tied(a.status, b.status) && a.addr == b.addr))
  {
    hide HandleConfirm, BuildConfirm, Compare;
    ConfirmDecidesByOrder(a, b);
    ConfirmDecidesByOrder(b, a);
    BeatsIsStrictTotalOrder(a, b, a);
  }

  /** What decides, told from the bytes the speakers exchange: an active profile (the high half of the
      flags), then a mobile connection (their lowest two bits), then the earlier 16-bit setup time, then
      the first byte in which the addresses differ, the larger one winning. */
  ghost predicate Precedes(a: Speaker, b: Speaker)
    requires ValidSpeaker(a) && ValidSpeaker(b)
  {
    var x, y := a.status, b.status;
    var activeX, activeY := x.flags & 0xf0 != 0, y.flags & 0xf0 != 0;
    var mobileX, mobileY := x.flags & 0x03 != 0, y.flags & 0x03 != 0;
    || (activeX && !activeY)
    || (activeX == activeY && mobileX && !mobileY)
    || (activeX == activeY && mobileX == mobileY && EarlierTime(x, y))
    || (activeX == activeY && mobileX == mobileY && SameTime(x, y)
        && exists i: nat :: LargerFrom(a.addr, b.addr, i))
  }

  predicate EarlierTime(x: Status, y: Status) {
    || Octet(x.rtcHigh) < Octet(y.rtcHigh)
    || (Octet(x.rtcHigh) == Octet(y.rtcHigh) && Octet(x.rtcLow) < Octet(y.rtcLow))
  }

  predicate SameTime(x: Status, y: Status) {
    Octet(x.rtcHigh) == Octet(y.rtcHigh) && Octet(x.rtcLow) == Octet(y.rtcLow)
  }

  predicate LargerFrom(x: Bytes, y: Bytes, i: nat)
    requires |x| == |y|
  {
    i < |x| && x[..i] == y[..i] && x[i] > y[i]
  }

  lemma {:induction false} CompareIsFirstDifference(x: Bytes, y: Bytes)
    requires |x| == |y|
    ensures Compare(x, y) > 0 <==> exists i: nat :: LargerFrom(x, y, i)
  {
    if x != [] {
      var x', y' := x[1..], y[1..];
      CompareIsFirstDifference(x', y');
      if x[0] > y[0] {
        assert LargerFrom(x, y, 0);
      }
      forall i: nat | LargerFrom(x', y', i) && x[0] == y[0] ensures LargerFrom(x, y, i + 1) {
        assert x[..i + 1] == [x[0]] + x'[..i] && y[..i + 1] == [y[0]] + y'[..i];
      }
      forall i: nat | LargerFrom(x, y, i)
        ensures x[0] > y[0] || (x[0] == y[0] && i > 0 && LargerFrom(x', y', i - 1))
      {
        if i > 0 {
          assert x[..i][0] == x[0] && y[..i][0] == y[0];
          assert x'[..i - 1] == x[..i][1..] && y'[..i - 1] == y[..i][1..];
        }
      }
    }
  }

  lemma BeatsIsPrecedes(a: Speaker, b: Speaker)
    requires ValidSpeaker(a) && ValidSpeaker(b)
    ensures Beats(a, b) <==> Precedes(a, b)
  {
    hide Compare, LargerFrom;
    CompareIsFirstDifference(a.addr, b.addr);
    TimeIsBytes(a.status, b.status);
  }

  lemma TimeIsBytes(x: Status, y: Status)
    ensures x.Rtc() < y.Rtc() <==> EarlierTime(x, y)
    ensures x.Rtc() == y.Rtc() <==> SameTime(x, y)
  {
    hide Octet;
    HighByteFirst(Octet(x.rtcLow), Octet(x.rtcHigh), Octet(y.rtcLow), Octet(y.rtcHigh));
  }

  lemma HighByteFirst(lowX: nat, highX: nat, lowY: nat, highY: nat)
    requires lowX < 256 && lowY < 256
    ensures lowX + 256 * highX < lowY + 256 * highY <==> highX < highY || (highX == highY && lowX < lowY)
    ensures lowX + 256 * highX == lowY + 256 * highY <==> highX == highY && lowX == lowY
  {
  }

  /** Between two speakers that see each other as they are, the one that precedes becomes master. */
  lemma MasterPrecedes(a: Speaker, b: Speaker)
    requires ValidSpeaker(a) && ValidSpeaker(b)
    ensures HandleConfirm(BuildConfirm(b, a), a.addr) == if Precedes(b, a) then Slave else Master
  {
    hide HandleConfirm, BuildConfirm, Beats, Precedes;
    ConfirmDecidesByOrder(b, a);
    BeatsIsPrecedes(b, a);
  }

  /** For whatever each side believes about the other: exactly one becomes master and the other slave
      if and only if the two beliefs, as orders, do not contradict each other. */
  lemma ExactlyOneMasterByViewsIff(a: Speaker, b: Speaker, viewOfA: Speaker, viewOfB: Speaker)
    requires ValidSpeaker(a) && ValidSpeaker(b) && ValidSpeaker(viewOfA) && ValidSpeaker(viewOfB)
    requires viewOfA.addr == a.addr && viewOfB.addr == b.addr
    ensures var roleA := HandleConfirm(BuildConfirm(b, viewOfA), a.addr);
            var roleB := HandleConfirm(BuildConfirm(a, viewOfB), b.addr);
            && (roleA == Slave <==> Beats(b, viewOfA)) && (roleB == Slave <==> Beats(a, viewOfB))
            && ((roleA == Master && roleB == Slave) || (roleA == Slave && roleB == Master)
                <==> Beats(b, viewOfA) != Beats(a, viewOfB))
  {
    hide HandleConfirm, BuildConfirm, Beats;
    ConfirmDecidesByOrder(b, viewOfA);
    ConfirmDecidesByOrder(a, viewOfB);
  }

  /** Such a contradiction: each side holds an outdated setup time of the other, and both become
      master. */
  lemma OutdatedViewsCanSplit()
    ensures var a := Speaker([1, 0, 0, 0, 0, 0], Status(0, 5, 0));
            var b := Speaker([2, 0, 0, 0, 0, 0], Status(0, 6, 0));
            var olderA := a.(status := Status(0, 1, 0));
            var olderB := b.(status := Status(0, 1, 0));
            && HandleConfirm(BuildConfirm(b, olderA), a.addr) == Master
            && HandleConfirm(BuildConfirm(a, olderB), b.addr) == Master
  {
    hide HandleConfirm, BuildConfirm, Compare;
    var a := Speaker([1, 0, 0, 0, 0, 0], Status(0, 5, 0));
    var b := Speaker([2, 0, 0, 0, 0, 0], Status(0, 6, 0));
    ConfirmDecidesByOrder(b, a.(status := Status(0, 1, 0)));
    ConfirmDecidesByOrder(a, b.(status := Status(0, 1, 0)));
  }

  /** A frame damaged within eight neighbouring bits decides nothing. */
  lemma DamagedConfirmIsIgnored(own: Speaker, other: Speaker, self: Bytes, e: Bytes, i: nat, k: bv8)
    requires ValidSpeaker(own) && ValidSpeaker(other) && |self| == 6
    requires |e| == FRAME_LEN && Burst(e, i, k)
    ensures HandleConfirm(Xor(BuildConfirm(own, other), e), self) == Unknown
  {
    hide Crc;
    var f := BuildConfirm(own, other);
    assert f[..FRAME_LEN - 1] == ConfirmBody(own, other);
    BurstIsDetected(f, e, i, k);
  }

  /** A frame that names another speaker decides nothing. */
  lemma ForeignConfirmIsIgnored(own: Speaker, other: Speaker, self: Bytes)
    requires ValidSpeaker(own) && ValidSpeaker(other) && |self| == 6 && self != other.addr
    ensures HandleConfirm(BuildConfirm(own, other), self) == Unknown
  {
    hide Crc, Compare;
    FrameParts(own, other);
  }

  /** The frame byte by byte: both statuses are flags, then the setup time low byte first. */
  lemma FrameBytes(own: Speaker, other: Speaker)
    requires ValidSpeaker(own) && ValidSpeaker(other)
    ensures var f := BuildConfirm(own, other);
            && f[0] == 0x22 && f[1..7] == own.addr && f[10..16] == other.addr
            && f[7] == own.status.flags && f[8] == own.status.rtcLow && f[9] == own.status.rtcHigh
            && f[16] == other.status.flags && f[17] == other.status.rtcLow && f[18] == other.status.rtcHigh
            && f[19] == Crc(f[..19])
  {
    hide Crc;
    FrameParts(own, other);
    var f := BuildConfirm(own, other);
    assert f[..19] == ConfirmBody(own, other);
  }
}
