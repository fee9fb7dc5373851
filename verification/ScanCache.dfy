/** The three-entry cache of discovered speakers (apps/btspeaker/btspeaker_main.cpp): found by
address, filled front to back, and when full giving way to stronger signals.
*/
module ScanCache {
  import opened Crc8
  import opened Wrappers

  const SIZE := 3
  const CONFIRM_THRESHOLD := 5

  type Address = seq<bv8>

  datatype Entry = Entry(used: bool, rssi: int, addr: Address, status: Bytes, cnt: nat)

  /** A discovery advert; `valid` is that its check byte and product type are right. */
  datatype Advert = Advert(valid: bool, rssi: int, addr: Address, status: Bytes)

  /** Operation, product, three bytes of connection status, the address, the check byte. */
  const FRAME_LEN := 12
  const PRODUCT_TYPE: bv8 := 0

  /** A received discovery frame. */
  function Parse(rssi: int, f: Bytes): Advert
    requires |f| == FRAME_LEN
  {
    Advert(Accepted(f) && f[1] & 0x0f == PRODUCT_TYPE, rssi, f[5..11], f[2..5])
  }

  const EMPTY := Entry(false, 0, [], [], 0)
  const CLEARED: seq<Entry> := [EMPTY, EMPTY, EMPTY]

  // ---------------------------------------------------------------- what one advert does

  /** The first place from `i` on that is free or holds `addr`. */
  function Place(t: seq<Entry>, addr: Address, i: nat): (p: nat)
    requires i <= |t|
    ensures i <= p <= |t|
    ensures p < |t| ==> !t[p].used || t[p].addr == addr
    ensures forall j :: i <= j < p ==> t[j].used && t[j].addr != addr
    decreases |t| - i
  {
    if i == |t| || !t[i].used || t[i].addr == addr then i else Place(t, addr, i + 1)
  }

  /** The first of the weakest among the first `n` entries. */
  function Weakest(t: seq<Entry>, n: nat): (w: nat)
    requires 1 <= n <= |t|
    ensures w < n
    ensures forall j :: 0 <= j < n ==> t[w].rssi <= t[j].rssi
    ensures forall j :: 0 <= j < w ==> t[w].rssi < t[j].rssi
  {
    if n == 1 then 0
    else
      var w := Weakest(t, n - 1);
      if t[n - 1].rssi < t[w].rssi then n - 1 else w
  }

  function Fresh(a: Advert): Entry {
    Entry(true, a.rssi, a.addr, a.status, 1)
  }

  function Again(e: Entry, a: Advert): Entry {
    e.(rssi := a.rssi, status := a.status, cnt := (e.cnt + 1) % 0x1_0000)
  }

  /** The entry an advert is recorded in; the table size when it is not recorded. */
  function Target(t: seq<Entry>, a: Advert): (i: nat)
    requires |t| == SIZE
    ensures i <= SIZE
  {
    var p := Place(t, a.addr, 0);
    if !a.valid then SIZE
    else if p < SIZE then p
    else if a.rssi >= t[Weakest(t, SIZE)].rssi then Weakest(t, SIZE)
    else SIZE
  }

  function Record(t: seq<Entry>, a: Advert): (t': seq<Entry>)
    requires |t| == SIZE
    ensures |t'| == SIZE
  {
    var i := Target(t, a);
    if i == SIZE then t
    else t[i := if t[i].used && t[i].addr == a.addr then Again(t[i], a) else Fresh(a)]
  }

  // ---------------------------------------------------------------- the code

  class Table {
    const entries: array<Entry>

    constructor ()
      ensures fresh(entries) && entries[..] == CLEARED
    {
      entries := new Entry[SIZE](_ => EMPTY);
    }

    /** `app_speaker_ble_scan_data_handle_tws_discovery_ind`. */
    method HandleDiscovery(rssi: int, f: Bytes) returns (confirm: bool)
      requires entries.Length == SIZE && |f| == FRAME_LEN
      modifies entries
      ensures entries[..] == Record(old(entries[..]), Parse(rssi, f))
      ensures var i := Target(old(entries[..]), Parse(rssi, f));
              confirm <==> i < SIZE && entries[i].cnt >= 5
    {
      hide Crc;
      confirm := false;
      var check := Calculate(f[..FRAME_LEN - 1]);
      if f[FRAME_LEN - 1] != check || f[1] & 0x0f != PRODUCT_TYPE {
        return;
      }
      confirm := Enter(Parse(rssi, f));
    }

    /** A frame that is one of ours. */
    method Enter(a: Advert) returns (confirm: bool)
      requires entries.Length == SIZE && a.valid
      modifies entries
      ensures entries[..] == Record(old(entries[..]), a)
      ensures var i := Target(old(entries[..]), a);
              confirm <==> i < SIZE && entries[i].cnt >= 5
    {
      confirm := false;
      ghost var t := entries[..];
      var minRssi := entries[0].rssi;
      var found := 0;
      var index := 0;
      while index < SIZE
        invariant index <= SIZE && found < SIZE && entries[..] == t
        invariant Place(t, a.addr, 0) == Place(t, a.addr, index)
        invariant index == 0 ==> found == 0 && minRssi == t[0].rssi
        invariant index > 0 ==> found == Weakest(t, index) && minRssi == t[found].rssi
      {
        if !entries[index].used {
          entries[index] := Fresh(a);
          confirm := entries[index].cnt >= CONFIRM_THRESHOLD;
          return;
        } else if entries[index].addr == a.addr {
          entries[index] := Again(entries[index], a);
          confirm := entries[index].cnt >= CONFIRM_THRESHOLD;
          return;
        } else if entries[index].rssi < minRssi {
          minRssi := entries[index].rssi;
          found := index;
        }
        index := index + 1;
      }
      if a.rssi >= minRssi {
        entries[found] := Fresh(a);
        confirm := entries[found].cnt >= CONFIRM_THRESHOLD;
      }
    }

    /** `app_speaker_scan_cache_table_max_recv_cnt_index_get`: the speaker to confirm. */
    method MaxCountIndex() returns (best: nat)
      requires entries.Length == SIZE
      ensures best < SIZE
      ensures forall j :: 0 <= j < SIZE ==> entries[j].cnt <= entries[best].cnt
      ensures forall j :: 0 <= j < best ==> entries[j].cnt < entries[best].cnt
    {
      var maxCnt := entries[0].cnt;
      best := 0;
      for i := 1 to SIZE
        invariant best < i && maxCnt == entries[best].cnt
        invariant forall j :: 0 <= j < i ==> entries[j].cnt <= maxCnt
        invariant forall j :: 0 <= j < best ==> entries[j].cnt < maxCnt
      {
        if entries[i].cnt > maxCnt {
          best := i;
          maxCnt := entries[i].cnt;
        }
      }
    }
  }

  // ---------------------------------------------------------------- every reachable table

  function Exec(advs: seq<Advert>): (t: seq<Entry>)
    ensures |t| == SIZE
  {
    if advs == [] then CLEARED else Record(Exec(advs[..|advs| - 1]), advs[|advs| - 1])
  }

  /** When each entry was last filled with a new address. */
  function Born(advs: seq<Advert>): (b: seq<nat>)
    ensures |b| == SIZE
  {
    if advs == [] then [0, 0, 0]
    else
      var prev, a := advs[..|advs| - 1], advs[|advs| - 1];
      var t, i := Exec(prev), Target(Exec(prev), a);
      if i == SIZE || (t[i].used && t[i].addr == a.addr) then Born(prev) else Born(prev)[i := |prev|]
  }

  /** Valid adverts from `addr`, from the one numbered `from` on. */
  function Heard(advs: seq<Advert>, addr: Address, from: nat): nat {
    if |advs| <= from then 0
    else
      var a := advs[|advs| - 1];
      Heard(advs[..|advs| - 1], addr, from) + if a.valid && a.addr == addr then 1 else 0
  }

  /** The latest valid advert from `addr`. */
  function Latest(advs: seq<Advert>, addr: Address): Option<Advert> {
    if advs == [] then None
    else
      var a := advs[|advs| - 1];
      if a.valid && a.addr == addr then Some(a) else Latest(advs[..|advs| - 1], addr)
  }

  /** Used entries come first and have different addresses. */
  predicate Shape(t: seq<Entry>) {
    && |t| == SIZE
    && (forall i, j :: 0 <= i < j < SIZE && t[j].used ==> t[i].used)
    && (forall i, j :: 0 <= i < j < SIZE && t[j].used ==> t[i].addr != t[j].addr)
  }

  lemma RecordKeepsShape(t: seq<Entry>, a: Advert)
    requires Shape(t)
    ensures Shape(Record(t, a))
  {
    var p := Place(t, a.addr, 0);
    assert forall j :: 0 <= j < SIZE && t[j].used && t[j].addr == a.addr ==> j == p;
  }

  /** Eviction happens only in a full table, of the weakest signal, for one at least as strong; and
      an advert changes no entry but its own. */
  lemma EvictsOnlyWeakest(t: seq<Entry>, a: Advert, i: nat)
    requires Shape(t) && i < SIZE && t[i].used
    ensures var t' := Record(t, a);
            t'[i].addr != t[i].addr ==>
              && (forall j :: 0 <= j < SIZE ==> t[j].used && t[j].addr != a.addr && t[i].rssi <= t[j].rssi)
              && a.valid && t'[i] == Fresh(a) && a.rssi >= t[i].rssi
    ensures forall j :: 0 <= j < SIZE && j != Target(t, a) ==> Record(t, a)[j] == t[j]
  {
  }

  /** What an entry means after the adverts `advs`, the address having come in as number `born`. */
  predicate Meaning(e: Entry, advs: seq<Advert>, born: nat) {
    e.used ==>
      && born < |advs| && advs[born].valid && advs[born].addr == e.addr
      && e.cnt == Heard(advs, e.addr, born) % 0x1_0000
      && Latest(advs, e.addr) == Some(Advert(true, e.rssi, e.addr, e.status))
  }

  predicate Counts(advs: seq<Advert>) {
    forall i :: 0 <= i < SIZE ==> Meaning(Exec(advs)[i], advs, Born(advs)[i])
  }

  lemma {:induction false} EntryKeepsMeaning(prev: seq<Advert>, a: Advert, advs: seq<Advert>, i: nat)
    requires advs != [] && prev == advs[..|advs| - 1] && a == advs[|advs| - 1]
    requires Shape(Exec(prev)) && i < SIZE && Meaning(Exec(prev)[i], prev, Born(prev)[i])
    ensures Meaning(Exec(advs)[i], advs, Born(advs)[i])
  {
    hide Place, Weakest, Target;
    var t, k := Exec(prev), Target(Exec(prev), a);
    RecordIs(t, a);
    var e, b := t[i], Born(prev)[i];
    if i == k {
      if e.used && e.addr == a.addr {
        assert Heard(advs, e.addr, b) == Heard(prev, e.addr, b) + 1;
      } else {
        assert Heard(prev, a.addr, |prev|) == 0;
        assert Heard(advs, a.addr, |prev|) == 1;
      }
    } else if e.used {
      assert Heard(advs, e.addr, b) == Heard(prev, e.addr, b);
    }
  }

  /** An advert is recorded only when valid, and elsewhere than under its own address only when that
      is not in the table. */
  lemma RecordIs(t: seq<Entry>, a: Advert)
    requires Shape(t)
    ensures Target(t, a) < SIZE ==> a.valid
    ensures forall i :: 0 <= i < SIZE && i != Target(t, a) && t[i].used ==> !(a.valid && t[i].addr == a.addr)
  {
    var p := Place(t, a.addr, 0);
    assert forall i :: 0 <= i < SIZE && i != p && t[i].used ==> t[i].addr != a.addr;
  }

  /** In every state reachable from the cleared table, the used entries are a prefix with pairwise
      different addresses; each one's 16-bit count is the number of valid adverts from its address
      since it was put in, and its signal strength and status are those of the latest of them. */
  lemma {:induction false} ReachableTables(advs: seq<Advert>)
    ensures Shape(Exec(advs)) && Counts(advs)
  {
    if advs != [] {
      var prev, a := advs[..|advs| - 1], advs[|advs| - 1];
      ReachableTables(prev);
      RecordKeepsShape(Exec(prev), a);
      forall i | 0 <= i < SIZE
        ensures Meaning(Exec(advs)[i], advs, Born(advs)[i])
      {
        EntryKeepsMeaning(prev, a, advs, i);
      }
    }
  }

  /** A speaker is confirmed only after at least five valid adverts from it. */
  lemma ConfirmedWasHeard(prev: seq<Advert>, a: Advert)
    requires var i := Target(Exec(prev), a);
             i < SIZE && Record(Exec(prev), a)[i].cnt >= 5
    ensures var advs := prev + [a];
            var i := Target(Exec(prev), a);
            Exec(advs)[i].addr == a.addr && Heard(advs, a.addr, Born(advs)[i]) >= 5
  {
    hide Place, Weakest, Target, Heard, Born;
    var advs := prev + [a];
    assert advs[..|advs| - 1] == prev;
    ReachableTables(advs);
    assert Meaning(Exec(advs)[Target(Exec(prev), a)], advs, Born(advs)[Target(Exec(prev), a)]);
  }

  /** A sent discovery frame damaged within eight neighbouring bits leaves the table alone. */
  lemma DamagedAdvertIsIgnored(t: seq<Entry>, rssi: int, f: Bytes, e: Bytes, i: nat, k: bv8)
    requires |t| == SIZE && |f| == |e| == FRAME_LEN && Accepted(f) && Burst(e, i, k)
    ensures Record(t, Parse(rssi, Xor(f, e))) == t
  {
    hide Accepted, Burst;
    BurstIsDetected(f, e, i, k);
  }

  /** The frame a speaker sends is read back field by field. */
  lemma ParseInvertsFrame(rssi: int, op: bv8, product: bv8, status: Bytes, addr: Address)
    requires |status| == 3 && |addr| == 6
    ensures var body := [op, product] + status + addr;
            Parse(rssi, body + [Crc(body)]) == Advert(product & 0x0f == 0, rssi, addr, status)
  {
    hide Crc;
    var body := [op, product] + status + addr;
    var f := body + [Crc(body)];
    assert f[..|f| - 1] == body && f[5..11] == addr && f[2..5] == status;
  }

  predicate Knows(t: seq<Entry>, addr: Address) {
    exists i :: 0 <= i < |t| && t[i].used && t[i].addr == addr
  }

  /** A speaker not yet known gets into the table if and only if its advert is valid and there is a free
      entry or one whose signal is no stronger. */
  lemma NewcomerIsRecordedIff(t: seq<Entry>, a: Advert)
    requires Shape(t) && !Knows(t, a.addr)
    ensures Knows(Record(t, a), a.addr) <==>
            a.valid && exists i :: 0 <= i < SIZE && (!t[i].used || t[i].rssi <= a.rssi)
  {
    var i := Target(t, a);
    var t' := Record(t, a);
    if i < SIZE {
      assert t'[i].used && t'[i].addr == a.addr;
      assert !t[i].used || t[i].rssi <= a.rssi;
    }
  }

  /** One that is known keeps its entry, whatever its signal. */
  lemma KnownIsUpdated(t: seq<Entry>, a: Advert)
    requires Shape(t) && Knows(t, a.addr)
    ensures Knows(Record(t, a), a.addr)
    ensures forall j :: 0 <= j < SIZE && t[j].used ==> Record(t, a)[j].addr == t[j].addr
  {
    var i :| 0 <= i < |t| && t[i].used && t[i].addr == a.addr;
    assert Record(t, a)[i].used && Record(t, a)[i].addr == a.addr;
  }
}
