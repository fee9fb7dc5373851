/** The frequency arbiter of apps/common/app_utils.c: requests of the quality-of-service users are
packed into two words, added up, and answered with one frequency level.

The packed words are shown to stand for a plain map from user to level, and the level to be the
least that covers the sum.
*/
module QosFreq {

  /** A frequency level, as an index of `freq_map`. */
  type Level = bv64

  /** `user_map`: the numbers of the six users. */
  const USERS: seq<nat> := [17, 15, 18, 22, 28, 29]
  const QOS_USER: nat := 24

  type FreqMap = m: seq<nat> | 0 < |m| <= 32 && forall i :: 0 <= i < |m| ==> m[i] < 0x1000_0000 witness [0]

  // ---------------------------------------------------------------- packed fields

  /** `w << (5 * i)`. */
  function Shl(w: bv64, i: nat): bv64
    requires i < 6
  {
    match i
    case 0 => w case 1 => w << 5 case 2 => w << 10 case 3 => w << 15 case 4 => w << 20 case _ => w << 25
  }

  /** `w >> (5 * i)`. */
  function Shr(w: bv64, i: nat): bv64
    requires i < 6
  {
    match i
    case 0 => w case 1 => w >> 5 case 2 => w >> 10 case 3 => w >> 15 case 4 => w >> 20 case _ => w >> 25
  }

  function Field(w: bv64, i: nat): bv64
    requires i < 6
  {
    Shr(w, i) & 0x1f
  }

  function ClearField(w: bv64, i: nat): bv64
    requires i < 6
  {
    w & !Shl(0x1f, i)
  }

  function WithField(w: bv64, i: nat, f: bv64): bv64
    requires i < 6
  {
    ClearField(w, i) | Shl(f, i)
  }

  lemma Field0OfWith(w: bv64, f: bv64, j: nat)
    requires j < 6 && f < 32
    ensures Field(WithField(w, 0, f), j) == if j == 0 then f else Field(w, j)
  {
  }

  lemma Field1OfWith(w: bv64, f: bv64, j: nat)
    requires j < 6 && f < 32
    ensures Field(WithField(w, 1, f), j) == if j == 1 then f else Field(w, j)
  {
  }

  lemma Field2OfWith(w: bv64, f: bv64, j: nat)
    requires j < 6 && f < 32
    ensures Field(WithField(w, 2, f), j) == if j == 2 then f else Field(w, j)
  {
  }

  lemma Field3OfWith(w: bv64, f: bv64, j: nat)
    requires j < 6 && f < 32
    ensures Field(WithField(w, 3, f), j) == if j == 3 then f else Field(w, j)
  {
  }

  lemma Field4OfWith(w: bv64, f: bv64, j: nat)
    requires j < 6 && f < 32
    ensures Field(WithField(w, 4, f), j) == if j == 4 then f else Field(w, j)
  {
  }

  lemma Field5OfWith(w: bv64, f: bv64, j: nat)
    requires j < 6 && f < 32
    ensures Field(WithField(w, 5, f), j) == if j == 5 then f else Field(w, j)
  {
  }

  /** Writing one user's field changes that user's field and no other. */
  lemma FieldOfWith(w: bv64, i: nat, f: bv64, j: nat)
    requires i < 6 && j < 6 && f < 32
    ensures Field(WithField(w, i, f), j) == if i == j then f else Field(w, j)
  {
    hide *;
    match i
    case 0 => Field0OfWith(w, f, j);
    case 1 => Field1OfWith(w, f, j);
    case 2 => Field2OfWith(w, f, j);
    case 3 => Field3OfWith(w, f, j);
    case 4 => Field4OfWith(w, f, j);
    case _ => Field5OfWith(w, f, j);
  }

  lemma ClearIsZero(w: bv64, i: nat)
    requires i < 6
    ensures ClearField(w, i) == WithField(w, i, 0)
  {
  }

  function Nth(i: nat): (p: bv32)
    requires i < 6
    ensures p as nat == i && p <= 5
  {
    match i case 0 => 0 case 1 => 1 case 2 => 2 case 3 => 3 case 4 => 4 case _ => 5
  }

  predicate Bit(w: bv32, p: bv32)
    requires p <= 5
  {
    (w >> p) & 1 == 1
  }

  function WithBit(w: bv32, p: bv32, on: bool): bv32
    requires p <= 5
  {
    if on then w | (1 << p) else w & !(1 << p)
  }

  function SetBit(w: bv32, p: bv32): (r: bv32)
    requires p <= 5
    ensures r == WithBit(w, p, true)
  {
    w | (1 << p)
  }

  function ClearBit(w: bv32, p: bv32): (r: bv32)
    requires p <= 5
    ensures r == WithBit(w, p, false)
  {
    w & !(1 << p)
  }

  lemma BitOfWith(w: bv32, p: bv32, on: bool, q: bv32)
    requires p <= 5 && q <= 5
    ensures Bit(WithBit(w, p, on), q) == if p == q then on else Bit(w, q)
  {
  }

  lemma NthApart(i: nat, j: nat)
    requires i < 6 && j < 6
    ensures Nth(i) == Nth(j) <==> i == j
  {
  }

  predicate Stored(freqs: bv64, users: bv32, requests: map<nat, Level>, i: nat)
    requires i < 6
  {
    && (Bit(users, Nth(i)) <==> USERS[i] in requests)
    && Field(freqs, i) == if USERS[i] in requests then requests[USERS[i]] else 0
  }

  /** The words stand for the requests, user by user. */
  predicate Represents(freqs: bv64, users: bv32, requests: map<nat, Level>) {
    && (forall u :: u in requests ==> u in USERS)
    && forall i :: 0 <= i < 6 ==> Stored(freqs, users, requests, i)
  }

  /** A request; level 0 is a release. */
  function Requested(requests: map<nat, Level>, user: nat, freq: Level): map<nat, Level> {
    if freq == 0 then requests - {user} else requests[user := freq]
  }

  lemma StoreRepresents(freqs: bv64, users: bv32, requests: map<nat, Level>, i: nat, freq: Level)
    requires Represents(freqs, users, requests) && i < 6 && freq < 32
    ensures Represents(WithField(freqs, i, freq), WithBit(users, Nth(i), freq != 0),
                       Requested(requests, USERS[i], freq))
  {
    hide Stored;
    var freqs', users' := WithField(freqs, i, freq), WithBit(users, Nth(i), freq != 0);
    var requests' := Requested(requests, USERS[i], freq);
    forall j | 0 <= j < 6 ensures Stored(freqs', users', requests', j) {
      StoreOne(freqs, users, requests, i, freq, j);
    }
  }

  lemma StoreOne(freqs: bv64, users: bv32, requests: map<nat, Level>, i: nat, freq: Level, j: nat)
    requires i < 6 && freq < 32 && j < 6 && Stored(freqs, users, requests, j)
    ensures Stored(WithField(freqs, i, freq), WithBit(users, Nth(i), freq != 0),
                   Requested(requests, USERS[i], freq), j)
  {
    hide Field, WithField, Bit, WithBit, Nth;
    FieldOfWith(freqs, i, freq, j);
    BitOfWith(users, Nth(i), freq != 0, Nth(j));
    NthApart(i, j);
    UsersDiffer(i, j);
  }

  lemma UsersDiffer(i: nat, j: nat)
    requires i < 6 && j < 6
    ensures USERS[i] == USERS[j] <==> i == j
  {
  }

  // ---------------------------------------------------------------- sum and cover

  function MHz(freqMap: FreqMap, requests: map<nat, Level>, user: nat): (n: nat)
    ensures n < 0x1000_0000
  {
    if user in requests && requests[user] as nat < |freqMap| then freqMap[requests[user] as nat] else 0
  }

  /** What the first `n` users ask for together. */
  function Demand(freqMap: FreqMap, requests: map<nat, Level>, n: nat): (d: nat)
    requires n <= 6
    ensures d <= n * 0x1000_0000
  {
    if n == 0 then 0 else Demand(freqMap, requests, n - 1) + MHz(freqMap, requests, USERS[n - 1])
  }

  /** The lowest level from `i` on that covers `sum`, or the top level. */
  function LeastCover(freqMap: FreqMap, sum: nat, i: nat): (level: nat)
    requires i <= |freqMap|
    ensures level < |freqMap|
    ensures (exists j :: i <= j < |freqMap| && freqMap[j] >= sum) ==>
              freqMap[level] >= sum && i <= level && forall j :: i <= j < level ==> freqMap[j] < sum
    ensures (forall j :: i <= j < |freqMap| ==> freqMap[j] < sum) ==> level == |freqMap| - 1
    decreases |freqMap| - i
  {
    if i == |freqMap| then |freqMap| - 1 else if freqMap[i] >= sum then i else LeastCover(freqMap, sum, i + 1)
  }

  /** The level search of the code, from index `i` on. */
  function Search(freqMap: FreqMap, sum: nat, i: nat): (level: nat)
    requires i <= |freqMap|
    ensures level < |freqMap|
    decreases |freqMap| - i
  {
    if i == |freqMap| then |freqMap| - 1
    else if i == 0 then if sum == freqMap[0] then 0 else Search(freqMap, sum, 1)
    else if freqMap[i - 1] < sum <= freqMap[i] then i
    else Search(freqMap, sum, i + 1)
  }

  lemma {:induction false} SearchCovers(freqMap: FreqMap, sum: nat, i: nat)
    requires 0 < i <= |freqMap| && freqMap[i - 1] < sum
    ensures Search(freqMap, sum, i) == LeastCover(freqMap, sum, i)
    decreases |freqMap| - i
  {
    if i < |freqMap| && freqMap[i] < sum {
      SearchCovers(freqMap, sum, i + 1);
    }
  }

  /** The search finds the least cover of every sum exactly if level 0 stands for no load (or is the
      only level); the table need not be increasing. */
  lemma SearchIsLeastCoverIff(freqMap: FreqMap)
    ensures (forall sum: nat :: Search(freqMap, sum, 0) == LeastCover(freqMap, sum, 0)) <==>
            freqMap[0] == 0 || |freqMap| == 1
  {
    if freqMap[0] == 0 || |freqMap| == 1 {
      forall sum: nat ensures Search(freqMap, sum, 0) == LeastCover(freqMap, sum, 0) {
        if freqMap[0] < sum {
          SearchCovers(freqMap, sum, 1);
        }
      }
    } else {
      NothingBelow(freqMap, 1);
      assert Search(freqMap, 0, 0) != LeastCover(freqMap, 0, 0);
    }
  }

  lemma {:induction false} NothingBelow(freqMap: FreqMap, i: nat)
    requires 0 < i <= |freqMap|
    ensures Search(freqMap, 0, i) == |freqMap| - 1
    decreases |freqMap| - i
  {
    if i < |freqMap| {
      NothingBelow(freqMap, i + 1);
    }
  }

  /** Every request changes the demand by what it asks for, less what the same user asked for before:
      the demands of the users add up. */
  lemma {:induction false} DemandFollowsRequest(freqMap: FreqMap, requests: map<nat, Level>, user: nat, level: Level,
                                                n: nat)
    requires n <= 6 && level as nat < |freqMap| && freqMap[0] == 0
    ensures var before, after := Demand(freqMap, requests, n), Demand(freqMap, Requested(requests, user, level), n);
            after == if user in USERS[..n] then before - MHz(freqMap, requests, user) + freqMap[level as nat]
                     else before
  {
    hide Requested, MHz;
    if n > 0 {
      DemandFollowsRequest(freqMap, requests, user, level, n - 1);
      assert USERS[..n] == USERS[..n - 1] + [USERS[n - 1]];
      UserOnce(user, n);
      MHzFollowsRequest(freqMap, requests, user, level, USERS[n - 1]);
    }
  }

  lemma MHzFollowsRequest(freqMap: FreqMap, requests: map<nat, Level>, user: nat, level: Level, v: nat)
    requires level as nat < |freqMap| && freqMap[0] == 0
    ensures MHz(freqMap, Requested(requests, user, level), v) ==
              if v == user then freqMap[level as nat] else MHz(freqMap, requests, v)
  {
  }

  /** What one user's request adds up to when nobody else asks. */
  lemma {:induction false} LoneDemand(freqMap: FreqMap, user: nat, level: Level, n: nat)
    requires n <= 6 && level as nat < |freqMap| && freqMap[0] == 0
    ensures Demand(freqMap, Requested(map[], user, level), n) ==
              if user in USERS[..n] then freqMap[level as nat] else 0
  {
    if n > 0 {
      LoneDemand(freqMap, user, level, n - 1);
      assert USERS[..n] == USERS[..n - 1] + [USERS[n - 1]];
      UserOnce(user, n);
    }
  }

  lemma UserOnce(user: nat, n: nat)
    requires 0 < n <= 6
    ensures !(user in USERS[..n - 1] && user == USERS[n - 1])
  {
    if user in USERS[..n - 1] {
      var i :| 0 <= i < n - 1 && USERS[i] == user;
      UsersDiffer(i, n - 1);
    }
  }

  /** Whatever is asked for, the level issued is at least `level` exactly if no lower level covers the
      demand. */
  lemma IssuedReachesIff(freqMap: FreqMap, requests: map<nat, Level>, level: nat)
    requires freqMap[0] == 0 && level < |freqMap|
    ensures Search(freqMap, Demand(freqMap, requests, 6), 0) >= level <==>
            forall j :: 0 <= j < level ==> freqMap[j] < Demand(freqMap, requests, 6)
  {
    hide Demand, Search;
    SearchIsLeastCoverIff(freqMap);
    var sum := Demand(freqMap, requests, 6);
    assert Search(freqMap, sum, 0) == LeastCover(freqMap, sum, 0);
  }

  /** A level that one user asks for alone is issued at least that high exactly if every lower level
      is slower in the table. */
  lemma LoneRequestIsHonouredIff(freqMap: FreqMap, user: nat, level: Level)
    requires freqMap[0] == 0 && user in USERS && level as nat < |freqMap|
    ensures Search(freqMap, Demand(freqMap, Requested(map[], user, level), 6), 0) >= level as nat <==>
            forall j :: 0 <= j < level as nat ==> freqMap[j] < freqMap[level as nat]
  {
    hide Demand, Search;
    assert USERS[..6] == USERS;
    LoneDemand(freqMap, user, level, 6);
    IssuedReachesIff(freqMap, Requested(map[], user, level), level as nat);
  }

  /** `freq_map` with the levels of the one chip in the repository: 6.5, 13 and 144 MHz are levels there
      (platform/hal/best1307/hal_cmu_best1307.h:364-376) but have no entry. */
  const BEST1307: FreqMap := [0, 0, 0, 26, 52, 78, 104, 0, 208]

  /** So 144 MHz, asked for alone, is answered with the lowest level. */
  lemma MissingLevelIsNotIssued(user: nat)
    requires user in USERS
    ensures Search(BEST1307, Demand(BEST1307, Requested(map[], user, 7), 6), 0) == 0
  {
    hide Demand;
    assert USERS[..6] == USERS;
    SmallLevels();
    LoneDemand(BEST1307, user, 7, 6);
  }

  lemma SmallLevels()
    ensures 7 as bv64 as nat == 7
  {
  }

  // ---------------------------------------------------------------- the code

  /** What is passed on to `hal_sysfreq_req`. */
  datatype Issue = Nothing | Issue(user: nat, level: nat)

  class Arbiter {
    const freqMap: FreqMap
    var freqsMap: bv64                     // qos_freqs_map
    var usersMap: bv32                     // qos_users_map
    ghost var requests: map<nat, Level>

    ghost predicate Valid()
      reads this
    {
      && Represents(freqsMap, usersMap, requests)
      && forall u :: u in requests ==> requests[u] as nat < |freqMap|
    }

    constructor (freqMap: FreqMap)
      ensures Valid() && requests == map[] && this.freqMap == freqMap
    {
      this.freqMap := freqMap;
      freqsMap, usersMap := 0, 0;
      requests := map[];
      new;
      Empty();
    }

    /** `app_qosfreq_req`; `halRet` is what the frequency driver answers. */
    method QosRequest(user: nat, freq: Level, halRet: int) returns (ret: int, issue: Issue)
      requires Valid()
      modifies this
      ensures Valid()
      ensures freq as nat >= |freqMap| ==> ret == -1 && issue == Nothing && requests == old(requests)
      ensures freq as nat < |freqMap| && user !in USERS ==> ret == 0 && issue == Nothing && requests == old(requests)
      ensures freq as nat < |freqMap| && user in USERS ==>
                && requests == Requested(old(requests), user, freq)
                && ret == halRet
                && issue == Issue(QOS_USER, Search(freqMap, Demand(freqMap, requests, 6), 0))
    {
      if freq as nat >= |freqMap| {
        return -1, Nothing;
      }
      var i := FindUser(user);
      if i >= 6 {
        return 0, Nothing;
      }
      Update(i, freq);
      var sum := Scan();
      var level := FindLevel(sum);
      ret, issue := halRet, Issue(QOS_USER, level);
    }

    method Update(i: nat, freq: Level)
      requires Valid() && i < 6 && freq as nat < |freqMap|
      modifies this
      ensures Valid() && requests == Requested(old(requests), USERS[i], freq)
    {
      hide Represents, ClearField, Shl, WithBit, Nth, SetBit, ClearBit;
      SmallLevel(freq);
      StoreRepresents(freqsMap, usersMap, requests, i, freq);
      ClearIsZero(freqsMap, i);
      if freq != 0 {
        freqsMap := ClearField(freqsMap, i);
        freqsMap := freqsMap | Shl(freq, i);
        usersMap := SetBit(usersMap, Nth(i));
      } else {
        freqsMap := ClearField(freqsMap, i);
        usersMap := ClearBit(usersMap, Nth(i));
      }
      requests := Requested(requests, USERS[i], freq);
    }

    /** Adds up every registered user's level. */
    method Scan() returns (sum: nat)
      requires Valid()
      ensures sum == Demand(freqMap, requests, 6) && sum < 0x1_0000_0000
    {
      sum := 0;
      for i := 0 to 6
        invariant sum == Demand(freqMap, requests, i)
      {
        hide Field, Bit, Nth, Demand;
        assert Stored(freqsMap, usersMap, requests, i);
        assert Demand(freqMap, requests, i + 1) == Demand(freqMap, requests, i) + MHz(freqMap, requests, USERS[i])
          by { DemandStep(freqMap, requests, i); }
        if Bit(usersMap, Nth(i)) {
          var level := Field(freqsMap, i);
          sum := sum + freqMap[level as nat];
        }
      }
    }

    method FindLevel(sum: nat) returns (level: nat)
      ensures level == Search(freqMap, sum, 0)
    {
      var i := 0;
      while i < |freqMap|
        invariant i <= |freqMap| && Search(freqMap, sum, 0) == Search(freqMap, sum, i)
      {
        if i != 0 {
          if sum > freqMap[i - 1] && sum <= freqMap[i] {
            return i;
          }
        } else if sum == freqMap[i] {
          return i;
        }
        i := i + 1;
      }
      level := |freqMap| - 1;
    }
  }

  method FindUser(user: nat) returns (i: nat)
    ensures if user in USERS then i < 6 && USERS[i] == user else i == 6
  {
    i := 0;
    while i < 6
      invariant i <= 6 && user !in USERS[..i]
    {
      if user == USERS[i] {
        return;
      }
      i := i + 1;
    }
  }

  lemma SmallLevel(f: Level)
    requires f as nat < 32
    ensures f < 32
  {
  }

  lemma DemandStep(freqMap: FreqMap, requests: map<nat, Level>, i: nat)
    requires i < 6
    ensures Demand(freqMap, requests, i + 1) == Demand(freqMap, requests, i) + MHz(freqMap, requests, USERS[i])
  {
  }

  lemma Empty()
    ensures Represents(0, 0, map[])
  {
    assert forall i :: 0 <= i < 6 ==> Field(0, i) == 0;
    assert forall i :: 0 <= i < 6 ==> !Bit(0, Nth(i));
  }

  // ---------------------------------------------------------------- whole runs

  datatype Request = Request(user: nat, freq: Level)

  predicate Accepted(freqMap: FreqMap, r: Request) {
    r.freq as nat < |freqMap| && r.user in USERS
  }

  /** The requests standing after a run. */
  function Standing(freqMap: FreqMap, run: seq<Request>): map<nat, Level> {
    if run == [] then map[]
    else
      var r, before := run[|run| - 1], Standing(freqMap, run[..|run| - 1]);
      if Accepted(freqMap, r) then Requested(before, r.user, r.freq) else before
  }

  /** The last accepted request of a user, or a release if there is none. */
  function Last(freqMap: FreqMap, run: seq<Request>, user: nat): Level {
    if run == [] then 0
    else
      var r := run[|run| - 1];
      if Accepted(freqMap, r) && r.user == user then r.freq else Last(freqMap, run[..|run| - 1], user)
  }

  /** Users do not disturb each other: what stands for a user after any run is that user's own last
      request. */
  lemma {:induction false} StandingIsLast(freqMap: FreqMap, run: seq<Request>, user: nat)
    ensures var m := Standing(freqMap, run);
            if Last(freqMap, run, user) == 0 then user !in m
            else user in m && m[user] == Last(freqMap, run, user)
  {
    if run != [] {
      StandingIsLast(freqMap, run[..|run| - 1], user);
    }
  }

  /** The two words after a run, as the code packs them. */
  datatype Words = Words(freqs: bv64, users: bv32)

  function Slot(user: nat): (i: nat)
    requires user in USERS
    ensures i < 6 && USERS[i] == user
  {
    if user == 17 then 0 else if user == 15 then 1 else if user == 18 then 2
    else if user == 22 then 3 else if user == 28 then 4 else 5
  }

  function Packed(freqMap: FreqMap, run: seq<Request>): Words {
    if run == [] then Words(0, 0)
    else
      var r, w := run[|run| - 1], Packed(freqMap, run[..|run| - 1]);
      if Accepted(freqMap, r) then
        Words(WithField(w.freqs, Slot(r.user), r.freq), WithBit(w.users, Nth(Slot(r.user)), r.freq != 0))
      else w
  }

  lemma {:induction false} PackedRepresents(freqMap: FreqMap, run: seq<Request>)
    ensures var w := Packed(freqMap, run);
            Represents(w.freqs, w.users, Standing(freqMap, run))
  {
    hide Represents, WithField, WithBit, Nth, Slot;
    if run == [] {
      Empty();
    } else {
      var r, before := run[|run| - 1], run[..|run| - 1];
      PackedRepresents(freqMap, before);
      if Accepted(freqMap, r) {
        SmallLevel(r.freq);
        var w := Packed(freqMap, before);
        StoreRepresents(w.freqs, w.users, Standing(freqMap, before), Slot(r.user), r.freq);
      }
    }
  }

  /** The sum the code reads off the words. */
  function Scanned(freqMap: FreqMap, w: Words, n: nat): nat
    requires n <= 6
  {
    if n == 0 then 0
    else
      var level := Field(w.freqs, n - 1) as nat;
      Scanned(freqMap, w, n - 1) + if Bit(w.users, Nth(n - 1)) && level < |freqMap| then freqMap[level] else 0
  }

  lemma {:induction false} ScannedIsDemand(freqMap: FreqMap, w: Words, requests: map<nat, Level>, n: nat)
    requires n <= 6 && Represents(w.freqs, w.users, requests)
    ensures Scanned(freqMap, w, n) == Demand(freqMap, requests, n)
  {
    hide Field, Bit, Nth;
    if n > 0 {
      ScannedIsDemand(freqMap, w, requests, n - 1);
      assert Stored(w.freqs, w.users, requests, n - 1);
    }
  }

  /** After any run of requests and releases the level found from the packed words is the lowest that
      covers the sum of every user's own last request, or the top level. */
  lemma RunIssuesLeastCover(freqMap: FreqMap, run: seq<Request>)
    requires freqMap[0] == 0
    ensures Search(freqMap, Scanned(freqMap, Packed(freqMap, run), 6), 0)
         == LeastCover(freqMap, Demand(freqMap, Standing(freqMap, run), 6), 0)
  {
    hide Search, LeastCover, Represents, Demand, Scanned, Packed, Standing;
    PackedRepresents(freqMap, run);
    ScannedIsDemand(freqMap, Packed(freqMap, run), Standing(freqMap, run), 6);
    SearchIsLeastCoverIff(freqMap);
  }

  // ---------------------------------------------------------------- the entry point

  /** `(1 << user) & QOS_USERS`, for the users below 32 for which the shift is defined. */
  method IsQosUser(user: nat) returns (r: bool)
    requires user < 32
    ensures r <==> user in USERS
  {
    r := (1 as bv32 << user) & QosMask() != 0;
    MaskIsUsers(user);
  }

  function QosMask(): bv32 {
    (1 << 17) | (1 << 15) | (1 << 18) | (1 << 22) | (1 << 28) | (1 << 29)
  }

  lemma MaskIsUsers(user: nat)
    requires user < 32
    ensures (1 as bv32 << user) & QosMask() != 0 <==> user in USERS
  {
  }
}
