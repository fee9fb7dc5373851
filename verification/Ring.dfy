/** Wrap-around buffers, described by conditional subtraction as the firmware does it.

A ring is an ordinary buffer `b`; a stretch of it is named by a start position below `|b|` and a
length of at most `|b|`.  `Stretch` reads such a stretch and `Put` overwrites one; everything the
queues and the co-processor cache need is how the two relate.
*/
module Ring {

  type Byte = b: int | 0 <= b < 256

  /** Position `pos + len`, brought back into the buffer by one subtraction. */
  function Advance(size: nat, pos: nat, len: nat): (r: nat)
    requires pos < size && len <= size
    ensures r < size
  {
    if pos + len >= size then pos + len - size else pos + len
  }

  /** How far position `p` lies behind `start`, going round the end. */
  function Distance(size: nat, start: nat, p: nat): (d: nat)
    requires start < size && p < size
    ensures d < size && Advance(size, start, d) == p
  {
    if p >= start then p - start else p + size - start
  }

  /** The `n` elements found from position `start` on, wrapping at the end of `b`. */
  function Stretch<T>(b: seq<T>, start: nat, n: nat): (s: seq<T>)
    requires start < |b| && n <= |b|
    ensures |s| == n
    ensures forall i :: 0 <= i < n ==> s[i] == b[Advance(|b|, start, i)]
  {
    seq(n, i requires 0 <= i < n => b[Advance(|b|, start, i)])
  }

  /** Buffer `b` after writing `data` from position `start` on, wrapping at the end. */
  function Put<T>(b: seq<T>, start: nat, data: seq<T>): (r: seq<T>)
    requires start < |b| && |data| <= |b|
    ensures |r| == |b|
    ensures forall p :: 0 <= p < |b| ==>
      r[p] == var d := Distance(|b|, start, p); if d < |data| then data[d] else b[p]
  {
    seq(|b|, p requires 0 <= p < |b| =>
      var d := Distance(|b|, start, p); if d < |data| then data[d] else b[p])
  }

  /** A stretch is at most two runs of neighbouring elements. */
  lemma StretchIsTwoRuns<T>(b: seq<T>, start: nat, n: nat)
    requires start < |b| && n <= |b|
    ensures Stretch(b, start, n) ==
            if start + n <= |b| then b[start..start + n] else b[start..] + b[..start + n - |b|]
  {
  }

  /** Writing behind a stretch, in space the stretch does not use, makes the stretch longer and
      leaves what it held alone. */
  lemma PutExtends<T>(b: seq<T>, start: nat, n: nat, data: seq<T>)
    requires start < |b| && n + |data| <= |b|
    ensures Stretch(Put(b, Advance(|b|, start, n), data), start, n + |data|) == Stretch(b, start, n) + data
  {
    hide Put, Stretch;
    var tail := Advance(|b|, start, n);
    var r := Put(b, tail, data);
    forall i | 0 <= i < n + |data|
      ensures Stretch(r, start, n + |data|)[i] == (Stretch(b, start, n) + data)[i]
    {
      var p := Advance(|b|, start, i);
      assert r[p] == var d := Distance(|b|, tail, p); if d < |data| then data[d] else b[p];
      assert Distance(|b|, tail, p) == if i >= n then i - n else i + |b| - n;
    }
  }

  /** Reading `k` elements moves the start by `k`. */
  lemma StretchDrop<T>(b: seq<T>, start: nat, n: nat, k: nat)
    requires start < |b| && k <= n <= |b|
    ensures Stretch(b, start, n)[..k] == Stretch(b, start, k)
    ensures Stretch(b, start, n)[k..] == Stretch(b, Advance(|b|, start, k), n - k)
  {
    hide Stretch;
    var from := Advance(|b|, start, k);
    forall i | 0 <= i < n - k
      ensures Stretch(b, start, n)[k..][i] == Stretch(b, from, n - k)[i]
    {
      assert Advance(|b|, start, k + i) == Advance(|b|, from, i);
    }
  }

  lemma StretchConcat<T>(b: seq<T>, start: nat, m: nat, n: nat)
    requires start < |b| && m + n <= |b|
    ensures Stretch(b, start, m + n) == Stretch(b, start, m) + Stretch(b, Advance(|b|, start, m), n)
  {
    hide Stretch;
    StretchDrop(b, start, m + n, m);
    var s := Stretch(b, start, m + n);
    assert s == s[..m] + s[m..];
  }

  /** A piece of a stretch is a stretch. */
  lemma StretchSlice<T>(b: seq<T>, start: nat, n: nat, k: nat, m: nat)
    requires start < |b| && k + m <= n <= |b|
    ensures Stretch(b, start, n)[k..k + m] == Stretch(b, Advance(|b|, start, k), m)
  {
    hide Stretch;
    StretchDrop(b, start, n, k);
    StretchDrop(b, Advance(|b|, start, k), n - k, m);
    var s := Stretch(b, start, n);
    assert s[k..k + m] == s[k..][..m];
  }

  /** Two writes in a row are one write. */
  lemma PutPut<T>(b: seq<T>, start: nat, x: seq<T>, y: seq<T>)
    requires start < |b| && |x| + |y| <= |b|
    ensures Put(Put(b, start, x), Advance(|b|, start, |x|), y) == Put(b, start, x + y)
  {
    hide Put;
    var mid := Advance(|b|, start, |x|);
    forall p | 0 <= p < |b|
      ensures Put(Put(b, start, x), mid, y)[p] == Put(b, start, x + y)[p]
    {
      var d := Distance(|b|, start, p);
      assert Distance(|b|, mid, p) == if d >= |x| then d - |x| else d + |b| - |x|;
    }
  }

  /** Advancing twice is advancing once. */
  lemma AdvanceAdvance(size: nat, pos: nat, m: nat, n: nat)
    requires pos < size && m + n <= size
    ensures Advance(size, Advance(size, pos, m), n) == Advance(size, pos, m + n)
  {
  }

  /** No position of the stretch of `len` from `start` falls among the `n` positions from `at`. */
  predicate Clear(size: nat, start: nat, len: nat, at: nat, n: nat)
    requires start < size && len <= size
  {
    forall i {:trigger Advance(size, start, i)} :: 0 <= i < len ==> !(at <= Advance(size, start, i) < at + n)
  }

  /** What lies behind the first `n1 + n2` elements keeps clear of both parts they cover. */
  lemma BehindIsClear(size: nat, start: nat, n1: nat, n2: nat, len: nat)
    requires start < size && n1 + n2 + len <= size
    requires start + n1 <= size && (n2 == 0 || start + n1 == size)
    ensures Clear(size, Advance(size, start, n1 + n2), len, start, n1)
    ensures Clear(size, Advance(size, start, n1 + n2), len, 0, n2)
  {
  }

  /** Low byte first, as the firmware's two length bytes are stored. */
  function U16(n: nat): (s: seq<Byte>)
    ensures |s| == 2
  {
    [n % 256, n / 256 % 256]
  }

  function FromU16(s: seq<Byte>): (n: nat)
    requires |s| == 2
    ensures n < 65536
  {
    s[0] as int + 256 * (s[1] as int)
  }

  lemma Remainder16(m: nat, h: nat, r: nat)
    requires m == 65536 * h + r && r < 65536
    ensures m % 65536 == r
  {
  }

  lemma Remainder8(m: nat, h: nat, r: nat)
    requires m == 256 * h + r && r < 256
    ensures m % 256 == r && m / 256 == h
  {
  }

  /** The two bytes carry a length modulo 65536. */
  lemma U16RoundTrip(n: nat)
    ensures FromU16(U16(n)) == n % 65536
    ensures U16(n % 65536) == U16(n)
  {
    var h, a := n / 256, n % 256;
    var b := h % 256;
    Remainder16(n, h / 256, 256 * b + a);
    Remainder8(256 * b + a, b, a);
  }
}
