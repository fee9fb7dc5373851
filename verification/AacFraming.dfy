/** AAC packets inside the encoded byte stream: each is stored behind a two-byte length
(apps/audioplayers/a2dpplay.cpp, the AAC branch of `store_sbc_buffer`) and taken out again by
`cp_load_aac_frame`, here as functions on the bytes.
*/
module AacFraming {
  import opened LengthPrefix
  import opened Ring

  type Payload = seq<Byte>

  /** The decoder's buffer; a longer length field is taken for a broken header. */
  const MAX_FRAME := 2048

  // ---------------------------------------------------------------- loading

  datatype Load =
    | NoHeader                                   // returns 1
    | BadHeader                                  // returns 2
    | Incomplete                                 // returns 3
    | Frame(payload: Payload, maxRead: nat)      // returns 0

  /** The read bound reported to the decoder: the first of these limits above the length. */
  function MaxRead(n: nat): (m: nat)
    requires n < MAX_FRAME
    ensures m in {64, 128, 256, 512, 1024, 2048} && n < m
    ensures m > 64 ==> n >= m / 2
  {
    if n < 64 then 64
    else if n < 128 then 128
    else if n < 256 then 256
    else if n < 512 then 512
    else if n < 1024 then 1024
    else 2048
  }

  /** What one load attempt makes of the unread bytes. */
  function LoadFrame(u: seq<Byte>): Load {
    if |u| < 2 then NoHeader
    else
      var n := FromU16(u[..2]);
      if n >= MAX_FRAME then BadHeader
      else if |u| < 2 + n then Incomplete
      else Frame(u[2..2 + n], MaxRead(n))
  }

  /** The bytes a load takes out of the stream. */
  function Taken(r: Load): nat {
    if r.Frame? then 2 + |r.payload| else 0
  }

  /** While `p` is the packet at the head of the stream, what arrives of it decides the outcome;
      whatever follows does not. */
  lemma LoadHead(p: Payload, rest: seq<Byte>, v: nat)
    requires |p| < 65536 && v <= 2 + |p| + |rest|
    ensures var u := (U16(|p|) + p + rest)[..v];
            LoadFrame(u) == if v < 2 then NoHeader
                            else if |p| >= MAX_FRAME then BadHeader
                            else if v < 2 + |p| then Incomplete
                            else Frame(p, MaxRead(|p|))
  {
    var s := U16(|p|) + p + rest;
    var u := s[..v];
    U16RoundTrip(|p|);
    if v >= 2 {
      assert s[..2] == U16(|p|);
      assert u[..2] == s[..2];
    }
    if v >= 2 + |p| {
      assert u[2..2 + |p|] == p;
    }
  }

  /** Loading until nothing more comes out. */
  function LoadAll(u: seq<Byte>): (seq<Payload>, seq<Byte>)
    decreases |u|
  {
    match LoadFrame(u)
    case Frame(p, _) =>
      var (ps, left) := LoadAll(u[2 + |p|..]);
      ([p] + ps, left)
    case _ => ([], u)
  }

  lemma LoadAllHead(p: Payload, rest: seq<Byte>, u: seq<Byte>)
    requires |p| < 65536 && u == U16(|p|) + p + rest
    ensures LoadAll(u) == if |p| < MAX_FRAME then ([p] + LoadAll(rest).0, LoadAll(rest).1) else ([], u)
  {
    assert u == u[..|u|];
    LoadHead(p, rest, |u|);
    assert u[2 + |p|..] == rest;
  }

  predicate Loadable(ps: seq<Payload>) {
    forall p :: p in ps ==> |p| < 2048
  }

  /** The round trip: everything stored comes out again, in order, exactly when every packet is
      below the decoder's limit; the first one that is not blocks the stream for good. */
  lemma {:induction false} LoadAllStoredIff(ps: seq<Payload>)
    requires forall p :: p in ps ==> |p| < 65536
    ensures LoadAll(Encode(ps)) == (ps, []) <==> Loadable(ps)
  {
    if ps != [] {
      var p := ps[0];
      LoadAllHead(p, Encode(ps[1..]), Encode(ps));
      LoadAllStoredIff(ps[1..]);
      assert Loadable(ps) <==> |p| < MAX_FRAME && Loadable(ps[1..]) by {
        assert p in ps;
        assert forall q :: q in ps ==> q == p || q in ps[1..];
      }
      var more := LoadAll(Encode(ps[1..])).0;
      assert ([p] + more)[1..] == more && [p] + ps[1..] == ps;
    }
  }
}
