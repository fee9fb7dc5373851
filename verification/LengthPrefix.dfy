/** The byte format of both length-prefixed streams: RPC messages (apps/app_rpc/rpc_queue.c) and AAC
packets (apps/audioplayers/a2dpplay.cpp).  Each item is stored behind its length in two bytes.
*/
module LengthPrefix {
  import opened Ring

  function Encode(items: seq<seq<Byte>>): seq<Byte> {
    if items == [] then [] else U16(|items[0]|) + items[0] + Encode(items[1..])
  }

  lemma {:induction false} EncodeConcat(xs: seq<seq<Byte>>, ys: seq<seq<Byte>>)
    ensures Encode(xs + ys) == Encode(xs) + Encode(ys)
  {
    if xs == [] {
      assert xs + ys == ys;
    } else {
      assert (xs + ys)[1..] == xs[1..] + ys;
      EncodeConcat(xs[1..], ys);
    }
  }

  lemma EncodeOne(item: seq<Byte>)
    ensures Encode([item]) == U16(|item|) + item
  {
    assert Encode([item]) == U16(|item|) + item + Encode([]);
  }

  /** The length stands low byte first. */
  lemma LowByteFirst(item: seq<Byte>)
    ensures var e := Encode([item]);
            |e| == 2 + |item| && e[0] == |item| % 256 && e[1] == |item| / 256 % 256 && e[2..] == item
  {
    EncodeOne(item);
  }
}
