/** The circular byte queue every stream in this project starts from.

The structure and the comments of `utils/cqueue/cqueue.h` are all the repository shows of it; the
bodies here are the plain ring those fields describe, and clients use nothing but the contracts: a
bounded FIFO whose `Peek` names the head bytes as at most two segments of the buffer.
*/
module CQueue {
  import opened Ring

  /** Writes `data` into `base` from `start` on, byte by byte, wrapping at the end. */
  method Write(base: array<Byte>, start: nat, data: seq<Byte>)
    requires start < base.Length && |data| <= base.Length
    modifies base
    ensures base[..] == Put(old(base[..]), start, data)
  {
    var at := start;
    for i := 0 to |data|
      invariant at == Advance(base.Length, start, i)
      invariant forall p :: 0 <= p < base.Length ==>
        base[p] == var d := Distance(base.Length, start, p); if d < i then data[d] else old(base[p])
    {
      base[at] := data[i];
      at := Advance(base.Length, at, 1);
    }
    hide Put;
    assert forall p :: 0 <= p < base.Length ==> base[p] == Put(old(base[..]), start, data)[p];
  }

  class Queue {
    var base: array<Byte>
    var read: nat
    var write: nat
    var len: nat

    ghost var contents: seq<Byte>

    ghost predicate Valid()
      reads this, base
    {
      && read < base.Length
      && len <= base.Length
      && write == Advance(base.Length, read, len)
      && contents == Stretch(base[..], read, len)
    }

    constructor (size: nat)
      requires size > 0
      ensures Valid() && fresh(base) && base.Length == size && contents == []
    {
      base := new Byte[size](_ => 0);
      read, write, len, contents := 0, 0, 0, [];
    }

    /** Free space. */
    method Available() returns (n: nat)
      requires Valid()
      ensures n == base.Length - |contents|
    {
      n := base.Length - len;
    }

    /** Appends all of `data` or nothing. */
    method Enqueue(data: seq<Byte>) returns (ok: bool)
      requires Valid()
      modifies this`write, this`len, this`contents, base
      ensures Valid() && base == old(base)
      ensures ok <==> |data| <= base.Length - |old(contents)|
      ensures contents == if ok then old(contents) + data else old(contents)
    {
      hide Stretch, Put;
      ok := len + |data| <= base.Length;
      if ok {
        PutExtends(base[..], read, len, data);
        Write(base, write, data);
        write := Advance(base.Length, write, |data|);
        AdvanceAdvance(base.Length, read, len, |data|);
        len := len + |data|;
        contents := contents + data;
      }
    }

    /** Removes `n` bytes from the head, or nothing when there are fewer. */
    method Dequeue(n: nat) returns (ok: bool)
      requires Valid()
      modifies this`read, this`len, this`contents
      ensures Valid()
      ensures ok <==> n <= |old(contents)|
      ensures contents == if ok then old(contents)[n..] else old(contents)
      ensures ok ==> read == Advance(base.Length, old(read), n)
    {
      hide Stretch;
      ok := n <= len;
      if ok {
        StretchDrop(base[..], read, len, n);
        read := Advance(base.Length, read, n);
        len := len - n;
        contents := contents[n..];
      }
    }

    /** Names the first `n` bytes as a segment of `n1` bytes at `read` and one of `n2` bytes at
        the start of the buffer; both are empty when there are fewer than `n`. */
    method Peek(n: nat) returns (ok: bool, n1: nat, n2: nat)
      requires Valid()
      ensures ok <==> n <= |contents|
      ensures !ok ==> n1 == n2 == 0
      ensures ok ==> n1 + n2 == n && read + n1 <= base.Length && n2 <= base.Length
      ensures ok ==> base[read..read + n1] + base[..n2] == contents[..n]
      ensures ok ==> n2 == 0 || read + n1 == base.Length
    {
      hide Stretch;
      ok, n1, n2 := n <= len, 0, 0;
      if ok {
        n1 := if read + n <= base.Length then n else base.Length - read;
        n2 := n - n1;
        StretchDrop(base[..], read, len, n);
        StretchIsTwoRuns(base[..], read, n);
      }
    }

    /** Clears `n` bytes of the buffer from position `at`, as `memset` does; safe for bytes that
        are not queued. */
    method Zero(at: nat, n: nat)
      requires Valid() && at + n <= base.Length
      requires Clear(base.Length, read, len, at, n)
      modifies base
      ensures Valid()
      ensures forall k :: at <= k < at + n ==> base[k] == 0
      ensures forall k :: 0 <= k < base.Length && !(at <= k < at + n) ==> base[k] == old(base[k])
    {
      for i := at to at + n
        invariant forall k :: at <= k < i ==> base[k] == 0
        invariant forall k :: 0 <= k < base.Length && !(at <= k < i) ==> base[k] == old(base[k])
      {
        base[i] := 0;
      }
      assert forall i :: 0 <= i < len ==>
        Stretch(base[..], read, len)[i] == Stretch(old(base[..]), read, len)[i];
    }
  }
}
