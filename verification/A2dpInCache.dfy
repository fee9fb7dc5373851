/** The encoded-data cache between the two cores (apps/audioplayers/a2dpplay.cpp): the MCU side
copies bytes from `sbc_queue` into a ring, the co-processor side takes them out.

The positions each side works with are the ones it read at its start; the other side may have moved
its own position since.  `cp_in_rpos` only ever moves forward, so the copy of it the MCU holds is
some earlier read position, and `cp_in_wpos` likewise for the co-processor.
*/
module A2dpInCache {
  import opened Ring
  import opened AacFraming
  import CQueue

  /** `cp_in_size`, the size of the cache. */
  const CACHE_SIZE := 10240

  /** Bytes between two positions: `cp_get_in_cache_data_len`. */
  function DataLen(size: nat, wpos: nat, rpos: nat): (n: nat)
    requires wpos < size && rpos < size
    ensures n < size && Advance(size, rpos, n) == wpos
  {
    if wpos >= rpos then wpos - rpos else size - rpos + wpos
  }

  /** Room behind `wpos`; one byte is never filled, so that full and empty differ. */
  function FreeLen(size: nat, wpos: nat, rpos: nat): (n: nat)
    requires wpos < size && rpos < size
    ensures n == size - 1 - DataLen(size, wpos, rpos)
  {
    if wpos < rpos then rpos - wpos - 1 else size - wpos + rpos - 1
  }

  /** Seen from a read position of `taken` bytes ago, those bytes still count as unread: a stale
      position makes the room look smaller, never larger. */
  lemma StaleRoom(size: nat, wpos: nat, rpos: nat, snapRpos: nat, taken: nat, n: nat)
    requires rpos < size && snapRpos < size && taken + n < size
    requires rpos == Advance(size, snapRpos, taken) && wpos == Advance(size, rpos, n)
    ensures DataLen(size, wpos, snapRpos) == taken + n
    ensures FreeLen(size, wpos, snapRpos) == size - 1 - n - taken
  {
  }

  /** `memcpy` into the cache, within its bounds. */
  method Copy(mem: array<Byte>, at: nat, data: seq<Byte>)
    requires at < mem.Length && at + |data| <= mem.Length
    modifies mem
    ensures mem[..] == Put(old(mem[..]), at, data)
  {
    for i := 0 to |data|
      invariant forall p :: 0 <= p < mem.Length ==>
        mem[p] == if at <= p < at + i then data[p - at] else old(mem[p])
    {
      mem[at + i] := data[i];
    }
  }

  /** Copies one peeked segment: what fits up to `room`, then the rest from the start. */
  method CopySegment(mem: array<Byte>, at: nat, e: seq<Byte>, room: nat) returns (pos: nat)
    requires at < mem.Length && at + room <= mem.Length && |e| <= mem.Length
    requires |e| > room ==> at + room == mem.Length
    modifies mem
    ensures mem[..] == Put(old(mem[..]), at, e) && pos == Advance(mem.Length, at, |e|)
  {
    var n := if room > |e| then |e| else room;
    Copy(mem, at, e[..n]);
    pos := Advance(mem.Length, at, n);
    if n < |e| {
      Copy(mem, pos, e[n..]);
      pos := Advance(mem.Length, pos, |e| - n);
    }
    PutPut(old(mem[..]), at, e[..n], e[n..]);
    assert e[..n] + e[n..] == e;
  }

  class Cache {
    const mem: array<Byte>
    var wpos: nat
    var rpos: nat
    ghost var unread: seq<Byte>

    ghost predicate Valid()
      reads this, mem
    {
      && rpos < mem.Length
      && |unread| < mem.Length
      && wpos == Advance(mem.Length, rpos, |unread|)
      && unread == Stretch(mem[..], rpos, |unread|)
    }

    constructor ()
      ensures Valid() && fresh(mem) && mem.Length == 10240 && unread == []
    {
      mem := new Byte[CACHE_SIZE](_ => 0);
      wpos, rpos, unread := 0, 0, [];
    }

    /** `mcu_load_a2dp_encoded_data`.  `snapRpos` is `cp_in_rpos` as it was read, `taken` bytes
        ago.  However the queue's bytes are split in two and wherever the ring wraps, exactly the
        first min(queue length, room) bytes move behind the unread ones. */
    method LoadEncoded(q: CQueue.Queue, snapRpos: nat, ghost taken: nat)
      requires Valid() && q.Valid() && q.base != mem
      requires snapRpos < mem.Length && taken + |unread| < mem.Length
      requires rpos == Advance(mem.Length, snapRpos, taken)
      modifies this`wpos, this`unread, mem, q`read, q`len, q`contents
      ensures Valid() && q.Valid() && q.base == old(q.base)
      ensures var n := Min(|old(q.contents)|, FreeLen(mem.Length, old(wpos), snapRpos));
              && unread == old(unread) + old(q.contents)[..n]
              && q.contents == old(q.contents)[n..]
    {
      hide Put, Stretch, Advance;
      var inWpos := wpos;
      var room := if inWpos < snapRpos then snapRpos - inWpos - 1 else mem.Length - inWpos + snapRpos - 1;
      StaleRoom(mem.Length, wpos, rpos, snapRpos, taken, |unread|);
      if room == 0 {
        return;
      }
      var size := Min(q.len, room);
      var ok, len1, len2 := q.Peek(size);
      assert ok;
      var e1, e2 := q.base[q.read..q.read + len1], q.base[..len2];
      inWpos := Transfer(inWpos, snapRpos, e1, e2);
      Publish(inWpos, old(mem[..]), q.contents[..size]);
      var _ := q.Dequeue(size);
    }

    /** Writing `cp_in_wpos` makes the bytes written behind the unread ones unread too. */
    method Publish(inWpos: nat, ghost before: seq<Byte>, ghost data: seq<Byte>)
      requires rpos < mem.Length == |before| && |unread| + |data| < mem.Length
      requires wpos == Advance(mem.Length, rpos, |unread|) && unread == Stretch(before, rpos, |unread|)
      requires mem[..] == Put(before, wpos, data) && inWpos == Advance(mem.Length, wpos, |data|)
      modifies this`wpos, this`unread
      ensures Valid() && unread == old(unread) + data
    {
      hide Put, Stretch, Advance;
      PutExtends(before, rpos, |unread|, data);
      AdvanceAdvance(mem.Length, rpos, |unread|, |data|);
      wpos := inWpos;
      unread := unread + data;
    }

    /** The copying branches of `mcu_load_a2dp_encoded_data`. */
    method Transfer(wstart: nat, snapRpos: nat, e1: seq<Byte>, e2: seq<Byte>) returns (inWpos: nat)
      requires wstart < mem.Length && snapRpos < mem.Length
      requires |e1| + |e2| <= FreeLen(mem.Length, wstart, snapRpos)
      modifies mem
      ensures mem[..] == Put(old(mem[..]), wstart, e1 + e2)
      ensures inWpos == Advance(mem.Length, wstart, |e1 + e2|)
    {
      hide Put;
      inWpos := wstart;
      ghost var before := mem[..];
      PutPut(before, wstart, e1, e2);
      if inWpos < snapRpos {
        if |e1| != 0 {
          Copy(mem, inWpos, e1);
          inWpos := inWpos + |e1|;
        }
        if |e2| != 0 {
          Copy(mem, inWpos, e2);
          inWpos := inWpos + |e2|;
        }
      } else {
        var room := mem.Length - inWpos;
        if |e1| != 0 {
          inWpos := CopySegment(mem, inWpos, e1, room);
          room := if inWpos < snapRpos then snapRpos - inWpos - 1 else mem.Length - inWpos;
        }
        if |e2| != 0 {
          inWpos := CopySegment(mem, inWpos, e2, room);
        }
      }
    }

    /** `cp_get_in_cache_data`: the next `n` bytes, in one piece or two. */
    method GetData(n: nat, inWpos: nat, inRpos: nat) returns (data: seq<Byte>)
      requires inWpos < mem.Length && inRpos < mem.Length
      requires n <= DataLen(mem.Length, inWpos, inRpos)
      ensures data == Stretch(mem[..], inRpos, n)
    {
      if inWpos > inRpos || mem.Length >= inRpos + n {
        data := mem[inRpos..inRpos + n];
      } else {
        var copyLen := mem.Length - inRpos;
        data := mem[inRpos..inRpos + copyLen] + mem[..n - copyLen];
      }
    }

    /** The two length bytes, the second of which may lie at the start of the ring. */
    method GetLength(inWpos: nat, inRpos: nat) returns (n: nat)
      requires inWpos < mem.Length && inRpos < mem.Length
      requires 2 <= DataLen(mem.Length, inWpos, inRpos)
      ensures n == FromU16(Stretch(mem[..], inRpos, 2))
    {
      var high := if inWpos > inRpos || mem.Length >= inRpos + 2 then mem[inRpos + 1] else mem[0];
      n := FromU16([mem[inRpos], high]);
      assert Stretch(mem[..], inRpos, 2) == [mem[inRpos], high];
    }

    /** `cp_load_aac_frame`, seeing the first `seen` unread bytes.  The result depends on those
        alone, and only a complete frame moves the read position, by exactly that frame. */
    method LoadAac(snapWpos: nat, ghost seen: nat) returns (r: Load)
      requires Valid() && seen <= |unread| && snapWpos == Advance(mem.Length, rpos, seen)
      modifies this`rpos, this`unread
      ensures Valid()
      ensures r == LoadFrame(old(unread)[..seen])
      ensures unread == old(unread)[Taken(r)..]
      ensures !r.Frame? ==> rpos == old(rpos)
    {
      hide Stretch, FromU16;
      var inRpos := rpos;
      ghost var u := unread[..seen];
      StretchDrop(mem[..], rpos, |unread|, seen);
      var len := DataLen(mem.Length, snapWpos, inRpos);
      assert len == |u|;
      if len < 2 {
        return NoHeader;
      }
      StretchDrop(mem[..], rpos, seen, 2);
      var aacLen := GetLength(snapWpos, inRpos);
      inRpos := Advance(mem.Length, inRpos, 2);
      if aacLen >= MAX_FRAME {
        return BadHeader;
      }
      if len < 2 + aacLen {
        return Incomplete;
      }
      StretchSlice(mem[..], rpos, seen, 2, aacLen);
      var data := GetData(aacLen, snapWpos, inRpos);
      AdvanceAdvance(mem.Length, rpos, 2, aacLen);
      inRpos := Advance(mem.Length, inRpos, aacLen);
      Consume(inRpos, 2 + aacLen);
      r := Frame(data, MaxRead(aacLen));
    }

    /** Moves the read position behind the next `n` unread bytes. */
    method Consume(inRpos: nat, ghost n: nat)
      requires Valid() && n <= |unread| && inRpos == Advance(mem.Length, rpos, n)
      modifies this`rpos, this`unread
      ensures Valid() && rpos == inRpos && unread == old(unread)[n..]
    {
      hide Stretch;
      StretchDrop(mem[..], rpos, |unread|, n);
      AdvanceAdvance(mem.Length, rpos, n, |unread| - n);
      rpos := inRpos;
      unread := unread[n..];
    }
  }

  /** The AAC branch of `store_sbc_buffer`: length and packet together, or neither. */
  method StoreAac(q: CQueue.Queue, payload: Payload) returns (ok: bool)
    requires q.Valid()
    modifies q`write, q`len, q`contents, q.base
    ensures q.Valid() && q.base == old(q.base)
    ensures ok <==> |old(q.contents)| + 2 + |payload| <= q.base.Length
    ensures q.contents == old(q.contents) + if ok then U16(|payload|) + payload else []
  {
    hide *;
    ghost var before := q.contents;
    var available := q.Available();
    ok := available >= |payload| + 2;
    if ok {
      var _ := q.Enqueue(U16(|payload|));
      var _ := q.Enqueue(payload);
      assert q.contents == before + (U16(|payload|) + payload);
    }
  }

  function Min(a: nat, b: nat): nat {
    if a > b then b else a
  }
}
