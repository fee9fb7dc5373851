/** The 60-byte packets of the wide-band SCO codecs: a two-byte synchronization header whose second
byte carries the sequence number, 57 codec bytes, one padding byte.

`bt_sco_codec_msbc.c` and `bt_sco_codec_xxxx.c` (apps/audioplayers) number their packets alike; the
parser of `plc_utils.c` reads the numbers back.
*/
module ScoPackets {

  type Packet = p: seq<bv8> | |p| == 60 witness seq(60, _ => 0)
  type Payload = p: seq<bv8> | |p| == 57 witness seq(57, _ => 0)

  const PACKET_SIZE := 60
  const HEADER: bv8 := 0x01
  const PADDING: bv8 := 0x00

  /** `g_sco_packet_seq`. */
  const SEQ_BYTES: seq<bv8> := [0x08, 0x38, 0xc8, 0xf8]

  /** The two values the controller's mute pattern has. */
  predicate Pattern(pattern: bv8) {
    pattern == 0x55 || pattern == 0x00
  }

  /** The padding byte is not looked at. */
  predicate Muted(pkt: Packet, pattern: bv8) {
    forall i :: 0 <= i < PACKET_SIZE - 1 ==> pkt[i] == pattern
  }

  lemma MutedIff(pkt: Packet, pattern: bv8)
    ensures Muted(pkt, pattern) <==> pkt[..59] == seq(59, _ => pattern)
  {
    if Muted(pkt, pattern) {
      assert forall i :: 0 <= i < 59 ==> pkt[..59][i] == pattern;
    } else {
      var i :| 0 <= i < 59 && pkt[i] != pattern;
      assert pkt[..59][i] != seq(59, _ => pattern)[i];
    }
  }

  /** `check_controller_mute_pattern` of the codec and of the loss detection. */
  method CheckControllerMutePattern(pkt: Packet, pattern: bv8) returns (muted: bool)
    ensures muted <==> Muted(pkt, pattern)
  {
    for i := 0 to PACKET_SIZE - 1
      invariant forall j :: 0 <= j < i ==> pkt[j] == pattern
    {
      if pkt[i] != pattern {
        return false;
      }
    }
    return true;
  }

  /** Packet number `p` of a stream. */
  function Stamp(p: nat, payload: Payload): Packet {
    [HEADER, SEQ_BYTES[p % 4]] + payload + [PADDING]
  }

  /** Packets `p`, `p + 1`, ... of a stream, back to back. */
  function Stream(p: nat, payloads: seq<Payload>): (s: seq<bv8>)
    ensures |s| == PACKET_SIZE * |payloads|
  {
    if payloads == [] then []
    else Stream(p, payloads[..|payloads| - 1]) + Stamp(p + |payloads| - 1, payloads[|payloads| - 1])
  }

  lemma StreamGrows(p: nat, payloads: seq<Payload>, i: nat)
    requires i < |payloads|
    ensures Stream(p, payloads[..i + 1]) == Stream(p, payloads[..i]) + Stamp(p + i, payloads[i])
  {
    hide Stamp;
    assert payloads[..i + 1][..i] == payloads[..i];
  }

  lemma {:induction false} StreamAt(p: nat, payloads: seq<Payload>, i: nat)
    requires i < |payloads|
    ensures Stream(p, payloads)[PACKET_SIZE * i..PACKET_SIZE * (i + 1)] == Stamp(p + i, payloads[i])
  {
    var n := |payloads| - 1;
    if i < n {
      StreamAt(p, payloads[..n], i);
      assert Stream(p, payloads)[..PACKET_SIZE * n] == Stream(p, payloads[..n]);
      assert PACKET_SIZE * (i + 1) <= PACKET_SIZE * n;
    }
  }

  lemma NextMod(x: nat)
    ensures (x % 4 + 1) % 4 == (x + 1) % 4
  {
  }

  class Encoder {
    var seqIndex: nat

    ghost predicate Valid()
      reads this
    {
      seqIndex < 4
    }

    constructor ()
      ensures Valid() && seqIndex == 0
    {
      seqIndex := 0;
    }

    /** The packet loop of both encoders; the codec has turned the PCM into `payloads`. */
    method Encode(out: array<bv8>, payloads: seq<Payload>, ghost p: nat)
      requires Valid() && seqIndex == p % 4
      requires out.Length == PACKET_SIZE * |payloads|
      modifies this, out
      ensures Valid() && seqIndex == (p + |payloads|) % 4
      ensures out[..] == Stream(p, payloads)
    {
      for i := 0 to |payloads|
        invariant seqIndex == (p + i) % 4
        invariant out[..PACKET_SIZE * i] == Stream(p, payloads[..i])
      {
        hide Stream, Stamp;
        var at := PACKET_SIZE * i;
        EncodePacket(out, at, payloads[i], p + i);
        StreamGrows(p, payloads, i);
      }
      assert payloads[..|payloads|] == payloads;
    }

    /** One round of the loop. */
    method EncodePacket(out: array<bv8>, at: nat, payload: Payload, ghost p: nat)
      requires Valid() && seqIndex == p % 4
      requires at + PACKET_SIZE <= out.Length
      modifies this, out
      ensures Valid() && seqIndex == (p + 1) % 4
      ensures out[..at + PACKET_SIZE] == old(out[..at]) + Stamp(p, payload)
    {
      hide Stamp;
      Fill(out, at, SEQ_BYTES[seqIndex], payload, p);
      assert out[..at + PACKET_SIZE] == out[..at] + out[at..at + PACKET_SIZE];
      NextMod(p);
      seqIndex := (seqIndex + 1) % 4;
    }

    method Fill(out: array<bv8>, at: nat, seqByte: bv8, payload: Payload, ghost p: nat)
      requires at + PACKET_SIZE <= out.Length && seqByte == SEQ_BYTES[p % 4]
      modifies out
      ensures out[..at] == old(out[..at])
      ensures out[at..at + PACKET_SIZE] == Stamp(p, payload)
    {
      out[at] := HEADER;
      out[at + PACKET_SIZE - 1] := PADDING;
      out[at + 1] := seqByte;
      for k := 0 to 57
        invariant out[..at] == old(out[..at])
        invariant out[at] == HEADER && out[at + 1] == seqByte && out[at + PACKET_SIZE - 1] == PADDING
        invariant out[at + 2..at + 2 + k] == payload[..k]
      {
        out[at + 2 + k] := payload[k];
      }
      assert out[at..at + PACKET_SIZE] == [HEADER, seqByte] + out[at + 2..at + 59] + [PADDING];
    }
  }
}
