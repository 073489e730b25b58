/** Encoding a frame into a caller-supplied buffer. */
module Encoder {
  import opened Bytes
  import opened Crc16
  import opened Frame

  function Overwrite(was: seq<byte>, k: nat, s: seq<byte>): seq<byte>
    requires k + |s| <= |was|
  {
    was[..k] + s + was[k + |s|..]
  }

  /** Copies s into the buffer from index k on. */
  method Put(out: array<byte>, k: nat, s: seq<byte>)
    requires k + |s| <= out.Length
    modifies out
    ensures out[..] == Overwrite(old(out[..]), k, s)
  {
    ghost var was := out[..];
    for i := 0 to |s|
      invariant out[..k] == was[..k]
      invariant out[k..k + i] == s[..i]
      invariant out[k + |s|..] == was[k + |s|..]
    {
      out[k + i] := s[i];
    }
    assert out[..] == out[..k] + out[k..k + |s|] + out[k + |s|..];
  }

  /** Neighbouring copies line up. */
  lemma Adjoining(was: seq<byte>, head: seq<byte>, s: seq<byte>)
    requires |head| + |s| <= |was|
    ensures Overwrite(head + was[|head|..], |head|, s) == (head + s) + was[|head + s|..]
  {
  }

  /** Returns the number of octets written, or 0 when the payload is too long or the buffer too small. */
  method FrameEncode(typ: byte, seqNo: byte, payload: seq<byte>, out: array<byte>) returns (n: nat)
    modifies out
    ensures n == if |payload| > MAX_PAYLOAD || out.Length < 8 + |payload| then 0 else 8 + |payload|
    ensures n == 0 ==> out[..] == old(out[..])
    ensures n != 0 ==> out[..] == Encode(Frame(typ, seqNo, payload)) + old(out[n..])
  {
    hide Crc, Hi, Lo, Overwrite, Encode;
    if |payload| > MAX_PAYLOAD {
      return 0;
    }
    n := 8 + |payload|;
    if out.Length < n {
      return 0;
    }
    ghost var was := out[..];
    var header := [SOF, VER, typ, seqNo, 0, |payload| as bv8];
    Adjoining(was, [], header);
    assert [] + was[0..] == was && [] + header == header;
    Put(out, 0, header);
    Adjoining(was, header, payload);
    Put(out, 6, payload);
    var body := header + payload;
    assert out[1..n - 2] == body[1..];
    var crc := Crc16Ccitt(CRC_INIT, out[1..n - 2]);
    Adjoining(was, body, [Hi(crc), Lo(crc)]);
    Put(out, n - 2, [Hi(crc), Lo(crc)]);
    Assembled(Frame(typ, seqNo, payload), body);
  }

  lemma Assembled(f: Frame, body: seq<byte>)
    requires Encodable(f) && body == [SOF, VER, f.typ, f.seqNo, 0, |f.payload| as bv8] + f.payload
    ensures var crc := Crc(CRC_INIT, body[1..]); body + [Hi(crc), Lo(crc)] == Encode(f)
  {
    hide Crc, Hi, Lo;
    assert body[1..] == Covered(f);
  }
}
