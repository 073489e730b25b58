/** CRC-16/CCITT-FALSE as a shift register: its recursive specification and the two loops that compute it. */
module Crc16 {
  import opened Bytes

  const CRC_INIT: bv16 := 0xFFFF

  /** One clock of the register: multiplication by x modulo x^16 + x^12 + x^5 + 1. */
  function Shift(r: bv16): bv16 {
    if r & 0x8000 != 0 then (r << 1) ^ 0x1021 else r << 1
  }

  function Shifts(r: bv16, n: nat): bv16 {
    if n == 0 then r else Shift(Shifts(r, n - 1))
  }

  /** An octet placed in the upper half of the register. */
  function Raised(b: byte): bv16 {
    (b as bv16) << 8
  }

  function Crc(seed: bv16, data: seq<byte>): bv16
    decreases |data|
  {
    if data == [] then seed
    else Shifts(Crc(seed, data[..|data| - 1]) ^ Raised(data[|data| - 1]), 8)
  }

  lemma CrcSnoc(seed: bv16, data: seq<byte>, b: byte)
    ensures Crc(seed, data + [b]) == Shifts(Crc(seed, data) ^ Raised(b), 8)
  {
    assert (data + [b])[..|data|] == data;
  }

  /** The register carries over: a checksum may be computed piece by piece. */
  lemma {:induction false} CrcConcat(seed: bv16, s: seq<byte>, t: seq<byte>)
    ensures Crc(seed, s + t) == Crc(Crc(seed, s), t)
    decreases |t|
  {
    if t == [] {
      assert s + t == s;
    } else {
      var t', b := t[..|t| - 1], t[|t| - 1];
      assert s + t == (s + t') + [b] && t == t' + [b];
      CrcSnoc(seed, s + t', b);
      CrcConcat(seed, s, t');
    }
  }

  /** The body of the innermost loop. */
  method Clock(reg: bv16) returns (crc: bv16)
    ensures crc == Shift(reg)
  {
    crc := reg;
    if crc & 0x8000 != 0 {
      crc := (crc << 1) ^ 0x1021;
    } else {
      crc := crc << 1;
    }
  }

  method Crc16Ccitt(seed: bv16, data: seq<byte>) returns (crc: bv16)
    ensures crc == Crc(seed, data)
  {
    crc := seed;
    for i := 0 to |data|
      invariant crc == Crc(seed, data[..i])
    {
      crc := crc ^ Raised(data[i]);
      ghost var reg := crc;
      for bit := 0 to 8
        invariant crc == Shifts(reg, bit)
      {
        crc := Clock(crc);
      }
      assert data[..i + 1] == data[..i] + [data[i]];
      CrcSnoc(seed, data[..i], data[i]);
    }
    assert data[..|data|] == data;
  }
}
