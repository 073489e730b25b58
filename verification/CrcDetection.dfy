/** The checksum as linear algebra over bits, and the error patterns it is guaranteed to detect. */
module CrcDetection {
  import opened Bytes
  import opened Crc16

  function Xor(a: bv16, b: bv16): bv16 {
    a ^ b
  }

  lemma XorComm(a: bv16, b: bv16)
    ensures Xor(a, b) == Xor(b, a)
  {
  }

  lemma XorAssoc(a: bv16, b: bv16, c: bv16)
    ensures Xor(Xor(a, b), c) == Xor(a, Xor(b, c))
  {
  }

  lemma XorZero(a: bv16)
    ensures Xor(a, 0) == a == Xor(0, a)
  {
  }

  lemma XorCancel(a: bv16, b: bv16)
    ensures Xor(a, b) == 0 <==> a == b
  {
    hide Xor;
    XorUndo(a, b);
    XorZero(b);
    XorSelf(b);
  }

  lemma XorSelf(a: bv16)
    ensures Xor(a, a) == 0
  {
  }

  lemma XorUndo(a: bv16, b: bv16)
    ensures Xor(Xor(a, b), b) == a
  {
  }

  lemma XorRegroup(a: bv16, b: bv16, c: bv16, d: bv16)
    ensures Xor(Xor(a, b), Xor(c, d)) == Xor(Xor(a, c), Xor(b, d))
  {
    hide Xor;
    XorAssoc(a, b, Xor(c, d));
    XorAssoc(b, c, d);
    XorComm(b, c);
    XorAssoc(c, b, d);
    XorAssoc(a, c, Xor(b, d));
  }

  // ---- One clock of the register: linear and invertible ----

  predicate Top(r: bv16) {
    r & 0x8000 != 0
  }

  function Left(r: bv16): bv16 {
    r << 1
  }

  lemma ShiftCases(r: bv16)
    ensures Shift(r) == if Top(r) then Xor(Left(r), 0x1021) else Left(r)
  {
  }

  lemma TopLinear(a: bv16, b: bv16)
    ensures Top(Xor(a, b)) <==> Top(a) != Top(b)
  {
  }

  lemma LeftLinear(a: bv16, b: bv16)
    ensures Left(Xor(a, b)) == Xor(Left(a), Left(b))
  {
  }

  lemma ShiftLinear(a: bv16, b: bv16)
    ensures Shift(Xor(a, b)) == Xor(Shift(a), Shift(b))
  {
    hide *;
    var p, q, g := Left(a), Left(b), 0x1021;
    ShiftCases(a);
    ShiftCases(b);
    ShiftCases(Xor(a, b));
    TopLinear(a, b);
    LeftLinear(a, b);
    XorRegroup(p, g, q, g);
    XorCancel(g, g);
    XorZero(Xor(p, q));
    XorAssoc(p, q, g);
    XorAssoc(p, g, q);
    XorComm(g, q);
  }

  /** The inverse clock. */
  function Unshift(r: bv16): bv16 {
    if r & 1 != 0 then ((r ^ 0x1021) >> 1) | 0x8000 else r >> 1
  }

  lemma UnshiftShift(r: bv16)
    ensures Unshift(Shift(r)) == r
  {
    hide *;
    ShiftCases(r);
    if Top(r) {
      UnshiftTop(r);
    } else {
      UnshiftNoTop(r);
    }
  }

  lemma UnshiftTop(r: bv16)
    requires Top(r)
    ensures Unshift(Xor(Left(r), 0x1021)) == r
  {
  }

  lemma UnshiftNoTop(r: bv16)
    requires !Top(r)
    ensures Unshift(Left(r)) == r
  {
  }

  // ---- Any number of clocks ----

  lemma {:induction false} ShiftsLinear(a: bv16, b: bv16, n: nat)
    ensures Shifts(Xor(a, b), n) == Xor(Shifts(a, n), Shifts(b, n))
  {
    hide Shift, Xor;
    if n > 0 {
      ShiftsLinear(a, b, n - 1);
      ShiftLinear(Shifts(a, n - 1), Shifts(b, n - 1));
    }
  }

  lemma {:induction false} ShiftsInjective(a: bv16, b: bv16, n: nat)
    requires Shifts(a, n) == Shifts(b, n)
    ensures a == b
  {
    hide Shift, Unshift;
    if n > 0 {
      UnshiftShift(Shifts(a, n - 1));
      UnshiftShift(Shifts(b, n - 1));
      ShiftsInjective(a, b, n - 1);
    }
  }

  lemma {:induction false} ShiftsAdd(r: bv16, m: nat, n: nat)
    ensures Shifts(Shifts(r, m), n) == Shifts(r, m + n)
  {
    hide Shift;
    if n > 0 {
      ShiftsAdd(r, m, n - 1);
    }
  }

  lemma {:induction false} ShiftsZero(n: nat)
    ensures Shifts(0, n) == 0
  {
    if n > 0 {
      ShiftsZero(n - 1);
    }
  }

  /** A register that is not zero never becomes zero by clocking. */
  lemma ShiftsNonzero(r: bv16, n: nat)
    ensures Shifts(r, n) == 0 <==> r == 0
  {
    hide Shift;
    ShiftsZero(n);
    if Shifts(r, n) == 0 {
      ShiftsInjective(r, 0, n);
    }
  }

  // ---- The checksum of an octet string is affine in the string and a bijection of its seed ----

  function XorBytes(s: seq<byte>, e: seq<byte>): (r: seq<byte>)
    requires |s| == |e|
    ensures |r| == |s|
    ensures forall i :: 0 <= i < |s| ==> r[i] == s[i] ^ e[i]
  {
    seq(|s|, i requires 0 <= i < |s| => s[i] ^ e[i])
  }

  lemma RaisedLinear(a: byte, b: byte)
    ensures Raised(a ^ b) == Xor(Raised(a), Raised(b))
  {
  }

  lemma CrcStep(seed: bv16, data: seq<byte>)
    requires data != []
    ensures Crc(seed, data) == Shifts(Xor(Crc(seed, data[..|data| - 1]), Raised(data[|data| - 1])), 8)
  {
    hide Shift, Raised, Shifts;
  }

  lemma {:induction false} CrcLinear(a: bv16, b: bv16, s: seq<byte>, t: seq<byte>)
    requires |s| == |t|
    ensures Crc(Xor(a, b), XorBytes(s, t)) == Xor(Crc(a, s), Crc(b, t))
    decreases |s|
  {
    hide Shift, Shifts, Raised, Xor;
    if s == [] {
      assert XorBytes(s, t) == [];
    } else {
      var n := |s| - 1;
      var x := XorBytes(s, t);
      CrcLinear(a, b, s[..n], t[..n]);
      assert x[..n] == XorBytes(s[..n], t[..n]);
      CrcStep(a, s);
      CrcStep(b, t);
      CrcStep(Xor(a, b), x);
      RaisedLinear(s[n], t[n]);
      XorRegroup(Crc(a, s[..n]), Crc(b, t[..n]), Raised(s[n]), Raised(t[n]));
      ShiftsLinear(Xor(Crc(a, s[..n]), Raised(s[n])), Xor(Crc(b, t[..n]), Raised(t[n])), 8);
    }
  }

  /** Two runs over the same octets agree only if they started from the same seed. */
  lemma {:induction false} SeedInjective(a: bv16, b: bv16, s: seq<byte>)
    requires Crc(a, s) == Crc(b, s)
    ensures a == b
    decreases |s|
  {
    hide Shift, Shifts, Raised, Xor;
    if s != [] {
      var n := |s| - 1;
      CrcStep(a, s);
      CrcStep(b, s);
      ShiftsInjective(Xor(Crc(a, s[..n]), Raised(s[n])), Xor(Crc(b, s[..n]), Raised(s[n])), 8);
      XorUndo(Crc(a, s[..n]), Raised(s[n]));
      XorUndo(Crc(b, s[..n]), Raised(s[n]));
      SeedInjective(a, b, s[..n]);
    }
  }

  // ---- The same register fed one bit at a time, most significant bit of each octet first ----

  function Head(x: bool): bv16 {
    if x then 0x8000 else 0
  }

  function Feed(r: bv16, s: seq<bool>): bv16
    decreases |s|
  {
    if s == [] then r else Feed(Shift(Xor(r, Head(s[0]))), s[1..])
  }

  function BitsFrom(w: bv16, n: nat): (s: seq<bool>)
    ensures |s| == n
    decreases n
  {
    if n == 0 then [] else [Top(w)] + BitsFrom(Left(w), n - 1)
  }

  function Bits(data: seq<byte>): (s: seq<bool>)
    ensures |s| == 8 * |data|
  {
    if data == [] then [] else Bits(data[..|data| - 1]) + BitsFrom(Raised(data[|data| - 1]), 8)
  }

  lemma {:induction false} FeedConcat(r: bv16, s: seq<bool>, t: seq<bool>)
    ensures Feed(r, s + t) == Feed(Feed(r, s), t)
    decreases |s|
  {
    hide Shift, Xor, Head;
    if s == [] {
      assert s + t == t;
    } else {
      assert (s + t)[1..] == s[1..] + t;
      FeedConcat(Shift(Xor(r, Head(s[0]))), s[1..], t);
    }
  }

  /** The first n bits of w are its only set bits. */
  predicate Fits(w: bv16, n: nat)
    decreases n
  {
    if n == 0 then w == 0 else Fits(Left(w), n - 1)
  }

  lemma HeadShift(w: bv16)
    ensures Shift(w) == Xor(Shift(Head(Top(w))), Left(w))
  {
    hide *;
    ShiftCases(w);
    ShiftOfHead(Top(w));
    XorComm(Left(w), 0x1021);
    XorZero(Left(w));
  }

  lemma ShiftOfHead(x: bool)
    ensures Shift(Head(x)) == if x then 0x1021 else 0
  {
  }

  /** Feeding the top n bits of a word is adding the word and clocking n times. */
  lemma {:induction false} FeedWord(r: bv16, w: bv16, n: nat)
    requires Fits(w, n)
    ensures Feed(r, BitsFrom(w, n)) == Shifts(Xor(r, w), n)
    decreases n
  {
    hide Shift, Xor, Head, Top, Left;
    if n == 0 {
      XorZero(r);
    } else {
      var h := Head(Top(w));
      var r' := Shift(Xor(r, h));
      assert BitsFrom(w, n)[1..] == BitsFrom(Left(w), n - 1);
      FeedWord(r', Left(w), n - 1);
      assert Xor(r', Left(w)) == Shift(Xor(r, w)) by {
        ShiftLinear(r, h);
        ShiftLinear(r, w);
        HeadShift(w);
        XorAssoc(Shift(r), Shift(h), Left(w));
      }
      ShiftsAdd(Xor(r, w), 1, n - 1);
      assert Shifts(Xor(r, w), 1) == Shift(Xor(r, w));
    }
  }

  lemma RaisedOut(b: byte)
    ensures Left(Left(Left(Left(Left(Left(Left(Left(Raised(b))))))))) == 0
  {
  }

  lemma RaisedFits(b: byte)
    ensures Fits(Raised(b), 8)
  {
    hide Left, Raised;
    RaisedOut(b);
    var w4 := Left(Left(Left(Left(Raised(b)))));
    assert Fits(Left(Left(Left(w4))), 1) && Fits(Left(Left(w4)), 2) && Fits(w4, 4);
  }

  lemma {:induction false} CrcIsFeed(seed: bv16, data: seq<byte>)
    ensures Crc(seed, data) == Feed(seed, Bits(data))
    decreases |data|
  {
    hide Shift, Shifts, Raised, Xor;
    if data != [] {
      var s, b := data[..|data| - 1], data[|data| - 1];
      CrcIsFeed(seed, s);
      CrcStep(seed, data);
      RaisedFits(b);
      FeedWord(Crc(seed, s), Raised(b), 8);
      FeedConcat(seed, Bits(s), BitsFrom(Raised(b), 8));
    }
  }

  // ---- Codewords: octets followed by their checksum ----

  lemma LowShifts(lo: byte)
    ensures Shifts(lo as bv16, 8) == Raised(lo)
  {
    hide Shift, Raised;
    var w := lo as bv16;
    LowShift4(w);
    LowShift8(w);
    assert Shifts(w, 1) == Shift(w) && Shifts(w, 2) == Shift(Shift(w));
    assert Shifts(w, 4) == Shift(Shift(Shifts(w, 2)));
    assert Shifts(w, 6) == Shift(Shift(Shifts(w, 4)));
    LowRaised(lo);
  }

  lemma LowRaised(lo: byte)
    ensures (lo as bv16) << 8 == Raised(lo)
  {
  }

  lemma LowShift4(w: bv16)
    requires w < 0x100
    ensures Shift(Shift(Shift(Shift(w)))) == w << 4
  {
  }

  lemma LowShift8(w: bv16)
    requires w < 0x100
    ensures Shift(Shift(Shift(Shift(w << 4)))) == w << 8
  {
  }

  lemma WordIsXor(hi: byte, lo: byte)
    ensures Word(hi, lo) == Xor(Raised(hi), lo as bv16)
  {
  }

  /** Appending the right checksum, and only that, drives the register to zero. */
  lemma CodewordZero(seed: bv16, d: seq<byte>, hi: byte, lo: byte)
    ensures Crc(seed, d + [hi, lo]) == 0 <==> Crc(seed, d) == Word(hi, lo)
  {
    hide Shift, Raised, Xor, Shifts, Word;
    var c := Crc(seed, d);
    var x := Xor(c, Raised(hi));
    assert Crc(seed, d + [hi]) == Shifts(x, 8) by {
      CrcStep(seed, d + [hi]);
      assert (d + [hi])[..|d|] == d;
    }
    assert Crc(seed, d + [hi, lo]) == Shifts(Xor(Shifts(x, 8), Raised(lo)), 8) by {
      CrcStep(seed, d + [hi, lo]);
      assert (d + [hi, lo])[..|d| + 1] == d + [hi];
    }
    ShiftsNonzero(Xor(Shifts(x, 8), Raised(lo)), 8);
    XorCancel(Shifts(x, 8), Raised(lo));
    LowShifts(lo);
    if x != lo as bv16 && Shifts(x, 8) == Raised(lo) {
      ShiftsInjective(x, lo as bv16, 8);
    }
    assert Crc(seed, d + [hi, lo]) == 0 <==> x == lo as bv16;
    XorUndo(c, Raised(hi));
    XorComm(lo as bv16, Raised(hi));
    WordIsXor(hi, lo);
    XorUndo(lo as bv16, Raised(hi));
  }

  /** What a receiver sees of a damaged codeword depends on the error alone. */
  lemma ErrorSyndrome(seed: bv16, m: seq<byte>, e: seq<byte>)
    requires |m| == |e| && Crc(seed, m) == 0
    ensures Crc(seed, XorBytes(m, e)) == Crc(0, e)
  {
    hide Xor, Crc;
    CrcLinear(seed, 0, m, e);
    XorZero(seed);
    XorZero(Crc(0, e));
  }

  // ---- Error classes ----

  predicate Clear(s: seq<bool>) {
    forall k :: 0 <= k < |s| ==> !s[k]
  }

  lemma {:induction false} FeedClear(r: bv16, s: seq<bool>)
    requires Clear(s)
    ensures Feed(r, s) == Shifts(r, |s|)
    decreases |s|
  {
    hide Shift, Xor;
    if s != [] {
      XorZero(r);
      FeedClear(Shift(r), s[1..]);
      ShiftsAdd(r, 1, |s| - 1);
      assert Shifts(r, 1) == Shift(r);
    }
  }

  /** Nonzero, with every set bit among the 16 positions from i. */
  predicate BurstAt(s: seq<bool>, i: nat) {
    && i + 16 <= |s|
    && !Clear(s)
    && forall k :: 0 <= k < |s| && s[k] ==> i <= k < i + 16
  }

  predicate Burst(s: seq<bool>) {
    exists i: nat :: i <= |s| && BurstAt(s, i)
  }

  function Right(r: bv16): bv16 {
    r >> 1
  }

  /** The word whose leading bits are s. */
  function Pack(s: seq<bool>): bv16
    decreases |s|
  {
    if s == [] then 0 else Xor(Head(s[0]), Right(Pack(s[1..])))
  }

  lemma HeadOntoRight(x: bool, p: bv16)
    ensures Top(Xor(Head(x), Right(p))) == x
    ensures p & 1 == 0 ==> Left(Xor(Head(x), Right(p))) == p
  {
  }

  lemma {:induction false} FitsMore(w: bv16, m: nat, n: nat)
    requires Fits(w, m) && m <= n
    ensures Fits(w, n)
    decreases n
  {
    hide Left;
    if m > 0 {
      FitsMore(Left(w), m - 1, n - 1);
    } else if n > 0 {
      LeftZero();
      FitsMore(0, 0, n - 1);
    }
  }

  lemma LeftZero()
    ensures Left(0) == 0
  {
  }

  lemma FitsEven(w: bv16)
    requires Fits(w, 15)
    ensures w & 1 == 0
  {
    hide Left;
    var w4 := Left(Left(Left(Left(w))));
    var w8 := Left(Left(Left(Left(w4))));
    var w12 := Left(Left(Left(Left(w8))));
    assert Fits(w4, 11) && Fits(w8, 7) && Fits(w12, 3);
    LeftFour(w);
    LeftFour(w4);
    LeftFour(w8);
    LastBitStays(w);
    LeftThree(w12);
  }

  lemma LeftFour(w: bv16)
    ensures Left(Left(Left(Left(w)))) == w << 4
  {
  }

  lemma LeftThree(w: bv16)
    ensures Left(Left(Left(w))) == w << 3
  {
  }

  lemma LastBitStays(w: bv16)
    ensures (((w << 4) << 4) << 4) << 3 == 0 ==> w & 1 == 0
  {
  }

  lemma {:induction false} PackBits(s: seq<bool>)
    requires |s| <= 16
    ensures Fits(Pack(s), |s|) && BitsFrom(Pack(s), |s|) == s
    decreases |s|
  {
    hide Left, Right, Top, Xor, Head;
    if s != [] {
      var p := Pack(s[1..]);
      PackBits(s[1..]);
      FitsMore(p, |s| - 1, 15);
      FitsEven(p);
      HeadOntoRight(s[0], p);
    }
  }

  lemma {:induction false} ZeroBits(n: nat)
    ensures Clear(BitsFrom(0, n))
  {
    if n > 0 {
      ZeroBits(n - 1);
      LeftZero();
    }
  }

  /** Every nonzero burst of up to 16 bits leaves a nonzero syndrome. */
  lemma BurstDetected(s: seq<bool>)
    requires Burst(s)
    ensures Feed(0, s) != 0
  {
    hide Shift, Shifts, Feed, BitsFrom, Pack, Xor, Fits;
    var i: nat :| i <= |s| && BurstAt(s, i);
    var a, w, b := s[..i], s[i..i + 16], s[i + 16..];
    assert s == a + (w + b);
    FeedConcat(0, a, w + b);
    FeedClear(0, a);
    ShiftsZero(i);
    FeedConcat(0, w, b);
    FeedClear(Feed(0, w), b);
    ShiftsNonzero(Feed(0, w), |b|);
    PackBits(w);
    FeedWord(0, Pack(w), 16);
    XorZero(Pack(w));
    ShiftsNonzero(Pack(w), 16);
    PackZero(w);
    var k :| 0 <= k < |s| && s[k];
    assert w[k - i];
  }

  lemma PackZero(s: seq<bool>)
    requires |s| <= 16
    ensures Pack(s) == 0 ==> Clear(s)
  {
    hide Pack, BitsFrom, Fits;
    PackBits(s);
    ZeroBits(|s|);
  }

  /** Whether the number of set bits is odd. */
  predicate Odd(s: seq<bool>)
    decreases |s|
  {
    s != [] && s[0] != Odd(s[1..])
  }

  predicate Parity(r: bv16, n: nat)
    decreases n
  {
    n > 0 && Top(r) != Parity(Left(r), n - 1)
  }

  lemma {:induction false} ParityLinear(a: bv16, b: bv16, n: nat)
    ensures Parity(Xor(a, b), n) == (Parity(a, n) != Parity(b, n))
    decreases n
  {
    hide Top, Left, Xor;
    if n > 0 {
      TopLinear(a, b);
      LeftLinear(a, b);
      ParityLinear(Left(a), Left(b), n - 1);
    }
  }

  lemma {:induction false} ParityFits(r: bv16, m: nat, n: nat)
    requires Fits(r, m) && m <= n
    ensures Parity(r, m) == Parity(r, n)
    decreases n
  {
    hide Left;
    if m > 0 {
      ParityFits(Left(r), m - 1, n - 1);
    } else if n > 0 {
      LeftZero();
      ParityFits(0, 0, n - 1);
    }
  }

  lemma FitsAll(w: bv16)
    ensures Fits(w, 16)
  {
    hide Left;
    var w4 := Left(Left(Left(Left(w))));
    var w8 := Left(Left(Left(Left(w4))));
    var w12 := Left(Left(Left(Left(w8))));
    LeftFour(w);
    LeftFour(w4);
    LeftFour(w8);
    LeftFour(w12);
    AllOut(w);
    assert Fits(w12, 4) && Fits(w8, 8) && Fits(w4, 12);
  }

  lemma AllOut(w: bv16)
    ensures (((w << 4) << 4) << 4) << 4 == 0
  {
  }

  /** The generator polynomial has an even number of terms, so clocking keeps the register's parity. */
  lemma ParityShift(r: bv16)
    ensures Parity(Shift(r), 16) == Parity(r, 16)
  {
    hide *;
    FitsAll(r);
    StepOff(r);
    ParityFits(Left(r), 15, 16);
    ShiftCases(r);
    ParityLinear(Left(r), 0x1021, 16);
    ParityPoly();
  }

  lemma StepOff(r: bv16)
    requires Fits(r, 16)
    ensures Fits(Left(r), 15) && Parity(r, 16) == (Top(r) != Parity(Left(r), 15))
  {
    hide Left, Top;
  }

  lemma ParityPoly()
    ensures Parity(0x1021, 16)
  {
    var w4 := Left(Left(Left(Left(0x1021))));
    var w8 := Left(Left(Left(Left(w4))));
    var w12 := Left(Left(Left(Left(w8))));
    assert w4 == 0x0210 && w8 == 0x2100 && w12 == 0x1000;
    assert !Parity(w12, 4) == false && !Parity(w8, 8) && Parity(w4, 12) == false;
  }

  lemma ParityHead(x: bool)
    ensures Parity(Head(x), 16) == x
  {
    LeftHead(x);
    ZeroParity(15);
    StepOffHead(x);
  }

  lemma LeftHead(x: bool)
    ensures Left(Head(x)) == 0 && Top(Head(x)) == x
  {
  }

  lemma StepOffHead(x: bool)
    ensures Parity(Head(x), 16) == (Top(Head(x)) != Parity(Left(Head(x)), 15))
  {
    hide Left, Top, Head;
  }

  lemma {:induction false} ZeroParity(n: nat)
    ensures !Parity(0, n)
  {
    if n > 0 {
      LeftZero();
      ZeroParity(n - 1);
    }
  }

  lemma {:induction false} FeedParity(r: bv16, s: seq<bool>)
    ensures Parity(Feed(r, s), 16) == (Parity(r, 16) != Odd(s))
    decreases |s|
  {
    hide Shift, Xor, Head, Parity;
    if s != [] {
      var x := Xor(r, Head(s[0]));
      ParityLinear(r, Head(s[0]), 16);
      ParityHead(s[0]);
      ParityShift(x);
      FeedParity(Shift(x), s[1..]);
    }
  }

  /** Any odd number of flipped bits leaves a nonzero syndrome. */
  lemma OddDetected(s: seq<bool>)
    requires Odd(s)
    ensures Feed(0, s) != 0
  {
    hide Feed, Odd, Parity;
    FeedParity(0, s);
    ZeroParity(16);
  }

  // ---- Two flipped bits: the order of x modulo the generator exceeds the longest distance in a frame ----

  /** x^(16 a) */
  function Orbit(a: nat): bv16 {
    if a == 0 then 1 else Shift8(Shift8(Orbit(a - 1)))
  }

  function Shift8(r: bv16): bv16 {
    Shift(Shift(Shift(Shift(Shift(Shift(Shift(Shift(r))))))))
  }

  /** Zero, or a single power of x below 16. */
  predicate SinglePower(r: bv16) {
    r & (r - 1) == 0
  }

  predicate OrbitClear(a: nat) {
    a == 0 || (!SinglePower(Orbit(a)) && OrbitClear(a - 1))
  }

  lemma OrbitStart()
    ensures Orbit(0) == 1 && OrbitClear(0)
  {
  }

  lemma OrbitStep(a: nat, r: bv16, r': bv16)
    requires a > 0 && Orbit(a - 1) == r && OrbitClear(a - 1)
    requires Shift8(Shift8(r)) == r' && !SinglePower(r')
    ensures Orbit(a) == r' && OrbitClear(a)
  {
    hide Shift8, SinglePower;
  }

  lemma OrbitTo12()
    ensures Orbit(12) == 0x650b && OrbitClear(12)
  {
    hide Orbit, OrbitClear;
    OrbitStart();
    OrbitStep(1, 0x0001, 0x1021);
    OrbitStep(2, 0x1021, 0x3730);
    OrbitStep(3, 0x3730, 0xaa51);
    OrbitStep(4, 0xaa51, 0xb861);
    OrbitStep(5, 0xb861, 0xeb23);
    OrbitStep(6, 0xeb23, 0xd849);
    OrbitStep(7, 0xd849, 0x4563);
    OrbitStep(8, 0x4563, 0xaefc);
    OrbitStep(9, 0xaefc, 0x10e2);
    OrbitStep(10, 0x10e2, 0xde1f);
    OrbitStep(11, 0xde1f, 0xd5f6);
    OrbitStep(12, 0xd5f6, 0x650b);
  }

  lemma OrbitTo24()
    ensures Orbit(24) == 0xcde2 && OrbitClear(24)
  {
    hide Orbit, OrbitClear;
    OrbitTo12();
    OrbitStep(13, 0x650b, 0x45b4);
    OrbitStep(14, 0x45b4, 0x1566);
    OrbitStep(15, 0x1566, 0xf0e6);
    OrbitStep(16, 0xf0e6, 0x8e29);
    OrbitStep(17, 0x8e29, 0x8ddc);
    OrbitStep(18, 0x8ddc, 0x6735);
    OrbitStep(19, 0x6735, 0xf44b);
    OrbitStep(20, 0xf44b, 0x26aa);
    OrbitStep(21, 0x26aa, 0xb8e0);
    OrbitStep(22, 0xb8e0, 0x6a8a);
    OrbitStep(23, 0x6a8a, 0xd423);
    OrbitStep(24, 0xd423, 0xcde2);
  }

  lemma OrbitTo36()
    ensures Orbit(36) == 0x8832 && OrbitClear(36)
  {
    hide Orbit, OrbitClear;
    OrbitTo24();
    OrbitStep(25, 0xcde2, 0xbd64);
    OrbitStep(26, 0xbd64, 0x4473);
    OrbitStep(27, 0x4473, 0x8ffc);
    OrbitStep(28, 0x8ffc, 0x2535);
    OrbitStep(29, 0x2535, 0x9fe5);
    OrbitStep(30, 0x9fe5, 0xa55e);
    OrbitStep(31, 0xa55e, 0x59b0);
    OrbitStep(32, 0x59b0, 0x13fc);
    OrbitStep(33, 0x13fc, 0x78b3);
    OrbitStep(34, 0x78b3, 0x1648);
    OrbitStep(35, 0x1648, 0x6019);
    OrbitStep(36, 0x6019, 0x8832);
  }

  lemma {:induction false} OrbitAt(a: nat, n: nat)
    requires 0 < a <= n && OrbitClear(n)
    ensures !SinglePower(Orbit(a))
  {
    hide Shift8, SinglePower;
    if a < n {
      OrbitAt(a, n - 1);
    }
  }

  lemma {:induction false} OrbitIsShifts(a: nat)
    ensures Orbit(a) == Shifts(1, 16 * a)
  {
    hide Shift;
    if a > 0 {
      OrbitIsShifts(a - 1);
      ShiftsAdd(1, 16 * (a - 1), 16);
      Shifts16(Orbit(a - 1));
    }
  }

  lemma Shifts16(r: bv16)
    ensures Shifts(r, 16) == Shift8(Shift8(r))
  {
    hide Shift;
    Shifts8(r);
    Shifts8(Shifts(r, 8));
    ShiftsAdd(r, 8, 8);
  }

  lemma Shifts8(r: bv16)
    ensures Shifts(r, 8) == Shift8(r)
  {
    hide Shift;
    assert Shifts(r, 1) == Shift(r) && Shifts(r, 3) == Shift(Shift(Shifts(r, 1)));
    assert Shifts(r, 5) == Shift(Shift(Shifts(r, 3))) && Shifts(r, 7) == Shift(Shift(Shifts(r, 5)));
  }

  /** The top k bits are clear. */
  predicate NoTop(r: bv16, k: nat)
    decreases k
  {
    k == 0 || (!Top(r) && NoTop(Left(r), k - 1))
  }

  lemma SingleLeft(r: bv16)
    requires SinglePower(r)
    ensures SinglePower(Left(r))
  {
  }

  lemma {:induction false} SmallPower(r: bv16, k: nat, b: nat)
    requires SinglePower(r) && NoTop(r, k) && b <= k
    ensures SinglePower(Shifts(r, b))
    decreases k
  {
    hide Shift, Top, Left, SinglePower;
    if b > 0 {
      ShiftCases(r);
      SingleLeft(r);
      SmallPower(Left(r), k - 1, b - 1);
      ShiftsAdd(r, 1, b - 1);
      assert Shifts(r, 1) == Shift(r);
    }
  }

  lemma OneIsSmall()
    ensures SinglePower(1) && NoTop(1, 15)
  {
    var w4 := Left(Left(Left(Left(1))));
    var w8 := Left(Left(Left(Left(w4))));
    var w12 := Left(Left(Left(Left(w8))));
    assert w4 == 0x10 && w8 == 0x100 && w12 == 0x1000;
    assert NoTop(w12, 3) && NoTop(w8, 7) && NoTop(w4, 11);
  }

  lemma OneToTop()
    ensures Shifts(1, 15) == 0x8000
  {
    assert Shifts(1, 4) == 0x10;
    assert Shifts(1, 8) == 0x100;
    assert Shifts(1, 12) == 0x1000;
  }

  /** x^d is not 1 for any distance d that fits in a frame. */
  lemma NoShortPeriod(d: nat)
    requires 0 < d <= 576
    ensures Shifts(0x8000, d) != 0x8000
  {
    hide Shift, Shifts, SinglePower, Orbit;
    if Shifts(0x8000, d) == 0x8000 {
      OneToTop();
      ShiftsAdd(1, 15, d);
      ShiftsAdd(1, d, 15);
      ShiftsInjective(Shifts(1, d), 1, 15);
      var a := (d + 15) / 16;
      ShiftsAdd(1, d, 16 * a - d);
      OrbitIsShifts(a);
      OneIsSmall();
      SmallPower(1, 15, 16 * a - d);
      OrbitTo36();
      OrbitAt(a, 36);
      assert false;
    }
  }

  /** Exactly the bits i and j are set. */
  predicate TwoBits(s: seq<bool>, i: nat, j: nat) {
    && i < j < |s|
    && forall k :: 0 <= k < |s| ==> (s[k] <==> k == i || k == j)
  }

  predicate DoubleError(s: seq<bool>) {
    exists i, j :: 0 <= i < j < |s| && j - i <= 576 && TwoBits(s, i, j)
  }

  lemma FeedOne(r: bv16)
    ensures Feed(r, [true]) == Shift(Xor(r, 0x8000))
  {
    hide Shift, Xor;
  }

  /** Any two flipped bits of a frame leave a nonzero syndrome. */
  lemma DoubleDetected(s: seq<bool>)
    requires DoubleError(s)
    ensures Feed(0, s) != 0
  {
    hide Shift, Shifts, Feed, Xor;
    var i, j :| 0 <= i < j < |s| && j - i <= 576 && TwoBits(s, i, j);
    var a, b, c := s[..i], s[i + 1..j], s[j + 1..];
    assert s == a + ([true] + (b + ([true] + c)));
    FeedConcat(0, a, [true] + (b + ([true] + c)));
    FeedClear(0, a);
    ShiftsZero(i);
    FeedConcat(0, [true], b + ([true] + c));
    FeedOne(0);
    XorZero(0x8000);
    var r1 := Shift(0x8000);
    FeedConcat(r1, b, [true] + c);
    FeedClear(r1, b);
    OneClock(0x8000);
    ShiftsAdd(0x8000, 1, |b|);
    var r2 := Shifts(0x8000, j - i);
    FeedConcat(r2, [true], c);
    FeedOne(r2);
    var r3 := Xor(r2, 0x8000);
    FeedClear(Shift(r3), c);
    OneClock(r3);
    ShiftsAdd(r3, 1, |c|);
    ShiftsNonzero(r3, 1 + |c|);
    XorCancel(r2, 0x8000);
    NoShortPeriod(j - i);
  }

  lemma OneClock(r: bv16)
    ensures Shifts(r, 1) == Shift(r)
  {
    hide Shift;
    assert Shifts(r, 0) == r;
  }

  // ---- The guarantee ----

  predicate Detectable(e: seq<byte>) {
    Burst(Bits(e)) || Odd(Bits(e)) || DoubleError(Bits(e))
  }

  /** Bursts of up to 16 bits, odd numbers of flips and double flips always change the checksum. */
  lemma DetectableSyndrome(e: seq<byte>)
    requires Detectable(e)
    ensures Crc(0, e) != 0
  {
    hide Burst, Odd, DoubleError, Feed, Crc;
    CrcIsFeed(0, e);
    if Burst(Bits(e)) {
      BurstDetected(Bits(e));
    } else if Odd(Bits(e)) {
      OddDetected(Bits(e));
    } else {
      DoubleDetected(Bits(e));
    }
  }
}
