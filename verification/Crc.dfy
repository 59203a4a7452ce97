/** CRC-16/X-25 as `crates/cdj3k-emu-panel/src/crc.rs` computes it, bit by bit, and
    the CRC stamp that ends a MISO frame. */
module Crc {

  const POLY: bv16 := 0x8408
  /** The CRC of every message followed by its own CRC, low byte first: the "good
      FCS" of Appendix C.2 of RFC 1662, 0xF0B8, complemented. */
  const GOOD: bv16 := 0x0F47

  /** One step of the register, without a branch: the polynomial is added when the
      bit shifted out is set. */
  function Shift(c: bv16): bv16 {
    (c >> 1) ^ (POLY & (0 - (c & 1)))
  }

  function Xor(a: bv16, b: bv16): bv16 {
    a ^ b
  }

  function FeedEight(c: bv16): bv16 {
    Shift(Shift(Shift(Shift(Shift(Shift(Shift(Shift(c))))))))
  }

  function Feed(c: bv16, b: bv8): bv16 {
    FeedEight(Xor(c, b as bv16))
  }

  /** The register after `data`, starting from `c`. */
  function Register(c: bv16, data: seq<bv8>): bv16 {
    if data == [] then c
    else Feed(Register(c, data[..|data| - 1]), data[|data| - 1])
  }

  function Checksum(data: seq<bv8>): bv16 {
    Xor(Register(0xFFFF, data), 0xFFFF)
  }

  // ----- the code -----

  lemma ShiftBranches(c: bv16)
    ensures c & 1 != 0 ==> Shift(c) == (c >> 1) ^ POLY
    ensures c & 1 == 0 ==> Shift(c) == c >> 1
  {
    if c & 1 != 0 {
      assert c & 1 == 1;
    }
  }

  function Shifts(c: bv16, n: nat): bv16 {
    if n == 0 then c else Shift(Shifts(c, n - 1))
  }

  lemma EightShifts(c: bv16, n: nat)
    requires n == 8
    ensures Shifts(c, n) == FeedEight(c)
  {
    hide Shift;
    assert Shifts(c, 1) == Shift(Shifts(c, 0));
    assert Shifts(c, 2) == Shift(Shifts(c, 1));
    assert Shifts(c, 3) == Shift(Shifts(c, 2));
    assert Shifts(c, 4) == Shift(Shifts(c, 3));
    assert Shifts(c, 5) == Shift(Shifts(c, 4));
    assert Shifts(c, 6) == Shift(Shifts(c, 5));
    assert Shifts(c, 7) == Shift(Shifts(c, 6));
  }

  /** The eight shifts of one byte, the code's inner loop. */
  method ShiftByte(c: bv16) returns (crc: bv16)
    ensures crc == FeedEight(c)
  {
    hide Shift, FeedEight;
    crc := c;
    var k := 0;
    while k < 8
      invariant 0 <= k <= 8 && crc == Shifts(c, k)
    {
      ShiftBranches(crc);
      if crc & 1 != 0 {
        crc := (crc >> 1) ^ POLY;
      } else {
        crc := crc >> 1;
      }
      k := k + 1;
    }
    EightShifts(c, k);
  }

  method Crc16X25(data: seq<bv8>) returns (r: bv16)
    ensures r == Checksum(data)
  {
    hide FeedEight, Xor;
    var crc: bv16 := 0xFFFF;
    for i := 0 to |data|
      invariant crc == Register(0xFFFF, data[..i])
    {
      crc := ShiftByte(Xor(crc, data[i] as bv16));
      assert data[..i + 1][..i] == data[..i];
    }
    assert data[..|data|] == data;
    r := Xor(crc, 0xFFFF);
  }

  function Low(c: bv16): bv8 {
    (c & 0xFF) as bv8
  }

  function High(c: bv16): bv8 {
    (c >> 8) as bv8
  }

  /** Stores the CRC of the bytes before `at` at offset `at`. Little-endian, the
      stamped prefix then has the fixed CRC. */
  method StampCrc(f: array<bv8>, at: nat, bigEndian: bool)
    requires at + 2 <= f.Length
    modifies f
    ensures f[..at] == old(f[..at]) && f[at + 2..] == old(f[at + 2..])
    ensures !bigEndian ==> Checksum(f[..at + 2]) == GOOD
    ensures bigEndian ==> f[at] == High(Checksum(f[..at]))
    ensures bigEndian ==> f[at + 1] == Low(Checksum(f[..at]))
  {
    hide *;
    var crc := Crc16X25(f[..at]);
    ghost var message := f[..at];
    if bigEndian {
      f[at], f[at + 1] := High(crc), Low(crc);
    } else {
      f[at], f[at + 1] := Low(crc), High(crc);
    }
    assert f[..at] == message;
    if !bigEndian {
      OwnCrcIsGood(message);
      assert f[..at + 2] == message + [Low(crc), High(crc)];
    }
  }

  // ----- the register as a linear map -----

  lemma ByteInjective(a: bv16, b: bv16)
    requires FeedEight(a) == FeedEight(b)
    ensures a == b
  {
  }

  lemma ShiftLinearOnBits(a: bv16, b: bv16)
    ensures Shift(a ^ b) == Shift(a) ^ Shift(b)
  {
  }

  lemma ShiftLinear(a: bv16, b: bv16)
    ensures Shift(Xor(a, b)) == Xor(Shift(a), Shift(b))
  {
    hide Shift;
    ShiftLinearOnBits(a, b);
  }

  lemma {:induction false} ShiftsLinear(a: bv16, b: bv16, n: nat)
    ensures Shifts(Xor(a, b), n) == Xor(Shifts(a, n), Shifts(b, n))
  {
    hide Shift, Xor;
    if n > 0 {
      ShiftsLinear(a, b, n - 1);
      ShiftLinear(Shifts(a, n - 1), Shifts(b, n - 1));
    }
  }

  lemma ByteLinear(a: bv16, b: bv16)
    ensures FeedEight(Xor(a, b)) == Xor(FeedEight(a), FeedEight(b))
  {
    hide Shift, Xor;
    var n := 8;
    ShiftsLinear(a, b, n);
    EightShifts(a, n);
    EightShifts(b, n);
    EightShifts(Xor(a, b), n);
  }

  /** Eight shifts move a nonzero byte's trace into the high half. */
  lemma ByteReachesHighHalf(d: bv16)
    requires d & 0xFF00 == 0 && FeedEight(d) & 0xFF00 == 0
    ensures d == 0
  {
  }

  lemma XorAssociates(a: bv16, b: bv16, c: bv16)
    ensures Xor(Xor(a, b), c) == Xor(a, Xor(b, c))
  {
  }

  lemma XorUnits(a: bv16)
    ensures Xor(a, a) == 0 && Xor(a, 0) == a && Xor(0, a) == a
  {
  }

  lemma XorBack(u: bv16, a: bv16)
    ensures Xor(Xor(u, a), u) == a
  {
    hide Xor;
    XorCommutes(u, a);
    XorAssociates(a, u, u);
    XorUnits(u);
    XorUnits(a);
  }

  lemma XorShared(s: bv16, p: bv16, q: bv16)
    ensures Xor(Xor(s, p), Xor(s, q)) == Xor(p, q)
  {
    hide Xor;
    XorCommutes(s, p);
    XorAssociates(p, s, Xor(s, q));
    XorAssociates(s, s, q);
    XorUnits(s);
    XorUnits(q);
  }

  lemma XorCancels(s: bv16, p: bv16, q: bv16, a: bv16, b: bv16)
    requires Xor(Xor(s, p), a) == Xor(Xor(s, q), b)
    ensures Xor(p, q) == Xor(a, b)
  {
    hide Xor;
    var u, v := Xor(s, p), Xor(s, q);
    XorShared(s, p, q);
    XorShared(Xor(u, a), u, v);
    XorBack(u, a);
    XorBack(v, b);
  }

  lemma XorInjective(p: bv16, q: bv16, s: bv16)
    ensures Xor(p, s) == Xor(q, s) ==> p == q
  {
  }

  lemma XorCommutes(p: bv16, q: bv16)
    ensures Xor(p, q) == Xor(q, p)
  {
  }

  lemma AsBv16Injective(a: bv8, b: bv8)
    ensures a as bv16 == b as bv16 ==> a == b
  {
  }

  lemma XorOfBytes(a: bv8, b: bv8)
    ensures Xor(a as bv16, b as bv16) & 0xFF00 == 0
    ensures Xor(a as bv16, b as bv16) == 0 ==> a == b
    ensures Xor(a as bv16, a as bv16) == 0
  {
  }

  lemma FeedInjective(c: bv16, d: bv16, b: bv8)
    requires Feed(c, b) == Feed(d, b)
    ensures c == d
  {
    hide FeedEight, Xor;
    ByteInjective(Xor(c, b as bv16), Xor(d, b as bv16));
    XorInjective(c, d, b as bv16);
  }

  /** Two bytes fed to one register value can be told apart by the result. */
  lemma TwoBytesInjective(c: bv16, a0: bv8, a1: bv8, b0: bv8, b1: bv8)
    requires Feed(Feed(c, a0), a1) == Feed(Feed(c, b0), b1)
    ensures a0 == b0 && a1 == b1
  {
    hide FeedEight, Xor;
    var x, y := a0 as bv16, b0 as bv16;
    ByteInjective(Xor(Feed(c, a0), a1 as bv16), Xor(Feed(c, b0), b1 as bv16));
    ByteLinear(c, x);
    ByteLinear(c, y);
    ByteLinear(x, y);
    XorCancels(FeedEight(c), FeedEight(x), FeedEight(y), a1 as bv16, b1 as bv16);
    XorOfBytes(a0, b0);
    XorOfBytes(a1, b1);
    ByteReachesHighHalf(Xor(x, y));
    assert a0 == b0;
    XorInjective(b1 as bv16, a1 as bv16, Feed(c, a0));
    XorCommutes(Feed(c, a0), a1 as bv16);
    XorCommutes(Feed(c, a0), b1 as bv16);
    AsBv16Injective(a1, b1);
  }

  lemma {:induction false} RegisterConcat(c: bv16, a: seq<bv8>, b: seq<bv8>)
    ensures Register(c, a + b) == Register(Register(c, a), b)
  {
    hide Feed;
    if b == [] {
      assert a + b == a;
    } else {
      RegisterConcat(c, a, b[..|b| - 1]);
      assert (a + b)[..|a + b| - 1] == a + b[..|b| - 1];
    }
  }

  lemma RegisterOfTwo(c: bv16, x: bv8, y: bv8)
    ensures Register(c, [x, y]) == Feed(Feed(c, x), y)
  {
    hide Feed;
    assert [x, y][..1] == [x] && [x][..0] == [];
    assert Register(c, [x]) == Feed(Register(c, [x][..0]), x);
  }

  lemma {:induction false} RegisterInjective(c: bv16, d: bv16, data: seq<bv8>)
    requires Register(c, data) == Register(d, data)
    ensures c == d
  {
    hide Feed;
    if data != [] {
      var front := data[..|data| - 1];
      FeedInjective(Register(c, front), Register(d, front), data[|data| - 1]);
      RegisterInjective(c, d, front);
    }
  }

  // ----- main results -----

  /** Error detection: two messages of one length that are equal outside positions
      `i` and `i + 1`, and not equal there, have different CRCs. */
  lemma AdjacentChangeIsDetected(m: seq<bv8>, n: seq<bv8>, i: nat)
    requires |m| == |n| && i < |m| && m != n
    requires forall k :: 0 <= k < |m| && k != i && k != i + 1 ==> m[k] == n[k]
    ensures Checksum(m) != Checksum(n)
  {
    if i + 1 < |m| {
      TwoByteChangeIsDetected(m, n, i);
    } else {
      LastByteChangeIsDetected(m, n);
    }
  }

  lemma LastByteChangeIsDetected(m: seq<bv8>, n: seq<bv8>)
    requires |m| == |n| > 0 && m != n && m[..|m| - 1] == n[..|n| - 1]
    ensures Checksum(m) != Checksum(n)
  {
    hide Feed, Xor;
    var front, x, y := m[..|m| - 1], m[|m| - 1], n[|n| - 1];
    assert m == front + [x] && n == front + [y];
    var c := Register(0xFFFF, front);
    if Checksum(m) == Checksum(n) {
      XorInjective(Register(0xFFFF, m), Register(0xFFFF, n), 0xFFFF);
      assert Feed(Feed(c, x), 0) == Feed(Feed(c, y), 0);
      TwoBytesInjective(c, x, 0, y, 0);
    }
  }

  lemma TwoByteChangeIsDetected(m: seq<bv8>, n: seq<bv8>, i: nat)
    requires |m| == |n| && i + 1 < |m| && m != n
    requires forall k :: 0 <= k < |m| && k != i && k != i + 1 ==> m[k] == n[k]
    ensures Checksum(m) != Checksum(n)
  {
    hide Feed, Xor;
    var pre, post := m[..i], m[i + 2..];
    var c := Register(0xFFFF, pre);
    assert m == pre + [m[i], m[i + 1]] + post;
    assert n == pre + [n[i], n[i + 1]] + post;
    forall x, y ensures Register(0xFFFF, pre + [x, y] + post) == Register(Feed(Feed(c, x), y), post) {
      RegisterConcat(0xFFFF, pre + [x, y], post);
      RegisterConcat(0xFFFF, pre, [x, y]);
      RegisterOfTwo(c, x, y);
    }
    if Checksum(m) == Checksum(n) {
      XorInjective(Register(0xFFFF, m), Register(0xFFFF, n), 0xFFFF);
      RegisterInjective(Feed(Feed(c, m[i]), m[i + 1]), Feed(Feed(c, n[i]), n[i + 1]), post);
      TwoBytesInjective(c, m[i], m[i + 1], n[i], n[i + 1]);
    }
  }

  lemma OwnCrcStep(s: bv16)
    ensures Xor(Feed(Feed(s, Low(Xor(s, 0xFFFF))), High(Xor(s, 0xFFFF))), 0xFFFF) == GOOD
  {
  }

  /** Appending a message's own CRC, low byte first, gives the fixed CRC. */
  lemma OwnCrcIsGood(m: seq<bv8>)
    ensures var crc := Checksum(m);
            Checksum(m + [Low(crc), High(crc)]) == GOOD
  {
    hide Feed, Low, High, Register, Xor;
    var crc := Checksum(m);
    var s := Register(0xFFFF, m);
    RegisterConcat(0xFFFF, m, [Low(crc), High(crc)]);
    RegisterOfTwo(s, Low(crc), High(crc));
    OwnCrcStep(s);
  }

  // ----- the check value -----

  const DIGITS: seq<bv8> := [0x31, 0x32, 0x33, 0x34, 0x35, 0x36, 0x37, 0x38, 0x39]
  /** The register before the first of them and after each. */
  const REGISTERS: seq<bv16> := [0xFFFF, 0x2F8D, 0x4D53, 0x634B, 0x8B13, 0x44BF, 0x198D, 0x1AC8, 0xF795, 0x6F91]

  lemma FeedDigits()
    ensures forall i :: 0 <= i < 9 ==> Feed(REGISTERS[i], DIGITS[i]) == REGISTERS[i + 1]
  {
    assert Feed(0xFFFF, 0x31) == 0x2F8D;
    assert Feed(0x2F8D, 0x32) == 0x4D53;
    assert Feed(0x4D53, 0x33) == 0x634B;
    assert Feed(0x634B, 0x34) == 0x8B13;
    assert Feed(0x8B13, 0x35) == 0x44BF;
    assert Feed(0x44BF, 0x36) == 0x198D;
    assert Feed(0x198D, 0x37) == 0x1AC8;
    assert Feed(0x1AC8, 0x38) == 0xF795;
    assert Feed(0xF795, 0x39) == 0x6F91;
  }

  lemma {:induction false} RegisterOfDigits(n: nat)
    requires n <= 9
    ensures Register(0xFFFF, DIGITS[..n]) == REGISTERS[n]
  {
    hide Feed;
    if n > 0 {
      FeedDigits();
      RegisterOfDigits(n - 1);
      assert DIGITS[..n][..n - 1] == DIGITS[..n - 1];
    }
  }

  /** The check value of CRC-16/X-25: the checksum of the text "123456789". */
  lemma CheckValue()
    ensures Checksum([0x31, 0x32, 0x33, 0x34, 0x35, 0x36, 0x37, 0x38, 0x39]) == 0x906E
  {
    RegisterOfDigits(9);
    assert DIGITS[..9] == DIGITS;
  }
}
