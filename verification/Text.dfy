/** Text as its UTF-8 bytes: white space, decimal numbers and splitting. */
module Text {
  import opened Bytes
  import opened Optional

  /** The UTF-8 form of a character with the Unicode property White_Space. */
  predicate IsSpace(c: Bytes) {
    || (|c| == 1 && (9 <= c[0] <= 13 || c[0] == 32))
    || (|c| == 2 && c[0] == 0xc2 && c[1] in {0x85, 0xa0})
    || (|c| == 3 && c[0] == 0xe1 && c[1] == 0x9a && c[2] == 0x80)
    || (|c| == 3 && c[0] == 0xe2 && c[1] == 0x80 && (0x80 <= c[2] <= 0x8a || c[2] in {0xa8, 0xa9, 0xaf}))
    || (|c| == 3 && c[0] == 0xe2 && c[1] == 0x81 && c[2] == 0x9f)
    || (|c| == 3 && c[0] == 0xe3 && c[1] == 0x80 && c[2] == 0x80)
  }

  /** `str::trim` on UTF-8 bytes. */
  function Trim(s: Bytes): (t: Bytes)
    ensures |t| <= |s|
  {
    TrimEnd(TrimStart(s))
  }

  predicate SpaceFirst(s: Bytes, k: nat) { |s| >= k && IsSpace(s[..k]) }

  predicate SpaceLast(s: Bytes, k: nat) { |s| >= k && IsSpace(s[|s| - k..]) }

  function TrimStart(s: Bytes): (t: Bytes)
    ensures |t| <= |s|
  {
    if s == [] then s
    else if SpaceFirst(s, 1) then TrimStart(s[1..])
    else if SpaceFirst(s, 2) then TrimStart(s[2..])
    else if SpaceFirst(s, 3) then TrimStart(s[3..])
    else s
  }

  function TrimEnd(s: Bytes): (t: Bytes)
    ensures |t| <= |s|
  {
    if s == [] then s
    else if SpaceLast(s, 1) then TrimEnd(s[..|s| - 1])
    else if SpaceLast(s, 2) then TrimEnd(s[..|s| - 2])
    else if SpaceLast(s, 3) then TrimEnd(s[..|s| - 3])
    else s
  }

  /** Text that neither starts nor ends with a byte of a white-space character is not trimmed. */
  lemma NothingToTrim(s: Bytes)
    requires s == [] || (0x21 <= s[0] < 0x80 && 0x21 <= s[|s| - 1] < 0x80)
    ensures Trim(s) == s && TrimStart(s) == s && TrimEnd(s) == s
  {
    hide SpaceFirst, SpaceLast;
    if s != [] {
      NoSpaceAround(s, 1);
      NoSpaceAround(s, 2);
      NoSpaceAround(s, 3);
    }
  }

  lemma NoSpaceAround(s: Bytes, k: nat)
    requires s != [] && k > 0 && 0x21 <= s[0] < 0x80 && 0x21 <= s[|s| - 1] < 0x80
    ensures !SpaceFirst(s, k) && !SpaceLast(s, k)
  {
    hide IsSpace;
    if SpaceFirst(s, k) {
      assert s[..k][0] == s[0];
      SpaceEnds(s[..k]);
    }
    if SpaceLast(s, k) {
      assert s[|s| - k..][k - 1] == s[|s| - 1];
      SpaceEnds(s[|s| - k..]);
    }
  }

  lemma SpaceEnds(c: Bytes)
    requires IsSpace(c)
    ensures c != [] && !(0x21 <= c[0] < 0x80) && !(0x21 <= c[|c| - 1] < 0x80)
  {
  }

  /** An ASCII text; any other character would be a question mark. */
  function Ascii(s: string): (b: Bytes)
    ensures |b| == |s| && forall i :: 0 <= i < |s| ==> b[i] == if s[i] < 128 as char then s[i] as nat else 0x3f
  {
    seq(|s|, i requires 0 <= i < |s| => if s[i] < 128 as char then s[i] as nat else 0x3f)
  }

  // ---- Decimal numbers ----

  function Dec(n: nat): (s: Bytes)
    ensures |s| > 0
  {
    var digit: Byte := 0x30 + n % 10;
    if n < 10 then [digit] else Dec(n / 10) + [digit]
  }

  /** The number that decimal digits stand for, the highest first. */
  function Weigh(d: seq<nat>): nat {
    if d == [] then 0 else 10 * Weigh(d[..|d| - 1]) + d[|d| - 1]
  }

  /** A number is written in decimal, without leading zeros. */
  lemma {:induction false} DecIsDecimal(n: nat) returns (d: seq<nat>)
    ensures |d| == |Dec(n)| && Weigh(d) == n && (n > 0 ==> d[0] > 0)
    ensures forall i :: 0 <= i < |d| ==> d[i] < 10 && Dec(n)[i] == 0x30 + d[i]
  {
    if n < 10 {
      d := [n];
      assert Weigh([]) == 0 && [n][..0] == [];
    } else {
      var front := DecIsDecimal(n / 10);
      d := front + [n % 10];
      assert d[..|front|] == front;
      DecSnoc(n);
    }
  }

  lemma DecSnoc(n: nat)
    requires n >= 10
    ensures Dec(n) == Dec(n / 10) + [0x30 + n % 10]
  {
  }

  predicate IsDigit(b: Byte) { 0x30 <= b <= 0x39 }

  function Digits(s: Bytes): Option<nat> {
    if s == [] then Some(0)
    else
      var front, last := Digits(s[..|s| - 1]), s[|s| - 1];
      if front.None? || !IsDigit(last) then None else Some(10 * front.value + (last - 0x30))
  }

  /** `str::parse` for an unsigned number below `limit`: an optional `+`, then digits. */
  function ParseUnsigned(s: Bytes, limit: nat): (v: Option<nat>)
    ensures v.Some? ==> v.value < limit
  {
    var digits := if s != [] && s[0] == 0x2b then s[1..] else s;
    var v := Digits(digits);
    if digits == [] || v.None? || v.value >= limit then None else v
  }

  lemma {:induction false} DecPrefix(n: nat, k: nat)
    requires k <= |Dec(n)|
    ensures Digits(Dec(n)[..k]).Some? && Digits(Dec(n)[..k]).value <= n
    ensures k == |Dec(n)| ==> Digits(Dec(n)[..k]).value == n
    ensures 0 < k < |Dec(n)| ==> Digits(Dec(n)[..k]).value < n
    ensures forall i :: 0 <= i < |Dec(n)| ==> IsDigit(Dec(n)[i])
  {
    var s := Dec(n);
    if n < 10 {
      if k == 1 {
        assert s[..k][..0] == [];
      }
    } else {
      var front := Dec(n / 10);
      DecSnoc(n);
      if k < |s| {
        DecPrefix(n / 10, k);
        assert s[..k] == front[..k];
      } else {
        DecPrefix(n / 10, |front|);
        assert front[..|front|] == front && s[..k] == s;
        DigitsSnoc(front, 0x30 + n % 10);
      }
    }
  }

  lemma DigitsSnoc(s: Bytes, b: Byte)
    requires Digits(s).Some? && IsDigit(b)
    ensures Digits(s + [b]) == Some(10 * Digits(s).value + (b - 0x30))
  {
    assert (s + [b])[..|s|] == s;
  }

  /** The number that the first `k` digits of `n` make. */
  function Leading(n: nat, k: nat): nat
    requires k <= |Dec(n)|
  {
    DecPrefix(n, k);
    Digits(Dec(n)[..k]).value
  }

  /** A number, and every prefix of it that is not empty, parses; the whole one as itself, and
      a shorter one as a smaller number. */
  lemma DecParses(n: nat, k: nat, limit: nat)
    requires 0 < k <= |Dec(n)| && n < limit
    ensures ParseUnsigned(Dec(n)[..k], limit) == Some(Leading(n, k))
    ensures if k == |Dec(n)| then Leading(n, k) == n else Leading(n, k) < n
  {
    hide Dec;
    DecPrefix(n, k);
    assert IsDigit(Dec(n)[0]);
  }

  // ---- Splitting ----

  /** Where `b` first occurs, or the length. */
  function IndexOf(s: Bytes, b: Byte): (i: nat)
    ensures i <= |s| && (i < |s| ==> s[i] == b) && forall k :: 0 <= k < i ==> s[k] != b
  {
    if s == [] || s[0] == b then 0 else 1 + IndexOf(s[1..], b)
  }

  predicate Lacks(s: Bytes, b: Byte) { forall i :: 0 <= i < |s| ==> s[i] != b }

  lemma IndexAfter(s: Bytes, b: Byte, t: Bytes)
    requires Lacks(s, b)
    ensures IndexOf(s + [b] + t, b) == |s| && IndexOf(s, b) == |s|
  {
    hide IndexOf;
    assert (s + [b] + t)[|s|] == b;
    assert forall k :: 0 <= k < |s| ==> (s + [b] + t)[k] == s[k];
  }
}
