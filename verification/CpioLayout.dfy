/** The archive byte by byte, with the numbers and texts of the kernel's "initramfs buffer format"
    document in place of the codec's own names. */
module CpioLayout {
  import opened Bytes
  import opened Optional
  import opened Text
  import opened Cpio
  import opened CpioLaws

  const DIGITS: string := "0123456789ABCDEF"

  /** The number that hexadecimal digits stand for, the highest first. */
  function HexValue(d: seq<nat>): nat {
    if d == [] then 0 else 16 * HexValue(d[..|d| - 1]) + d[|d| - 1]
  }

  /** `text` is `v` as eight upper-case hexadecimal digits. */
  ghost predicate IsHex(text: Bytes, v: nat) {
    exists d: seq<nat> :: |d| == |text| == 8 && Spells(text, d) && HexValue(d) == v
  }

  predicate Spells(text: Bytes, d: seq<nat>)
    requires |d| == |text|
  {
    forall i :: 0 <= i < |d| ==> d[i] < 16 && text[i] == DIGITS[d[i]] as nat
  }

  lemma {:induction false} HexSpells(v: nat, n: nat) returns (d: seq<nat>)
    requires v < Pow16(n)
    ensures |d| == n && Spells(HexDigits(v, n), d) && HexValue(d) == v
  {
    if n == 0 {
      d := [];
    } else {
      var front := HexSpells(v / 16, n - 1);
      d := front + [v % 16];
      assert d[..n - 1] == front;
      assert HexDigits(v, n)[..n - 1] == HexDigits(v / 16, n - 1);
      forall i | 0 <= i < n ensures d[i] < 16 && HexDigits(v, n)[i] == DIGITS[d[i]] as nat {
        if i < n - 1 {
          assert HexDigits(v, n)[i] == HexDigits(v / 16, n - 1)[i];
        } else {
          DigitIs(v % 16);
        }
      }
    }
  }

  lemma DigitIs(d: nat)
    requires d < 16
    ensures HexDigit(d) == DIGITS[d] as nat
  {
  }

  /** A header field is its value as eight upper-case hexadecimal digits. */
  lemma FieldIsHex(v: U32)
    ensures IsHex(Hex8(v), v)
  {
    assert Pow16(8) == 0x1_0000_0000;
    var d := HexSpells(v, 8);
  }

  /** A reader takes lower-case digits for the same numbers, and nothing else for a digit. */
  lemma DigitsRead(b: Byte)
    ensures DigitValue(b) ==
            if Ascii("0")[0] <= b <= Ascii("9")[0] then Some(b - Ascii("0")[0])
            else if Ascii("A")[0] <= b <= Ascii("F")[0] then Some(10 + b - Ascii("A")[0])
            else if Ascii("a")[0] <= b <= Ascii("f")[0] then Some(10 + b - Ascii("a")[0])
            else None
  {
  }

  // ---- One record ----

  /** S_IFREG, S_IFDIR, S_IFLNK and S_IFCHR. */
  function Mode(e: Entry): nat {
    (match e.kind case File(_) => 0x8000 case Dir => 0x4000 case Symlink(_) => 0xA000 case CharDev(_, _) => 0x2000)
    + e.mode % 0x1000
  }

  /** The thirteen fields of a header, at their offsets. */
  ghost predicate HeaderIs(h: Bytes, ino: nat, mode: nat, uid: nat, gid: nat, nlink: nat, mtime: nat, fileSize: nat,
                           major: nat, minor: nat, nameSize: nat)
    requires |h| == 110
  {
    && h[..6] == Ascii("070701")
    && IsHex(h[6..14], ino) && IsHex(h[14..22], mode) && IsHex(h[22..30], uid) && IsHex(h[30..38], gid)
    && IsHex(h[38..46], nlink) && IsHex(h[46..54], mtime) && IsHex(h[54..62], fileSize)
    && IsHex(h[62..70], 0) && IsHex(h[70..78], 0) && IsHex(h[78..86], major) && IsHex(h[86..94], minor)
    && IsHex(h[94..102], nameSize) && IsHex(h[102..110], 0)
  }

  lemma HeaderLayout(f: Fields)
    requires f[7] == f[8] == f[12] == 0
    ensures HeaderIs(HeaderBytes(f), f[0], f[1], f[2], f[3], f[4], f[5], f[6], f[9], f[10], f[11])
  {
    hide IsHex, FieldBytes, Hex8;
    var h := HeaderBytes(f);
    forall i | 0 <= i < 13 ensures h[6 + 8 * i..14 + 8 * i] == Hex8(f[i]) && IsHex(Hex8(f[i]), f[i]) {
      FieldBytesAt(f, i);
      assert h[6 + 8 * i..14 + 8 * i] == FieldBytes(f)[8 * i..8 * i + 8];
      FieldIsHex(f[i]);
    }
    assert h[6 + 8 * 0..14 + 8 * 0] == h[6..14] && h[6 + 8 * 1..14 + 8 * 1] == h[14..22];
    assert h[6 + 8 * 2..14 + 8 * 2] == h[22..30] && h[6 + 8 * 3..14 + 8 * 3] == h[30..38];
    assert h[6 + 8 * 4..14 + 8 * 4] == h[38..46] && h[6 + 8 * 5..14 + 8 * 5] == h[46..54];
    assert h[6 + 8 * 6..14 + 8 * 6] == h[54..62] && h[6 + 8 * 7..14 + 8 * 7] == h[62..70];
    assert h[6 + 8 * 8..14 + 8 * 8] == h[70..78] && h[6 + 8 * 9..14 + 8 * 9] == h[78..86];
    assert h[6 + 8 * 10..14 + 8 * 10] == h[86..94] && h[6 + 8 * 11..14 + 8 * 11] == h[94..102];
    assert h[6 + 8 * 12..14 + 8 * 12] == h[102..110];
    assert h[..6] == Ascii("070701");
  }

  /** What a record carries besides its header. */
  function Data(e: Entry): Bytes {
    match e.kind
    case File(data) => data
    case Symlink(target) => target
    case _ => []
  }

  /** The zero bytes from length `n` to a multiple of four. */
  function Filler(n: nat): Bytes {
    if n % 4 == 0 then [] else if n % 4 == 1 then [0, 0, 0] else if n % 4 == 2 then [0, 0] else [0]
  }

  lemma PadIsFiller(s: Bytes)
    ensures Pad(s) == s + Filler(|s|)
  {
  }

  /** The record of an entry: a header that says what the entry is, its name and a NUL, zeros to a
      multiple of four, its data and zeros again. */
  lemma EntryLayout(e: Entry, ino: U32)
    requires Fits(e)
    ensures var r, name, dev := EntryRecord(e, ino), ArchiveName(e.path), e.kind.CharDev?;
            && |r| >= 110
            && HeaderIs(r[..110], ino, Mode(e), e.uid, e.gid, if e.kind.Dir? then 2 else 1, e.mtime, |Data(e)|,
                        if dev then e.kind.major else 0, if dev then e.kind.minor else 0, |name| + 1)
            && r[110..] == name + [0] + Filler(111 + |name|) + Data(e) + Filler(|Data(e)|)
  {
    hide HeaderIs, ArchiveName, HeaderBytes, Filler, RecordBytes, Fits;
    var f, name := EntryFields(e, ino), ArchiveName(e.path);
    EntrySizes(e, ino);
    HeaderLayout(f);
    RecordLayout(f, name, Data(e));
  }

  lemma RecordLayout(f: Fields, name: Bytes, data: Bytes)
    ensures var r := RecordBytes(f, name, data);
            && |r| >= 110 && r[..110] == HeaderBytes(f)
            && r[110..] == name + [0] + Filler(111 + |name|) + data + Filler(|data|)
  {
    hide HeaderBytes, Filler, Pad;
    var r, rest := RecordBytes(f, name, data), name + [0] + Filler(111 + |name|) + data + Filler(|data|);
    PadIsFiller(NameBytes(f, name));
    PadIsFiller(data);
    assert r == HeaderBytes(f) + rest;
  }

  /** The kind of a record with mode `mode`. */
  function KindAs(mode: nat, data: Bytes, major: U32, minor: U32): Option<Kind> {
    match mode / 0x1000 * 0x1000 % 0x1_0000
    case 0x8000 => Some(File(data))
    case 0x4000 => Some(Dir)
    case 0xA000 => Some(Symlink(data))
    case 0x2000 => Some(CharDev(major, minor))
    case _ => None
  }

  /** Any record reads as the kind its mode says, with its permissions; every other file type is refused. */
  lemma ModeReads(r: Record)
    ensures var k, e := KindAs(r.mode, r.data, r.rdevMajor, r.rdevMinor), IntoEntry(r);
            && (e.Ok? <==> k.Some?)
            && (e.Ok? ==>
                  e.value == Entry([0x2f] + TrimSlashes(r.name), k.value, r.mode % 0x1000, r.uid, r.gid, r.mtime))
            && (e.Err? ==> e.error == UnsupportedMode(r.name, r.mode))
  {
    var q := r.mode / 0x1000;
    assert q * 0x1000 % 0x1_0000 == q % 16 * 0x1000;
  }

  /** An archive of one record with any header fields, also those the codec never writes. */
  lemma OneRecordReads(f: Fields, name: Bytes, data: Bytes)
    requires f[6] == |data| && f[11] == |name| + 1 && name != Ascii("TRAILER!!!")
    ensures var k := KindAs(f[1], data, f[9], f[10]);
            ReadFrom(RecordBytes(f, name, data) + Archive([]), 0) ==
            if k.None? then Err(UnsupportedMode(name, f[1]))
            else Ok([Entry([0x2f] + TrimSlashes(name), k.value, f[1] % 0x1000, f[2], f[3], f[5])])
  {
    hide ReadFrom, RecordBytes, Archive, IntoEntry, KindAs, TrimSlashes, TRAILER, Ascii;
    TrailerText();
    var r := RecordOf(f, name, data, |RecordBytes(f, name, data)|);
    FirstRecord(f, name, data);
    ModeReads(r);
    if IntoEntry(r).Ok? {
      assert [IntoEntry(r).value] + [] == [IntoEntry(r).value];
    }
  }

  lemma FirstRecord(f: Fields, name: Bytes, data: Bytes)
    requires f[6] == |data| && f[11] == |name| + 1 && name != TRAILER
    ensures ReadFrom(RecordBytes(f, name, data) + Archive([]), 0) ==
            Prepend(IntoEntry(RecordOf(f, name, data, |RecordBytes(f, name, data)|)), Ok([]))
  {
    hide ReadFrom, RecordBytes, Archive, Agrees, IntoEntry, RecordOf, TRAILER, Needed, Prepend;
    var r, bytes := RecordBytes(f, name, data), RecordBytes(f, name, data) + Archive([]);
    AgreesJoined(r, Archive([]));
    NeededFits(f, name, data);
    ReadStep(bytes, 0, f, name, data);
    ReadRest(bytes, |r|);
  }

  lemma TrailerText()
    ensures TRAILER == Ascii("TRAILER!!!")
  {
  }

  lemma AgreesJoined(a: Bytes, b: Bytes)
    ensures Agrees(a + b, 0, a) && Agrees(a + b, |a|, b)
  {
  }

  lemma ReadRest(bytes: Bytes, at: nat)
    requires Agrees(bytes, at, Archive([])) && |bytes| >= at + |Archive([])|
    ensures ReadFrom(bytes, at) == Ok([])
  {
    hide ReadFrom, Agrees;
    NeededOfArchive([], 0);
    ReadAgreeing(bytes, at, [], 0);
  }

  /** Names in the archive are relative, with forward slashes; the root is a dot. */
  lemma NameOf(slashes: nat, rest: Bytes)
    requires rest == [] || (rest[0] != 0x2f && rest[0] != 0x5c)
    ensures ArchiveName(seq(slashes, _ => 0x2f) + rest) ==
            if rest == [] then [0x2e]
            else seq(|rest|, i requires 0 <= i < |rest| => if rest[i] == 0x5c then 0x2f else rest[i])
  {
    var path: Bytes := seq(slashes, _ => 0x2f) + rest;
    var forward: Bytes := seq(|path|, i requires 0 <= i < |path| => if path[i] == 0x5c then 0x2f else path[i]);
    var end: Bytes := seq(|rest|, i requires 0 <= i < |rest| => if rest[i] == 0x5c then 0x2f else rest[i]);
    assert forward == seq(slashes, _ => 0x2f) + end;
    TrimAll(slashes, end);
  }

  lemma {:induction false} TrimAll(slashes: nat, rest: Bytes)
    requires rest == [] || rest[0] != 0x2f
    ensures TrimSlashes(seq(slashes, _ => 0x2f) + rest) == rest
  {
    var s: Bytes := seq(slashes, _ => 0x2f) + rest;
    if slashes == 0 {
      assert s == rest;
    } else {
      TrimAll(slashes - 1, rest);
      assert s[1..] == seq(slashes - 1, _ => 0x2f) + rest;
    }
  }

  // ---- The empty archive ----

  /** `n` fields of zero, and their text. */
  function ZeroFields(n: nat): seq<U32> { seq(n, _ => 0) }

  function ZeroText(n: nat): (s: string)
    ensures |s| == 8 * n && forall i :: 0 <= i < |s| ==> s[i] == '0'
  {
    seq(8 * n, _ => '0')
  }

  lemma {:induction false} FieldBytesOfZeros(n: nat)
    ensures FieldBytes(ZeroFields(n)) == Ascii(ZeroText(n))
  {
    hide Hex8;
    if n > 0 {
      FieldBytesOfZeros(n - 1);
      ZeroIsEightZeros();
      assert ZeroFields(n)[..n - 1] == ZeroFields(n - 1);
    }
  }

  lemma {:induction false} FieldBytesConcat(f: seq<U32>, g: seq<U32>)
    ensures FieldBytes(f + g) == FieldBytes(f) + FieldBytes(g)
  {
    hide Hex8;
    if g == [] {
      assert f + g == f;
    } else {
      var k := |g| - 1;
      FieldBytesConcat(f, g[..k]);
      assert (f + g)[..|f + g| - 1] == f + g[..k];
    }
  }

  lemma SmallFields()
    ensures FieldBytes([1]) == Ascii("00000001") && FieldBytes([11]) == Ascii("0000000B")
  {
    var one: nat, eleven: nat, none: nat := 1, 11, 0;
    ZeroIsEightZeros();
    assert HexDigits(none, 8) == HexDigits(none, 7) + [HexDigit(0)];
    assert HexDigits(one, 8) == HexDigits(none, 7) + [HexDigit(1)];
    assert HexDigits(eleven, 8) == HexDigits(none, 7) + [HexDigit(11)];
    assert [1][..0] == [] && [11][..0] == [];
    assert Hex8(1) == Ascii("00000001");
    assert Hex8(11) == Ascii("0000000B");
  }

  lemma TrailerHeader()
    ensures FieldBytes(TrailerFields()) ==
            Ascii(ZeroText(4)) + Ascii("00000001") + Ascii(ZeroText(6)) + Ascii("0000000B") + Ascii(ZeroText(1))
  {
    hide FieldBytes, Ascii, ZeroText;
    assert TrailerFields() == ZeroFields(4) + [1] + ZeroFields(6) + [11] + ZeroFields(1);
    FieldBytesConcat(ZeroFields(4), [1]);
    FieldBytesConcat(ZeroFields(4) + [1], ZeroFields(6));
    FieldBytesConcat(ZeroFields(4) + [1] + ZeroFields(6), [11]);
    FieldBytesConcat(ZeroFields(4) + [1] + ZeroFields(6) + [11], ZeroFields(1));
    FieldBytesOfZeros(4);
    FieldBytesOfZeros(6);
    FieldBytesOfZeros(1);
    SmallFields();
  }

  lemma TrailerFiller()
    ensures Filler(121) == [0, 0, 0]
  {
  }

  /** The archive of no entries, byte by byte. */
  lemma EmptyArchive()
    ensures Archive([]) ==
            Ascii("070701") + Ascii(ZeroText(4)) + Ascii("00000001") + Ascii(ZeroText(6)) + Ascii("0000000B")
            + Ascii(ZeroText(1)) + Ascii("TRAILER!!!") + [0, 0, 0, 0]
  {
    hide FieldBytes, Filler, TrailerFields, Ascii, ZeroText, TRAILER, MAGIC_NEWC;
    TrailerHeader();
    PadIsFiller(NameBytes(TrailerFields(), TRAILER));
    TrailerFiller();
    assert Pad([]) == [];
    TrailerText();
    MagicText();
  }

  // ---- What a reader also takes ----

  /** A field that is padded with spaces in place of zeros. */
  lemma PaddedField(v: nat, n: nat)
    requires n < 8 && v < Pow16(8 - n)
    ensures ParseField(Spaces(n) + HexDigits(v, 8 - n)) == Some(v)
  {
    hide HexDigits, Pow16, TrimStart, TrimEnd, DigitValue, DigitsValue;
    var d := HexDigits(v, 8 - n);
    DigitsRoundTrip(v, 8 - n);
    DigitsStay(d);
    TrimSpaces(n, d);
  }

  lemma DigitsStay(d: Bytes)
    requires d != [] && DigitValue(d[0]).Some? && DigitValue(d[|d| - 1]).Some?
    ensures TrimStart(d) == d && TrimEnd(d) == d && d[0] != 0x2b
  {
    assert 0x21 <= d[0] < 0x80 && 0x21 <= d[|d| - 1] < 0x80;
    NothingToTrim(d);
  }

  function Spaces(n: nat): (s: Bytes)
    ensures |s| == n
  {
    seq(n, _ => 0x20)
  }

  lemma {:induction false} TrimSpaces(n: nat, d: Bytes)
    requires TrimStart(d) == d
    ensures TrimStart(Spaces(n) + d) == d
  {
    var s := Spaces(n) + d;
    if n == 0 {
      assert s == d;
    } else {
      TrimSpaces(n - 1, d);
      assert s[..1] == [0x20] && s[1..] == Spaces(n - 1) + d;
    }
  }

  /** The checksum format's magic is taken too, and changes nothing. */
  lemma CrcMagicReads(bytes: Bytes, crc: Bytes, at: nat)
    requires at + 110 <= |bytes| && |crc| == |bytes|
    requires bytes[at..at + 6] == Ascii("070701") && crc[at..at + 6] == Ascii("070702")
    requires forall i :: at + 6 <= i < |bytes| ==> crc[i] == bytes[i]
    ensures ParseRecord(crc, at) == ParseRecord(bytes, at)
  {
    hide ParseField;
    forall i, j | at + 6 <= i <= j <= |bytes| ensures crc[i..j] == bytes[i..j] {
    }
    MagicText();
  }

  lemma MagicText()
    ensures MAGIC_NEWC == Ascii("070701") && MAGIC_CRC == Ascii("070702")
  {
  }

  /** NUL bytes between records, as in archives put one after the other, are skipped. */
  lemma {:induction false} NulsAreSkipped(bytes: Bytes, at: nat, n: nat)
    requires at + n <= |bytes| && forall i :: at <= i < at + n ==> bytes[i] == 0
    ensures ReadFrom(bytes, at) == ReadFrom(bytes, at + n)
    decreases n
  {
    hide ParseRecord, IntoEntry;
    if n > 0 {
      NulsAreSkipped(bytes, at + 1, n - 1);
    }
  }
}
