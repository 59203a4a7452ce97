/** The `newc` cpio codec of `crates/cdj3k-emu-firmware/src/cpio.rs`, and the in-place
    ownership rewrite of `initramfs.rs`. The format is that of the Linux kernel's
    "initramfs buffer format" document. Names and link targets are their UTF-8 bytes. */
module Cpio {
  import opened Bytes
  import opened Optional
  import opened Text

  const HEADER_LEN: nat := 110
  const MAGIC_NEWC: Bytes := [0x30, 0x37, 0x30, 0x37, 0x30, 0x31]
  const MAGIC_CRC: Bytes := [0x30, 0x37, 0x30, 0x37, 0x30, 0x32]
  /** "TRAILER!!!" */
  const TRAILER: Bytes := [0x54, 0x52, 0x41, 0x49, 0x4c, 0x45, 0x52, 0x21, 0x21, 0x21]
  const SLASH: Byte := 0x2f
  const BACKSLASH: Byte := 0x5c
  const DOT: Byte := 0x2e

  /** One past the permission bits of a mode; the four bits above them are the file type. */
  const PERMS: nat := 4096
  const IFCHR: nat := 2
  const IFDIR: nat := 4
  const IFREG: nat := 8
  const IFLNK: nat := 10

  datatype Kind =
    | File(data: Bytes)
    | Dir
    | Symlink(target: Bytes)
    | CharDev(major: U32, minor: U32)

  datatype Entry = Entry(path: Bytes, kind: Kind, mode: U32, uid: U32, gid: U32, mtime: U32)

  datatype Error =
    | Truncated(at: nat)
    | BadMagic(at: nat)
    | BadField(at: nat, field: nat)
    | UnsupportedMode(path: Bytes, mode: U32)
    | MissingTrailer

  datatype Result<+T> = Ok(value: T) | Err(error: Error)

  // ---- Hexadecimal fields ----

  function HexDigit(d: nat): Byte
    requires d < 16
  {
    if d < 10 then 0x30 + d else 0x37 + d
  }

  /** The last `n` upper-case hexadecimal digits of `v`. */
  function HexDigits(v: nat, n: nat): (s: Bytes)
    ensures |s| == n
  {
    if n == 0 then [] else HexDigits(v / 16, n - 1) + [HexDigit(v % 16)]
  }

  function Hex8(v: U32): (s: Bytes)
    ensures |s| == 8
  {
    HexDigits(v, 8)
  }

  function DigitValue(b: Byte): Option<nat> {
    if 0x30 <= b <= 0x39 then Some(b - 0x30)
    else if 0x41 <= b <= 0x46 then Some(b - 0x37)
    else if 0x61 <= b <= 0x66 then Some(b - 0x57)
    else None
  }

  function Pow16(n: nat): (p: nat)
    ensures p > 0
  {
    if n == 0 then 1 else 16 * Pow16(n - 1)
  }

  function DigitsValue(s: Bytes): (v: Option<nat>)
    ensures v.Some? ==> v.value < Pow16(|s|)
  {
    if s == [] then Some(0)
    else
      var front, last := DigitsValue(s[..|s| - 1]), DigitValue(s[|s| - 1]);
      if front.None? || last.None? then None else Some(16 * front.value + last.value)
  }

  /** `from_str_radix(s, 16)` on at most eight bytes: one leading `+` is allowed. */
  function FromHex(s: Bytes): (v: Option<U32>)
    requires |s| <= 8
  {
    var digits := if s != [] && s[0] == 0x2b then s[1..] else s;
    assert Pow16(8) == 0x1_0000_0000;
    Pow16Grows(|digits|, 8);
    if digits == [] then None else DigitsValue(digits)
  }

  /** `parse_hex8`, which reads a malformed field as 0. */
  function ParseHex8(s: Bytes): U32
    requires |s| == 8
  {
    if FromHex(s).Some? then FromHex(s).value else 0
  }

  /** A header field as `Record::parse` reads it. */
  function ParseField(s: Bytes): Option<U32>
    requires |s| == 8
  {
    FromHex(TrimEnd(TrimStart(s)))
  }

  lemma {:induction false} Pow16Grows(n: nat, m: nat)
    requires n <= m
    ensures Pow16(n) <= Pow16(m)
    decreases m
  {
    if n < m {
      Pow16Grows(n, m - 1);
    }
  }

  lemma {:induction false} DigitsRoundTrip(v: nat, n: nat)
    requires v < Pow16(n)
    ensures DigitsValue(HexDigits(v, n)) == Some(v)
    ensures forall i :: 0 <= i < n ==> DigitValue(HexDigits(v, n)[i]).Some?
  {
    hide HexDigit, DigitValue;
    if n > 0 {
      var high, low := v / 16, v % 16;
      DigitsRoundTrip(high, n - 1);
      DigitRoundTrip(low);
      assert HexDigits(v, n)[..n - 1] == HexDigits(high, n - 1);
    }
  }

  lemma DigitRoundTrip(d: nat)
    requires d < 16
    ensures DigitValue(HexDigit(d)) == Some(d)
  {
  }

  /** A written field reads back as its value, by either reader. */
  lemma FieldRoundTrip(v: U32)
    ensures ParseField(Hex8(v)) == Some(v)
    ensures ParseHex8(Hex8(v)) == v
  {
    assert Pow16(8) == 0x1_0000_0000;
    DigitsRoundTrip(v, 8);
    var s := Hex8(v);
    assert DigitValue(s[0]).Some? && DigitValue(s[7]).Some?;
    assert TrimStart(s) == s && TrimEnd(s) == s;
  }

  // ---- Writing ----

  function Pad4(n: nat): (p: nat)
    ensures n <= p < n + 4 && p % 4 == 0
  {
    (n + 3) / 4 * 4
  }

  function Pad(s: Bytes): (p: Bytes)
    ensures |p| == Pad4(|s|) && s <= p
  {
    s + Zeros(Pad4(|s|) - |s|)
  }

  /** The header fields after the magic, in archive order. */
  type Fields = f: seq<U32> | |f| == 13 witness seq(13, _ => 0)

  function FieldBytes(f: seq<U32>): (s: Bytes)
    ensures |s| == 8 * |f|
  {
    if f == [] then [] else FieldBytes(f[..|f| - 1]) + Hex8(f[|f| - 1])
  }

  function HeaderBytes(f: Fields): (s: Bytes)
    ensures |s| == HEADER_LEN
  {
    MAGIC_NEWC + FieldBytes(f)
  }

  function NameBytes(f: Fields, name: Bytes): (s: Bytes)
    ensures |s| == HEADER_LEN + |name| + 1
  {
    HeaderBytes(f) + name + [0]
  }

  function RecordBytes(f: Fields, name: Bytes, payload: Bytes): (s: Bytes)
    ensures |s| == Pad4(HEADER_LEN + |name| + 1) + Pad4(|payload|)
  {
    Pad(NameBytes(f, name)) + Pad(payload)
  }

  function AsU32(n: nat): U32 { n % 0x1_0000_0000 }

  function TypeBits(k: Kind): nat {
    match k
    case File(_) => IFREG
    case Dir => IFDIR
    case Symlink(_) => IFLNK
    case CharDev(_, _) => IFCHR
  }

  function Payload(k: Kind): Bytes {
    match k
    case File(data) => data
    case Symlink(target) => target
    case _ => []
  }

  function TrimSlashes(s: Bytes): (t: Bytes)
    ensures t == [] || t[0] != SLASH
    ensures s == [] || s[0] != SLASH ==> t == s
  {
    if s != [] && s[0] == SLASH then TrimSlashes(s[1..]) else s
  }

  function ArchiveName(path: Bytes): Bytes {
    var forward := seq(|path|, i requires 0 <= i < |path| => if path[i] == BACKSLASH then SLASH else path[i]);
    var s := TrimSlashes(forward);
    if s == [] then [DOT] else s
  }

  function EntryFields(e: Entry, ino: U32): Fields {
    var dev := match e.kind case CharDev(ma, mi) => (ma, mi) case _ => (0, 0);
    [ino, TypeBits(e.kind) * PERMS + e.mode % PERMS, e.uid, e.gid, if e.kind.Dir? then 2 else 1, e.mtime,
     AsU32(|Payload(e.kind)|), 0, 0, dev.0, dev.1, AsU32(|ArchiveName(e.path)| + 1), 0]
  }

  function EntryRecord(e: Entry, ino: U32): Bytes {
    RecordBytes(EntryFields(e, ino), ArchiveName(e.path), Payload(e.kind))
  }

  function TrailerFields(): Fields {
    [0, 0, 0, 0, 1, 0, 0, 0, 0, 0, 0, |TRAILER| + 1, 0]
  }

  function TrailerRecord(): Bytes {
    RecordBytes(TrailerFields(), TRAILER, [])
  }

  /** The archive from its record `i` on. */
  function ArchiveFrom(es: seq<Entry>, i: nat): Bytes
    requires i <= |es|
    decreases |es| - i
  {
    if i == |es| then TrailerRecord() else EntryRecord(es[i], AsU32(i + 1)) + ArchiveFrom(es, i + 1)
  }

  function Archive(es: seq<Entry>): Bytes { ArchiveFrom(es, 0) }

  method PadTo4(out: Bytes, from: nat) returns (padded: Bytes)
    requires from <= |out|
    ensures padded == out[..from] + Pad(out[from..])
  {
    var want := Pad4(|out| - from) + from;
    padded := out + Zeros(want - |out|);
    assert padded == out[..from] + Pad(out[from..]);
  }

  method WriteFields(out: Bytes, f: Fields) returns (grown: Bytes)
    ensures grown == out + FieldBytes(f)
  {
    grown := out;
    for i := 0 to |f|
      invariant grown == out + FieldBytes(f[..i])
    {
      grown := grown + Hex8(f[i]);
      assert f[..i + 1][..i] == f[..i];
    }
    assert f[..|f|] == f;
  }

  /** The part of a record up to its payload, shared by entries and the trailer. */
  method WriteHead(out: Bytes, f: Fields, name: Bytes) returns (grown: Bytes)
    ensures grown == out + Pad(NameBytes(f, name))
  {
    hide FieldBytes;
    grown := WriteFields(out + MAGIC_NEWC, f);
    grown := grown + name + [0];
    assert grown[..|out|] == out && grown[|out|..] == NameBytes(f, name);
    grown := PadTo4(grown, |out|);
  }

  method WriteRecord(out: Bytes, e: Entry, ino: U32) returns (grown: Bytes)
    ensures grown == out + EntryRecord(e, ino)
  {
    hide EntryFields, ArchiveName, Payload, NameBytes, Pad;
    var name, payload, f := ArchiveName(e.path), Payload(e.kind), EntryFields(e, ino);
    grown := WriteHead(out, f, name);
    ghost var head := grown;
    var dataStart := |grown|;
    grown := grown + payload;
    assert grown[..dataStart] == head && grown[dataStart..] == payload;
    grown := PadTo4(grown, dataStart);
  }

  method WriteTrailer(out: Bytes) returns (grown: Bytes)
    ensures grown == out + TrailerRecord()
  {
    hide NameBytes;
    grown := WriteHead(out, TrailerFields(), TRAILER);
    assert Pad([]) == [];
  }

  method Write(es: seq<Entry>) returns (out: Bytes)
    ensures out == Archive(es)
  {
    hide EntryRecord, TrailerRecord;
    out := [];
    for i := 0 to |es|
      invariant out + ArchiveFrom(es, i) == Archive(es)
    {
      ghost var before := out;
      out := WriteRecord(out, es[i], AsU32(i + 1));
      assert out + ArchiveFrom(es, i + 1) == before + ArchiveFrom(es, i);
    }
    out := WriteTrailer(out);
  }

  // ---- Reading ----

  datatype Record = Record(
    mode: U32, uid: U32, gid: U32, mtime: U32, rdevMajor: U32, rdevMinor: U32, name: Bytes, data: Bytes, end: nat)

  function Field(bytes: Bytes, at: nat, i: nat): Option<U32>
    requires at + HEADER_LEN <= |bytes| && i < 13
  {
    ParseField(bytes[at + 6 + i * 8..at + 14 + i * 8])
  }

  /** The fields that `Record::parse` reads. */
  datatype Header = Header(
    mode: U32, uid: U32, gid: U32, mtime: U32, fileSize: U32, rdevMajor: U32, rdevMinor: U32, nameSize: U32)

  /** The header at `at`; the error names the first malformed field in the order they are read. */
  function ParseHeader(bytes: Bytes, at: nat): Result<Header>
    requires at + HEADER_LEN <= |bytes|
  {
    hide ParseField;
    if bytes[at..at + 6] != MAGIC_NEWC && bytes[at..at + 6] != MAGIC_CRC then Err(BadMagic(at))
    else
      var mode, uid, gid := Field(bytes, at, 1), Field(bytes, at, 2), Field(bytes, at, 3);
      var mtime, fileSize := Field(bytes, at, 5), Field(bytes, at, 6);
      var rdevMajor, rdevMinor := Field(bytes, at, 9), Field(bytes, at, 10);
      var nameSize := Field(bytes, at, 11);
      if mode.None? then Err(BadField(at, 1))
      else if uid.None? then Err(BadField(at, 2))
      else if gid.None? then Err(BadField(at, 3))
      else if mtime.None? then Err(BadField(at, 5))
      else if fileSize.None? then Err(BadField(at, 6))
      else if rdevMajor.None? then Err(BadField(at, 9))
      else if rdevMinor.None? then Err(BadField(at, 10))
      else if nameSize.None? then Err(BadField(at, 11))
      else Ok(Header(mode.value, uid.value, gid.value, mtime.value,
                     fileSize.value, rdevMajor.value, rdevMinor.value, nameSize.value))
  }

  function DataAt(h: Header): nat { Pad4(HEADER_LEN + h.nameSize) }

  function ParseRecord(bytes: Bytes, at: nat): (r: Result<Record>)
    requires at <= |bytes|
    ensures r.Ok? ==> r.value.end >= at + HEADER_LEN
  {
    hide ParseHeader;
    if |bytes| - at < HEADER_LEN then Err(Truncated(at))
    else
      match ParseHeader(bytes, at)
      case Err(x) => Err(x)
      case Ok(h) =>
        if h.nameSize == 0 then Err(BadField(at, 11))
        else if at + HEADER_LEN + h.nameSize > |bytes| || at + DataAt(h) + h.fileSize > |bytes| then Err(Truncated(at))
        else
          var name := bytes[at + HEADER_LEN..at + HEADER_LEN + h.nameSize - 1];
          var data := bytes[at + DataAt(h)..at + DataAt(h) + h.fileSize];
          Ok(Record(h.mode, h.uid, h.gid, h.mtime, h.rdevMajor, h.rdevMinor, name, data,
                    at + Pad4(DataAt(h) + h.fileSize)))
  }

  function KindOf(r: Record): Option<Kind> {
    var t := r.mode / PERMS % 16;
    if t == IFREG then Some(File(r.data))
    else if t == IFDIR then Some(Dir)
    else if t == IFLNK then Some(Symlink(r.data))
    else if t == IFCHR then Some(CharDev(r.rdevMajor, r.rdevMinor))
    else None
  }

  function IntoEntry(r: Record): Result<Entry> {
    match KindOf(r)
    case None => Err(UnsupportedMode(r.name, r.mode))
    case Some(k) => Ok(Entry([SLASH] + TrimSlashes(r.name), k, r.mode % PERMS, r.uid, r.gid, r.mtime))
  }

  function SkipNuls(bytes: Bytes, at: nat): (p: nat)
    ensures p >= at
    decreases |bytes| - at
  {
    if at < |bytes| && bytes[at] == 0 then SkipNuls(bytes, at + 1) else at
  }

  function ReadFrom(bytes: Bytes, at: nat): Result<seq<Entry>>
    decreases |bytes| - at
  {
    var p := SkipNuls(bytes, at);
    if p >= |bytes| then Err(MissingTrailer)
    else
      match ParseRecord(bytes, p)
      case Err(x) => Err(x)
      case Ok(r) =>
        if r.name == TRAILER then Ok([])
        else Prepend(IntoEntry(r), ReadFrom(bytes, r.end))
  }

  function Prepend(e: Result<Entry>, tail: Result<seq<Entry>>): Result<seq<Entry>> {
    if e.Err? then Err(e.error)
    else if tail.Err? then tail
    else Ok([e.value] + tail.value)
  }

  ghost function After(es: seq<Entry>, tail: Result<seq<Entry>>): Result<seq<Entry>> {
    if tail.Err? then tail else Ok(es + tail.value)
  }

  lemma AfterNothing(tail: Result<seq<Entry>>)
    ensures After([], tail) == tail
  {
    if tail.Ok? {
      assert [] + tail.value == tail.value;
    }
  }

  lemma AfterPrepend(es: seq<Entry>, e: Result<Entry>, tail: Result<seq<Entry>>)
    requires e.Ok?
    ensures After(es, Prepend(e, tail)) == After(es + [e.value], tail)
  {
    if tail.Ok? {
      assert es + ([e.value] + tail.value) == es + [e.value] + tail.value;
    }
  }

  method Read(bytes: Bytes) returns (r: Result<seq<Entry>>)
    ensures r == ReadFrom(bytes, 0)
  {
    hide ParseRecord, IntoEntry;
    var entries: seq<Entry> := [];
    var at: nat := 0;
    AfterNothing(ReadFrom(bytes, 0));
    while true
      invariant ReadFrom(bytes, 0) == After(entries, ReadFrom(bytes, at))
      decreases |bytes| - at
    {
      ghost var start := at;
      while at < |bytes| && bytes[at] == 0
        invariant start <= at
        invariant SkipNuls(bytes, start) == SkipNuls(bytes, at)
        decreases |bytes| - at
      {
        at := at + 1;
      }
      assert SkipNuls(bytes, start) == at;
      if at >= |bytes| {
        return Err(MissingTrailer);
      }
      var parsed := ParseRecord(bytes, at);
      if parsed.Err? {
        return Err(parsed.error);
      }
      if parsed.value.name == TRAILER {
        assert entries + [] == entries;
        return Ok(entries);
      }
      at := parsed.value.end;
      var e := IntoEntry(parsed.value);
      if e.Err? {
        return Err(e.error);
      }
      AfterPrepend(entries, e, ReadFrom(bytes, at));
      entries := entries + [e.value];
    }
  }

  // ---- The ownership rewrite ----

  /** Eight '0' characters. */
  const ZERO_FIELD: Bytes := [0x30, 0x30, 0x30, 0x30, 0x30, 0x30, 0x30, 0x30]

  function Overwrite(bytes: Bytes, at: nat, field: Bytes): (r: Bytes)
    requires at + |field| <= |bytes|
    ensures |r| == |bytes|
    ensures forall k :: 0 <= k < |r| ==> r[k] == if at <= k < at + |field| then field[k - at] else bytes[k]
  {
    bytes[..at] + field + bytes[at + |field|..]
  }

  /** The bytes with the uid and gid fields of the record at `pos` zeroed. */
  function ZeroOwner(bytes: Bytes, pos: nat): (r: Bytes)
    requires pos + HEADER_LEN <= |bytes|
    ensures |r| == |bytes|
  {
    Overwrite(Overwrite(bytes, pos + 22, ZERO_FIELD), pos + 30, ZERO_FIELD)
  }

  /** How far the record at `pos` reaches, by its own size fields. */
  function Stride(bytes: Bytes, pos: nat): (n: nat)
    requires pos + HEADER_LEN <= |bytes|
    ensures n >= HEADER_LEN
  {
    var nameSize, fileSize := ParseHex8(bytes[pos + 94..pos + 102]), ParseHex8(bytes[pos + 54..pos + 62]);
    var nameEnd := HEADER_LEN + nameSize;
    var namePad := (4 - nameEnd % 4) % 4;
    var dataPad := if fileSize > 0 then (4 - fileSize % 4) % 4 else 0;
    nameEnd + namePad + fileSize + dataPad
  }

  function FixFrom(bytes: Bytes, pos: nat): (r: Bytes)
    ensures |r| == |bytes|
    decreases |bytes| - pos
  {
    if pos + HEADER_LEN > |bytes| then bytes
    else if bytes[pos..pos + 6] != MAGIC_NEWC then FixFrom(bytes, pos + 1)
    else
      var fixed := ZeroOwner(bytes, pos);
      FixFrom(fixed, pos + Stride(fixed, pos))
  }

  method CopyInto(data: array<Byte>, at: nat, field: Bytes)
    requires at + |field| <= data.Length
    modifies data
    ensures data[..] == Overwrite(old(data[..]), at, field)
  {
    for i := 0 to |field|
      invariant forall k :: 0 <= k < data.Length ==>
                              data[k] == if at <= k < at + i then field[k - at] else old(data[k])
    {
      data[at + i] := field[i];
    }
  }

  /** What one turn of the loop does, at a record and elsewhere. */
  lemma FixTurn(bytes: Bytes, pos: nat)
    requires pos + HEADER_LEN <= |bytes|
    ensures bytes[pos..pos + 6] != MAGIC_NEWC ==> FixFrom(bytes, pos) == FixFrom(bytes, pos + 1)
    ensures bytes[pos..pos + 6] == MAGIC_NEWC ==>
              var fixed := ZeroOwner(bytes, pos); FixFrom(bytes, pos) == FixFrom(fixed, pos + Stride(fixed, pos))
  {
    hide ZeroOwner, Stride;
  }

  lemma FixPastEnd(bytes: Bytes, pos: nat)
    requires pos + HEADER_LEN > |bytes|
    ensures FixFrom(bytes, pos) == bytes
  {
  }

  method FixOwnership(data: array<Byte>)
    modifies data
    ensures data[..] == FixFrom(old(data[..]), 0)
  {
    hide Stride, FixFrom, Overwrite;
    var pos := 0;
    while pos + HEADER_LEN <= data.Length
      invariant FixFrom(data[..], pos) == FixFrom(old(data[..]), 0)
      decreases data.Length - pos
    {
      FixTurn(data[..], pos);
      assert data[pos..pos + 6] == data[..][pos..pos + 6];
      if data[pos..pos + 6] != MAGIC_NEWC {
        pos := pos + 1;
        continue;
      }
      CopyInto(data, pos + 22, ZERO_FIELD);
      CopyInto(data, pos + 30, ZERO_FIELD);
      pos := pos + Stride(data[..], pos);
    }
    FixPastEnd(data[..], pos);
  }
}
