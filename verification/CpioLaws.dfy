/** What the cpio codec promises: archives round-trip with anything appended, no strict
    prefix of one is accepted, every record is aligned, and the ownership rewrite commutes
    with writing. */
module CpioLaws {
  import opened Bytes
  import opened Optional
  import opened Cpio

  /** The sizes the header can carry. */
  predicate Fits(e: Entry) {
    |Payload(e.kind)| < 0x1_0000_0000 && |ArchiveName(e.path)| + 1 < 0x1_0000_0000
  }

  predicate AllFit(es: seq<Entry>) {
    forall i :: 0 <= i < |es| ==> Fits(es[i])
  }

  /** What reading back the record of `e` gives. */
  function Normal(e: Entry): Entry {
    e.(path := [SLASH] + ArchiveName(e.path), mode := e.mode % PERMS)
  }

  /** The entries before the first one named like the trailer, normalised. */
  function ReadBack(es: seq<Entry>, i: nat): seq<Entry>
    requires i <= |es|
    decreases |es| - i
  {
    if i == |es| || ArchiveName(es[i].path) == TRAILER then []
    else [Normal(es[i])] + ReadBack(es, i + 1)
  }

  /** An absolute, slash-normal path other than the root, permission bits only, not the trailer's name. */
  predicate WellFormed(e: Entry) {
    && |e.path| > 1 && e.path[0] == SLASH && e.path[1] != SLASH
    && BACKSLASH !in e.path
    && e.path[1..] != TRAILER
    && e.mode < PERMS
    && Fits(e)
  }

  /** `bytes` agrees with `t` placed at `at`, as far as `bytes` reaches. */
  ghost predicate Agrees(bytes: Bytes, at: nat, t: Bytes) {
    forall k :: 0 <= k < |t| && at + k < |bytes| ==> bytes[at + k] == t[k]
  }

  // ---- One record ----

  lemma {:induction false} FieldBytesAt(f: seq<U32>, i: nat)
    requires i < |f|
    ensures FieldBytes(f)[8 * i..8 * i + 8] == Hex8(f[i])
  {
    var k := |f| - 1;
    if i < k {
      FieldBytesAt(f[..k], i);
      assert FieldBytes(f)[8 * i..8 * i + 8] == FieldBytes(f[..k])[8 * i..8 * i + 8];
    } else {
      assert FieldBytes(f)[8 * i..8 * i + 8] == Hex8(f[k]);
    }
  }

  lemma HeaderField(bytes: Bytes, at: nat, f: Fields, i: nat)
    requires at + HEADER_LEN <= |bytes| && Agrees(bytes, at, HeaderBytes(f)) && i < 13
    ensures bytes[at + 6 + i * 8..at + 14 + i * 8] == Hex8(f[i])
    ensures Field(bytes, at, i) == Some(f[i])
  {
    hide Hex8, ParseField;
    FieldBytesAt(f, i);
    var h := HeaderBytes(f);
    forall k | 0 <= k < 8 ensures bytes[at + 6 + i * 8 + k] == Hex8(f[i])[k] {
      assert h[6 + i * 8 + k] == FieldBytes(f)[8 * i..8 * i + 8][k];
    }
    assert bytes[at + 6 + i * 8..at + 14 + i * 8] == Hex8(f[i]);
    FieldRoundTrip(f[i]);
  }

  function HeaderOf(f: Fields): Header {
    Header(f[1], f[2], f[3], f[5], f[6], f[9], f[10], f[11])
  }

  lemma HeaderParses(bytes: Bytes, at: nat, f: Fields)
    requires at + HEADER_LEN <= |bytes| && Agrees(bytes, at, HeaderBytes(f))
    ensures ParseHeader(bytes, at) == Ok(HeaderOf(f))
  {
    hide Field, FieldBytes;
    forall i | 0 <= i < 13 ensures Field(bytes, at, i) == Some(f[i]) {
      HeaderField(bytes, at, f, i);
    }
    forall k | 0 <= k < 6 ensures bytes[at + k] == MAGIC_NEWC[k] {
      assert HeaderBytes(f)[k] == MAGIC_NEWC[k];
    }
    assert bytes[at..at + 6] == MAGIC_NEWC;
  }

  /** How much of a record must be there for it to parse. */
  function Needed(name: Bytes, payload: Bytes): nat {
    Pad4(HEADER_LEN + |name| + 1) + |payload|
  }

  function RecordOf(f: Fields, name: Bytes, payload: Bytes, end: nat): Record {
    Record(f[1], f[2], f[3], f[5], f[9], f[10], name, payload, end)
  }

  lemma RecordParts(bytes: Bytes, at: nat, f: Fields, name: Bytes, payload: Bytes)
    requires Agrees(bytes, at, RecordBytes(f, name, payload))
    ensures Agrees(bytes, at, HeaderBytes(f))
    ensures Agrees(bytes, at + HEADER_LEN, name)
    ensures Agrees(bytes, at + Pad4(HEADER_LEN + |name| + 1), payload)
  {
    hide HeaderBytes;
    var t, head := RecordBytes(f, name, payload), Pad4(HEADER_LEN + |name| + 1);
    assert forall k :: 0 <= k < HEADER_LEN ==> t[k] == HeaderBytes(f)[k];
    assert forall k :: 0 <= k < |name| ==> t[HEADER_LEN + k] == name[k];
    assert forall k :: 0 <= k < |payload| ==> t[head + k] == payload[k];
  }

  lemma PadAfterAligned(a: nat, n: nat)
    requires a % 4 == 0
    ensures Pad4(a + n) == a + Pad4(n)
  {
  }

  /** Bytes that agree with `t` and reach past it hold it. */
  lemma AgreeingSlice(bytes: Bytes, at: nat, t: Bytes)
    requires Agrees(bytes, at, t) && at + |t| <= |bytes|
    ensures bytes[at..at + |t|] == t
  {
  }

  /** A record whose size fields are its sizes parses exactly when all of it but the final
      padding is there; otherwise the archive is truncated. */
  lemma RecordParses(bytes: Bytes, at: nat, f: Fields, name: Bytes, payload: Bytes)
    requires at <= |bytes| && Agrees(bytes, at, RecordBytes(f, name, payload))
    requires f[6] == |payload| && f[11] == |name| + 1
    ensures ParseRecord(bytes, at) ==
            if |bytes| - at < Needed(name, payload) then Err(Truncated(at))
            else Ok(RecordOf(f, name, payload, at + |RecordBytes(f, name, payload)|))
  {
    hide ParseHeader, HeaderBytes, RecordBytes, Pad4, Agrees;
    RecordParts(bytes, at, f, name, payload);
    PadAfterAligned(Pad4(HEADER_LEN + |name| + 1), |payload|);
    if |bytes| - at >= HEADER_LEN {
      HeaderParses(bytes, at, f);
      if |bytes| - at >= Needed(name, payload) {
        var head := Pad4(HEADER_LEN + |name| + 1);
        AgreeingSlice(bytes, at + HEADER_LEN, name);
        AgreeingSlice(bytes, at + head, payload);
      }
    }
  }

  lemma ArchiveNameIsRelative(path: Bytes)
    ensures var n := ArchiveName(path); n != [] && n[0] != SLASH && TrimSlashes(n) == n
  {
  }

  lemma EntryReadsBack(e: Entry, ino: U32, end: nat)
    requires Fits(e)
    ensures IntoEntry(RecordOf(EntryFields(e, ino), ArchiveName(e.path), Payload(e.kind), end)) == Ok(Normal(e))
  {
    hide ArchiveName;
    ArchiveNameIsRelative(e.path);
    var bits, perms := TypeBits(e.kind), e.mode % PERMS;
    assert (bits * PERMS + perms) / PERMS % 16 == bits && (bits * PERMS + perms) % PERMS == perms;
  }

  // ---- Whole archives ----

  lemma AgreesParts(bytes: Bytes, at: nat, s: Bytes, t: Bytes)
    requires Agrees(bytes, at, s + t)
    ensures Agrees(bytes, at, s) && Agrees(bytes, at + |s|, t)
  {
    assert forall k :: 0 <= k < |s| ==> (s + t)[k] == s[k];
    assert forall k :: 0 <= k < |t| ==> (s + t)[|s| + k] == t[k];
  }

  lemma RecordStartsWithMagic(f: Fields, name: Bytes, payload: Bytes)
    ensures RecordBytes(f, name, payload)[0] == 0x30
  {
    hide FieldBytes;
  }

  /** Reading at a record that is there as far as the archive reaches. */
  lemma ReadStep(bytes: Bytes, at: nat, f: Fields, name: Bytes, payload: Bytes)
    requires at < |bytes| && Agrees(bytes, at, RecordBytes(f, name, payload))
    requires f[6] == |payload| && f[11] == |name| + 1
    ensures ReadFrom(bytes, at) ==
            var end := at + |RecordBytes(f, name, payload)|;
            if |bytes| - at < Needed(name, payload) then Err(Truncated(at))
            else if name == TRAILER then Ok([])
            else Prepend(IntoEntry(RecordOf(f, name, payload, end)), ReadFrom(bytes, end))
  {
    hide ParseRecord, RecordBytes, IntoEntry;
    RecordStartsWithMagic(f, name, payload);
    assert bytes[at + 0] == RecordBytes(f, name, payload)[0];
    RecordParses(bytes, at, f, name, payload);
  }

  predicate NoTrailerFrom(es: seq<Entry>, i: nat) {
    forall j :: i <= j < |es| ==> ArchiveName(es[j].path) != TRAILER
  }

  /** How much of the archive from record `i` on a reader needs: all of it up to the first record
      named like the trailer, and that record without its final padding. */
  function NeededFrom(es: seq<Entry>, i: nat): nat
    requires i <= |es|
    decreases |es| - i
  {
    if i == |es| then Needed(TRAILER, [])
    else
      var name := ArchiveName(es[i].path);
      if name == TRAILER then Needed(name, Payload(es[i].kind))
      else |EntryRecord(es[i], AsU32(i + 1))| + NeededFrom(es, i + 1)
  }

  /** Reading bytes that agree with an archive as far as they reach gives the entries if they reach
      far enough, and an error if they do not. */
  lemma {:induction false} ReadAgreeing(bytes: Bytes, at: nat, es: seq<Entry>, i: nat)
    requires i <= |es| && AllFit(es) && Agrees(bytes, at, ArchiveFrom(es, i))
    ensures if |bytes| >= at + NeededFrom(es, i) then ReadFrom(bytes, at) == Ok(ReadBack(es, i))
            else ReadFrom(bytes, at).Err?
    decreases |es| - i
  {
    hide ParseRecord, RecordBytes, IntoEntry, ArchiveName, Normal, EntryFields, TrailerFields, ReadFrom, Needed,
         Payload;
    NeededIsSome(es, i);
    if at >= |bytes| {
      ReadAtEnd(bytes, at);
    } else if i == |es| {
      TrailerFacts();
      ReadStep(bytes, at, TrailerFields(), TRAILER, []);
    } else {
      var e, ino := es[i], AsU32(i + 1);
      var t, name, payload := EntryRecord(e, ino), ArchiveName(e.path), Payload(e.kind);
      AgreesParts(bytes, at, t, ArchiveFrom(es, i + 1));
      EntrySizes(e, ino);
      ReadStep(bytes, at, EntryFields(e, ino), name, payload);
      NeededFits(EntryFields(e, ino), name, payload);
      if name != TRAILER {
        EntryReadsBack(e, ino, at + |t|);
        ReadAgreeing(bytes, at + |t|, es, i + 1);
      }
    }
  }

  lemma NeededIsSome(es: seq<Entry>, i: nat)
    requires i <= |es|
    ensures NeededFrom(es, i) > 0
  {
    hide RecordBytes, ArchiveName, EntryFields, Payload;
  }

  lemma NeededFits(f: Fields, name: Bytes, payload: Bytes)
    ensures Needed(name, payload) <= |RecordBytes(f, name, payload)|
  {
  }

  lemma ReadAtEnd(bytes: Bytes, at: nat)
    requires at >= |bytes|
    ensures ReadFrom(bytes, at) == Err(MissingTrailer)
  {
  }

  lemma TrailerFacts()
    ensures var f := TrailerFields(); f[6] == 0 && f[11] == |TRAILER| + 1 && f == f[2 := 0][3 := 0]
  {
    var f := TrailerFields();
    assert f[2] == 0 && f[3] == 0;
  }

  lemma EntrySizes(e: Entry, ino: U32)
    requires Fits(e)
    ensures EntryFields(e, ino)[6] == |Payload(e.kind)| && EntryFields(e, ino)[11] == |ArchiveName(e.path)| + 1
  {
  }

  /** A reader needs no more than the archive, and all of it if no entry is named like the trailer. */
  lemma {:induction false} NeededOfArchive(es: seq<Entry>, i: nat)
    requires i <= |es|
    ensures NeededFrom(es, i) <= |ArchiveFrom(es, i)|
    ensures NeededFrom(es, i) == |ArchiveFrom(es, i)| <==> NoTrailerFrom(es, i)
    decreases |es| - i
  {
    hide RecordBytes, ArchiveName, EntryFields, TrailerFields, Payload;
    if i == |es| {
      assert |TrailerRecord()| == Needed(TRAILER, []);
    } else {
      NeededOfArchive(es, i + 1);
      NeededIsSome(es, i + 1);
      NeededFits(EntryFields(es[i], AsU32(i + 1)), ArchiveName(es[i].path), Payload(es[i].kind));
    }
  }

  /** Reading what was written, whatever follows it, gives the entries before the first one
      named like the trailer, each with its path made absolute and only its permission bits. */
  lemma WrittenReadsBack(es: seq<Entry>, rest: Bytes)
    requires AllFit(es)
    ensures ReadFrom(Archive(es) + rest, 0) == Ok(ReadBack(es, 0))
  {
    hide ReadFrom, ArchiveFrom, ReadBack, NeededFrom;
    NeededOfArchive(es, 0);
    ReadAgreeing(Archive(es) + rest, 0, es, 0);
  }

  lemma TrimOne(path: Bytes)
    requires |path| > 1 && path[0] == SLASH && path[1] != SLASH && BACKSLASH !in path
    ensures ArchiveName(path) == path[1..]
  {
    var forward := seq(|path|, i requires 0 <= i < |path| => if path[i] == BACKSLASH then SLASH else path[i]);
    assert forall i :: 0 <= i < |path| ==> path[i] in path;
    assert forward == path;
    assert TrimSlashes(path) == TrimSlashes(path[1..]) == path[1..];
  }

  lemma {:induction false} TrimKeepsOut(s: Bytes, b: Byte)
    requires b !in s
    ensures b !in TrimSlashes(s)
  {
    if s != [] {
      TrimKeepsOut(s[1..], b);
    }
  }

  /** The entries a record carries unchanged are the well-formed ones. */
  lemma WellFormedIsNormal(e: Entry)
    requires Fits(e)
    ensures WellFormed(e) <==> Normal(e) == e && ArchiveName(e.path) != TRAILER
  {
    hide TrimSlashes;
    var path, name := e.path, ArchiveName(e.path);
    if WellFormed(e) {
      TrimOne(path);
      assert [SLASH] + path[1..] == path;
    }
    if Normal(e) == e {
      ArchiveNameIsRelative(path);
      var forward := seq(|path|, i requires 0 <= i < |path| => if path[i] == BACKSLASH then SLASH else path[i]);
      TrimKeepsOut(forward, BACKSLASH);
      assert path == [SLASH] + name && path[1..] == name;
    }
  }

  lemma {:induction false} ReadBackIsAll(es: seq<Entry>, i: nat)
    requires i <= |es| && AllFit(es)
    ensures ReadBack(es, i) == es[i..] <==> forall j :: i <= j < |es| ==> WellFormed(es[j])
    decreases |es| - i
  {
    hide ArchiveName, Normal, WellFormed, Fits;
    if i < |es| {
      WellFormedIsNormal(es[i]);
      ReadBackIsAll(es, i + 1);
      assert es[i..] == [es[i]] + es[i + 1..];
      var back := ReadBack(es, i);
      if back == es[i..] {
        assert back[0] == es[i] && back[1..] == es[i + 1..];
      }
    }
  }

  /** With any bytes appended, an archive reads back as exactly the entries it was written
      from if and only if those are all well-formed. */
  lemma RoundTrip(es: seq<Entry>, rest: Bytes)
    requires AllFit(es)
    ensures ReadFrom(Archive(es) + rest, 0) == Ok(es) <==> forall i :: 0 <= i < |es| ==> WellFormed(es[i])
  {
    hide ReadFrom, Archive, ReadBack, WellFormed, AllFit;
    WrittenReadsBack(es, rest);
    ReadBackIsAll(es, 0);
    assert es[0..] == es;
  }

  /** Every prefix of an archive: accepted, with the same entries, exactly from a certain length on. */
  lemma PrefixReads(es: seq<Entry>, n: nat)
    requires AllFit(es) && n <= |Archive(es)|
    ensures if n >= NeededFrom(es, 0) then ReadFrom(Archive(es)[..n], 0) == Ok(ReadBack(es, 0))
            else ReadFrom(Archive(es)[..n], 0).Err?
  {
    hide ReadFrom, ArchiveFrom, NeededFrom, ReadBack;
    ReadAgreeing(Archive(es)[..n], 0, es, 0);
  }

  ghost predicate AcceptsNoStrictPrefix(es: seq<Entry>) {
    forall n :: 0 <= n < |Archive(es)| ==> ReadFrom(Archive(es)[..n], 0).Err?
  }

  /** No strict prefix of an archive is accepted if and only if no entry is named like the trailer. */
  lemma StrictPrefixIsAnErrorIff(es: seq<Entry>)
    requires AllFit(es)
    ensures AcceptsNoStrictPrefix(es) <==> NoTrailerFrom(es, 0)
  {
    hide ReadFrom, ArchiveFrom, NeededFrom, ReadBack, NoTrailerFrom, AllFit;
    NeededOfArchive(es, 0);
    var m := NeededFrom(es, 0);
    forall n | 0 <= n < |Archive(es)| ensures ReadFrom(Archive(es)[..n], 0).Err? <==> n < m {
      PrefixReads(es, n);
    }
    if m < |Archive(es)| {
      assert !ReadFrom(Archive(es)[..m], 0).Err?;
    }
  }

  /** An empty file named like the trailer. */
  const IMPOSTOR: Entry := Entry([SLASH] + TRAILER, File([]), 0, 0, 0, 0)

  /** Its record alone is accepted as an empty archive. */
  lemma ImpostorEndsTheArchive()
    ensures NeededFrom([IMPOSTOR], 0) < |Archive([IMPOSTOR])|
    ensures ReadFrom(Archive([IMPOSTOR])[..NeededFrom([IMPOSTOR], 0)], 0) == Ok([])
  {
    hide RecordBytes, EntryFields, ReadFrom, TrailerFields;
    var es := [IMPOSTOR];
    assert IMPOSTOR.path[1..] == TRAILER;
    TrimOne(IMPOSTOR.path);
    NeededOfArchive(es, 0);
    assert ArchiveName(es[0].path) == TRAILER && Fits(es[0]);
    PrefixReads(es, NeededFrom(es, 0));
  }

  // ---- Alignment ----

  /** Where record `i` starts. */
  function Offset(es: seq<Entry>, i: nat): nat
    requires i <= |es|
  {
    if i == 0 then 0 else Offset(es, i - 1) + |EntryRecord(es[i - 1], AsU32(i))|
  }

  lemma RecordIsAligned(e: Entry, ino: U32)
    ensures |EntryRecord(e, ino)| % 4 == 0
  {
    hide EntryFields, ArchiveName, Payload;
  }

  /** Record `i` of an archive (the trailer, for i = |es|) starts on a multiple of four. */
  lemma {:induction false} RecordsAreAligned(es: seq<Entry>, i: nat)
    requires i <= |es|
    ensures Offset(es, i) % 4 == 0
    ensures Offset(es, i) <= |Archive(es)| && Archive(es)[Offset(es, i)..] == ArchiveFrom(es, i)
  {
    hide EntryRecord, TrailerRecord, ArchiveFrom, AsU32;
    if i > 0 {
      RecordsAreAligned(es, i - 1);
      var o, t := Offset(es, i - 1), EntryRecord(es[i - 1], AsU32(i));
      RecordIsAligned(es[i - 1], AsU32(i));
      ArchiveNext(es, i - 1);
      DropTwice(Archive(es), o, t, ArchiveFrom(es, i));
    }
  }

  lemma ArchiveNext(es: seq<Entry>, i: nat)
    requires i < |es|
    ensures ArchiveFrom(es, i) == EntryRecord(es[i], AsU32(i + 1)) + ArchiveFrom(es, i + 1)
  {
    hide EntryRecord, TrailerRecord;
  }

  lemma DropTwice(all: Bytes, o: nat, t: Bytes, rest: Bytes)
    requires o <= |all| && all[o..] == t + rest
    ensures o + |t| <= |all| && all[o + |t|..] == rest
  {
    assert all[o + |t|..] == all[o..][|t|..];
  }

  // ---- The ownership rewrite ----

  function OwnedByRoot(e: Entry): Entry { e.(uid := 0, gid := 0) }

  function AllOwnedByRoot(es: seq<Entry>): (r: seq<Entry>)
    ensures |r| == |es| && forall i :: 0 <= i < |es| ==> r[i] == OwnedByRoot(es[i])
  {
    seq(|es|, i requires 0 <= i < |es| => OwnedByRoot(es[i]))
  }

  lemma ZeroIsEightZeros()
    ensures Hex8(0) == ZERO_FIELD
  {
    var z: nat := 0;
    assert HexDigits(z, 8) == HexDigits(z, 7) + [0x30];
  }

  /** Two headers that differ in uid and gid differ only in those bytes. */
  lemma ZeroOwnerOfHeader(f: Fields, g: Fields)
    requires g == f[2 := 0][3 := 0]
    ensures HeaderBytes(g) == ZeroOwner(HeaderBytes(f), 0)
  {
    hide Hex8;
    ZeroIsEightZeros();
    var h, r := HeaderBytes(g), ZeroOwner(HeaderBytes(f), 0);
    forall i | 0 <= i < 13
      ensures h[6 + 8 * i..14 + 8 * i] == Hex8(g[i])
      ensures HeaderBytes(f)[6 + 8 * i..14 + 8 * i] == Hex8(f[i])
    {
      FieldBytesAt(g, i);
      FieldBytesAt(f, i);
      assert h[6 + 8 * i..14 + 8 * i] == FieldBytes(g)[8 * i..8 * i + 8];
      assert HeaderBytes(f)[6 + 8 * i..14 + 8 * i] == FieldBytes(f)[8 * i..8 * i + 8];
    }
    forall k | 0 <= k < HEADER_LEN ensures h[k] == r[k] {
      if k >= 6 {
        var i, j := (k - 6) / 8, (k - 6) % 8;
        assert h[k] == h[6 + 8 * i..14 + 8 * i][j];
        assert HeaderBytes(f)[k] == HeaderBytes(f)[6 + 8 * i..14 + 8 * i][j];
        if i == 2 || i == 3 {
          assert Hex8(g[i])[j] == 0x30 && r[k] == 0x30;
        } else {
          assert f[i] == g[i] && r[k] == HeaderBytes(f)[k];
        }
      }
    }
  }

  /** Zeroing the owner of a record inside an archive. */
  lemma ZeroOwnerOfRecord(pre: Bytes, f: Fields, g: Fields, name: Bytes, payload: Bytes, post: Bytes)
    requires g == f[2 := 0][3 := 0]
    ensures ZeroOwner(pre + RecordBytes(f, name, payload) + post, |pre|) == pre + RecordBytes(g, name, payload) + post
  {
    hide HeaderBytes;
    ZeroOwnerOfHeader(f, g);
    var x := name + [0] + Zeros(Pad4(|name| + 111) - (|name| + 111)) + Pad(payload);
    assert RecordBytes(f, name, payload) == HeaderBytes(f) + x;
    assert RecordBytes(g, name, payload) == HeaderBytes(g) + x;
    var a, b := pre + (HeaderBytes(f) + x) + post, pre + (HeaderBytes(g) + x) + post;
    assert ZeroOwner(a, |pre|) == b;
  }

  lemma StrideOfRecord(pre: Bytes, f: Fields, name: Bytes, payload: Bytes, post: Bytes)
    requires f[6] == |payload| && f[11] == |name| + 1
    ensures Stride(pre + RecordBytes(f, name, payload) + post, |pre|) == |RecordBytes(f, name, payload)|
  {
    hide HeaderBytes, RecordBytes, ParseHex8, Hex8, Pad4, Field;
    var bytes, t := pre + RecordBytes(f, name, payload) + post, RecordBytes(f, name, payload);
    assert forall k :: 0 <= k < |t| ==> bytes[|pre| + k] == t[k];
    RecordParts(bytes, |pre|, f, name, payload);
    HeaderField(bytes, |pre|, f, 6);
    HeaderField(bytes, |pre|, f, 11);
    FieldRoundTrip(f[6]);
    FieldRoundTrip(f[11]);
    PadsAgree(HEADER_LEN + |name| + 1);
    PadsAgree(|payload|);
  }

  lemma PadsAgree(n: nat)
    ensures n + (4 - n % 4) % 4 == Pad4(n) && Pad4(0) == 0
  {
  }

  lemma FixStep(pre: Bytes, f: Fields, g: Fields, name: Bytes, payload: Bytes, post: Bytes)
    requires f[6] == |payload| && f[11] == |name| + 1 && g == f[2 := 0][3 := 0]
    ensures FixFrom(pre + RecordBytes(f, name, payload) + post, |pre|) ==
            FixFrom(pre + RecordBytes(g, name, payload) + post, |pre| + |RecordBytes(g, name, payload)|)
  {
    hide ZeroOwner, Stride, HeaderBytes, RecordBytes;
    var bytes := pre + RecordBytes(f, name, payload) + post;
    RecordHasMagic(f, name, payload);
    assert bytes[|pre|..|pre| + 6] == RecordBytes(f, name, payload)[..6];
    ZeroOwnerOfRecord(pre, f, g, name, payload, post);
    StrideOfRecord(pre, g, name, payload, post);
  }

  lemma RecordHasMagic(f: Fields, name: Bytes, payload: Bytes)
    ensures RecordBytes(f, name, payload)[..6] == MAGIC_NEWC
  {
    hide FieldBytes;
  }

  /** Rewriting the record of one entry. */
  lemma FixEntry(pre: Bytes, e: Entry, ino: U32, post: Bytes)
    requires Fits(e)
    ensures FixFrom(pre + EntryRecord(e, ino) + post, |pre|) ==
            var t := EntryRecord(OwnedByRoot(e), ino); FixFrom(pre + t + post, |pre + t|)
  {
    hide RecordBytes, ArchiveName, FixFrom;
    EntrySizes(e, ino);
    var f, g := EntryFields(e, ino), EntryFields(OwnedByRoot(e), ino);
    assert g == f[2 := 0][3 := 0];
    FixStep(pre, f, g, ArchiveName(e.path), Payload(e.kind), post);
  }

  lemma FixAtEnd(bytes: Bytes)
    ensures FixFrom(bytes, |bytes|) == bytes
  {
  }

  lemma FixTrailer(pre: Bytes)
    ensures FixFrom(pre + TrailerRecord(), |pre|) == pre + TrailerRecord()
  {
    hide RecordBytes, FixFrom, TrailerFields, TRAILER;
    var f, t := TrailerFields(), TrailerRecord();
    assert pre + t + [] == pre + t;
    TrailerFacts();
    FixStep(pre, f, f, TRAILER, [], []);
    FixAtEnd(pre + t);
  }

  lemma {:induction false} FixOfWrittenFrom(pre: Bytes, es: seq<Entry>, i: nat)
    requires i <= |es| && AllFit(es)
    ensures FixFrom(pre + ArchiveFrom(es, i), |pre|) == pre + ArchiveFrom(AllOwnedByRoot(es), i)
    decreases |es| - i
  {
    hide EntryRecord, TrailerRecord, FixFrom, Fits, OwnedByRoot;
    var rs := AllOwnedByRoot(es);
    if i == |es| {
      FixTrailer(pre);
    } else {
      var e, ino, post := es[i], AsU32(i + 1), ArchiveFrom(es, i + 1);
      var t := EntryRecord(OwnedByRoot(e), ino);
      FixEntry(pre, e, ino, post);
      FixOfWrittenFrom(pre + t, es, i + 1);
      assert pre + EntryRecord(e, ino) + post == pre + ArchiveFrom(es, i);
      assert pre + t + ArchiveFrom(rs, i + 1) == pre + ArchiveFrom(rs, i);
    }
  }

  /** The rewrite turns an archive, byte for byte, into the archive of the same entries owned by root. */
  lemma FixOfWritten(es: seq<Entry>)
    requires AllFit(es)
    ensures FixFrom(Archive(es), 0) == Archive(AllOwnedByRoot(es))
  {
    hide FixFrom, ArchiveFrom;
    FixOfWrittenFrom([], es, 0);
    assert [] + Archive(es) == Archive(es);
    assert [] + Archive(AllOwnedByRoot(es)) == Archive(AllOwnedByRoot(es));
  }
}
