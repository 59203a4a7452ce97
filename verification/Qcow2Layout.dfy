/** Images laid out plainly, for every cluster size: the L2 tables one after the other, and the guest's
    clusters one after the other. The reader finds every range of the guest disk in them. */
module Qcow2Layout {
  import opened Bytes
  import opened Optional
  import opened Qcow2

  /** The big-endian number in `n` bytes at `at` is `v`. */
  predicate Holds(file: Bytes, at: nat, n: nat, v: nat) {
    at + n <= |file| && Big(file[at..at + n]) == v
  }

  /** A table entry for offset `at`: bits 9 to 55 are those of `at`, and bit 62 is clear. */
  predicate Points(entry: nat, at: nat) {
    && at % 512 == 0 && at < 0x100_0000_0000_0000
    && at <= entry % 0x100_0000_0000_0000 < at + 512
    && entry / 0x4000_0000_0000_0000 % 2 == 0
  }

  /** Where a plain image has what: `clusters` clusters of `2^bits` bytes from `data` on, `tables` L2
      tables, a cluster each, from `l2` on, and the L1 table at `l1`. */
  datatype Layout = Layout(bits: nat, cluster: nat, tables: nat, clusters: nat, l1: nat, l2: nat, data: nat)

  /** The header, by its offsets. */
  predicate HeaderIs(file: Bytes, a: Layout) {
    && |file| >= 48 && file[0] == 'Q' as nat && file[1] == 'F' as nat && file[2] == 'I' as nat && file[3] == 0xfb
    && Holds(file, 20, 4, a.bits) && Holds(file, 36, 4, a.tables) && Holds(file, 40, 8, a.l1)
  }

  /** Where the `i`th of the clusters from `base` on starts. */
  function Start(base: nat, i: nat, cluster: nat): nat { base + i * cluster }

  /** The entry at `at` is for offset `to`. */
  predicate EntryAt(file: Bytes, at: nat, to: nat) {
    at + 8 <= |file| && Points(Big(file[at..at + 8]), to)
  }

  /** The size of a cluster is a power of two, and the tables have room for all clusters. */
  predicate Fits(a: Layout) {
    && 9 <= a.bits <= 21 && a.cluster == PowerOf2(a.bits)
    && a.clusters <= a.tables * (a.cluster / 8)
    && a.l2 > 0 && a.data > 0
  }

  /** The tables of a plain image: each L1 entry is for its L2 table, and the `c`th L2 entry of all
      for the `c`th cluster. */
  ghost predicate Tables(file: Bytes, a: Layout) {
    && HeaderIs(file, a) && Fits(a)
    && (forall i :: 0 <= i < a.tables ==> EntryAt(file, a.l1 + 8 * i, Start(a.l2, i, a.cluster)))
    && (forall c :: 0 <= c < a.clusters ==> EntryAt(file, a.l2 + 8 * c, Start(a.data, c, a.cluster)))
  }

  ghost predicate Plain(file: Bytes, a: Layout) {
    Tables(file, a) && Start(a.data, a.clusters, a.cluster) <= |file|
  }

  lemma PointsIsHost(entry: nat, at: nat)
    requires Points(entry, at)
    ensures HostOffset(entry) == at && !IsCompressed(entry)
  {
  }

  lemma HeaderReads(file: Bytes, a: Layout)
    requires HeaderIs(file, a) && 9 <= a.bits <= 21 && a.cluster == PowerOf2(a.bits)
    ensures Header(file) == Some(Geometry(a.cluster, a.tables, a.l1))
  {
    assert file[..4] == [file[0], file[1], file[2], file[3]];
  }

  /** The tables of `n` entries each, one after the other, are one table. */
  lemma EntryOf(n: nat, c: nat, tables: nat, l2: nat)
    requires n > 0 && c < tables * n
    ensures 0 <= c / n < tables && Start(l2, c / n, 8 * n) + c % n * 8 == l2 + 8 * c
  {
    var i, j := c / n, c % n;
    assert c == i * n + j;
    assert i * (8 * n) == 8 * (i * n);
    assert i >= tables ==> i * n >= tables * n;
    QuotientIsNat(c, n);
  }

  lemma ByteOf(cluster: nat, pos: nat, clusters: nat, data: nat)
    requires cluster > 0 && pos < clusters * cluster
    ensures 0 <= pos / cluster < clusters
    ensures Start(data, pos / cluster, cluster) + pos % cluster == data + pos < Start(data, clusters, cluster)
  {
    var c, w := pos / cluster, pos % cluster;
    QuotientIsNat(pos, cluster);
    assert pos == c * cluster + w;
    assert c >= clusters ==> c * cluster >= clusters * cluster;
  }

  lemma EntryReads(file: Bytes, at: nat, to: nat)
    requires EntryAt(file, at, to)
    ensures var e := ReadU64(file, at); e.Some? && HostOffset(e.value) == to && !IsCompressed(e.value)
  {
    PointsIsHost(Big(file[at..at + 8]), to);
  }

  /** Following the tables for cluster `c`. */
  lemma TablesMap(file: Bytes, a: Layout, c: nat)
    requires Tables(file, a) && c < a.clusters
    ensures var g := Geometry(a.cluster, a.tables, a.l1);
            && g.Valid()
            && var m := Map(file, g, c);
               m.Entry? && HostOffset(m.entry) == Start(a.data, c, a.cluster) && !IsCompressed(m.entry)
  {
    hide Start, EntryAt, ReadU64, HostOffset, IsCompressed, HeaderIs;
    PowerIsAligned(a.bits);
    var g, n := Geometry(a.cluster, a.tables, a.l1), a.cluster / 8;
    assert a.cluster == 8 * n;
    EntryOf(n, c, a.tables, a.l2);
    var i := c / n;
    assert EntryAt(file, a.l1 + 8 * i, Start(a.l2, i, a.cluster));
    EntryReads(file, a.l1 + 8 * i, Start(a.l2, i, a.cluster));
    EntryReads(file, a.l2 + 8 * c, Start(a.data, c, a.cluster));
    StartIsLater(a.l2, i, a.cluster);
  }

  lemma StartIsLater(base: nat, i: nat, cluster: nat)
    ensures Start(base, i, cluster) >= base
  {
  }

  lemma PlainByte(file: Bytes, a: Layout, pos: nat)
    requires Plain(file, a) && pos < a.clusters * a.cluster
    ensures var g := Geometry(a.cluster, a.tables, a.l1);
            g.Valid() && a.data + pos < |file| && Stored(file, g, pos) == Present([file[a.data + pos]])
  {
    hide Map, HostOffset, IsCompressed, HeaderIs, Start, EntryAt;
    PowerIsAligned(a.bits);
    ByteOf(a.cluster, pos, a.clusters, a.data);
    TablesMap(file, a, pos / a.cluster);
    StartIsLater(a.data, pos / a.cluster, a.cluster);
  }

  /** Every range of the guest disk is read, whatever the size of the clusters and however many L2
      tables the range spans. */
  lemma PlainReads(file: Bytes, a: Layout, offset: nat, len: nat)
    requires Plain(file, a) && offset + len <= a.clusters * a.cluster
    ensures Header(file) == Some(Geometry(a.cluster, a.tables, a.l1))
    ensures a.data + offset + len <= |file|
    ensures Collect(file, Header(file).value, offset, len) == Present(file[a.data + offset..a.data + offset + len])
  {
    HeaderReads(file, a);
    RangeReads(file, a, offset, len);
  }

  lemma RangeReads(file: Bytes, a: Layout, offset: nat, len: nat)
    requires Plain(file, a) && offset + len <= a.clusters * a.cluster
    ensures var g := Geometry(a.cluster, a.tables, a.l1);
            && g.Valid() && a.data + offset + len <= |file|
            && Collect(file, g, offset, len) == Present(file[a.data + offset..a.data + offset + len])
  {
    hide Stored, Collect, Plain;
    var g := Geometry(a.cluster, a.tables, a.l1);
    PlainSizes(file, a);
    forall p | offset <= p < offset + len
      ensures a.data + p < |file| && Stored(file, g, p) == Present([file[a.data + p]])
    {
      PlainByte(file, a, p);
    }
    CollectAt(file, g, offset, len);
    var out, part := Collect(file, g, offset, len).bytes, file[a.data + offset..a.data + offset + len];
    forall k | 0 <= k < len ensures out[k] == part[k] {
      assert Stored(file, g, offset + k) == Present([out[offset + k - offset]]);
    }
    assert out == part;
  }

  lemma PlainSizes(file: Bytes, a: Layout)
    requires Plain(file, a)
    ensures Geometry(a.cluster, a.tables, a.l1).Valid() && a.data + a.clusters * a.cluster <= |file|
  {
    hide HeaderIs, EntryAt;
    PowerIsAligned(a.bits);
  }

  // ---- What cannot be read ----

  lemma QuotientAtLeast(a: nat, d: nat, q: nat)
    requires d > 0 && a >= q * d
    ensures a / d >= q
  {
    var k := a / d;
    assert a == k * d + a % d;
    assert k < q ==> (k + 1) * d <= q * d;
  }

  /** A position past what the L1 table can map is absent, whatever the file holds. */
  lemma BeyondTheTables(file: Bytes, g: Geometry, pos: nat)
    requires g.Valid() && pos >= g.l1Len * (g.cluster / 8) * g.cluster
    ensures Stored(file, g, pos) == Absent
  {
    hide HostOffset, IsCompressed;
    QuotientAtLeast(pos, g.cluster, g.l1Len * (g.cluster / 8));
    QuotientAtLeast(pos / g.cluster, g.cluster / 8, g.l1Len);
  }

  /** A position whose data a cut file does not reach is an error. */
  lemma CutFileIsAnError(file: Bytes, a: Layout, pos: nat)
    requires Tables(file, a) && pos < a.clusters * a.cluster && a.data + pos >= |file|
    ensures var g := Geometry(a.cluster, a.tables, a.l1); g.Valid() && Stored(file, g, pos) == IoError
  {
    hide Map, HostOffset, IsCompressed, HeaderIs, Start, EntryAt;
    PowerIsAligned(a.bits);
    ByteOf(a.cluster, pos, a.clusters, a.data);
    TablesMap(file, a, pos / a.cluster);
    StartIsLater(a.data, pos / a.cluster, a.cluster);
  }

  // ---- An image with two L2 tables ----

  /** 65 clusters of 512 bytes: the L1 table is at 512, the two L2 tables at 1024 and 1536, and the
      clusters from 2048 on; the first byte of the last one is a 7. */
  function TwoTables(): (file: Bytes)
    ensures |file| == 2048 + 65 * 512
  {
    seq(2048 + 65 * 512, i requires 0 <= i < 2048 + 65 * 512 =>
      if i < 4 then [0x51, 0x46, 0x49, 0xfb][i]
      else if i == 23 then 9                                      // cluster bits
      else if i == 39 then 2                                      // L1 entries
      else if i == 46 then 2                                      // L1 offset
      else if i == 518 then 4                                     // L1 entries
      else if i == 526 then 6
      else if 1024 <= i < 1024 + 65 * 8 && i % 8 == 6 then 8 + (i - 1024) / 8 * 2
      else if i == 2048 + 64 * 512 then 7
      else 0)
  }

  const TWO_TABLES: Layout := Layout(9, 512, 2, 65, 512, 1024, 2048)

  lemma TwoTablesHeader()
    ensures HeaderIs(TwoTables(), TWO_TABLES)
  {
    var file := TwoTables();
    SmallBig(file[20..24]);
    SmallBig(file[36..40]);
    SmallBig(file[40..48]);
  }

  lemma TwoTablesL1()
    ensures EntryAt(TwoTables(), 512, 1024) && EntryAt(TwoTables(), 520, 1536)
  {
    var file := TwoTables();
    SmallBig(file[512..520]);
    SmallBig(file[520..528]);
  }

  lemma TwoTablesL2(c: nat)
    requires c < 65
    ensures EntryAt(TwoTables(), 1024 + 8 * c, 2048 + c * 512)
  {
    var file := TwoTables();
    var s := file[1024 + 8 * c..1024 + 8 * c + 8];
    assert s[6] == 8 + c * 2 && s[7] == 0;
    SmallBig(s);
  }

  lemma TwoTablesIsPlain()
    ensures Plain(TwoTables(), TWO_TABLES)
  {
    hide TwoTables, HeaderIs, EntryAt;
    assert PowerOf2(9) == 512;
    TwoTablesHeader();
    TwoTablesL1();
    forall c: nat | c < 65 ensures EntryAt(TwoTables(), 1024 + 8 * c, 2048 + c * 512) {
      TwoTablesL2(c);
    }
  }

  /** The last cluster, the first that the second table maps, is read. */
  lemma SecondTableIsRead()
    ensures Plain(TwoTables(), TWO_TABLES) && Header(TwoTables()).Some?
    ensures Collect(TwoTables(), Header(TwoTables()).value, 64 * 512, 1) == Present([7])
  {
    hide TwoTables, Plain, Header, Collect;
    TwoTablesIsPlain();
    PlainReads(TwoTables(), TWO_TABLES, 64 * 512, 1);
    LastCluster();
    assert TwoTables()[2048 + 64 * 512..2048 + 64 * 512 + 1] == [7];
  }

  lemma LastCluster()
    ensures TwoTables()[2048 + 64 * 512] == 7
  {
  }
}
