/** Reading a byte range out of a qcow2 image (`crates/cdj3k-emu-storage/src/qcow2.rs`),
    against the flat guest disk that QEMU's qcow2 format document defines. */
module Qcow2 {
  import opened Bytes
  import opened Optional

  const MAGIC: Bytes := [0x51, 0x46, 0x49, 0xfb]
  const HEAD_LEN: nat := 48

  /** A big-endian number. */
  function Big(s: Bytes): nat {
    if s == [] then 0 else 256 * Big(s[..|s| - 1]) + s[|s| - 1]
  }

  /** Bits 9 to 55 of a table entry: the host offset it points at. */
  function HostOffset(entry: nat): nat { entry / 512 % 0x8000_0000_0000 * 512 }

  /** Bit 62 of an L2 entry. */
  predicate IsCompressed(entry: nat) { entry / 0x4000_0000_0000_0000 % 2 == 1 }

  /** Bit 0 of an L2 entry: the cluster reads as zeros, whatever its host cluster holds. */
  predicate ReadsAsZeros(entry: nat) { entry % 2 == 1 }

  function PowerOf2(n: nat): (p: nat)
    ensures p > 0
  {
    if n == 0 then 1 else 2 * PowerOf2(n - 1)
  }

  /** The header fields that matter. */
  datatype Geometry = Geometry(cluster: nat, l1Len: nat, l1Offset: nat) {
    ghost predicate Valid() { cluster >= 512 && cluster % 8 == 0 }
    function L2Entries(): (n: nat)
      requires Valid()
      ensures n > 0
    {
      cluster / 8
    }
    function ClusterOf(pos: nat): nat
      requires Valid()
    {
      QuotientIsNat(pos, cluster);
      pos / cluster
    }
    function Within(pos: nat): (w: nat)
      requires Valid()
      ensures w < cluster
    {
      pos % cluster
    }
    /** A cluster's place in the L1 table, and in the L2 table found there. */
    function L1Index(c: nat): nat
      requires Valid()
    {
      QuotientIsNat(c, L2Entries());
      c / L2Entries()
    }
    function L2Index(c: nat): nat
      requires Valid()
    {
      c % L2Entries()
    }
  }

  /** None when the file is not an image this reader follows. */
  function Header(file: Bytes): (g: Option<Geometry>)
    requires |file| >= HEAD_LEN
    ensures g.Some? ==> g.value.Valid()
  {
    var bits := Big(file[20..24]);
    if file[..4] != MAGIC || !(9 <= bits <= 21) then None
    else
      PowerIsAligned(bits);
      Some(Geometry(PowerOf2(bits), Big(file[36..40]), Big(file[40..48])))
  }

  lemma PowerIsAligned(n: nat)
    requires n >= 9
    ensures PowerOf2(n) >= 512 && PowerOf2(n) % 8 == 0
  {
    if n > 9 {
      PowerIsAligned(n - 1);
    } else {
      assert PowerOf2(9) == 512;
    }
  }

  function ReadU64(file: Bytes, at: nat): Option<nat> {
    if at + 8 <= |file| then Some(Big(file[at..at + 8])) else None
  }

  // ---- One guest byte ----

  /** Where a guest cluster is: nowhere, behind an unreadable table, or what its L2 entry says. */
  datatype Mapping = Unmapped | Unreadable | Entry(entry: nat)

  function Map(file: Bytes, g: Geometry, cluster: nat): Mapping
    requires g.Valid()
  {
    var l1Index := g.L1Index(cluster);
    if l1Index >= g.l1Len then Unmapped
    else
      match ReadU64(file, g.l1Offset + l1Index * 8)
      case None => Unreadable
      case Some(l1) =>
        if HostOffset(l1) == 0 then Unmapped
        else
          match ReadU64(file, HostOffset(l1) + g.L2Index(cluster) * 8)
          case None => Unreadable
          case Some(entry) => Entry(entry)
  }

  datatype Outcome = IoError | Absent | Present(bytes: Bytes)

  /** The reference form of the reader: guest byte `pos`, followed on its own. */
  function Stored(file: Bytes, g: Geometry, pos: nat): (r: Outcome)
    requires g.Valid()
    ensures r.Present? ==> |r.bytes| == 1
  {
    match Map(file, g, g.ClusterOf(pos))
    case Unmapped => Absent
    case Unreadable => IoError
    case Entry(entry) =>
      var host := HostOffset(entry);
      if host == 0 || IsCompressed(entry) then Absent
      else if host + g.Within(pos) >= |file| then IoError
      else Present([file[host + g.Within(pos)]])
  }

  /** `n` bytes from `pos`, one at a time, up to the first that cannot be had. */
  function Collect(file: Bytes, g: Geometry, pos: nat, n: nat): (r: Outcome)
    requires g.Valid()
    ensures r.Present? ==> |r.bytes| == n
  {
    if n == 0 then Present([])
    else
      var front := Collect(file, g, pos, n - 1);
      if !front.Present? then front
      else
        var last := Stored(file, g, pos + n - 1);
        if last.Present? then Present(front.bytes + last.bytes) else last
  }

  // ---- The reader ----

  method ReadAt(file: Bytes, offset: nat, len: nat) returns (r: Outcome)
    ensures |file| < HEAD_LEN ==> r == IoError
    ensures |file| >= HEAD_LEN ==>
              r == if Header(file).None? then Absent else Collect(file, Header(file).value, offset, len)
  {
    hide Header, Map, HostOffset, IsCompressed, Stored, Collect, ReadU64;
    if |file| < HEAD_LEN {
      return IoError;
    }
    if Header(file).None? {
      return Absent;
    }
    var g := Header(file).value;
    var out: Bytes := [];
    var pos := offset;
    CollectNothing(file, g, offset);
    while |out| < len
      invariant |out| <= len && pos == offset + |out|
      invariant Collect(file, g, offset, |out|) == Present(out)
      decreases len - |out|
    {
      var within := g.Within(pos);
      var take := Min(g.cluster - within, len - |out|);
      var chunk := ReadChunk(file, g, pos, take);
      CollectSplit(file, g, offset, |out|, take);
      if !chunk.Present? {
        CollectStops(file, g, offset, |out| + take, len);
        return chunk;
      }
      out := out + chunk.bytes;
      pos := pos + take;
    }
    return Present(out);
  }

  /** One turn of the loop: the part of the range that is in one cluster. */
  method ReadChunk(file: Bytes, g: Geometry, pos: nat, take: nat) returns (r: Outcome)
    requires g.Valid() && 0 < take && g.Within(pos) + take <= g.cluster
    ensures r == Collect(file, g, pos, take)
  {
    hide HostOffset, IsCompressed, Collect, ReadU64, Geometry.ClusterOf, Geometry.Within, Geometry.L1Index,
         Geometry.L2Index;
    var cluster, within := g.ClusterOf(pos), g.Within(pos);
    CollectInCluster(file, g, pos, take);
    var l1Index := g.L1Index(cluster);
    if l1Index >= g.l1Len {
      return Absent;
    }
    var l1 := ReadU64(file, g.l1Offset + l1Index * 8);
    if l1.None? {
      return IoError;
    }
    var l2Table := HostOffset(l1.value);
    if l2Table == 0 {
      return Absent;
    }
    var entry := ReadU64(file, l2Table + g.L2Index(cluster) * 8);
    if entry.None? {
      return IoError;
    }
    var host := HostOffset(entry.value);
    if host == 0 || IsCompressed(entry.value) {
      return Absent;
    }
    if host + within + take > |file| {
      return IoError;
    }
    return Present(file[host + within..host + within + take]);
  }

  lemma CollectNothing(file: Bytes, g: Geometry, pos: nat)
    requires g.Valid()
    ensures Collect(file, g, pos, 0) == Present([])
  {
  }

  lemma {:induction false} CollectSplit(file: Bytes, g: Geometry, pos: nat, m: nat, n: nat)
    requires g.Valid() && Collect(file, g, pos, m).Present?
    ensures Collect(file, g, pos, m + n) ==
            var tail := Collect(file, g, pos + m, n);
            if tail.Present? then Present(Collect(file, g, pos, m).bytes + tail.bytes) else tail
  {
    hide Stored;
    if n == 0 {
      assert Collect(file, g, pos, m).bytes + [] == Collect(file, g, pos, m).bytes;
    } else {
      CollectSplit(file, g, pos, m, n - 1);
      var front, tail := Collect(file, g, pos, m), Collect(file, g, pos + m, n - 1);
      var last := Stored(file, g, pos + m + n - 1);
      if tail.Present? && last.Present? {
        assert front.bytes + tail.bytes + last.bytes == front.bytes + (tail.bytes + last.bytes);
      }
    }
  }

  lemma {:induction false} CollectStops(file: Bytes, g: Geometry, pos: nat, m: nat, n: nat)
    requires g.Valid() && m <= n && !Collect(file, g, pos, m).Present?
    ensures Collect(file, g, pos, n) == Collect(file, g, pos, m)
    decreases n
  {
    hide Stored;
    if m < n {
      CollectStops(file, g, pos, m, n - 1);
    }
  }

  lemma QuotientIsUnique(q: int, r: int, c: nat, k: int)
    requires c > 0 && 0 <= r < c && k == q * c + r
    ensures k / c == q && k % c == r
  {
    var d, m := k / c, k % c;
    assert k == d * c + m;
    assert d < q ==> (d + 1) * c <= q * c;
    assert d > q ==> (q + 1) * c <= d * c;
  }

  lemma QuotientIsNat(k: nat, c: nat)
    requires c > 0
    ensures k / c >= 0
  {
    var d := k / c;
    assert d < 0 ==> (d + 1) * c <= 0;
  }

  /** Bytes of one cluster share its mapping. */
  lemma SameCluster(g: Geometry, pos: nat, j: nat)
    requires g.Valid() && g.Within(pos) + j < g.cluster
    ensures g.ClusterOf(pos + j) == g.ClusterOf(pos) && g.Within(pos + j) == g.Within(pos) + j
  {
    var c := g.cluster;
    QuotientIsUnique(pos / c, pos % c + j, c, pos + j);
  }

  /** What one cluster gives, all at once. */
  function Slice(file: Bytes, m: Mapping, within: nat, n: nat): Outcome {
    match m
    case Unmapped => Absent
    case Unreadable => IoError
    case Entry(entry) =>
      var host := HostOffset(entry);
      if host == 0 || IsCompressed(entry) then Absent
      else if host + within + n > |file| then IoError
      else Present(file[host + within..host + within + n])
  }

  lemma {:induction false} CollectInCluster(file: Bytes, g: Geometry, pos: nat, n: nat)
    requires g.Valid() && 0 < n && g.Within(pos) + n <= g.cluster
    ensures Collect(file, g, pos, n) == Slice(file, Map(file, g, g.ClusterOf(pos)), g.Within(pos), n)
  {
    hide Map, HostOffset, IsCompressed, Geometry.ClusterOf, Geometry.Within;
    SameCluster(g, pos, n - 1);
    assert Collect(file, g, pos, 0) == Present([]);
    if n > 1 {
      CollectInCluster(file, g, pos, n - 1);
    }
  }

  // ---- The flat disk ----

  /** Guest byte `pos` as the format defines it; None where its data is compressed or out of the file. */
  function DiskByte(file: Bytes, g: Geometry, pos: nat): Option<Byte>
    requires g.Valid()
  {
    match Map(file, g, g.ClusterOf(pos))
    case Unmapped => Some(0)
    case Unreadable => None
    case Entry(entry) =>
      var host := HostOffset(entry);
      if IsCompressed(entry) then None
      else if ReadsAsZeros(entry) || host == 0 then Some(0)
      else if host + g.Within(pos) >= |file| then None
      else Some(file[host + g.Within(pos)])
  }

  /** The cluster of `pos` is marked as reading as zeros. */
  predicate Zeroed(file: Bytes, g: Geometry, pos: nat)
    requires g.Valid()
  {
    var m := Map(file, g, g.ClusterOf(pos));
    m.Entry? && ReadsAsZeros(m.entry)
  }

  lemma {:induction false} CollectAt(file: Bytes, g: Geometry, pos: nat, n: nat)
    requires g.Valid()
    ensures Collect(file, g, pos, n).Present? <==> forall p :: pos <= p < pos + n ==> Stored(file, g, p).Present?
    ensures var r := Collect(file, g, pos, n);
            r.Present? ==> forall p :: pos <= p < pos + n ==> Stored(file, g, p) == Present([r.bytes[p - pos]])
  {
    hide Stored;
    if n > 0 {
      CollectAt(file, g, pos, n - 1);
      var last := Stored(file, g, pos + n - 1);
      if last.Present? {
        assert last.bytes == [last.bytes[0]];
      }
    }
  }

  /** The byte is in the file, in a cluster that is mapped and not compressed. */
  predicate Reachable(file: Bytes, g: Geometry, pos: nat)
    requires g.Valid()
  {
    var m := Map(file, g, g.ClusterOf(pos));
    && m.Entry? && HostOffset(m.entry) != 0 && !IsCompressed(m.entry)
    && HostOffset(m.entry) + g.Within(pos) < |file|
  }

  /** What the file holds where the tables point for `pos`. */
  function HostByte(file: Bytes, g: Geometry, pos: nat): Byte
    requires g.Valid() && Reachable(file, g, pos)
  {
    file[HostOffset(Map(file, g, g.ClusterOf(pos)).entry) + g.Within(pos)]
  }

  lemma StoredIsHostByte(file: Bytes, g: Geometry, pos: nat)
    requires g.Valid()
    ensures Stored(file, g, pos).Present? <==> Reachable(file, g, pos)
    ensures Reachable(file, g, pos) ==>
              && Stored(file, g, pos) == Present([HostByte(file, g, pos)])
              && DiskByte(file, g, pos) == Some(if Zeroed(file, g, pos) then 0 else HostByte(file, g, pos))
  {
    hide Map, HostOffset, IsCompressed, ReadsAsZeros;
  }

  /** A cluster in the range that is marked as reading as zeros, and whose host cluster holds a
      byte of it that is not zero. */
  predicate HidesData(file: Bytes, g: Geometry, pos: nat)
    requires g.Valid()
  {
    Reachable(file, g, pos) && Zeroed(file, g, pos) && HostByte(file, g, pos) != 0
  }

  /** A range that is read is the guest disk's, at any offset and across any number of clusters, if
      and only if the image has no byte in it that is hidden by a mark to read as zeros: the
      reader does not look at that mark. */
  lemma ReadIsDisk(file: Bytes, g: Geometry, offset: nat, len: nat)
    requires g.Valid() && Collect(file, g, offset, len).Present?
    ensures var out := Collect(file, g, offset, len).bytes;
            (forall p :: offset <= p < offset + len ==> DiskByte(file, g, p) == Some(out[p - offset]))
            <==> (forall p :: offset <= p < offset + len ==> !HidesData(file, g, p))
  {
    hide Stored, DiskByte, Zeroed, Collect, Reachable, HostByte;
    CollectAt(file, g, offset, len);
    var out := Collect(file, g, offset, len).bytes;
    forall p | offset <= p < offset + len
      ensures DiskByte(file, g, p) == Some(out[p - offset]) <==> !HidesData(file, g, p)
    {
      StoredIsHostByte(file, g, p);
    }
  }

  /** A range is read exactly when each byte of it is reachable. */
  lemma ReadIffReachable(file: Bytes, g: Geometry, offset: nat, len: nat)
    requires g.Valid()
    ensures Collect(file, g, offset, len).Present? <==>
            forall p :: offset <= p < offset + len ==> Reachable(file, g, p)
  {
    hide Collect, Stored, Reachable;
    CollectAt(file, g, offset, len);
    forall p | offset <= p < offset + len ensures Stored(file, g, p).Present? <==> Reachable(file, g, p) {
      StoredIsHostByte(file, g, p);
    }
  }

  // ---- The mark the reader does not look at ----

  /** An image of 512-byte clusters: the L1 table at 1024 points at the L2 table at 512, whose first
      entry points at the cluster at 1536 and is marked as reading as zeros; the cluster starts with a 1. */
  function MarkedFile(): (file: Bytes)
    ensures |file| == 2048
  {
    seq(2048, i requires 0 <= i < 2048 =>
      if i < 4 then MAGIC[i]
      else if i == 23 then 9        // cluster bits
      else if i == 39 then 1        // L1 entries
      else if i == 46 then 4        // L1 offset
      else if i == 1030 then 2      // L1 entry
      else if i == 518 then 6       // L2 entry
      else if i == 519 then 1
      else if i == 1536 then 1
      else 0)
  }

  lemma {:induction false} BigZeros(s: Bytes)
    requires forall i :: 0 <= i < |s| ==> s[i] == 0
    ensures Big(s) == 0
  {
    if s != [] {
      BigZeros(s[..|s| - 1]);
    }
  }

  /** A number of which only the last two bytes are not zero. */
  lemma SmallBig(s: Bytes)
    requires |s| >= 2 && forall i :: 0 <= i < |s| - 2 ==> s[i] == 0
    ensures var high: nat, low: nat := s[|s| - 2], s[|s| - 1]; Big(s) == 256 * high + low
  {
    var n := |s|;
    BigZeros(s[..n - 2]);
    assert s[..n - 1][..n - 2] == s[..n - 2];
    assert Big(s[..n - 1]) == s[n - 2];
  }

  lemma MarkedHeader()
    ensures Header(MarkedFile()) == Some(Geometry(512, 1, 1024))
  {
    var file := MarkedFile();
    assert file[..4] == MAGIC;
    SmallBig(file[20..24]);
    SmallBig(file[36..40]);
    SmallBig(file[40..48]);
    assert PowerOf2(9) == 512;
  }

  lemma MarkedTables()
    ensures var file := MarkedFile();
            ReadU64(file, 1024) == Some(512) && ReadU64(file, 512) == Some(1537) && file[1536] == 1
  {
    var file := MarkedFile();
    SmallBig(file[1024..1032]);
    SmallBig(file[512..520]);
  }

  /** The reader gives what the cluster holds, not the zero that the guest sees. */
  lemma MarkIsIgnored()
    ensures var file := MarkedFile();
            && Header(file).Some?
            && Collect(file, Header(file).value, 0, 1) == Present([1])
            && DiskByte(file, Header(file).value, 0) == Some(0)
  {
    hide Header, MarkedFile, ReadU64;
    MarkedHeader();
    MarkedTables();
    var g, file := Geometry(512, 1, 1024), MarkedFile();
    assert HostOffset(512) == 512 && HostOffset(1537) == 1536;
    assert Map(file, g, 0) == Entry(1537);
    assert Stored(file, g, 0) == Present([1]);
    assert Collect(file, g, 0, 0) == Present([]);
  }
}
