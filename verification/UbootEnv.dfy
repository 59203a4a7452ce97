/** The U-Boot environment block of `crates/cdj3k-emu-storage/src/emmc.rs`: a CRC-32, a list
    of `key=value` entries ended by an empty one, and zeros, read back through the slot's
    qcow2 image. `crc` stands for CRC-32/ISO-HDLC; nothing here depends on which checksum it is. */
module UbootEnv {
  import opened Bytes
  import opened Optional
  import opened Text
  import opened Qcow2

  const ENV_OFFSET: nat := 0x3f8000
  const ENV_SIZE: nat := 0x8000
  const DATA_LEN: nat := ENV_SIZE - 4
  const NUL: Byte := 0
  const EQUALS: Byte := 0x3d

  datatype Var = Var(key: Bytes, value: Bytes)

  /** A name and value that survive: no NUL in either and no `=` in the name. */
  predicate Plain(v: Var) { Lacks(v.key, EQUALS) && Lacks(v.key, NUL) && Lacks(v.value, NUL) }

  // ---- Writing ----

  function EntryBytes(v: Var): Bytes { v.key + [EQUALS] + v.value }

  function ListBytes(vars: seq<Var>): Bytes {
    if vars == [] then [] else EntryBytes(vars[0]) + [NUL] + ListBytes(vars[1..])
  }

  function Little(n: U32): (s: Bytes)
    ensures |s| == 4
  {
    var m: nat := n;
    [m % 256, m / 256 % 256, m / 256 / 256 % 256, m / 256 / 256 / 256]
  }

  function FromLittle(s: Bytes): U32
    requires |s| == 4
  {
    var a: nat, b: nat, c: nat, d: nat := s[0], s[1], s[2], s[3];
    a + 256 * (b + 256 * (c + 256 * d))
  }

  /** The data region, or None where the program stops because the variables do not fit. */
  function EnvData(vars: seq<Var>): (d: Option<Bytes>)
    ensures d.Some? ==> |d.value| == DATA_LEN
  {
    var list := ListBytes(vars) + [NUL];
    if |list| > DATA_LEN then None else Some(list + Zeros(DATA_LEN - |list|))
  }

  function Block(vars: seq<Var>, crc: Bytes -> U32): (b: Option<Bytes>)
    ensures b.Some? ==> |b.value| == ENV_SIZE
  {
    var data := EnvData(vars);
    if data.None? then None else Some(Little(crc(data.value)) + data.value)
  }

  method WriteEnv(vars: seq<Var>, crc: Bytes -> U32) returns (block: Option<Bytes>)
    ensures block == Block(vars, crc)
  {
    var data: Bytes := [];
    for i := 0 to |vars|
      invariant data + ListBytes(vars[i..]) == ListBytes(vars)
    {
      ghost var before := data;
      data := data + vars[i].key + [EQUALS] + vars[i].value + [NUL];
      assert vars[i..][1..] == vars[i + 1..];
      assert before + ListBytes(vars[i..]) == data + ListBytes(vars[i + 1..]);
    }
    assert vars[|vars|..] == [] && data == ListBytes(vars);
    data := data + [NUL];
    if |data| > DATA_LEN {
      return None;
    }
    data := data + Zeros(DATA_LEN - |data|);
    return Some(Little(crc(data)) + data);
  }

  // ---- Reading ----

  /** The entries up to the first empty one; a later entry replaces an earlier one of the same
      name, and one without `=` is skipped. */
  function Parse(data: Bytes): map<Bytes, Bytes>
    decreases |data|
  {
    var i := IndexOf(data, NUL);
    if i == 0 then map[]
    else AddEntry(map[], data[..i]) + Parse(if i == |data| then [] else data[i + 1..])
  }

  function AddEntry(env: map<Bytes, Bytes>, entry: Bytes): map<Bytes, Bytes> {
    var eq := IndexOf(entry, EQUALS);
    if eq == |entry| then env else env[entry[..eq] := entry[eq + 1..]]
  }

  function ReadBlock(block: Bytes, crc: Bytes -> U32): Option<map<Bytes, Bytes>>
    requires |block| == ENV_SIZE
  {
    if crc(block[4..]) != FromLittle(block[..4]) then None else Some(Parse(block[4..]))
  }

  lemma AddEntryFirst(env: map<Bytes, Bytes>, entry: Bytes, later: map<Bytes, Bytes>)
    ensures AddEntry(env, entry) + later == env + (AddEntry(map[], entry) + later)
  {
  }

  method ReadEntries(data: Bytes) returns (env: map<Bytes, Bytes>)
    ensures env == Parse(data)
  {
    hide IndexOf, AddEntry;
    env := map[];
    var rest := data;
    while true
      invariant env + Parse(rest) == Parse(data)
      decreases |rest|
    {
      var i := IndexOf(rest, NUL);
      if i == 0 {
        return;
      }
      ghost var before := env;
      env := AddEntry(env, rest[..i]);
      var next := if i == |rest| then [] else rest[i + 1..];
      AddEntryFirst(before, rest[..i], Parse(next));
      rest := next;
    }
  }

  /** The environment that the block on an image's guest disk holds. */
  function EnvOf(file: Bytes, crc: Bytes -> U32): Option<map<Bytes, Bytes>> {
    if |file| < HEAD_LEN || Header(file).None? then None
    else
      var r := Collect(file, Header(file).value, ENV_OFFSET, ENV_SIZE);
      if r.Present? then ReadBlock(r.bytes, crc) else None
  }

  /** `read_uboot_env`: None when the block cannot be read or its CRC does not match. */
  method ReadEnv(file: Bytes, crc: Bytes -> U32) returns (env: Option<map<Bytes, Bytes>>)
    ensures env == EnvOf(file, crc)
  {
    hide Header, Collect, Parse;
    var r := ReadAt(file, ENV_OFFSET, ENV_SIZE);
    if !r.Present? {
      return None;
    }
    var stored, data := FromLittle(r.bytes[..4]), r.bytes[4..];
    if crc(data) != stored {
      return None;
    }
    var entries := ReadEntries(data);
    return Some(entries);
  }

  // ---- The block, byte by byte ----

  /** The variables one after the other. */
  function Written(vars: seq<Var>): Bytes {
    if vars == [] then []
    else
      var last := vars[|vars| - 1];
      Written(vars[..|vars| - 1]) + last.key + Ascii("=") + last.value + [0]
  }

  lemma {:induction false} ListBytesConcat(a: seq<Var>, b: seq<Var>)
    ensures ListBytes(a + b) == ListBytes(a) + ListBytes(b)
  {
    hide EntryBytes;
    if a == [] {
      assert a + b == b;
    } else {
      assert (a + b)[1..] == a[1..] + b;
      ListBytesConcat(a[1..], b);
    }
  }

  lemma {:induction false} ListIsWritten(vars: seq<Var>)
    ensures ListBytes(vars) == Written(vars)
  {
    hide EntryBytes;
    if vars != [] {
      var front, last := vars[..|vars| - 1], vars[|vars| - 1];
      ListIsWritten(front);
      ListBytesConcat(front, [last]);
      assert vars == front + [last];
      assert [last][1..] == [];
      EntryText(last);
    }
  }

  lemma EntryText(v: Var)
    ensures EntryBytes(v) == v.key + Ascii("=") + v.value
  {
  }

  /** The block is 32 KiB: the checksum of the rest with its low byte first, the variables, each ended
      by a NUL, one more NUL and zeros. There is none if and only if the variables do not fit. */
  lemma BlockLayout(vars: seq<Var>, crc: Bytes -> U32)
    ensures Block(vars, crc).None? <==> |Written(vars)| + 1 > 0x8000 - 4
    ensures Block(vars, crc).Some? ==>
              var b, n := Block(vars, crc).value, |Written(vars)|;
              && |b| == 0x8000
              && (var c0: nat, c1: nat, c2: nat, c3: nat := b[0], b[1], b[2], b[3];
                  c0 + 0x100 * c1 + 0x1_0000 * c2 + 0x100_0000 * c3 == crc(b[4..]))
              && b[4..4 + n] == Written(vars) && forall i :: 4 + n <= i < 0x8000 ==> b[i] == 0
  {
    ListIsWritten(vars);
    if Block(vars, crc).Some? {
      var data, b := EnvData(vars).value, Block(vars, crc).value;
      LittleRoundTrip(crc(data));
      assert b[4..] == data && b[..4] == Little(crc(data));
      assert b[0] == b[..4][0] && b[1] == b[..4][1] && b[2] == b[..4][2] && b[3] == b[..4][3];
    }
  }

  // ---- The round trip ----

  /** The variables as a map; a later one replaces an earlier one. */
  function AsMap(vars: seq<Var>): map<Bytes, Bytes> {
    if vars == [] then map[] else map[vars[0].key := vars[0].value] + AsMap(vars[1..])
  }

  lemma LittleRoundTrip(n: U32)
    ensures FromLittle(Little(n)) == n
  {
    var m: nat := n;
    var q, r := m / 256, m / 256 / 256;
    assert m == m % 256 + 256 * q && q == q % 256 + 256 * r && r == r % 256 + 256 * (r / 256);
  }

  lemma EntryRoundTrip(v: Var)
    requires Plain(v)
    ensures AddEntry(map[], EntryBytes(v)) == map[v.key := v.value]
    ensures EntryBytes(v) != [] && Lacks(EntryBytes(v), NUL)
  {
    IndexAfter(v.key, EQUALS, v.value);
    var e := EntryBytes(v);
    assert e[..|v.key|] == v.key && e[|v.key| + 1..] == v.value;
  }

  /** What follows the empty entry does not matter. */
  lemma {:induction false} ListRoundTrip(vars: seq<Var>, after: Bytes)
    requires forall i :: 0 <= i < |vars| ==> Plain(vars[i])
    ensures Parse(ListBytes(vars) + [NUL] + after) == AsMap(vars)
  {
    hide AddEntry, EntryBytes, Plain;
    var data := ListBytes(vars) + [NUL] + after;
    if vars == [] {
      assert data[0] == NUL;
      assert IndexOf(data, NUL) == 0;
    } else {
      var e, rest := EntryBytes(vars[0]), ListBytes(vars[1..]) + [NUL] + after;
      EntryRoundTrip(vars[0]);
      assert data == e + [NUL] + rest;
      IndexAfter(e, NUL, rest);
      assert data[..|e|] == e && data[|e| + 1..] == rest;
      ListRoundTrip(vars[1..], after);
    }
  }

  /** A block read back gives exactly the pairs written, whatever the checksum function. */
  lemma BlockRoundTrip(vars: seq<Var>, crc: Bytes -> U32)
    requires (forall i :: 0 <= i < |vars| ==> Plain(vars[i])) && Block(vars, crc).Some?
    ensures ReadBlock(Block(vars, crc).value, crc) == Some(AsMap(vars))
  {
    hide Parse, ListBytes, Little, FromLittle, Plain;
    var data, block := EnvData(vars).value, Block(vars, crc).value;
    assert block[..4] == Little(crc(data)) && block[4..] == data;
    LittleRoundTrip(crc(data));
    var list := ListBytes(vars) + [NUL];
    ListRoundTrip(vars, Zeros(DATA_LEN - |list|));
  }

  /** The environment of an image whose guest disk holds a written block, in clusters that are
      mapped, uncompressed and hide nothing by a mark to read as zeros, is exactly the pairs written. */
  lemma EnvThroughImage(file: Bytes, vars: seq<Var>, crc: Bytes -> U32)
    requires |file| >= HEAD_LEN && Header(file).Some?
    requires (forall i :: 0 <= i < |vars| ==> Plain(vars[i])) && Block(vars, crc).Some?
    requires forall p :: 0x3f8000 <= p < 0x3f8000 + 0x8000 ==>
               var g := Header(file).value;
               Reachable(file, g, p) && !HidesData(file, g, p) &&
               DiskByte(file, g, p) == Some(Block(vars, crc).value[p - 0x3f8000])
    ensures EnvOf(file, crc) == Some(AsMap(vars))
  {
    hide Header, Collect, DiskByte, Reachable, HidesData, ReadBlock, Block, AsMap, Plain;
    var g := Header(file).value;
    ReadIffReachable(file, g, ENV_OFFSET, ENV_SIZE);
    ReadIsDisk(file, g, ENV_OFFSET, ENV_SIZE);
    BlockRoundTrip(vars, crc);
    var out, block := Collect(file, g, ENV_OFFSET, ENV_SIZE).bytes, Block(vars, crc).value;
    forall k | 0 <= k < ENV_SIZE ensures out[k] == block[k] {
      assert DiskByte(file, g, ENV_OFFSET + k) == Some(out[k]);
    }
    assert out == block;
  }

  // ---- What else a block may hold ----

  /** A block is read if and only if its first four bytes, low byte first, are the checksum of the rest. */
  lemma BlockReadsIff(block: Bytes, crc: Bytes -> U32)
    requires |block| == 0x8000
    ensures ReadBlock(block, crc).Some? <==>
            (var c0: nat, c1: nat, c2: nat, c3: nat := block[0], block[1], block[2], block[3];
             c0 + 0x100 * c1 + 0x1_0000 * c2 + 0x100_0000 * c3 == crc(block[4..]))
  {
    hide Parse;
    assert block[..4] == [block[0], block[1], block[2], block[3]];
  }

  /** An entry without an equals sign is passed over. */
  lemma EntryIsSkipped(entry: Bytes, rest: Bytes)
    requires entry != [] && Lacks(entry, 0) && Lacks(entry, Ascii("=")[0])
    ensures Parse(entry + [0] + rest) == Parse(rest)
  {
    hide AddEntry;
    var data := entry + [0] + rest;
    IndexAfter(entry, NUL, rest);
    assert data[..|entry|] == entry && data[|entry| + 1..] == rest;
    NoEquals(entry);
    assert map[] + Parse(rest) == Parse(rest);
  }

  lemma NoEquals(entry: Bytes)
    requires Lacks(entry, Ascii("=")[0])
    ensures AddEntry(map[], entry) == map[]
  {
    IndexAfter(entry, EQUALS, []);
  }
}
