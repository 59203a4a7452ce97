/** The guest-to-host stream parser of `tools/midi-driver/device.c` (`slot_parse`): an
    unframed MIDI byte stream, cut into reads anywhere, becomes whole messages. The
    rules are those on running status, System Real Time and System Exclusive in the MIDI
    1.0 Detailed Specification. */
module MidiParse {

  import opened Bytes

  const READ_CHUNK: nat := 256
  const PARSE_LIST_BYTES: nat := 4096

  /** The number of data bytes that follow a status byte. */
  function DataLen(status: Byte): nat {
    if status < 0xf0 then (if status / 16 == 0xc || status / 16 == 0xd then 1 else 2)
    else if status == 0xf1 || status == 0xf3 then 1
    else if status == 0xf2 then 2
    else 0
  }

  // ----- the parser one byte at a time -----

  /** Running status (0 when none), the message in progress, and whether inside a SysEx. */
  datatype Parser = Parser(rs: Byte, partial: Bytes, inSx: bool)

  /** What a byte, or a stream, produced: every byte passed on, in order, and the
      messages other than SysEx among them. */
  datatype Result = Result(parser: Parser, flat: Bytes, msgs: seq<Bytes>)

  const FRESH := Parser(0, [], false)

  function Quiet(p: Parser): Result {
    Result(p, [], [])
  }

  function Message(p: Parser, m: Bytes): Result {
    Result(p, m, [m])
  }

  function FeedStatus(p: Parser, b: Byte): Result {
    if p.inSx && b == 0xf7 then Result(p.(inSx := false), [b], [])
    else if b == 0xf0 then Result(Parser(0, [], true), [b], [])
    else if b == 0xf7 then Quiet(p)
    else
      var rs: Byte := if b < 0xf0 then b else 0;
      if DataLen(b) == 0 then Message(Parser(rs, [], false), [b]) else Quiet(Parser(rs, [b], false))
  }

  function FeedData(p: Parser, b: Byte): Result {
    if p.inSx then Result(p, [b], [])
    else if p.partial == [] && p.rs == 0 then Quiet(p)
    else
      var m := (if p.partial == [] then [p.rs] else p.partial) + [b];
      if |m| == 1 + DataLen(m[0]) then Message(p.(partial := []), m) else Quiet(p.(partial := m))
  }

  function FeedByte(p: Parser, b: Byte): Result {
    if b >= 0xf8 then Message(p, [b])
    else if b >= 0x80 then FeedStatus(p, b)
    else FeedData(p, b)
  }

  /** What every reachable parser state satisfies: a message in progress has its status
      byte and fewer data bytes than it needs, and a SysEx has neither one. */
  predicate Sound(p: Parser) {
    && (p.rs == 0 || 0x80 <= p.rs < 0xf0)
    && (p.inSx ==> p.rs == 0 && p.partial == [])
    && (p.partial != [] ==>
          0x80 <= p.partial[0] < 0xf8 && !SysExByte(p.partial[0]) && |p.partial| <= DataLen(p.partial[0]))
    && (forall i :: 1 <= i < |p.partial| ==> p.partial[i] < 0x80)
  }

  function Feed(p: Parser, bytes: Bytes): Result {
    if bytes == [] then Quiet(p)
    else
      var r := Feed(p, bytes[..|bytes| - 1]);
      Join(r, FeedByte(r.parser, bytes[|bytes| - 1]))
  }

  /** A result followed by what came of the next bytes. */
  function Join(r: Result, q: Result): Result {
    Result(q.parser, r.flat + q.flat, r.msgs + q.msgs)
  }

  // ----- packets -----

  /** Whether a packet is a piece of a SysEx: it starts with F0, F7 or a data byte, and a
      message starts with none of them. */
  predicate SysExByte(b: Byte) {
    b < 0x80 || b == 0xf0 || b == 0xf7
  }

  function Flatten(packets: seq<Bytes>): Bytes {
    if packets == [] then [] else Flatten(packets[..|packets| - 1]) + packets[|packets| - 1]
  }

  function Messages(packets: seq<Bytes>): seq<Bytes> {
    if packets == [] then []
    else
      var last := packets[|packets| - 1];
      Messages(packets[..|packets| - 1]) + if last != [] && SysExByte(last[0]) then [] else [last]
  }

  /** A packet in a packet list: an 8-byte time stamp, a 2-byte length and the data,
      rounded up to a multiple of four. */
  function PacketBytes(n: nat): nat {
    (10 + n + 3) / 4 * 4
  }

  function ListBytes(packets: seq<Bytes>): nat {
    if packets == [] then 4 else ListBytes(packets[..|packets| - 1]) + PacketBytes(|packets[|packets| - 1]|)
  }

  lemma Append(packets: seq<Bytes>, p: Bytes)
    ensures Flatten(packets + [p]) == Flatten(packets) + p
    ensures Messages(packets + [p]) == Messages(packets) + if p != [] && SysExByte(p[0]) then [] else [p]
    ensures ListBytes(packets + [p]) == ListBytes(packets) + PacketBytes(|p|)
  {
    assert (packets + [p])[..|packets|] == packets;
  }

  /** A data byte is one of a message; a channel message needs one or two. */
  lemma DataBytes(p: Parser, b: Byte)
    requires b < 0x80
    ensures FeedByte(p, b) == FeedData(p, b)
    ensures 0x80 <= p.rs < 0xf0 ==> 1 <= DataLen(p.rs) <= 2 && !SysExByte(p.rs)
  {
  }

  // ----- the code -----

  /** The part of `struct slot` that assembles messages. */
  class Slot {
    var rs: Byte
    const msg: array<Byte>
    var have: nat
    var need: nat
    var inSx: bool

    /** In every reachable state a message in progress has fewer data bytes than it
        needs, which is at most two. */
    ghost predicate Valid()
      reads this, msg
    {
      && msg.Length == 3
      && (rs == 0 || 0x80 <= rs < 0xf0)
      && (inSx ==> rs == 0 && msg[0] == 0)
      && (msg[0] != 0 ==>
            && 0x80 <= msg[0] < 0xf8 && !SysExByte(msg[0])
            && need == DataLen(msg[0]) && have < need <= 2
            && (have == 1 ==> msg[1] < 0x80))
    }

    ghost function State(): (p: Parser)
      requires Valid()
      reads this, msg
      ensures Sound(p)
    {
      Parser(rs, if msg[0] == 0 then [] else msg[..1 + have], inSx)
    }

    constructor ()
      ensures Valid() && State() == FRESH && fresh(msg)
    {
      rs, have, need, inSx := 0, 0, 0, false;
      msg := new Byte[3](_ => 0);
    }

    /** A data byte outside a SysEx. */
    method DataByte(b: Byte) returns (out: seq<Bytes>)
      requires Valid() && b < 0x80 && !inSx
      modifies this, msg
      ensures Valid()
      ensures var r := FeedByte(old(State()), b);
              State() == r.parser && out == r.msgs && Flatten(out) == r.flat
    {
      hide Flatten, Sound, FeedByte, DataLen;
      out := [];
      EmptyPackets();
      ghost var p := State();
      DataBytes(p, b);
      if msg[0] == 0 {
        if rs == 0 { return; }
        msg[0] := rs;
        have := 0;
        need := DataLen(rs);
      }
      assert State() == p.(partial := if p.partial == [] then [p.rs] else p.partial);
      out := AddData(b);
    }

    /** A data byte of the message in progress. */
    method AddData(b: Byte) returns (out: seq<Bytes>)
      requires Valid() && b < 0x80 && !inSx && msg[0] != 0
      modifies this, msg
      ensures Valid()
      ensures var r := FeedData(old(State()), b);
              State() == r.parser && out == r.msgs && Flatten(out) == r.flat
    {
      hide Flatten, Sound, DataLen;
      out := [];
      EmptyPackets();
      ghost var m := msg[..1 + have] + [b];
      msg[1 + have] := b;
      have := have + 1;
      assert msg[..1 + have] == m;
      if have == need {
        Append([], msg[..1 + need]);
        out := [msg[..1 + need]];
        msg[0] := 0;
      }
    }

    /** A status byte that is neither F0 nor F7, after any SysEx has been ended. */
    method StatusByte(b: Byte) returns (out: seq<Bytes>)
      requires Valid() && 0x80 <= b < 0xf8 && b != 0xf0 && b != 0xf7
      modifies this, msg
      ensures Valid()
      ensures var r := FeedByte(old(State()), b);
              State() == r.parser && out == r.msgs && Flatten(out) == r.flat
    {
      hide Flatten, Sound, FeedData;
      EmptyPackets();
      out := [];
      inSx := false;
      rs := if b < 0xf0 then b else 0;
      msg[0] := b;
      have := 0;
      need := DataLen(b);
      assert msg[..1] == [b];
      if need == 0 {
        Append([], msg[..1]);
        out := [msg[..1]];
        msg[0] := 0;
      }
    }

    /** An F0, after any unterminated SysEx has been emitted. */
    method StartSysEx(sx: array<Byte>, packets: seq<Bytes>, ghost r: Result, ghost i: nat)
      requires Valid() && State() == r.parser && sx != msg && sx.Length > 0 && Emitted(packets, [], r, i)
      modifies this, msg, sx
      ensures Valid() && inSx && State() == FeedByte(r.parser, 0xf0).parser
      ensures Emitted(packets, sx[..1], Join(r, FeedByte(r.parser, 0xf0)), i + 1)
    {
      hide Flatten, Messages, ListBytes, Sound;
      inSx, rs := true, 0;
      msg[0] := 0;
      sx[0] := 0xf0;
      assert sx[..1] == [0xf0];
    }

    /** An F7 inside a SysEx. */
    method EndSysEx(sx: array<Byte>, n: nat, packets: seq<Bytes>, ghost r: Result, ghost i: nat)
      returns (out: seq<Bytes>)
      requires Valid() && inSx && State() == r.parser && sx != msg
      requires n <= i < sx.Length && Emitted(packets, sx[..n], r, i)
      modifies this, sx
      ensures Valid() && State() == FeedByte(r.parser, 0xf7).parser
      ensures Emitted(out, [], Join(r, FeedByte(r.parser, 0xf7)), i + 1)
    {
      inSx := false;
      sx[n] := 0xf7;
      assert sx[..n + 1] == sx[..n] + [0xf7];
      out := Emit(packets, sx[..n + 1], Join(r, FeedByte(r.parser, 0xf7)), i + 1);
    }

    /** A status byte below F8, with the SysEx bytes pending in `sx[..n]`. */
    method Status(b: Byte, sx: array<Byte>, n: nat, packets: seq<Bytes>, ghost r: Result, ghost i: nat)
      returns (out: seq<Bytes>, m: nat)
      requires Valid() && 0x80 <= b < 0xf8 && State() == r.parser && sx != msg
      requires n <= i < sx.Length && (n > 0 ==> inSx) && Emitted(packets, sx[..n], r, i)
      modifies this, msg, sx
      ensures Valid() && State() == FeedByte(r.parser, b).parser && m <= i + 1 && (m > 0 ==> inSx)
      ensures Emitted(out, sx[..m], Join(r, FeedByte(r.parser, b)), i + 1)
    {
      hide Emitted, Small, Sound;
      ByteIsSmall(r.parser, b);
      out, m := packets, 0;
      assert sx[..0] == [];
      if inSx {
        if b == 0xf7 {
          out := EndSysEx(sx, n, packets, r, i);
          return;
        }
        out := Emit(packets, sx[..n], r, i);
      }
      if b == 0xf0 {
        StartSysEx(sx, out, r, i);
        m := 1;
      } else if b == 0xf7 {
        // A stray end of SysEx.
        EmitMessages(out, [], r, FeedByte(r.parser, b), i);
        assert out + [] == out;
      } else {
        var more := StatusByte(b);
        EmitMessages(out, more, r, FeedByte(r.parser, b), i);
        out := out + more;
      }
    }

    /** A data byte inside a SysEx. */
    method SysExData(b: Byte, sx: array<Byte>, n: nat, packets: seq<Bytes>, ghost r: Result, ghost i: nat)
      requires Valid() && b < 0x80 && inSx && State() == r.parser && sx != msg
      requires n <= i < sx.Length && Emitted(packets, sx[..n], r, i)
      modifies sx
      ensures Valid() && State() == FeedByte(r.parser, b).parser
      ensures Emitted(packets, sx[..n + 1], Join(r, FeedByte(r.parser, b)), i + 1)
    {
      sx[n] := b;
      assert sx[..n + 1] == sx[..n] + [b];
    }

    /** The body of the loop over a read's bytes. */
    method OneByte(b: Byte, sx: array<Byte>, n: nat, packets: seq<Bytes>, ghost r: Result, ghost i: nat)
      returns (out: seq<Bytes>, m: nat)
      requires Valid() && State() == r.parser && sx != msg
      requires n <= i < sx.Length && (n > 0 ==> inSx) && Emitted(packets, sx[..n], r, i)
      modifies this, msg, sx
      ensures Valid() && State() == FeedByte(r.parser, b).parser && m <= i + 1 && (m > 0 ==> inSx)
      ensures Emitted(out, sx[..m], Join(r, FeedByte(r.parser, b)), i + 1)
    {
      hide Emitted, Small, Sound;
      ByteIsSmall(r.parser, b);
      assert sx[..0] == [];
      out, m := packets, 0;
      if b >= 0xf8 {
        out := Emit(packets, sx[..n], r, i);
        Append([], [b]);
        assert [] + [[b]] == [[b]];
        EmitMessages(out, [[b]], r, FeedByte(r.parser, b), i);
        out := out + [[b]];
      } else if b >= 0x80 {
        out, m := Status(b, sx, n, packets, r, i);
      } else if inSx {
        SysExData(b, sx, n, packets, r, i);
        m := n + 1;
      } else {
        var more := DataByte(b);
        EmitMessages(out, more, r, FeedByte(r.parser, b), i);
        out := out + more;
      }
    }

    /** Assembles the bytes of one read into whole messages, packet by packet. What the
        packets hold depends only on the bytes; `sx` never overruns, and the packets
        always fit the list. */
    method Parse(buf: Bytes) returns (packets: seq<Bytes>)
      requires Valid() && |buf| <= READ_CHUNK
      modifies this, msg
      ensures Valid() && State() == Feed(old(State()), buf).parser
      ensures Flatten(packets) == Feed(old(State()), buf).flat
      ensures Messages(packets) == Feed(old(State()), buf).msgs
      ensures ListBytes(packets) <= PARSE_LIST_BYTES
    {
      hide Emitted, Sound, FeedByte;
      packets := [];
      var sx := new Byte[READ_CHUNK];
      var sxn: nat := 0;
      ghost var start := State();
      EmittedNothing(start);
      assert buf[..0] == [] && sx[..sxn] == [];
      for i := 0 to |buf|
        invariant Valid() && sxn <= i && (sxn > 0 ==> inSx) && fresh(sx) && sx.Length == READ_CHUNK
        invariant State() == Feed(start, buf[..i]).parser
        invariant Emitted(packets, sx[..sxn], Feed(start, buf[..i]), i)
      {
        ghost var r := Feed(start, buf[..i]);
        assert buf[..i + 1][..i] == buf[..i];
        packets, sxn := OneByte(buf[i], sx, sxn, packets, r, i);
        assert Feed(start, buf[..i + 1]) == Join(r, FeedByte(r.parser, buf[i]));
      }
      assert buf[..|buf|] == buf;
      packets := Emit(packets, sx[..sxn], Feed(start, buf), |buf|);
      EmittedAll(packets, Feed(start, buf), |buf|);
    }
  }

  function Held(p: Parser): nat {
    if p.partial == [] then 0 else |p.partial| - 1
  }

  /** The packets so far, and the SysEx bytes not yet in one, are what `i` bytes gave. */
  ghost predicate Emitted(packets: seq<Bytes>, sx: Bytes, r: Result, i: nat) {
    && Flatten(packets) + sx == r.flat && Messages(packets) == r.msgs
    && (forall k :: 0 <= k < |sx| ==> SysExByte(sx[k]))
    && ListBytes(packets) + 12 * |sx| + 12 * Held(r.parser) <= 16 + 12 * i
  }

  lemma EmittedNothing(p: Parser)
    requires Sound(p)
    ensures Emitted([], [], Feed(p, []), 0)
  {
    assert Held(p) <= 1;
  }

  lemma EmittedAll(packets: seq<Bytes>, r: Result, n: nat)
    requires Emitted(packets, [], r, n) && n <= READ_CHUNK
    ensures Flatten(packets) == r.flat && Messages(packets) == r.msgs && ListBytes(packets) <= PARSE_LIST_BYTES
  {
    assert Flatten(packets) + [] == Flatten(packets);
  }

  /** Emits the pending SysEx bytes as one packet, if there are any. */
  method Emit(packets: seq<Bytes>, sx: Bytes, ghost r: Result, ghost i: nat) returns (out: seq<Bytes>)
    requires Emitted(packets, sx, r, i)
    ensures Emitted(out, [], r, i)
  {
    if |sx| <= 0 {
      return packets;
    }
    Append(packets, sx);
    return packets + [sx];
  }

  /** A byte gives at most one message, of at most three bytes. */
  ghost predicate Small(p: Parser, q: Result) {
    && (q.msgs == [] || (|q.msgs| == 1 && 1 <= |q.msgs[0]| <= 3 && !SysExByte(q.msgs[0][0])))
    && (if q.msgs == [] then 0 else PacketBytes(|q.msgs[0]|)) + 12 * Held(q.parser) <= 12 + 12 * Held(p)
  }

  lemma ByteIsSmall(p: Parser, b: Byte)
    requires Sound(p)
    ensures Sound(FeedByte(p, b).parser) && Small(p, FeedByte(p, b))
  {
    hide FeedStatus, FeedData, Sound, Small;
    if b >= 0xf8 {
      RealTimeIsSmall(p, b);
    } else if b >= 0x80 {
      StatusIsSmall(p, b);
    } else {
      DataIsSmall(p, b);
    }
  }

  lemma RealTimeIsSmall(p: Parser, b: Byte)
    requires b >= 0xf8
    ensures Small(p, Message(p, [b]))
  {
  }

  lemma StatusIsSmall(p: Parser, b: Byte)
    requires Sound(p) && 0x80 <= b < 0xf8
    ensures Sound(FeedStatus(p, b).parser) && Small(p, FeedStatus(p, b))
  {
  }

  lemma DataIsSmall(p: Parser, b: Byte)
    requires Sound(p) && b < 0x80
    ensures Sound(FeedData(p, b).parser) && Small(p, FeedData(p, b))
  {
  }

  /** Adds the messages one byte gave. */
  lemma EmitMessages(packets: seq<Bytes>, more: seq<Bytes>, r: Result, q: Result, i: nat)
    requires Emitted(packets, [], r, i) && more == q.msgs && Flatten(more) == q.flat && Small(r.parser, q)
    ensures Emitted(packets + more, [], Join(r, q), i + 1)
  {
    hide Flatten, Messages, ListBytes;
    EmptyPackets();
    if more == [] {
      assert packets + more == packets;
    } else {
      Append(packets, more[0]);
      Append([], more[0]);
      assert more == [more[0]] && [] + [more[0]] == [more[0]];
    }
  }

  // ----- splitting into reads -----

  function Concat(chunks: seq<Bytes>): Bytes {
    if chunks == [] then [] else Concat(chunks[..|chunks| - 1]) + chunks[|chunks| - 1]
  }

  lemma JoinAssociates(x: Result, y: Result, z: Result)
    ensures Join(Join(x, y), z) == Join(x, Join(y, z)) && Join(x, Quiet(x.parser)) == x
  {
    Associate(x.flat, y.flat, z.flat);
    Associate(x.msgs, y.msgs, z.msgs);
  }

  lemma {:induction false} FeedConcat(p: Parser, a: Bytes, b: Bytes)
    ensures Feed(p, a + b) == Join(Feed(p, a), Feed(Feed(p, a).parser, b))
  {
    hide Feed, FeedByte, Join, Quiet;
    var r := Feed(p, a);
    if b == [] {
      assert a + b == a;
      FeedEmpty(r.parser);
      JoinAssociates(r, r, r);
    } else {
      var front, last := b[..|b| - 1], b[|b| - 1];
      FeedConcat(p, a, front);
      assert a + b == a + front + [last] && b == front + [last];
      FeedSnoc(p, a + front, last);
      FeedSnoc(r.parser, front, last);
      JoinedParser(r, Feed(r.parser, front));
      JoinAssociates(r, Feed(r.parser, front), FeedByte(Feed(r.parser, front).parser, last));
    }
  }

  lemma JoinedParser(x: Result, y: Result)
    ensures Join(x, y).parser == y.parser
  {
  }

  lemma {:induction false} FlattenConcat(a: seq<Bytes>, b: seq<Bytes>)
    ensures Flatten(a + b) == Flatten(a) + Flatten(b)
    ensures Messages(a + b) == Messages(a) + Messages(b)
  {
    hide Flatten, Messages;
    EmptyPackets();
    if b == [] {
      assert a + b == a;
      assert Messages(a) + [] == Messages(a) && Flatten(a) + [] == Flatten(a);
    } else {
      var front, last := b[..|b| - 1], b[|b| - 1];
      FlattenConcat(a, front);
      assert b == front + [last] && a + b == a + front + [last];
      Append(front, last);
      Append(a + front, last);
      Associate(Flatten(a), Flatten(front), last);
      Associate(Messages(a), Messages(front), if last != [] && SysExByte(last[0]) then [] else [last]);
    }
  }

  lemma EmptyPackets()
    ensures Flatten([]) == [] && Messages([]) == []
  {
  }

  lemma Associate<T>(a: seq<T>, b: seq<T>, c: seq<T>)
    ensures a + b + c == a + (b + c)
  {
  }

  /** However a stream is cut into reads, the packets hold the bytes and the messages that
      the whole stream gives: a result that does not mention the cuts. */
  method ParseReads(chunks: seq<Bytes>) returns (packets: seq<Bytes>)
    requires forall i :: 0 <= i < |chunks| ==> |chunks[i]| <= READ_CHUNK
    ensures Flatten(packets) == Feed(FRESH, Concat(chunks)).flat
    ensures Messages(packets) == Feed(FRESH, Concat(chunks)).msgs
  {
    hide Feed;
    var slot := new Slot();
    packets := [];
    FeedEmpty(FRESH);
    for k := 0 to |chunks|
      invariant slot.Valid() && fresh(slot) && fresh(slot.msg)
      invariant slot.State() == Feed(FRESH, Concat(chunks[..k])).parser
      invariant Flatten(packets) == Feed(FRESH, Concat(chunks[..k])).flat
      invariant Messages(packets) == Feed(FRESH, Concat(chunks[..k])).msgs
    {
      assert chunks[..k + 1][..k] == chunks[..k];
      FeedConcat(FRESH, Concat(chunks[..k]), chunks[k]);
      var more := slot.Parse(chunks[k]);
      FlattenConcat(packets, more);
      packets := packets + more;
    }
    assert chunks[..|chunks|] == chunks;
  }

  lemma FeedEmpty(p: Parser)
    ensures Feed(p, []) == Quiet(p)
  {
  }

  // ----- what the output looks like -----

  /** Note Off, Note On, Key Pressure, Control Change, Pitch Bend, Song Position. */
  predicate TakesTwo(status: Byte) {
    0x80 <= status <= 0xbf || 0xe0 <= status <= 0xef || status == 0xf2
  }

  /** Program Change, Channel Pressure, Time Code Quarter Frame, Song Select. */
  predicate TakesOne(status: Byte) {
    0xc0 <= status <= 0xdf || status == 0xf1 || status == 0xf3
  }

  /** The other System Common and all System Real Time messages. */
  predicate TakesNone(status: Byte) {
    0xf4 <= status <= 0xf6 || 0xf8 <= status
  }

  /** A whole message: its status byte and exactly the data bytes that status takes. */
  predicate Complete(m: Bytes) {
    && (|m| == 3 ==> TakesTwo(m[0]) && m[1] < 0x80 && m[2] < 0x80)
    && (|m| == 2 ==> TakesOne(m[0]) && m[1] < 0x80)
    && (|m| == 1 ==> TakesNone(m[0]))
    && 1 <= |m| <= 3
  }

  lemma {:induction false} MessagesAreComplete(p: Parser, bytes: Bytes)
    requires Sound(p)
    ensures Sound(Feed(p, bytes).parser)
    ensures forall i :: 0 <= i < |Feed(p, bytes).msgs| ==> Complete(Feed(p, bytes).msgs[i])
  {
    if bytes != [] {
      var front, b := bytes[..|bytes| - 1], bytes[|bytes| - 1];
      MessagesAreComplete(p, front);
      var r := Feed(p, front);
      ByteMessagesAreComplete(r.parser, b);
      assert Feed(p, bytes).msgs == r.msgs + FeedByte(r.parser, b).msgs;
    }
  }

  lemma ByteMessagesAreComplete(p: Parser, b: Byte)
    requires Sound(p)
    ensures Sound(FeedByte(p, b).parser)
    ensures forall i :: 0 <= i < |FeedByte(p, b).msgs| ==> Complete(FeedByte(p, b).msgs[i])
  {
    hide FeedStatus, FeedData, Sound;
    ByteIsSmall(p, b);
    if 0x80 <= b < 0xf8 {
      StatusIsComplete(p, b);
    } else if b < 0x80 {
      DataIsComplete(p, b);
    }
  }

  lemma StatusIsComplete(p: Parser, b: Byte)
    requires Sound(p) && 0x80 <= b < 0xf8
    ensures forall i :: 0 <= i < |FeedStatus(p, b).msgs| ==> Complete(FeedStatus(p, b).msgs[i])
  {
  }

  lemma DataIsComplete(p: Parser, b: Byte)
    requires Sound(p) && b < 0x80
    ensures forall i :: 0 <= i < |FeedData(p, b).msgs| ==> Complete(FeedData(p, b).msgs[i])
  {
  }

  /** A parser that chunks another one's output: it is between messages, and inside a SysEx
      whenever the other one is. */
  predicate Follows(q: Parser, p: Parser) {
    q.partial == [] && (p.inSx ==> q.inSx)
  }

  lemma FeedTwo(q: Parser, a: Byte, b: Byte)
    ensures Feed(q, [a, b]) == Join(FeedByte(q, a), FeedByte(FeedByte(q, a).parser, b))
  {
    hide FeedByte;
    FeedOne(q, a);
    assert [a, b][..1] == [a];
  }

  lemma FeedOne(q: Parser, a: Byte)
    ensures Feed(q, [a]) == FeedByte(q, a)
  {
    hide FeedByte;
    assert [a][..0] == [];
    assert Feed(q, [a][..0]) == Quiet(q);
    assert Join(Quiet(q), FeedByte(q, a)) == FeedByte(q, a);
  }

  function NextRunning(rs: Byte, status: Byte): Byte {
    if status < 0xf0 then status else if status < 0xf8 then 0 else rs
  }

  lemma FeedStatusOf(q: Parser, m: Bytes)
    requires Complete(m) && |m| > 1
    ensures FeedByte(q, m[0]) == Quiet(Parser(NextRunning(q.rs, m[0]), [m[0]], false))
  {
  }

  lemma FeedLastOf(rs: Byte, m: Bytes)
    requires Complete(m) && |m| > 1
    ensures FeedByte(Parser(rs, m[..|m| - 1], false), m[|m| - 1]) == Message(Parser(rs, [], false), m)
  {
    assert m[..|m| - 1] + [m[|m| - 1]] == m;
  }

  lemma FeedMiddleOf(rs: Byte, m: Bytes)
    requires Complete(m) && |m| == 3
    ensures FeedByte(Parser(rs, [m[0]], false), m[1]) == Quiet(Parser(rs, [m[0], m[1]], false))
  {
    assert [m[0]] + [m[1]] == [m[0], m[1]];
  }

  lemma JoinQuiet(p: Parser, q: Result)
    ensures Join(Quiet(p), q) == q
  {
  }

  /** The data bytes of a message whose status byte has been read. */
  lemma FeedRest(rs: Byte, m: Bytes)
    requires Complete(m) && |m| > 1
    ensures Feed(Parser(rs, [m[0]], false), m[1..]) == Message(Parser(rs, [], false), m)
  {
    hide FeedByte, Feed;
    var p := Parser(rs, [m[0]], false);
    FeedLastOf(rs, m);
    if |m| == 2 {
      assert m[1..] == [m[1]] && m[..1] == [m[0]];
      FeedOne(p, m[1]);
    } else {
      assert m[1..] == [m[1], m[2]] && m[..2] == [m[0], m[1]];
      FeedMiddleOf(rs, m);
      FeedTwo(p, m[1], m[2]);
      JoinQuiet(Parser(rs, [m[0], m[1]], false), Message(Parser(rs, [], false), m));
    }
  }

  lemma FeedAlone(q: Parser, m: Bytes)
    requires Complete(m) && q.partial == [] && |m| == 1
    ensures FeedByte(q, m[0]) == Message(Parser(NextRunning(q.rs, m[0]), [], q.inSx && m[0] >= 0xf8), m)
  {
    assert m == [m[0]];
  }

  /** A complete message is passed on as it is, and ends a SysEx unless it is real-time. */
  lemma FeedComplete(q: Parser, m: Bytes)
    requires Complete(m) && q.partial == []
    ensures Feed(q, m) == Message(Parser(NextRunning(q.rs, m[0]), [], q.inSx && m[0] >= 0xf8), m)
  {
    hide Feed, FeedByte;
    if |m| == 1 {
      assert m == [m[0]];
      FeedOne(q, m[0]);
      FeedAlone(q, m);
    } else {
      FeedStatusOf(q, m);
      FeedOne(q, m[0]);
      FeedConcat(q, [m[0]], m[1..]);
      assert m == [m[0]] + m[1..];
      FeedRest(NextRunning(q.rs, m[0]), m);
    }
  }

  /** A byte yields nothing, a complete message, or itself as a piece of a SysEx. */
  lemma ByteCases(p: Parser, b: Byte)
    requires Sound(p)
    ensures var r := FeedByte(p, b);
            || (r == Quiet(r.parser) && (r.parser.inSx ==> p.inSx))
            || (|r.msgs| == 1 && r == Message(r.parser, r.msgs[0]) && Complete(r.msgs[0])
                && (r.parser.inSx ==> p.inSx && r.msgs[0][0] >= 0xf8))
            || (r == Result(r.parser, [b], []) && (b == 0xf0 || (p.inSx && (b == 0xf7 || b < 0x80)))
                && (r.parser.inSx ==> b != 0xf7))
  {
  }

  lemma PieceFollows(q: Parser, b: Byte)
    requires q.partial == [] && (b == 0xf0 || (q.inSx && (b == 0xf7 || b < 0x80)))
    ensures var again := FeedByte(q, b);
            again == Result(again.parser, [b], []) && again.parser.partial == [] && again.parser.inSx == (b != 0xf7)
  {
  }

  lemma ByteOutputFollows(p: Parser, q: Parser, b: Byte)
    requires Sound(p) && Follows(q, p)
    ensures var r := FeedByte(p, b);
            var again := Feed(q, r.flat);
            again.flat == r.flat && again.msgs == r.msgs && Follows(again.parser, r.parser)
  {
    hide FeedByte, Feed, Sound, Complete;
    var r := FeedByte(p, b);
    ByteCases(p, b);
    if |r.msgs| == 1 {
      FeedComplete(q, r.msgs[0]);
    } else if r.flat == [] {
      FeedEmpty(q);
    } else {
      FeedOne(q, b);
      PieceFollows(q, b);
    }
  }

  lemma {:induction false} OutputFollows(p: Parser, q: Parser, bytes: Bytes)
    requires Sound(p) && Follows(q, p)
    ensures var r := Feed(p, bytes);
            var again := Feed(q, r.flat);
            again.flat == r.flat && again.msgs == r.msgs && Follows(again.parser, r.parser)
  {
    hide FeedByte, Sound, Follows;
    if bytes == [] {
    } else {
      var front, b := bytes[..|bytes| - 1], bytes[|bytes| - 1];
      OutputFollows(p, q, front);
      MessagesAreComplete(p, front);
      var r := Feed(p, front);
      var again := Feed(q, r.flat);
      ByteOutputFollows(r.parser, again.parser, b);
      FeedConcat(q, r.flat, FeedByte(r.parser, b).flat);
    }
  }

  /** The output is a normal form: read by a fresh slot, it comes out again unchanged. */
  lemma OutputIsNormalForm(bytes: Bytes)
    ensures var r := Feed(FRESH, bytes);
            var again := Feed(FRESH, r.flat);
            again.flat == r.flat && again.msgs == r.msgs
  {
    OutputFollows(FRESH, FRESH, bytes);
  }

  // ----- what single messages become, whatever came before -----

  /** Wherever the parser is, a status byte that takes two data bytes and those two give exactly that
      message; without the status byte, exactly that message again, if it was a channel's. */
  lemma TwoDataBytes(q: Parser, status: Byte, a: Byte, b: Byte)
    requires 0x80 <= status <= 0xbf || 0xe0 <= status <= 0xef || status == 0xf2
    requires a < 0x80 && b < 0x80
    ensures var next := Parser(if status <= 0xef then status else 0, [], false);
            && Feed(q, [status, a, b]) == Result(next, [status, a, b], [[status, a, b]])
            && (status <= 0xef ==> Feed(next, [a, b]) == Result(next, [status, a, b], [[status, a, b]]))
  {
    hide FeedByte, Feed;
    var m := [status, a, b];
    assert m[1..] == [a, b] && m == [status] + m[1..];
    var rs := NextRunning(q.rs, status);
    FeedStatusOf(q, m);
    FeedOne(q, status);
    FeedConcat(q, [status], m[1..]);
    FeedRest(rs, m);
    if status <= 0xef {
      FeedRunning(status, m);
    }
  }

  lemma OneDataByte(q: Parser, status: Byte, a: Byte)
    requires (0xc0 <= status <= 0xdf || status == 0xf1 || status == 0xf3) && a < 0x80
    ensures var next := Parser(if status <= 0xef then status else 0, [], false);
            && Feed(q, [status, a]) == Result(next, [status, a], [[status, a]])
            && (status <= 0xef ==> Feed(next, [a]) == Result(next, [status, a], [[status, a]]))
  {
    hide FeedByte, Feed;
    var m := [status, a];
    assert m[1..] == [a] && m == [status] + m[1..];
    var rs := NextRunning(q.rs, status);
    FeedStatusOf(q, m);
    FeedOne(q, status);
    FeedConcat(q, [status], m[1..]);
    FeedRest(rs, m);
    if status <= 0xef {
      FeedRunning(status, m);
    }
  }

  /** A status byte that takes no data is a message; only a real-time one leaves the rest alone. */
  lemma NoDataByte(q: Parser, status: Byte)
    requires 0xf4 <= status <= 0xf6 || 0xf8 <= status
    ensures Feed(q, [status]) == Result(if status >= 0xf8 then q else FRESH, [status], [[status]])
  {
    FeedOne(q, status);
  }

  /** Wherever the parser is, a whole SysEx is passed on as it is, and no running status is left. */
  lemma SysExPasses(q: Parser, data: Bytes)
    requires forall i :: 0 <= i < |data| ==> data[i] < 0x80
    ensures Feed(q, [0xf0] + data + [0xf7]) == Result(FRESH, [0xf0] + data + [0xf7], [])
  {
    hide FeedByte;
    FeedOne(q, 0xf0);
    SysExStart(q);
    InsideSysEx(data);
    FeedConcat(q, [0xf0], data);
    FeedSnoc(q, [0xf0] + data, 0xf7);
    SysExEnds();
  }

  lemma SysExStart(q: Parser)
    ensures FeedByte(q, 0xf0) == Result(Parser(0, [], true), [0xf0], [])
  {
  }

  lemma SysExEnds()
    ensures FeedByte(Parser(0, [], true), 0xf7) == Result(FRESH, [0xf7], [])
  {
  }

  lemma {:induction false} InsideSysEx(data: Bytes)
    requires forall i :: 0 <= i < |data| ==> data[i] < 0x80
    ensures Feed(Parser(0, [], true), data) == Result(Parser(0, [], true), data, [])
  {
    if data != [] {
      var front := data[..|data| - 1];
      InsideSysEx(front);
      assert data == front + [data[|data| - 1]];
    }
  }

  /** Data bytes that no status byte came before, and the end of a SysEx that did not begin, are dropped. */
  lemma {:induction false} StrayBytesAreDropped(bytes: Bytes)
    requires forall i :: 0 <= i < |bytes| ==> bytes[i] < 0x80 || bytes[i] == 0xf7
    ensures Feed(FRESH, bytes) == Result(FRESH, [], [])
  {
    if bytes != [] {
      StrayBytesAreDropped(bytes[..|bytes| - 1]);
    }
  }

  // ----- what the parser recovers -----

  /** Writes messages down with running status: a status byte equal to the running one
      is left out where `omit` says so. */
  datatype Sent = Sent(message: Bytes, omit: bool)

  function Wire(rs: Byte, sent: seq<Sent>): Bytes
    requires forall i :: 0 <= i < |sent| ==> sent[i].message != []
    decreases |sent|
  {
    if sent == [] then [] else OnWire(rs, sent[0]) + Wire(NextRunning(rs, sent[0].message[0]), sent[1..])
  }

  function OnWire(rs: Byte, s: Sent): Bytes
    requires s.message != []
  {
    if s.omit && s.message[0] == rs then s.message[1..] else s.message
  }

  function MessagesOf(sent: seq<Sent>): seq<Bytes> {
    seq(|sent|, i requires 0 <= i < |sent| => sent[i].message)
  }

  lemma FeedOnWire(rs: Byte, s: Sent)
    requires (rs == 0 || 0x80 <= rs < 0xf0) && Complete(s.message)
    ensures Feed(Parser(rs, [], false), OnWire(rs, s))
         == Message(Parser(NextRunning(rs, s.message[0]), [], false), s.message)
  {
    var q, m := Parser(rs, [], false), s.message;
    if s.omit && m[0] == rs {
      FeedRunning(rs, m);
    } else {
      FeedComplete(q, m);
    }
  }

  /** Data bytes alone continue the running status. */
  lemma FeedRunning(rs: Byte, m: Bytes)
    requires Complete(m) && m[0] == rs && 0x80 <= rs < 0xf0
    ensures Feed(Parser(rs, [], false), m[1..]) == Message(Parser(rs, [], false), m)
  {
    hide Feed, FeedByte, Complete;
    var q, p := Parser(rs, [], false), Parser(rs, [rs], false);
    HasData(m);
    FeedRest(rs, m);
    FeedOne(q, m[1]);
    FeedOne(p, m[1]);
    assert m[1..] == [m[1]] + m[2..];
    FeedConcat(q, [m[1]], m[2..]);
    FeedConcat(p, [m[1]], m[2..]);
    ContinueRunning(rs, m[1]);
  }

  lemma HasData(m: Bytes)
    requires Complete(m) && 0x80 <= m[0] < 0xf0
    ensures |m| > 1 && m[1] < 0x80
  {
  }

  lemma ContinueRunning(rs: Byte, b: Byte)
    requires 0x80 <= rs < 0xf0 && b < 0x80
    ensures FeedByte(Parser(rs, [], false), b) == FeedByte(Parser(rs, [rs], false), b)
  {
  }

  /** Round trip: whichever status bytes running status leaves out, exactly the messages
      written come back, each with its status byte. */
  lemma {:induction false} RunningStatusRoundTrip(rs: Byte, sent: seq<Sent>)
    requires rs == 0 || 0x80 <= rs < 0xf0
    requires forall i :: 0 <= i < |sent| ==> sent[i].message != [] && Complete(sent[i].message)
    ensures Feed(Parser(rs, [], false), Wire(rs, sent)).msgs == MessagesOf(sent)
    decreases |sent|
  {
    hide Feed, OnWire;
    if sent == [] {
      FeedEmpty(Parser(rs, [], false));
    } else {
      var m := sent[0].message;
      var next := NextRunning(rs, m[0]);
      FeedOnWire(rs, sent[0]);
      RunningStatusRoundTrip(next, sent[1..]);
      FeedConcat(Parser(rs, [], false), OnWire(rs, sent[0]), Wire(next, sent[1..]));
      assert MessagesOf(sent) == [m] + MessagesOf(sent[1..]);
    }
  }

  /** A stream without its System Real Time bytes. */
  function WithoutRealTime(bytes: Bytes): Bytes {
    if bytes == [] then []
    else WithoutRealTime(bytes[..|bytes| - 1]) + if bytes[|bytes| - 1] >= 0xf8 then [] else [bytes[|bytes| - 1]]
  }

  function MessagesWithoutRealTime(msgs: seq<Bytes>): seq<Bytes> {
    if msgs == [] then []
    else
      var last := msgs[|msgs| - 1];
      MessagesWithoutRealTime(msgs[..|msgs| - 1]) + if last != [] && last[0] >= 0xf8 then [] else [last]
  }

  lemma WithoutOne(msgs: seq<Bytes>, m: Bytes)
    ensures MessagesWithoutRealTime(msgs + [m])
         == MessagesWithoutRealTime(msgs) + if m != [] && m[0] >= 0xf8 then [] else [m]
  {
    assert (msgs + [m])[..|msgs|] == msgs;
  }

  lemma SmallByte(p: Parser, b: Byte)
    requires Sound(p)
    ensures Sound(FeedByte(p, b).parser)
    ensures b >= 0xf8 ==> FeedByte(p, b) == Message(p, [b])
    ensures var r := FeedByte(p, b);
            b < 0xf8 ==>
              (r.msgs == [] || (|r.msgs| == 1 && r.msgs[0] != [] && r.msgs[0][0] < 0xf8)) && NoRealTime(r.flat)
  {
    ByteIsSmall(p, b);
  }

  predicate NoRealTime(bytes: Bytes) { forall i :: 0 <= i < |bytes| ==> bytes[i] < 0xf8 }

  lemma {:induction false} WithoutConcat(a: Bytes, b: Bytes)
    ensures WithoutRealTime(a + b) == WithoutRealTime(a) + WithoutRealTime(b)
  {
    if b == [] {
      assert a + b == a;
    } else {
      var front, last := b[..|b| - 1], b[|b| - 1];
      WithoutConcat(a, front);
      assert (a + b)[..|a + b| - 1] == a + front;
      Associate(WithoutRealTime(a), WithoutRealTime(front), if last >= 0xf8 then [] else [last]);
    }
  }

  lemma {:induction false} WithoutNone(bytes: Bytes)
    requires NoRealTime(bytes)
    ensures WithoutRealTime(bytes) == bytes
  {
    if bytes != [] {
      WithoutNone(bytes[..|bytes| - 1]);
      assert bytes[..|bytes| - 1] + [bytes[|bytes| - 1]] == bytes;
    }
  }

  /** Dropping the real-time bytes of what one byte gave. */
  lemma FlatStep(flat: Bytes, more: Bytes, b: Byte)
    requires if b >= 0xf8 then more == [b] else NoRealTime(more)
    ensures WithoutRealTime(flat + more) == WithoutRealTime(flat) + if b >= 0xf8 then [] else more
  {
    WithoutConcat(flat, more);
    if b >= 0xf8 {
      assert more[..0] == [];
      assert WithoutRealTime(more[..0]) == [];
      assert WithoutRealTime(more) == [];
    } else {
      WithoutNone(more);
    }
  }

  /** System Real Time bytes are transparent: put anywhere in a stream, also between the
      bytes of one message or of a SysEx, they change nothing else that comes out. */
  lemma {:induction false} RealTimeIsTransparent(p: Parser, bytes: Bytes)
    requires Sound(p)
    ensures Sound(Feed(p, bytes).parser)
    ensures var quiet := Feed(p, WithoutRealTime(bytes));
            && quiet.parser == Feed(p, bytes).parser
            && quiet.msgs == MessagesWithoutRealTime(Feed(p, bytes).msgs)
            && quiet.flat == WithoutRealTime(Feed(p, bytes).flat)
  {
    hide FeedByte, Sound, Feed, MessagesWithoutRealTime, NoRealTime, WithoutRealTime;
    if bytes == [] {
      FeedEmpty(p);
      NoMessages();
    } else {
      var front, b := bytes[..|bytes| - 1], bytes[|bytes| - 1];
      RealTimeIsTransparent(p, front);
      assert bytes == front + [b];
      WithoutSnoc(front, b);
      FeedSnoc(p, front, b);
      var r, kept := Feed(p, front), WithoutRealTime(front);
      SmallByte(r.parser, b);
      var more := FeedByte(r.parser, b);
      RealTimeStep(r.msgs, more.msgs);
      FlatStep(r.flat, more.flat, b);
      if b < 0xf8 {
        FeedSnoc(p, kept, b);
      } else {
        assert kept + [] == kept && more.msgs == [[b]];
      }
    }
  }

  lemma NoMessages()
    ensures MessagesWithoutRealTime([]) == [] && WithoutRealTime([]) == []
  {
  }

  lemma WithoutSnoc(bytes: Bytes, b: Byte)
    ensures WithoutRealTime(bytes + [b]) == WithoutRealTime(bytes) + if b >= 0xf8 then [] else [b]
  {
    assert (bytes + [b])[..|bytes|] == bytes;
  }

  lemma FeedSnoc(p: Parser, bytes: Bytes, b: Byte)
    ensures Feed(p, bytes + [b]) == Join(Feed(p, bytes), FeedByte(Feed(p, bytes).parser, b))
  {
    hide FeedByte, Join;
    assert (bytes + [b])[..|bytes|] == bytes;
  }

  lemma RealTimeStep(msgs: seq<Bytes>, more: seq<Bytes>)
    requires more == [] || (|more| == 1 && more[0] != [])
    ensures MessagesWithoutRealTime(msgs + more) ==
            MessagesWithoutRealTime(msgs) + if more != [] && more[0][0] >= 0xf8 then [] else more
  {
    if more == [] {
      assert msgs + more == msgs;
    } else {
      assert more == [more[0]];
      WithoutOne(msgs, more[0]);
    }
  }
}
