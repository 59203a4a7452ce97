/** The seqlock copies of `crates/cdj3k-emu-streams/src/jog_stream.rs` (`copy_stable`) and
    `main_stream.rs` (`capture`): a writer in another process stores single bytes under a
    counter that is odd while it writes, and a reader loads the counter, copies bytes one
    at a time in any order, and loads the counter again. */
module SeqLock {
  import opened Bytes
  import opened Optional
  import opened Runs

  /** The counter is a u32. */
  const WRAP: nat := 0x1_0000_0000

  type Memory = map<nat, Byte>

  datatype Reader =
    /** Before the attempt's first counter load. */
    | Ready
    /** The counter loaded, and the bytes copied since. */
    | Copying(gen: nat, got: Memory)
    /** The copy was accepted. */
    | Returned(gen: nat, got: Memory)
    | GaveUp

  /** What a copy is of: the jog canvas of `copy_stable`, or the surface of `capture`. */
  datatype Want = JogCanvas | MainSurface

  datatype State = State(
    want: Want,
    count: nat,        // the u32 counter is `count % WRAP`
    memory: Memory,
    reader: Reader,
    attempts: nat,     // attempts left
    // history: the count the reader loaded, and the memory at each completed frame
    loaded: nat,
    frames: map<nat, Memory>)

  datatype Action =
    | WBegin
    | WByte(at: nat, value: Byte)
    | WEnd
    | RLoad
    /** `capture`'s odd generation, accepted once the wait for an even one is over. */
    | RLoadOdd
    | RByte(at: nat)
    /** After the last byte: the second load of the counter. */
    | RCheck
    /** `capture` finds no surface. */
    | RNoSurface

  /** A failed attempt; the last one gives up. */
  function Retry(s: State): State {
    s.(reader := if s.attempts <= 1 then GaveUp else Ready, attempts := if s.attempts == 0 then 0 else s.attempts - 1)
  }

  /** The counter does not go a full cycle around while a copy is under way. */
  predicate MayCount(s: State) {
    s.reader.Copying? ==> s.count + 1 < s.loaded + WRAP
  }

  const JOG_PIXELS: nat := 0x1000
  const JOG_BYTES: nat := 320 * 240 * 4
  const LCD_PIXELS: nat := 64

  predicate Has(m: Memory, from: nat, n: nat) {
    forall k :: from <= k < from + n ==> k in m
  }

  /** The little-endian u32 at `at`. */
  function Word(m: Memory, at: nat): nat
    requires Has(m, at, 4)
  {
    var b0: nat, b1: nat, b2: nat, b3: nat := m[at], m[at + 1], m[at + 2], m[at + 3];
    b0 + 0x100 * b1 + 0x1_0000 * b2 + 0x100_0000 * b3
  }

  function RowAt(stride: nat, y: nat): nat {
    LCD_PIXELS + y * stride
  }

  /** The bytes `capture` reads: the three size words, and a row of each line. */
  predicate HasSurface(m: Memory) {
    && Has(m, 8, 4) && Has(m, 12, 4) && Has(m, 16, 4)
    && forall y :: 0 <= y < Word(m, 12) ==> Has(m, RowAt(Word(m, 16), y), Word(m, 8) * 4)
  }

  /** The reader has copied every byte it returns. */
  predicate Complete(want: Want, got: Memory) {
    match want
    case JogCanvas => Has(got, JOG_PIXELS, JOG_BYTES)
    case MainSurface => HasSurface(got)
  }

  function Step(s: State, a: Action): Option<State> {
    match a
    case WBegin =>
      if s.count % 2 == 0 && MayCount(s) then Some(s.(count := s.count + 1)) else None
    case WByte(at, v) =>
      if s.count % 2 == 1 && at in s.memory then Some(s.(memory := s.memory[at := v])) else None
    case WEnd =>
      if s.count % 2 == 1 && MayCount(s)
      then Some(s.(count := s.count + 1, frames := s.frames[s.count + 1 := s.memory])) else None
    case RLoad =>
      if s.reader != Ready then None
      else if s.count % WRAP % 2 == 1 then Some(Retry(s))
      else Some(s.(reader := Copying(s.count % WRAP, map[]), loaded := s.count))
    case RLoadOdd =>
      if s.want.MainSurface? && s.reader == Ready && s.count % WRAP % 2 == 1
      then Some(s.(reader := Copying(s.count % WRAP, map[]), loaded := s.count)) else None
    case RByte(at) =>
      if s.reader.Copying? && at in s.memory
      then Some(s.(reader := Copying(s.reader.gen, s.reader.got[at := s.memory[at]]))) else None
    case RCheck =>
      if !s.reader.Copying? || !Complete(s.want, s.reader.got) then None
      else if s.count % WRAP == s.reader.gen then Some(s.(reader := Returned(s.reader.gen, s.reader.got)))
      else Some(Retry(s))
    case RNoSurface => if s.reader.Copying? && s.want.MainSurface? then Some(s.(reader := GaveUp)) else None
  }

  ghost predicate Init(s: State) {
    s.reader == Ready && s.frames == if s.count % 2 == 0 then map[s.count := s.memory] else map[]
  }

  /** Every byte of the copy is a byte of this frame. */
  ghost predicate From(got: Memory, frame: Memory) {
    forall at :: at in got ==> at in frame && got[at] == frame[at]
  }

  ghost predicate Inv(s: State) {
    && (s.count % 2 == 0 ==> s.count in s.frames && s.frames[s.count] == s.memory)
    && (s.reader.Copying? ==>
          && s.loaded <= s.count < s.loaded + WRAP && s.reader.gen == s.loaded % WRAP
          && (s.count == s.loaded && s.count % 2 == 0 ==> From(s.reader.got, s.memory)))
    && (s.reader.Returned? && s.reader.gen % 2 == 0 ==>
          s.loaded in s.frames && s.reader.gen == s.loaded % WRAP && From(s.reader.got, s.frames[s.loaded]))
    // `copy_stable` copies nothing under an odd counter
    && (s.want.JogCanvas? && (s.reader.Copying? || s.reader.Returned?) ==> s.reader.gen % 2 == 0)
    // the copy is complete when it is accepted
    && (s.reader.Returned? ==> Complete(s.want, s.reader.got))
    && (forall c :: c in s.frames ==> c <= s.count)
  }

  lemma StepKeepsInv(s: State, a: Action)
    requires Inv(s) && Step(s, a).Some?
    ensures Inv(Step(s, a).value) && Step(s, a).value.want == s.want
  {
    hide Complete, From, Inv;
    if a.WBegin? || a.WByte? || a.WEnd? {
      WriterKeepsInv(s, a);
    } else {
      ReaderKeepsInv(s, a);
    }
  }

  lemma WriterKeepsInv(s: State, a: Action)
    requires Inv(s) && Step(s, a).Some? && (a.WBegin? || a.WByte? || a.WEnd?)
    ensures Inv(Step(s, a).value)
  {
  }

  lemma ReaderKeepsInv(s: State, a: Action)
    requires Inv(s) && Step(s, a).Some? && !(a.WBegin? || a.WByte? || a.WEnd?)
    ensures Inv(Step(s, a).value)
  {
    Cycle(s.loaded, s.count);
  }

  /** Within one cycle the counter names its count, and always its parity. */
  lemma Cycle(loaded: nat, count: nat)
    ensures loaded <= count < loaded + WRAP && loaded % WRAP == count % WRAP ==> loaded == count
    ensures count % WRAP % 2 == count % 2
  {
  }

  lemma RunKeepsInv(s: State, acts: seq<Action>)
    requires Init(s) && Exec(Step, s, acts).Some?
    ensures Inv(Exec(Step, s, acts).value) && Exec(Step, s, acts).value.want == s.want
  {
    hide Step, Complete, From;
    forall t, a | Inv(t) && t.want == s.want && Always(t, a) && Step(t, a).Some?
      ensures Inv(Step(t, a).value) && Step(t, a).value.want == s.want
    {
      StepKeepsInv(t, a);
    }
    RunKeeps(Step, Always, t => Inv(t) && t.want == s.want, s, acts);
  }

  /** Whatever the interleaving, a copy accepted at an even counter holds bytes of one
      single frame that the writer completed, the one the returned counter names. */
  lemma AcceptedCopyIsOneFrame(s: State, acts: seq<Action>) returns (frame: nat)
    requires Init(s) && Exec(Step, s, acts).Some?
    requires Exec(Step, s, acts).value.reader.Returned? && Exec(Step, s, acts).value.reader.gen % 2 == 0
    ensures var t := Exec(Step, s, acts).value;
            && frame in t.frames && t.reader.gen == frame % WRAP && From(t.reader.got, t.frames[frame])
            && Complete(s.want, t.reader.got)
  {
    hide Step, Complete, From;
    RunKeepsInv(s, acts);
    frame := Exec(Step, s, acts).value.loaded;
  }

  // ----- what the two callers make of the copied bytes -----

  /** `copy_stable`'s canvas. */
  ghost function Canvas(m: Memory): seq<Byte>
    requires Has(m, JOG_PIXELS, JOG_BYTES)
  {
    seq(JOG_BYTES, i requires 0 <= i < JOG_BYTES => m[JOG_PIXELS + i])
  }

  /** One captured row: the copied bytes with the alpha of each pixel made opaque. */
  ghost function Row(m: Memory, y: nat): seq<Byte>
    requires HasSurface(m) && y < Word(m, 12)
  {
    RowFrom(m, RowAt(Word(m, 16), y), Word(m, 8) * 4)
  }

  ghost function RowFrom(m: Memory, from: nat, n: nat): seq<Byte>
    requires Has(m, from, n)
  {
    seq(n, i requires 0 <= i < n && Has(m, from, n) => if i % 4 == 3 then 255 else m[from + i])
  }

  lemma WordFrom(got: Memory, frame: Memory, at: nat)
    requires From(got, frame) && Has(got, at, 4)
    ensures Has(frame, at, 4) && Word(frame, at) == Word(got, at)
  {
    forall k | at <= k < at + 4 ensures k in frame && got[k] == frame[k] {
      assert k in got;
    }
    assert at in got && at + 1 in got && at + 2 in got && at + 3 in got;
  }

  /** Every jog image `copy_stable` hands out is one completed frame's pixels, byte for byte. */
  lemma JogCanvasIsOneFrame(s: State, acts: seq<Action>) returns (frame: nat)
    requires Init(s) && s.want.JogCanvas? && Exec(Step, s, acts).Some? && Exec(Step, s, acts).value.reader.Returned?
    ensures var t := Exec(Step, s, acts).value;
            && t.reader.gen % 2 == 0
            && Has(t.reader.got, JOG_PIXELS, JOG_BYTES) && frame in t.frames && frame % WRAP == t.reader.gen
            && Has(t.frames[frame], JOG_PIXELS, JOG_BYTES) && Canvas(t.reader.got) == Canvas(t.frames[frame])
            && |Canvas(t.reader.got)| == 320 * 240 * 4
            && forall i :: 0 <= i < 320 * 240 * 4 ==> Canvas(t.reader.got)[i] == t.frames[frame][0x1000 + i]
  {
    hide Exec, Step;
    RunKeepsInv(s, acts);
    frame := AcceptedCopyIsOneFrame(s, acts);
  }

  /** The image `capture` returns from an even generation has the size and the pixels of
      one frame, although the size words are read together with the pixels. */
  lemma CaptureIsOneFrame(s: State, acts: seq<Action>) returns (frame: nat)
    requires Init(s) && s.want.MainSurface? && Exec(Step, s, acts).Some?
    requires var r := Exec(Step, s, acts).value.reader; r.Returned? && r.gen % 2 == 0
    ensures var t := Exec(Step, s, acts).value;
            var got := t.reader.got;
            && HasSurface(got) && frame in t.frames && frame % WRAP == t.reader.gen && HasSurface(t.frames[frame])
            && Word(got, 8) == Word(t.frames[frame], 8) && Word(got, 12) == Word(t.frames[frame], 12)
            && forall y :: 0 <= y < Word(got, 12) ==> Row(got, y) == Row(t.frames[frame], y)
  {
    hide Exec, Step;
    frame := AcceptedCopyIsOneFrame(s, acts);
    var t := Exec(Step, s, acts).value;
    SurfaceFrom(t.reader.got, t.frames[frame]);
  }

  lemma SurfaceFrom(got: Memory, frame: Memory)
    requires From(got, frame) && HasSurface(got)
    ensures HasSurface(frame)
    ensures Word(got, 8) == Word(frame, 8) && Word(got, 12) == Word(frame, 12)
    ensures forall y :: 0 <= y < Word(got, 12) ==> Row(got, y) == Row(frame, y)
  {
    WordFrom(got, frame, 8);
    WordFrom(got, frame, 12);
    WordFrom(got, frame, 16);
    forall y | 0 <= y < Word(frame, 12) ensures Has(frame, RowAt(Word(frame, 16), y), Word(frame, 8) * 4) {
      assert Has(got, RowAt(Word(got, 16), y), Word(got, 8) * 4);
    }
    forall y | 0 <= y < Word(got, 12) ensures Row(got, y) == Row(frame, y) {
      assert Has(got, RowAt(Word(got, 16), y), Word(got, 8) * 4);
    }
  }

  /** A word of the shared memory has its low byte first. */
  lemma WordMeans(m: Memory, at: nat)
    requires Has(m, at, 4)
    ensures var b0: nat, b1: nat, b2: nat, b3: nat := m[at], m[at + 1], m[at + 2], m[at + 3];
            Word(m, at) == b0 + b1 * 0x100 + b2 * 0x1_0000 + b3 * 0x100_0000
  {
  }

  predicate OnSurface(m: Memory, x: nat, y: nat) {
    HasSurface(m) && x < Word(m, 8) && y < Word(m, 12)
  }

  /** Where pixel (x, y) is: 64 bytes into the shared memory, and `y` strides and `x` pixels on. */
  function PixelPlace(stride: nat, x: nat, y: nat): nat { 64 + y * stride + 4 * x }

  /** Red, green and blue of the pixel at `row[i..]` are the bytes of `m` at `at`, and its alpha is opaque. */
  predicate PixelIs(row: seq<Byte>, i: nat, m: Memory, at: nat) {
    && i + 4 <= |row| && at in m && at + 1 in m && at + 2 in m
    && row[i] == m[at] && row[i + 1] == m[at + 1] && row[i + 2] == m[at + 2] && row[i + 3] == 0xff
  }

  lemma RowPixel(m: Memory, x: nat, y: nat)
    requires OnSurface(m, x, y)
    ensures |Row(m, y)| == 4 * Word(m, 8) && PixelIs(Row(m, y), 4 * x, m, PixelPlace(Word(m, 16), x, y))
  {
    hide Word, PixelIs, PixelPlace, RowFrom, Has;
    var from, n := RowAt(Word(m, 16), y), Word(m, 8) * 4;
    assert Has(m, from, n);
    PlaceInRow(Word(m, 16), x, y);
    PixelFrom(m, from, Word(m, 8), x);
  }

  lemma PlaceInRow(stride: nat, x: nat, y: nat)
    ensures PixelPlace(stride, x, y) == RowAt(stride, y) + 4 * x
  {
  }

  lemma PixelFrom(m: Memory, from: nat, width: nat, x: nat)
    requires Has(m, from, width * 4) && x < width
    ensures |RowFrom(m, from, width * 4)| == 4 * width && PixelIs(RowFrom(m, from, width * 4), 4 * x, m, from + 4 * x)
  {
    assert from + 4 * x in m && from + (4 * x + 1) in m && from + (4 * x + 2) in m;
  }

  /** Every pixel of a capture from an even generation is that of one completed frame, at the size
      and the stride of that frame. */
  lemma CapturedPixel(s: State, acts: seq<Action>, x: nat, y: nat) returns (frame: nat)
    requires Init(s) && s.want.MainSurface? && Exec(Step, s, acts).Some?
    requires var r := Exec(Step, s, acts).value.reader; r.Returned? && r.gen % 2 == 0 && OnSurface(r.got, x, y)
    ensures var t := Exec(Step, s, acts).value;
            && frame in t.frames && frame % WRAP == t.reader.gen && OnSurface(t.frames[frame], x, y)
            && var m := t.frames[frame];
               |Row(t.reader.got, y)| == 4 * Word(m, 8)
               && PixelIs(Row(t.reader.got, y), 4 * x, m, PixelPlace(Word(m, 16), x, y))
  {
    hide Exec, Step, Row, Word, PixelPlace, PixelIs;
    frame := CaptureIsOneFrame(s, acts);
    RowPixel(Exec(Step, s, acts).value.frames[frame], x, y);
  }
}
