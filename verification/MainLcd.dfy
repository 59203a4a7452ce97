/** The main LCD's reader (`crates/cdj3k-emu-streams/src/main_stream.rs`): QEMU writes a
    surface and the rect it changed under a generation counter, a poller collects the
    rects without a lock, and the UI uploads them later, straight from the shared
    memory. Every load, store and upload of one word or one pixel is one step, and the
    three parties' steps interleave. The surface keeps one valid size. */
module MainLcd {
  import opened Bytes
  import opened Optional
  import opened Runs

  /** The generation is a u32. */
  const WRAP: nat := 0x1_0000_0000

  type Pixel = (nat, nat)
  type Colour = nat

  datatype Rect = Rect(x: nat, y: nat, w: nat, h: nat)
  /** Half-open corners, as the union keeps them. */
  datatype Box = Box(x0: nat, y0: nat, x1: nat, y1: nat)
  datatype Size = Size(width: nat, height: nat)

  // ----- Surface -----

  /** The header's dirty rect; None when it is empty or leaves the surface. */
  function DirtyRect(size: Size, words: seq<nat>): Option<Rect>
    requires |words| == 4
  {
    if words[2] == 0 || words[3] == 0 || words[0] + words[2] > size.width || words[1] + words[3] > size.height
    then None else Some(Rect(words[0], words[1], words[2], words[3]))
  }

  function Words(r: Rect): seq<nat> {
    [r.x, r.y, r.w, r.h]
  }

  /** A dirty rect counts exactly when it has pixels and all of them are on the surface. */
  lemma DirtyRectIff(size: Size, r: Rect)
    ensures DirtyRect(size, [r.x, r.y, r.w, r.h]) ==
            if r.w > 0 && r.h > 0 && (forall p: Pixel :: InRect(r, p) ==> InSurface(size, p)) then Some(r) else None
  {
    if r.w > 0 && r.h > 0 {
      assert InRect(r, (r.x + r.w - 1, r.y + r.h - 1));
    }
  }

  function WholeSurface(size: Size): Rect {
    Rect(0, 0, size.width, size.height)
  }

  /** u32 subtraction. */
  function WrappingSub(a: nat, b: nat): nat
    requires a < WRAP && b < WRAP
  {
    (a + WRAP - b) % WRAP
  }

  /** The region that changed between the generations `last` and `gen`, from the rect
      words read after `gen` and the generation read after those, `again`. */
  function ChangedRegion(size: Size, words: seq<nat>, last: nat, gen: nat, again: nat): Rect
    requires |words| == 4 && last < WRAP && gen < WRAP
  {
    var rect := DirtyRect(size, words);
    if rect.Some? && WrappingSub(gen, last) == 2 && again == gen then rect.value else WholeSurface(size)
  }

  predicate InSurface(size: Size, p: Pixel) {
    p.0 < size.width && p.1 < size.height
  }

  predicate InRect(r: Rect, p: Pixel) {
    r.x <= p.0 < r.x + r.w && r.y <= p.1 < r.y + r.h
  }

  predicate InBox(b: Option<Box>, p: Pixel) {
    b.Some? && b.value.x0 <= p.0 < b.value.x1 && b.value.y0 <= p.1 < b.value.y1
  }

  /** What an update with this header rect may touch. */
  predicate Covers(size: Size, r: Rect, p: Pixel) {
    InSurface(size, p) && (DirtyRect(size, Words(r)).Some? ==> InRect(r, p))
  }

  // ----- DirtyUnion -----

  function Grow(u: Option<Box>, r: Rect): (b: Box)
    ensures forall p :: InBox(u, p) || InRect(r, p) ==> InBox(Some(b), p)
  {
    match u
    case None => Box(r.x, r.y, r.x + r.w, r.y + r.h)
    case Some(a) => Box(Min(a.x0, r.x), Min(a.y0, r.y), Max(a.x1, r.x + r.w), Max(a.y1, r.y + r.h))
  }

  /** The union of the rects received since the last publish. */
  class DirtyUnion {
    var rect: Option<Box>
    var size: Size

    constructor ()
      ensures rect == None && size == Size(0, 0)
    {
      rect, size := None, Size(0, 0);
    }

    /** Drops the union when the surface changes size. */
    method Resize(width: nat, height: nat)
      modifies this
      ensures size == Size(width, height)
      ensures rect == if old(size) == size then old(rect) else None
    {
      if Size(width, height) != size {
        rect := None;
        size := Size(width, height);
      }
    }

    /** Grows the union to the smallest box that covers it and `r`. */
    method Add(r: Rect)
      modifies this`rect
      ensures rect == Some(Grow(old(rect), r))
      ensures forall b: Box :: r.w > 0 && r.h > 0 && BoxHolds(b, old(rect), r) ==> BoxInside(rect.value, b)
    {
      match rect
      case None =>
        rect := Some(Box(r.x, r.y, r.x + r.w, r.y + r.h));
      case Some(a) =>
        rect := Some(Box(Min(a.x0, r.x), Min(a.y0, r.y), Max(a.x1, r.x + r.w), Max(a.y1, r.y + r.h)));
    }

    method Take() returns (r: Option<Box>)
      modifies this`rect
      ensures r == old(rect) && rect == None
    {
      r := rect;
      rect := None;
    }
  }

  predicate BoxInside(a: Box, b: Box) {
    b.x0 <= a.x0 && b.y0 <= a.y0 && a.x1 <= b.x1 && a.y1 <= b.y1
  }

  predicate BoxHolds(b: Box, u: Option<Box>, r: Rect) {
    (u.Some? ==> BoxInside(u.value, b)) && BoxInside(Box(r.x, r.y, r.x + r.w, r.y + r.h), b)
  }

  /** There is something to publish, the slot's lock is free and the UI took the last one. */
  predicate CanPublish(union: Option<Box>, posted: Option<Box>, lockFree: bool) {
    union.Some? && lockFree && posted.None?
  }

  /** The UI's slot, and the poller's `publish` into it. */
  class Slot {
    var posted: Option<Box>

    /** Moves the union into the slot if the UI has taken the previous notification and
        the slot's lock is free; otherwise keeps it. */
    method Publish(dirty: DirtyUnion, lockFree: bool) returns (published: bool)
      modifies this, dirty`rect
      ensures published == CanPublish(old(dirty.rect), old(posted), lockFree)
      ensures published ==> posted == old(dirty.rect) && dirty.rect == None
      ensures !published ==> posted == old(posted) && dirty.rect == old(dirty.rect)
    {
      if dirty.rect.None? || !lockFree || posted.Some? {
        return false;
      }
      posted := dirty.Take();
      return true;
    }
  }

  // ----- the three parties -----

  datatype Poll =
    | Idle
    /** The generation loaded, and the rect words loaded after it. */
    | Reading(gen: nat, words: seq<nat>)
    | Publishing

  datatype State = State(
    size: Size,
    // shared memory; the u32 generation is `count % WRAP`
    count: nat,
    header: seq<nat>,
    pixels: map<Pixel, Colour>,
    // the writer's update under way
    rect: Rect,
    // the poller
    lastGen: nat,
    poll: Poll,
    union: Option<Box>,
    // the slot, and the UI's upload under way
    slot: Option<Box>,
    todo: set<Pixel>,
    texture: map<Pixel, Colour>,
    // history: the count `lastGen` and `poll.gen` were loaded at, the rect of each
    // update since the session began, and each pixel's last update since then
    lastCount: nat,
    seenCount: nat,
    rects: map<nat, Rect>,
    written: map<Pixel, nat>)

  datatype Action =
    // QEMU
    | WBegin(r: Rect)
    | WWord(i: nat)
    | WPixel(p: Pixel, c: Colour)
    | WEnd
    // the poller
    | PLoadGen
    | PLoadWord
    | PLoadAgain
    | PPublish(lockFree: bool)
    // the UI
    | UTake
    | UUpload(p: Pixel)

  function PixelsOf(size: Size, b: Box): set<Pixel> {
    set x: nat, y: nat | x < size.width && y < size.height && InBox(Some(b), (x, y)) :: (x, y)
  }

  /** The counter moves only while fewer than 2^32 of its steps are unseen. */
  predicate MayCount(s: State) {
    s.count + 1 < s.lastCount + WRAP
  }

  function Step(s: State, a: Action): Option<State> {
    match a
    case WBegin(r) =>
      if s.count % 2 == 0 && MayCount(s)
      then Some(s.(count := s.count + 1, rect := r, rects := s.rects[s.count + 1 := r])) else None
    case WWord(i) =>
      if s.count % 2 == 1 && i < 4 && |s.header| == 4
      then Some(s.(header := s.header[i := Words(s.rect)[i]])) else None
    case WPixel(p, c) =>
      if s.count % 2 == 1 && Covers(s.size, s.rect, p)
      then Some(s.(pixels := s.pixels[p := c], written := s.written[p := s.count])) else None
    case WEnd =>
      if s.count % 2 == 1 && s.header == Words(s.rect) && MayCount(s)
      then Some(s.(count := s.count + 1)) else None
    case PLoadGen =>
      if s.poll != Idle then None
      else
        var gen := s.count % WRAP;
        Some(if gen != s.lastGen && gen % 2 == 0 then s.(poll := Reading(gen, []), seenCount := s.count)
             else s.(poll := Publishing))
    case PLoadWord =>
      if s.poll.Reading? && |s.poll.words| < |s.header| == 4
      then Some(s.(poll := s.poll.(words := s.poll.words + [s.header[|s.poll.words|]]))) else None
    case PLoadAgain =>
      if s.poll.Reading? && |s.poll.words| == 4 && s.lastGen < WRAP && s.poll.gen < WRAP then
        var r := ChangedRegion(s.size, s.poll.words, s.lastGen, s.poll.gen, s.count % WRAP);
        Some(s.(union := Some(Grow(s.union, r)), lastGen := s.poll.gen, lastCount := s.seenCount, poll := Publishing))
      else None
    case PPublish(lockFree) =>
      if s.poll != Publishing then None
      else if !CanPublish(s.union, s.slot, lockFree) then Some(s.(poll := Idle))
      else Some(s.(slot := s.union, union := None, poll := Idle))
    case UTake =>
      if s.todo == {} && s.slot.Some?
      then Some(s.(slot := None, todo := PixelsOf(s.size, s.slot.value))) else None
    case UUpload(p) =>
      if p in s.todo && p in s.pixels
      then Some(s.(todo := s.todo - {p}, texture := s.texture[p := s.pixels[p]])) else None
  }

  /** A session begins with a load of the generation, in the middle of an update or not. */
  ghost predicate Init(s: State) {
    && s.size.width > 0 && s.size.height > 0 && |s.header| == 4
    && (forall p :: InSurface(s.size, p) ==> p in s.pixels)
    && s.lastGen == s.count % WRAP && s.lastCount == s.count
    && s.poll == Idle && s.union.None? && s.slot.None? && s.todo == {}
    && s.written == map[]
    && s.rects == if s.count % 2 == 1 then map[s.count := s.rect] else map[]
  }

  // ----- the coverage invariant -----

  /** Where a pixel the UI does not show yet will come from. */
  ghost predicate Covered(s: State, p: Pixel)
    requires p in s.written
  {
    || (p in s.texture && p in s.pixels && s.texture[p] == s.pixels[p])
    || p in s.todo
    || InBox(s.slot, p)
    || InBox(s.union, p)
    || (exists c :: Unseen(s, c, p))
  }

  /** Update `c` is not seen by the poller, and its rect covers `p`. */
  ghost predicate Unseen(s: State, c: nat, p: Pixel) {
    c in s.rects && c >= s.lastCount && Covers(s.size, s.rects[c], p)
  }

  ghost predicate Counters(s: State) {
    && s.lastGen == s.lastCount % WRAP
    && s.lastCount <= s.count < s.lastCount + WRAP
    && |s.header| == 4
    && (s.count % 2 == 1 ==> s.count in s.rects && s.rects[s.count] == s.rect)
    && (s.count % 2 == 0 && s.count >= 1 && s.count - 1 in s.rects ==> s.header == Words(s.rects[s.count - 1]))
    && (forall c :: c in s.rects ==> c <= s.count && c % 2 == 1)
  }

  ghost predicate PollOk(s: State) {
    s.poll.Reading? ==>
      && s.lastCount < s.seenCount <= s.count && s.seenCount % 2 == 0
      && s.poll.gen == s.seenCount % WRAP
      && |s.poll.words| <= 4 == |s.header|
      && (s.count == s.seenCount ==> s.poll.words == s.header[..|s.poll.words|])
  }

  /** `Covered`, with the unseen update named: the last one that wrote the pixel. */
  ghost predicate Owed(s: State, p: Pixel)
    requires p in s.written
  {
    || (p in s.texture && p in s.pixels && s.texture[p] == s.pixels[p])
    || p in s.todo
    || InBox(s.slot, p)
    || InBox(s.union, p)
    || s.written[p] >= s.lastCount
  }

  ghost predicate Inv(s: State) {
    && Counters(s) && PollOk(s)
    && (forall p :: InSurface(s.size, p) ==> p in s.pixels)
    && (forall p :: p in s.todo ==> InSurface(s.size, p))
    && (forall p :: p in s.written ==> s.written[p] in s.rects && Covers(s.size, s.rects[s.written[p]], p))
    && (forall p :: p in s.written ==> Owed(s, p))
  }

  lemma WriterKeepsInv(s: State, a: Action)
    requires Inv(s) && Step(s, a).Some? && (a.WBegin? || a.WWord? || a.WPixel? || a.WEnd?)
    ensures Inv(Step(s, a).value)
  {
    var t := Step(s, a).value;
    forall p | p in t.written ensures Owed(t, p) {
      if p in s.written {
        assert Owed(s, p);
      }
    }
  }

  /** With fewer than 2^32 counter steps unseen, an equal generation is an equal count
      and a generation step of 2 is a count step of 2. */
  lemma NoAlias(last: nat, seen: nat, count: nat)
    requires last < seen <= count < last + WRAP
    ensures seen % WRAP == count % WRAP ==> seen == count
    ensures WrappingSub(seen % WRAP, last % WRAP) == 2 ==> seen == last + 2
  {
  }

  /** The region added for what the poller has seen covers every pixel written since. */
  lemma RegionCovers(s: State, p: Pixel)
    requires Inv(s) && s.poll.Reading? && |s.poll.words| == 4
    requires p in s.written && s.lastCount <= s.written[p] < s.seenCount
    ensures InRect(ChangedRegion(s.size, s.poll.words, s.lastGen, s.poll.gen, s.count % WRAP), p)
  {
    NoAlias(s.lastCount, s.seenCount, s.count);
    if WrappingSub(s.poll.gen, s.lastGen) == 2 && s.count % WRAP == s.poll.gen {
      assert s.written[p] == s.count - 1;
      assert s.poll.words == s.header == Words(s.rects[s.count - 1]);
    }
  }

  /** A poll that saw a single update to its end, and nothing after it, asks for no more than that
      update may have touched. */
  lemma OneUpdateIsTight(s: State)
    requires Inv(s) && Step(s, PLoadAgain).Some? && s.union.None?
    requires s.count == s.seenCount == s.lastCount + 2 && s.count - 1 in s.rects
    ensures var t := Step(s, PLoadAgain).value;
            forall p: Pixel :: InSurface(s.size, p) ==> (InBox(t.union, p) <==> Covers(s.size, s.rects[s.count - 1], p))
  {
    assert s.poll.words == s.header == Words(s.rects[s.count - 1]);
    SeenTwo(s.lastCount, s.count);
  }

  lemma SeenTwo(last: nat, count: nat)
    requires count == last + 2
    ensures WrappingSub(count % WRAP, last % WRAP) == 2
  {
  }

  lemma LoadAgainKeepsInv(s: State)
    requires Inv(s) && Step(s, PLoadAgain).Some?
    ensures Inv(Step(s, PLoadAgain).value)
  {
    var t := Step(s, PLoadAgain).value;
    forall p | p in t.written ensures Owed(t, p) {
      assert Owed(s, p);
      if s.lastCount <= s.written[p] < s.seenCount {
        RegionCovers(s, p);
      }
    }
  }

  /** Steps that leave the pixels, their history and the union, slot and upload alone. */
  lemma OwedFrame(s: State, t: State)
    requires Inv(s) && t == s.(poll := t.poll, seenCount := t.seenCount) && PollOk(t)
    ensures Inv(t)
  {
    forall p | p in t.written ensures Owed(t, p) {
      assert Owed(s, p);
    }
  }

  lemma LoadKeepsInv(s: State, a: Action)
    requires Inv(s) && Step(s, a).Some? && (a.PLoadGen? || a.PLoadWord?)
    ensures Inv(Step(s, a).value)
  {
    var t := Step(s, a).value;
    assert PollOk(t) by {
      NoAlias2(s.lastCount, s.count);
      if a.PLoadWord? {
        var k := |s.poll.words|;
        assert s.header[..k + 1] == s.header[..k] + [s.header[k]];
      }
    }
    OwedFrame(s, t);
  }

  lemma PublishKeepsInv(s: State, a: Action)
    requires Inv(s) && Step(s, a).Some? && a.PPublish?
    ensures Inv(Step(s, a).value)
  {
    hide InBox, Covers, InSurface, Grow, ChangedRegion;
    var t := Step(s, a).value;
    forall p | p in t.written ensures Owed(t, p) {
      assert Owed(s, p);
      NoBox(p);
    }
  }

  lemma NoBox(p: Pixel)
    ensures !InBox(None, p)
  {
  }

  lemma NoAlias2(last: nat, count: nat)
    requires last <= count < last + WRAP
    ensures count % WRAP == last % WRAP ==> count == last
    ensures count % WRAP % 2 == count % 2
  {
  }

  lemma UiKeepsInv(s: State, a: Action)
    requires Inv(s) && Step(s, a).Some? && (a.UTake? || a.UUpload?)
    ensures Inv(Step(s, a).value)
  {
    var t := Step(s, a).value;
    forall p | p in t.written ensures Owed(t, p) {
      assert Owed(s, p);
    }
  }

  lemma StepKeepsInv(s: State, a: Action)
    requires Inv(s) && Step(s, a).Some?
    ensures Inv(Step(s, a).value)
  {
    hide Inv;
    if a.WBegin? || a.WWord? || a.WPixel? || a.WEnd? {
      WriterKeepsInv(s, a);
    } else if a.UTake? || a.UUpload? {
      UiKeepsInv(s, a);
    } else if a.PLoadAgain? {
      LoadAgainKeepsInv(s);
    } else if a.PPublish? {
      PublishKeepsInv(s, a);
    } else {
      LoadKeepsInv(s, a);
    }
  }

  // ----- main results -----

  lemma InitIsInv(s: State)
    requires Init(s)
    ensures Inv(s)
  {
  }

  lemma RunKeepsInv(s: State, acts: seq<Action>)
    requires Init(s) && Exec(Step, s, acts).Some?
    ensures Inv(Exec(Step, s, acts).value)
  {
    hide Init, Inv, Step;
    InitIsInv(s);
    forall t, a | Inv(t) && Always(t, a) && Step(t, a).Some? ensures Inv(Step(t, a).value) {
      StepKeepsInv(t, a);
    }
    RunKeeps(Step, Always, Inv, s, acts);
  }

  lemma OwedIsCovered(s: State, p: Pixel)
    requires Inv(s) && p in s.written
    ensures Covered(s, p)
  {
    assert Owed(s, p);
    if s.written[p] >= s.lastCount {
      assert Unseen(s, s.written[p], p);
    }
  }

  /** In every interleaving, each pixel written since the session began matches the
      texture, or lies in the upload under way, the posted rect, the kept union, or the
      rect of an update the poller has not seen. */
  lemma NoPixelIsForgotten(s: State, acts: seq<Action>)
    requires Init(s) && Exec(Step, s, acts).Some?
    ensures var t := Exec(Step, s, acts).value;
            Inv(t) && forall p :: p in t.written ==> Covered(t, p)
  {
    hide Init, Inv, Step, Exec, Covered;
    RunKeepsInv(s, acts);
    var t := Exec(Step, s, acts).value;
    forall p | p in t.written ensures Covered(t, p) {
      OwedIsCovered(t, p);
    }
  }

  /** Nothing is left to collect, post or upload. */
  ghost predicate Drained(s: State) {
    s.count % 2 == 0 && s.lastCount == s.count && s.union.None? && s.slot.None? && s.todo == {}
  }

  lemma DrainedMatches(t: State)
    requires Inv(t) && Drained(t)
    ensures forall p :: p in t.written ==> p in t.texture && p in t.pixels && t.texture[p] == t.pixels[p]
  {
    forall p | p in t.written ensures p in t.texture && p in t.pixels && t.texture[p] == t.pixels[p] {
      assert Owed(t, p);
      assert t.written[p] <= t.count && t.written[p] % 2 == 1;
    }
  }

  /** Once the writer has stopped and the UI has drained, every pixel written since the
      session began is on screen. */
  lemma DrainedScreenMatches(s: State, acts: seq<Action>)
    requires Init(s) && Exec(Step, s, acts).Some? && Drained(Exec(Step, s, acts).value)
    ensures var t := Exec(Step, s, acts).value;
            forall p :: p in t.written ==> p in t.texture && p in t.pixels && t.texture[p] == t.pixels[p]
  {
    hide Inv, Exec, Drained;
    NoPixelIsForgotten(s, acts);
    DrainedMatches(Exec(Step, s, acts).value);
  }

  // ----- draining is always possible -----

  predicate ReaderSide(a: Action) {
    a.PLoadGen? || a.PLoadWord? || a.PLoadAgain? || a.PPublish? || a.UTake? || a.UUpload?
  }

  /** A run of poller and UI steps from one good state to another. */
  ghost predicate Drains(s: State, acts: seq<Action>, t: State) {
    Exec(Step, s, acts) == Some(t) && Inv(t) && t.count == s.count
    && forall a :: a in acts ==> ReaderSide(a)
  }

  lemma DrainsNothing(s: State)
    requires Inv(s)
    ensures Drains(s, [], s)
  {
  }

  lemma DrainStep(s: State, acts: seq<Action>, t: State, a: Action) returns (more: seq<Action>, u: State)
    requires Drains(s, acts, t) && ReaderSide(a) && Step(t, a).Some?
    ensures Some(u) == Step(t, a) && Drains(s, more, u)
  {
    more, u := Then(Step, s, acts, t, a);
    StepKeepsInv(t, a);
  }

  /** The UI finishes its upload. */
  lemma {:induction false} UploadAll(s: State, acts: seq<Action>, t: State) returns (more: seq<Action>, u: State)
    requires Drains(s, acts, t)
    ensures Drains(s, more, u) && u == t.(todo := {}, texture := u.texture)
    decreases t.todo
  {
    if t.todo == {} {
      more, u := acts, t;
    } else {
      var p :| p in t.todo;
      more, u := DrainStep(s, acts, t, UUpload(p));
      more, u := UploadAll(s, more, u);
    }
  }

  /** The UI takes and uploads whatever is posted. */
  lemma UploadPosted(s: State, acts: seq<Action>, t: State) returns (more: seq<Action>, u: State)
    requires Drains(s, acts, t)
    ensures Drains(s, more, u) && u == t.(todo := {}, texture := u.texture, slot := None)
  {
    hide Drains;
    more, u := UploadAll(s, acts, t);
    if u.slot.Some? {
      more, u := DrainStep(s, more, u, UTake);
      more, u := UploadAll(s, more, u);
    }
  }

  lemma {:induction false} LoadWords(s: State, acts: seq<Action>, t: State) returns (more: seq<Action>, u: State)
    requires Drains(s, acts, t) && t.poll.Reading?
    ensures Drains(s, more, u) && u.poll.Reading? && |u.poll.words| == 4
    ensures u == t.(poll := u.poll)
    decreases 4 - |t.poll.words|
  {
    if |t.poll.words| == 4 {
      more, u := acts, t;
    } else {
      more, u := DrainStep(s, acts, t, PLoadWord);
      more, u := LoadWords(s, more, u);
    }
  }

  /** The poller finishes its read. */
  lemma FinishRead(s: State, acts: seq<Action>, t: State) returns (more: seq<Action>, u: State)
    requires Drains(s, acts, t) && t.poll.Reading?
    ensures Drains(s, more, u) && u.poll.Publishing? && u.todo == t.todo && u.slot == t.slot
    ensures u.lastCount == t.seenCount
  {
    hide ChangedRegion, Covers, Grow;
    more, u := LoadWords(s, acts, t);
    assert u.lastGen < WRAP && u.poll.gen < WRAP;
    more, u := DrainStep(s, more, u, PLoadAgain);
  }

  /** The poller finishes its tick; with an empty slot it posts what it has. */
  lemma FinishTick(s: State, acts: seq<Action>, t: State) returns (more: seq<Action>, u: State)
    requires Drains(s, acts, t) && t.slot.None? && t.poll != Idle
    ensures Drains(s, more, u) && u.poll == Idle && u.union.None? && u.todo == t.todo
    ensures u.lastCount == if t.poll.Reading? then t.seenCount else t.lastCount
  {
    hide Drains, ChangedRegion, Covers, Grow;
    more, u := acts, t;
    if t.poll.Reading? {
      more, u := FinishRead(s, more, u);
    }
    more, u := DrainStep(s, more, u, PPublish(true));
  }

  /** A whole tick: it sees the latest generation, which the writer left even. */
  lemma WholeTick(s: State, acts: seq<Action>, t: State) returns (more: seq<Action>, u: State)
    requires Drains(s, acts, t) && t.slot.None? && t.poll == Idle && t.count % 2 == 0
    ensures Drains(s, more, u) && u.poll == Idle && u.union.None? && u.todo == t.todo && u.lastCount == u.count
  {
    NoAlias2(t.lastCount, t.count);
    more, u := DrainStep(s, acts, t, PLoadGen);
    more, u := FinishTick(s, more, u);
  }

  /** From every reachable state in which the writer has stopped between two updates,
      the poller and the UI can run to a state with nothing left to upload. */
  lemma ReadersCanDrain(s: State) returns (acts: seq<Action>)
    requires Inv(s) && s.count % 2 == 0
    ensures forall a :: a in acts ==> ReaderSide(a)
    ensures Exec(Step, s, acts).Some? && Drained(Exec(Step, s, acts).value)
    ensures var t := Exec(Step, s, acts).value;
            forall p :: p in t.written ==> p in t.texture && p in t.pixels && t.texture[p] == t.pixels[p]
  {
    DrainsNothing(s);
    var t;
    acts, t := UploadPosted(s, [], s);
    if t.poll != Idle {
      acts, t := FinishTick(s, acts, t);
      acts, t := UploadPosted(s, acts, t);
    }
    acts, t := WholeTick(s, acts, t);
    acts, t := UploadPosted(s, acts, t);
    DrainedMatches(t);
  }
}
