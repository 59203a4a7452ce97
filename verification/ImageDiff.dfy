/** Pixel comparison of two images (`crates/cdj3k-emu-control/src/diff.rs`): `compare`, which
    skips over equal rows and keeps running bounds, against `for_each_pixel`, which says of
    every pixel whether it is masked, changed or the same. */
module ImageDiff {
  import opened Bytes
  import opened Optional

  /** An 8-bit RGBA image, rows top to bottom. */
  datatype Image = Image(width: U32, height: U32, rgba: Bytes) {
    predicate Valid() { |rgba| == width * height * 4 }
  }

  /** Whether a region holds pixel (x, y) of an image w by h pixels. */
  type Area = (nat, nat, nat, nat) -> bool

  datatype Options = Options(threshold: Byte, masks: seq<Area>, region: Option<Area>) {
    predicate Masked(x: nat, y: nat, w: nat, h: nat) {
      (region.Some? && !region.value(x, y, w, h)) || exists i :: 0 <= i < |masks| && masks[i](x, y, w, h)
    }

    predicate MasksAnything() { region.Some? || masks != [] }

    /** Any channel differs by more than the threshold. */
    predicate Differs(a: Bytes, b: Bytes)
      requires |a| == |b|
    {
      exists i :: 0 <= i < |a| && Distance(a[i], b[i]) > threshold
    }
  }

  function Distance(p: Byte, q: Byte): nat { if p < q then q - p else p - q }

  datatype Pixel = Same | Changed | Masked

  datatype Call = Call(x: nat, y: nat, kind: Pixel)

  datatype Report = Report(width: nat, height: nat, compared: nat, changed: nat, bbox: Option<Box>)

  datatype Box = Box(x: nat, y: nat, width: nat, height: nat) {
    predicate Holds(px: nat, py: nat) { x <= px < x + width && y <= py < y + height }
  }

  predicate Comparable(r: Image, a: Image) {
    r.Valid() && a.Valid() && r.width == a.width && r.height == a.height
  }

  // ---- One pixel ----

  lemma PixelInside(w: nat, h: nat, x: nat, y: nat)
    requires x < w && y < h
    ensures 0 <= y * w && (y * w + x) * 4 + 4 <= (y + 1) * w * 4 <= w * h * 4
  {
    assert (y + 1) * w <= h * w;
  }

  function PixelAt(img: Image, x: nat, y: nat): (p: Bytes)
    requires img.Valid() && x < img.width && y < img.height
    ensures |p| == 4
  {
    PixelInside(img.width, img.height, x, y);
    var i := (y * img.width + x) * 4;
    img.rgba[i..i + 4]
  }

  function KindOf(r: Image, a: Image, o: Options, x: nat, y: nat): Pixel
    requires Comparable(r, a) && x < a.width && y < a.height
  {
    if o.Masked(x, y, a.width, a.height) then Masked
    else if o.Differs(PixelAt(r, x, y), PixelAt(a, x, y)) then Changed
    else Same
  }

  // ---- Every pixel, row by row ----

  function RowCalls(r: Image, a: Image, o: Options, y: nat, n: nat): (c: seq<Call>)
    requires Comparable(r, a) && y < a.height && n <= a.width
    ensures |c| == n && forall x :: 0 <= x < n ==> c[x] == Call(x, y, KindOf(r, a, o, x, y))
  {
    seq(n, x requires 0 <= x < n => Call(x, y, KindOf(r, a, o, x, y)))
  }

  function Calls(r: Image, a: Image, o: Options, n: nat): seq<Call>
    requires Comparable(r, a) && n <= a.height
  {
    if n == 0 then [] else Calls(r, a, o, n - 1) + RowCalls(r, a, o, n - 1, a.width)
  }

  /** The calls `for_each_pixel` makes. */
  method ForEachPixel(r: Image, a: Image, o: Options) returns (calls: seq<Call>)
    requires Comparable(r, a)
    ensures calls == Calls(r, a, o, a.height)
  {
    hide KindOf;
    calls := [];
    for y := 0 to a.height
      invariant calls == Calls(r, a, o, y)
    {
      ghost var before := calls;
      for x := 0 to a.width
        invariant calls == before + RowCalls(r, a, o, y, x)
      {
        var kind := PixelKind(r, a, o, x, y);
        calls := calls + [Call(x, y, kind)];
        assert RowCalls(r, a, o, y, x + 1) == RowCalls(r, a, o, y, x) + [Call(x, y, kind)];
      }
    }
  }

  method PixelKind(r: Image, a: Image, o: Options, x: nat, y: nat) returns (kind: Pixel)
    requires Comparable(r, a) && x < a.width && y < a.height
    ensures kind == KindOf(r, a, o, x, y)
  {
    if o.Masked(x, y, a.width, a.height) {
      return Masked;
    }
    PixelInside(a.width, a.height, x, y);
    var i := (y * a.width + x) * 4;
    return if o.Differs(r.rgba[i..i + 4], a.rgba[i..i + 4]) then Changed else Same;
  }

  /** Each pixel is called once: call y * w + x is that of pixel (x, y). */
  lemma {:induction false} CallsAt(r: Image, a: Image, o: Options, n: nat, x: nat, y: nat)
    requires Comparable(r, a) && n <= a.height && x < a.width && y < n
    ensures |Calls(r, a, o, n)| == n * a.width
    ensures 0 <= y * a.width + x < n * a.width
    ensures Calls(r, a, o, n)[y * a.width + x] == Call(x, y, KindOf(r, a, o, x, y))
  {
    hide KindOf;
    PixelInside(a.width, n, x, y);
    if n > 1 {
      CallsAt(r, a, o, n - 1, x, if y < n - 1 then y else 0);
    }
    assert n * a.width == (n - 1) * a.width + a.width;
  }

  // ---- What a pixel's kind means ----

  /** One of the eight channel bytes: red, green, blue and alpha of the pixel in each image. */
  function Channel(img: Image, x: nat, y: nat, c: nat): nat
    requires img.Valid() && x < img.width && y < img.height && c < 4
  {
    PixelInside(img.width, img.height, x, y);
    img.rgba[(y * img.width + x) * 4 + c]
  }

  predicate FarApart(p: nat, q: nat, threshold: nat) { p > q + threshold || q > p + threshold }

  /** The pixel is outside the region of interest, or inside a mask. */
  predicate LeftOut(o: Options, x: nat, y: nat, w: nat, h: nat) {
    || (o.region != None && o.region.value(x, y, w, h) == false)
    || (exists i :: 0 <= i < |o.masks| && o.masks[i](x, y, w, h) == true)
  }

  predicate AnyFarApart(r: Image, a: Image, x: nat, y: nat, threshold: nat)
    requires Comparable(r, a) && x < a.width && y < a.height
  {
    exists c: nat :: c < 4 && FarApart(Channel(r, x, y, c), Channel(a, x, y, c), threshold)
  }

  /** A pixel is masked exactly when it is left out, and changed exactly when it is not and one of its
      four channels is further apart in the two images than the threshold. */
  lemma PixelMeans(r: Image, a: Image, o: Options, x: nat, y: nat)
    requires Comparable(r, a) && x < a.width && y < a.height
    ensures KindOf(r, a, o, x, y) == Masked <==> LeftOut(o, x, y, a.width, a.height)
    ensures KindOf(r, a, o, x, y) == Changed <==>
            !LeftOut(o, x, y, a.width, a.height) && AnyFarApart(r, a, x, y, o.threshold)
  {
    hide PixelAt, Channel, Options.Differs;
    DiffersMeans(r, a, o, x, y);
  }

  lemma ChannelIs(img: Image, x: nat, y: nat, c: nat)
    requires img.Valid() && x < img.width && y < img.height && c < 4
    ensures PixelAt(img, x, y)[c] == Channel(img, x, y, c)
  {
    PixelInside(img.width, img.height, x, y);
    SliceAt(img.rgba, (y * img.width + x) * 4, c);
  }

  lemma SliceAt(s: Bytes, i: nat, c: nat)
    requires i + 4 <= |s| && c < 4
    ensures s[i..i + 4][c] == s[i + c]
  {
  }

  lemma DiffersMeans(r: Image, a: Image, o: Options, x: nat, y: nat)
    requires Comparable(r, a) && x < a.width && y < a.height
    ensures o.Differs(PixelAt(r, x, y), PixelAt(a, x, y)) <==> AnyFarApart(r, a, x, y, o.threshold)
  {
    hide PixelAt, Channel;
    var p, q := PixelAt(r, x, y), PixelAt(a, x, y);
    forall c: nat | c < 4
      ensures Distance(p[c], q[c]) > o.threshold <==> FarApart(Channel(r, x, y, c), Channel(a, x, y, c), o.threshold)
    {
      ChannelIs(r, x, y, c);
      ChannelIs(a, x, y, c);
    }
  }

  /** A box covers the calls exactly when it holds every pixel that changed. */
  lemma CoversMeans(r: Image, a: Image, o: Options, b: Box)
    requires Comparable(r, a)
    ensures Covers(b, Calls(r, a, o, a.height)) <==>
            forall x: nat, y: nat :: x < a.width && y < a.height && KindOf(r, a, o, x, y).Changed? ==> b.Holds(x, y)
  {
    hide KindOf, Calls;
    var calls := Calls(r, a, o, a.height);
    if Covers(b, calls) {
      forall x: nat, y: nat | x < a.width && y < a.height && KindOf(r, a, o, x, y).Changed? ensures b.Holds(x, y) {
        CallsAt(r, a, o, a.height, x, y);
      }
    } else {
      var i :| 0 <= i < |calls| && calls[i].kind.Changed? && !b.Holds(calls[i].x, calls[i].y);
      CallsAreOfPixels(r, a, o, a.height, i);
    }
  }

  lemma {:induction false} CallsAreOfPixels(r: Image, a: Image, o: Options, n: nat, i: nat)
    requires Comparable(r, a) && n <= a.height && i < |Calls(r, a, o, n)|
    ensures var c := Calls(r, a, o, n)[i]; c.x < a.width && c.y < n && c.kind == KindOf(r, a, o, c.x, c.y)
  {
    hide KindOf;
    if i < |Calls(r, a, o, n - 1)| {
      CallsAreOfPixels(r, a, o, n - 1, i);
    }
  }

  // ---- The running totals ----

  /** compare's counters and bounds. */
  datatype Tally = Tally(compared: nat, changed: nat, x0: nat, y0: nat, x1: nat, y1: nat)

  const U32_MAX: nat := 0xffff_ffff
  const NO_TALLY: Tally := Tally(0, 0, U32_MAX, U32_MAX, 0, 0)

  function Add(t: Tally, c: Call): Tally {
    match c.kind
    case Masked => t
    case Same => t.(compared := t.compared + 1)
    case Changed => Tally(t.compared + 1, t.changed + 1, Min(t.x0, c.x), Min(t.y0, c.y), Max(t.x1, c.x), Max(t.y1, c.y))
  }

  function TallyOf(calls: seq<Call>): Tally {
    if calls == [] then NO_TALLY else Add(TallyOf(calls[..|calls| - 1]), calls[|calls| - 1])
  }

  lemma TallySnoc(calls: seq<Call>, c: Call)
    ensures TallyOf(calls + [c]) == Add(TallyOf(calls), c)
  {
    assert (calls + [c])[..|calls|] == calls;
  }

  /** The number of calls of one kind. */
  function Count(calls: seq<Call>, kind: Pixel): nat {
    if calls == [] then 0
    else Count(calls[..|calls| - 1], kind) + if calls[|calls| - 1].kind == kind then 1 else 0
  }

  function ReportOf(t: Tally, w: nat, h: nat): Report
    requires t.changed > 0 ==> t.x0 <= t.x1 && t.y0 <= t.y1
  {
    Report(w, h, t.compared, t.changed,
           if t.changed > 0 then Some(Box(t.x0, t.y0, t.x1 - t.x0 + 1, t.y1 - t.y0 + 1)) else None)
  }

  predicate Covers(b: Box, calls: seq<Call>) {
    forall i :: 0 <= i < |calls| && calls[i].kind.Changed? ==> b.Holds(calls[i].x, calls[i].y)
  }

  predicate Inside(b: Box, c: Box) {
    c.x <= b.x && c.y <= b.y && b.x + b.width <= c.x + c.width && b.y + b.height <= c.y + c.height
  }

  /** The bounds hold every changed pixel, and each of the four is some changed pixel's. */
  ghost predicate Bounds(t: Tally, calls: seq<Call>) {
    && (forall i :: 0 <= i < |calls| && calls[i].kind.Changed? ==>
          t.x0 <= calls[i].x <= t.x1 && t.y0 <= calls[i].y <= t.y1)
    && (exists i :: 0 <= i < |calls| && calls[i].kind.Changed? && calls[i].x == t.x0)
    && (exists i :: 0 <= i < |calls| && calls[i].kind.Changed? && calls[i].x == t.x1)
    && (exists i :: 0 <= i < |calls| && calls[i].kind.Changed? && calls[i].y == t.y0)
    && (exists i :: 0 <= i < |calls| && calls[i].kind.Changed? && calls[i].y == t.y1)
  }

  predicate Small(calls: seq<Call>) {
    forall i :: 0 <= i < |calls| ==> calls[i].x <= U32_MAX && calls[i].y <= U32_MAX
  }

  /** The count is a number of calls: how many there are of the kind. */
  lemma {:induction false} CountIsCardinality(calls: seq<Call>, kind: Pixel)
    ensures Count(calls, kind) == |set i | 0 <= i < |calls| && calls[i].kind == kind|
  {
    if calls != [] {
      var k := |calls| - 1;
      CountIsCardinality(calls[..k], kind);
      IndicesSnoc(calls, kind);
    }
  }

  lemma IndicesSnoc(calls: seq<Call>, kind: Pixel)
    requires calls != []
    ensures var k := |calls| - 1;
            var front := set i | 0 <= i < k && calls[..k][i].kind == kind;
            k !in front
            && (set i | 0 <= i < |calls| && calls[i].kind == kind) ==
               if calls[k].kind == kind then front + {k} else front
  {
  }

  lemma {:induction false} TallyCounts(calls: seq<Call>)
    ensures var t := TallyOf(calls);
            t.compared == |calls| - Count(calls, Masked) && t.changed == Count(calls, Changed)
    ensures Count(calls, Changed) == 0 ==> forall i :: 0 <= i < |calls| ==> !calls[i].kind.Changed?
  {
    if calls != [] {
      TallyCounts(calls[..|calls| - 1]);
    }
  }

  lemma {:induction false} TallyBounds(calls: seq<Call>)
    requires Small(calls)
    ensures TallyOf(calls).changed == 0 ==> TallyOf(calls).(compared := 0) == NO_TALLY
    ensures TallyOf(calls).changed > 0 ==> Bounds(TallyOf(calls), calls)
  {
    if calls != [] {
      var k := |calls| - 1;
      var front, last := calls[..k], calls[k];
      TallyBounds(front);
      TallyCounts(front);
      if last.kind.Changed? {
        BoundsGrow(TallyOf(front), front, last);
      } else if TallyOf(front).changed > 0 {
        BoundsStay(TallyOf(front), front, last);
      }
      assert front + [last] == calls;
    }
  }

  lemma BoundsStay(t: Tally, front: seq<Call>, last: Call)
    requires Bounds(t, front) && !last.kind.Changed?
    ensures Bounds(Add(t, last), front + [last])
  {
    var calls := front + [last];
    assert forall i :: 0 <= i < |front| ==> calls[i] == front[i];
  }

  lemma BoundsGrow(t: Tally, front: seq<Call>, last: Call)
    requires last.kind.Changed? && last.x <= U32_MAX && last.y <= U32_MAX
    requires if t.changed > 0 then Bounds(t, front)
             else t.(compared := 0) == NO_TALLY && forall i :: 0 <= i < |front| ==> !front[i].kind.Changed?
    ensures Bounds(Add(t, last), front + [last])
  {
    var calls := front + [last];
    assert forall i :: 0 <= i < |front| ==> calls[i] == front[i];
    assert calls[|front|] == last;
  }

  /** What the report says of the calls: how many pixels were not masked, how many changed, and
      the smallest box that holds every changed one. */
  lemma ReportMeans(calls: seq<Call>, w: nat, h: nat)
    requires Small(calls)
    ensures var t := TallyOf(calls); t.changed > 0 ==> t.x0 <= t.x1 && t.y0 <= t.y1
    ensures var p := ReportOf(TallyOf(calls), w, h);
            && p.compared == |calls| - Count(calls, Masked) && p.changed == Count(calls, Changed)
            && (p.bbox.None? <==> p.changed == 0)
            && (p.bbox.Some? ==>
                  Covers(p.bbox.value, calls) && forall b :: Covers(b, calls) ==> Inside(p.bbox.value, b))
  {
    TallyCounts(calls);
    TallyBounds(calls);
    var t := TallyOf(calls);
    if t.changed > 0 {
      var i :| 0 <= i < |calls| && calls[i].kind.Changed? && calls[i].x == t.x0;
      var p := ReportOf(t, w, h);
      forall b | Covers(b, calls) ensures Inside(p.bbox.value, b) {
        BoundsInside(t, calls, b);
      }
    }
  }

  lemma BoundsInside(t: Tally, calls: seq<Call>, b: Box)
    requires Bounds(t, calls) && Covers(b, calls)
    ensures b.x <= t.x0 && b.y <= t.y0 && t.x1 < b.x + b.width && t.y1 < b.y + b.height
  {
  }

  // ---- The row shortcut ----

  /** How much of a row is compared when none of it changed. */
  function Unmasked(o: Options, y: nat, w: nat, h: nat, n: nat): nat {
    if n == 0 then 0 else Unmasked(o, y, w, h, n - 1) + if o.Masked(n - 1, y, w, h) then 0 else 1
  }

  lemma {:induction false} NoMasks(o: Options, y: nat, w: nat, h: nat, n: nat)
    requires !o.MasksAnything()
    ensures Unmasked(o, y, w, h, n) == n
  {
    if n > 0 {
      NoMasks(o, y, w, h, n - 1);
    }
  }

  function RowOf(img: Image, y: nat): Bytes
    requires img.Valid() && y < img.height
  {
    RowInside(img.width, img.height, y);
    img.rgba[y * img.width * 4..(y + 1) * img.width * 4]
  }

  lemma RowInside(w: nat, h: nat, y: nat)
    requires y < h
    ensures 0 <= y * w * 4 <= (y + 1) * w * 4 <= w * h * 4
  {
    assert 0 <= y * w;
    assert (y + 1) * w == y * w + w;
    assert (y + 1) * w <= h * w;
  }

  lemma EqualRowPixel(r: Image, a: Image, x: nat, y: nat)
    requires Comparable(r, a) && x < a.width && y < a.height && RowOf(r, y) == RowOf(a, y)
    ensures PixelAt(r, x, y) == PixelAt(a, x, y)
  {
    RowInside(a.width, a.height, y);
    PixelInside(a.width, a.height, x, y);
    var start, i := y * a.width * 4, (y * a.width + x) * 4;
    assert i == start + 4 * x;
    assert r.rgba[i..i + 4] == RowOf(r, y)[4 * x..4 * x + 4];
    assert a.rgba[i..i + 4] == RowOf(a, y)[4 * x..4 * x + 4];
  }

  /** In an equal row every pixel is masked or the same. */
  lemma EqualRowKind(r: Image, a: Image, o: Options, x: nat, y: nat)
    requires Comparable(r, a) && x < a.width && y < a.height && RowOf(r, y) == RowOf(a, y)
    ensures KindOf(r, a, o, x, y) == if o.Masked(x, y, a.width, a.height) then Masked else Same
  {
    hide RowOf, PixelAt;
    EqualRowPixel(r, a, x, y);
  }

  lemma {:induction false} EqualRowTally(r: Image, a: Image, o: Options, y: nat, n: nat, done: seq<Call>)
    requires Comparable(r, a) && y < a.height && n <= a.width && RowOf(r, y) == RowOf(a, y)
    ensures TallyOf(done + RowCalls(r, a, o, y, n)) ==
            TallyOf(done).(compared := TallyOf(done).compared + Unmasked(o, y, a.width, a.height, n))
  {
    hide RowOf, KindOf, TallyOf;
    if n == 0 {
      assert done + RowCalls(r, a, o, y, 0) == done;
    } else {
      EqualRowTally(r, a, o, y, n - 1, done);
      EqualRowKind(r, a, o, n - 1, y);
      RowCallsSnoc(r, a, o, y, n - 1);
      var front, c := RowCalls(r, a, o, y, n - 1), Call(n - 1, y, KindOf(r, a, o, n - 1, y));
      assert done + RowCalls(r, a, o, y, n) == done + front + [c];
      TallySnoc(done + front, c);
    }
  }

  lemma RowCallsSnoc(r: Image, a: Image, o: Options, y: nat, n: nat)
    requires Comparable(r, a) && y < a.height && n < a.width
    ensures RowCalls(r, a, o, y, n + 1) == RowCalls(r, a, o, y, n) + [Call(n, y, KindOf(r, a, o, n, y))]
  {
    hide KindOf;
  }

  // ---- compare ----

  /** None where the images differ in size. */
  method Compare(r: Image, a: Image, o: Options) returns (report: Option<Report>)
    requires r.Valid() && a.Valid()
    ensures report.None? <==> r.width != a.width || r.height != a.height
    ensures report.Some? ==>
              var calls, p := Calls(r, a, o, a.height), report.value;
              && p.width == a.width && p.height == a.height
              && p.compared == |calls| - Count(calls, Masked) && p.changed == Count(calls, Changed)
              && (p.bbox.None? <==> p.changed == 0)
              && (p.bbox.Some? ==>
                    Covers(p.bbox.value, calls) && forall b :: Covers(b, calls) ==> Inside(p.bbox.value, b))
  {
    hide KindOf, RowOf, TallyOf, Unmasked, Count, Covers, Inside;
    if r.width != a.width || r.height != a.height {
      return None;
    }
    var w, h := a.width, a.height;
    var t := NO_TALLY;
    EmptyTally();
    for y := 0 to h
      invariant t == TallyOf(Calls(r, a, o, y))
    {
      RowInside(w, h, y);
      if RowOf(r, y) == RowOf(a, y) {
        var n := if o.MasksAnything() then Unmasked(o, y, w, h, w) else w;
        if !o.MasksAnything() {
          NoMasks(o, y, w, h, w);
        }
        EqualRowTally(r, a, o, y, w, Calls(r, a, o, y));
        t := t.(compared := t.compared + n);
        continue;
      }
      t := CompareRow(r, a, o, y, t, Calls(r, a, o, y));
    }
    CallsAreSmall(r, a, o, h);
    ReportMeans(Calls(r, a, o, h), w, h);
    return Some(ReportOf(t, w, h));
  }

  lemma EmptyTally()
    ensures TallyOf([]) == NO_TALLY
  {
  }

  lemma {:induction false} CallsAreSmall(r: Image, a: Image, o: Options, n: nat)
    requires Comparable(r, a) && n <= a.height
    ensures Small(Calls(r, a, o, n))
  {
    hide KindOf;
    if n > 0 {
      CallsAreSmall(r, a, o, n - 1);
    }
  }

  /** The pixels of a row that is not equal, one by one. */
  method CompareRow(r: Image, a: Image, o: Options, y: nat, t: Tally, ghost done: seq<Call>) returns (u: Tally)
    requires Comparable(r, a) && y < a.height && t == TallyOf(done)
    ensures u == TallyOf(done + RowCalls(r, a, o, y, a.width))
  {
    hide KindOf, TallyOf;
    u := t;
    assert done + RowCalls(r, a, o, y, 0) == done;
    for x := 0 to a.width
      invariant u == TallyOf(done + RowCalls(r, a, o, y, x))
    {
      RowCallsSnoc(r, a, o, y, x);
      ghost var before := done + RowCalls(r, a, o, y, x);
      TallySnoc(before, Call(x, y, KindOf(r, a, o, x, y)));
      assert before + [Call(x, y, KindOf(r, a, o, x, y))] == done + RowCalls(r, a, o, y, x + 1);
      var kind := PixelKind(r, a, o, x, y);
      if kind.Masked? {
        continue;
      }
      u := u.(compared := u.compared + 1);
      if kind.Changed? {
        u := u.(changed := u.changed + 1,
                x0 := Min(u.x0, x), y0 := Min(u.y0, y), x1 := Max(u.x1, x), y1 := Max(u.y1, y));
      }
    }
  }
}
