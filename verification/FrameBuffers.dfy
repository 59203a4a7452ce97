/** The jog reader's two shared image buffers (`FrameBuffers` in
    `crates/cdj3k-emu-streams/src/jog_stream.rs`). The references that readers hold are
    counted per image; `Arc::get_mut` succeeds when the buffer's own reference is the
    only one. */
module FrameBuffers {

  type Pixels = seq<int>

  class Image {
    var pixels: Pixels

    constructor (pixels: Pixels)
      ensures this.pixels == pixels
    {
      this.pixels := pixels;
    }
  }

  class FrameBuffers {
    var buf0: Image
    var buf1: Image
    var next: nat
    /** The references readers hold. */
    var held: multiset<Image>
    /** A blank frame's pixels. */
    const blank: Pixels
    /** Each image's contents when it was last published. */
    ghost var published: map<Image, Pixels>

    /** The two buffers differ, and every image a reader holds has the contents it was
        published with. */
    ghost predicate Valid()
      reads this, set h | h in held
    {
      && buf0 != buf1 && next < 2
      && (forall h :: h in held ==> h in published && h.pixels == published[h])
    }

    function Current(): Image
      reads this
    {
      if next == 0 then buf0 else buf1
    }

    /** The number of references to `img`. */
    function Strong(img: Image): nat
      reads this
    {
      held[img] + (if img == buf0 then 1 else 0) + (if img == buf1 then 1 else 0)
    }

    constructor (blank: Pixels)
      ensures Valid() && held == multiset{} && fresh(buf0) && fresh(buf1)
    {
      buf0 := new Image(blank);
      buf1 := new Image(blank);
      this.blank := blank;
      next, held, published := 0, multiset{}, map[];
    }

    /** A buffer that no reader holds: the next one if it is free, else the other one,
        else a fresh one that replaces the other one. */
    method Writable() returns (img: Image)
      requires Valid()
      modifies this`buf0, this`buf1, this`next
      ensures Valid() && img == Current() && Strong(img) == 1 && img !in held
      ensures old(Current() !in held) ==> img == old(Current())
      ensures old(buf0 !in held || buf1 !in held) ==> img in {old(buf0), old(buf1)}
      ensures {buf0, buf1} <= {old(buf0), old(buf1)} || (fresh(img) && img.pixels == blank)
      ensures fresh({buf0, buf1} - {old(buf0), old(buf1)})
    {
      if Strong(Current()) != 1 {
        next := 1 - next;
        if Strong(Current()) != 1 {
          var b := new Image(blank);
          if next == 0 { buf0 := b; } else { buf1 := b; }
        }
      }
      img := Current();
    }

    /** Writes a frame into the buffer `Writable` returned. */
    method Store(frame: Pixels)
      requires Valid() && Strong(Current()) == 1
      modifies Current()
      ensures Valid() && Current().pixels == frame
    {
      Current().pixels := frame;
    }

    /** Hands out the buffer just written and moves on to the other. */
    method Publish() returns (img: Image)
      requires Valid()
      modifies this`next, this`held, this`published
      ensures Valid() && next == 1 - old(next)
      ensures img == old(Current()) && held == old(held) + multiset{img}
      ensures published == old(published)[img := img.pixels]
    {
      img := Current();
      held := held + multiset{img};
      published := published[img := img.pixels];
      next := 1 - next;
    }

    /** A reader drops one reference. */
    method Release(img: Image)
      requires Valid() && img in held
      modifies this`held
      ensures Valid() && held == old(held) - multiset{img}
    {
      held := held - multiset{img};
    }

    /** One poll: a stable copy is published, a torn one is left in the buffer. Either
        way no image that a reader holds changes. */
    method Poll(frame: Pixels, stable: bool) returns (img: Image)
      requires Valid()
      modifies this, buf0, buf1
      ensures Valid() && fresh({buf0, buf1} - {old(buf0), old(buf1)})
      ensures stable ==> img.pixels == frame && held == old(held) + multiset{img}
      ensures stable ==> fresh(img) || img in {old(buf0), old(buf1)}
      ensures !stable ==> held == old(held)
      ensures forall h :: h in old(held) ==> h.pixels == old(h.pixels)
    {
      img := Writable();
      Store(frame);
      if stable {
        img := Publish();
      }
    }
  }

  datatype Op =
    /** A poll that found a stable frame: writes it and publishes it. */
    | Frame(pixels: Pixels)
    /** A poll whose copy failed: the buffer is overwritten and not published. */
    | Torn(pixels: Pixels)
    /** A reader lets go of one of the images still held. */
    | Drop(index: nat)

  /** The frames the readers hold, oldest first, after one more operation. */
  function After(shown: seq<Pixels>, op: Op): seq<Pixels> {
    match op
    case Frame(pixels) => shown + [pixels]
    case Torn(_) => shown
    case Drop(i) => if i < |shown| then shown[..i] + shown[i + 1..] else shown
  }

  /** The frames the readers hold after `ops`: each stable frame, unless it was dropped. */
  function Shown(ops: seq<Op>): seq<Pixels> {
    if ops == [] then [] else After(Shown(ops[..|ops| - 1]), ops[|ops| - 1])
  }

  ghost predicate Holds(b: FrameBuffers, readers: seq<Image>, shown: seq<Pixels>)
    reads b, readers, set h | h in b.held
  {
    && b.Valid() && b.held == multiset(readers) && |readers| == |shown|
    && forall i :: 0 <= i < |readers| ==> readers[i].pixels == shown[i]
  }

  lemma DropOne(readers: seq<Image>, i: nat)
    requires i < |readers|
    ensures readers[i] in multiset(readers)
    ensures multiset(readers) - multiset{readers[i]} == multiset(readers[..i] + readers[i + 1..])
  {
    assert readers == readers[..i] + [readers[i]] + readers[i + 1..];
  }

  method ApplyDrop(b: FrameBuffers, readers: seq<Image>, i: nat, ghost shown: seq<Pixels>) returns (r: seq<Image>)
    requires Holds(b, readers, shown)
    modifies b`held
    ensures Holds(b, r, After(shown, Drop(i)))
  {
    r := readers;
    if i < |readers| {
      DropOne(readers, i);
      b.Release(readers[i]);
      r := readers[..i] + readers[i + 1..];
    }
  }

  method ApplyPoll(b: FrameBuffers, readers: seq<Image>, op: Op, ghost shown: seq<Pixels>) returns (r: seq<Image>)
    requires Holds(b, readers, shown) && !op.Drop?
    modifies b, b.buf0, b.buf1
    ensures Holds(b, r, After(shown, op))
    ensures fresh({b.buf0, b.buf1} - {old(b.buf0), old(b.buf1)})
  {
    assert forall i :: 0 <= i < |readers| ==> readers[i] in multiset(readers);
    var img := b.Poll(op.pixels, op.Frame?);
    r := if op.Frame? then readers + [img] else readers;
  }

  lemma NothingShown()
    ensures Shown([]) == []
  {
  }

  lemma ShownNext(ops: seq<Op>, k: nat)
    requires k < |ops|
    ensures Shown(ops[..k + 1]) == After(Shown(ops[..k]), ops[k])
  {
    assert ops[..k + 1][..k] == ops[..k];
  }

  /** Any sequence of polls and reader drops: what the readers hold is always what was
      published, whatever was written since. */
  method Session(ops: seq<Op>, blank: Pixels) returns (readers: seq<Image>)
    ensures |readers| == |Shown(ops)|
    ensures forall i :: 0 <= i < |readers| ==> readers[i].pixels == Shown(ops)[i]
  {
    hide After, Shown;
    var b := new FrameBuffers(blank);
    readers := [];
    assert ops[..0] == [];
    NothingShown();
    for k := 0 to |ops|
      invariant Holds(b, readers, Shown(ops[..k])) && fresh({b, b.buf0, b.buf1})
    {
      ShownNext(ops, k);
      if ops[k].Drop? {
        readers := ApplyDrop(b, readers, ops[k].index, Shown(ops[..k]));
      } else {
        readers := ApplyPoll(b, readers, ops[k], Shown(ops[..k]));
      }
    }
    assert ops[..|ops|] == ops;
  }
}
