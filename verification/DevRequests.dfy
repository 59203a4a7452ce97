/** The host's requests on their way to devd. A connection that ends delivers what was written on
    it up to some byte, so an item is a request or the first bytes of one, and the next
    connection begins with a ping. */
module DevRequests {
  import opened Bytes
  import opened Optional
  import opened Text
  import In = DevdInput

  /** The first `n` bytes of a request and its newline. */
  datatype Item = Item(request: In.Request, n: nat)

  function Full(r: In.Request): Item { Item(r, |In.Render(r)| + 1) }

  predicate Whole(i: Item) { i.n == |In.Render(i.request)| + 1 }

  /** A request for a job that is all there. */
  predicate Asks(i: Item) { Whole(i) && i.request.RunJob? }

  /** The number that an item which finds the buffer empty starts a job under, or would once completed. */
  function Named(i: Item): Option<nat> {
    var line := In.Render(i.request);
    In.Stub(line[..Min(i.n, |line|)])
  }

  predicate NamedBelow(i: Item, lim: nat) { Named(i).Some? ==> Named(i).value < lim }

  predicate ItemOk(i: Item) { In.Deliverable(i.request) && 0 < i.n <= |In.Render(i.request)| + 1 }

  function ItemBytes(i: Item): Bytes {
    var line := In.Render(i.request) + [In.NL];
    line[..Min(i.n, |line|)]
  }

  /** What devd's buffer makes of an item. */
  function Take(rx: Bytes, i: Item): In.Input { In.Feed(In.Input(rx, []), ItemBytes(i)) }

  predicate RxOk(rx: Bytes) { In.Plain(rx) && |rx| < In.FULL }

  lemma RenderIsPlain(r: In.Request)
    requires In.Deliverable(r)
    ensures In.Plain(In.Render(r))
  {
    hide Dec;
    match r
    case Ping =>
    case Kill(id) => DecIsPlain(id);
    case RunJob(id, cmd) => DecIsPlain(id);
  }

  lemma DecIsPlain(n: nat)
    ensures In.Plain(Dec(n))
  {
    hide Dec;
    DecPrefix(n, |Dec(n)|);
  }

  /** An item that finds the buffer empty. */
  lemma TakeFirst(i: Item)
    requires ItemOk(i)
    ensures Take([], i) == if Whole(i) then In.Input([], [In.Render(i.request)])
                           else In.Input(In.Render(i.request)[..i.n], [])
    ensures RxOk(Take([], i).rx)
  {
    hide In.Feed, In.Render, In.Deliverable;
    Short(i.request);
    var line := In.Render(i.request);
    RenderIsPlain(i.request);
    if Whole(i) {
      assert ItemBytes(i) == line + [In.NL];
      In.FeedLine([], line);
      assert [] + [line] == [line];
    } else {
      assert ItemBytes(i) == line[..i.n];
      In.FeedHeld([], line[..i.n]);
    }
  }

  lemma Short(r: In.Request)
    requires In.Deliverable(r)
    ensures |In.Render(r)| < In.FULL
  {
  }

  /** A ping, or a piece of one, that finds the start of a line in the buffer. */
  lemma TakeNext(rx: Bytes, i: Item)
    requires RxOk(rx) && ItemOk(i) && i.request == In.Ping
    ensures Take(rx, i) == if Whole(i) then In.Input([], [In.Joined(rx, In.PING)])
                           else In.Input(In.Joined(rx, In.PING[..i.n]), [])
    ensures RxOk(Take(rx, i).rx)
  {
    hide In.Feed;
    if Whole(i) {
      assert ItemBytes(i) == In.PING + [In.NL];
      In.FeedJoined(rx, In.PING);
    } else {
      assert ItemBytes(i) == In.PING[..i.n];
      In.FeedJoined(rx, In.PING[..i.n]);
    }
  }

  // ---- What is on its way ----

  /** The start of a line `y`, with a ping behind it, starts no job with a number from `lim` on. */
  predicate Below(y: Bytes, lim: nat) { In.Pending(y).Some? ==> In.Pending(y).value < lim }

  /** Each item is good, and names a number that was given; what follows a piece is a ping. */
  ghost predicate Ordered(rx: Bytes, items: seq<Item>, next: nat) {
    && (forall i :: 0 <= i < |items| ==> ItemOk(items[i]) && NamedBelow(items[i], next))
    && (forall i :: 0 < i < |items| && !Whole(items[i - 1]) ==> items[i].request == In.Ping)
    && (rx != [] && items != [] ==> items[0].request == In.Ping)
  }

  /** Along the items, the buffer never names a number from `next` on, and never one from `born` on
      when a line is completed. */
  predicate Numbers(rx: Bytes, items: seq<Item>, born: nat, next: nat)
    decreases |items|
  {
    && RxOk(rx) && Below(rx, next)
    && (items == []
        || ((Whole(items[0]) ==> Below(rx, born)) && Numbers(Take(rx, items[0]).rx, items[1..], born, next)))
  }

  ghost predicate Orderly(rx: Bytes, items: seq<Item>, born: nat, next: nat) {
    Ordered(rx, items, next) && Numbers(rx, items, born, next)
  }

  /** Nothing is cut: once devd has taken everything, its buffer is empty. */
  predicate Settled(rx: Bytes, items: seq<Item>) {
    if items == [] then rx == [] else Whole(items[|items| - 1])
  }

  lemma NothingNamed(lim: nat)
    ensures RxOk([]) && Below([], lim)
  {
    assert In.Pending([]) == None;
  }

  /** What one item leaves in the buffer. */
  lemma TakeIsBelow(rx: Bytes, i: Item, next: nat)
    requires RxOk(rx) && Below(rx, next) && ItemOk(i) && (rx != [] ==> i.request == In.Ping)
    requires NamedBelow(i, next)
    ensures var y := Take(rx, i).rx; RxOk(y) && Below(y, next) && (Whole(i) ==> y == [])
    ensures i.request == In.Ping && In.Pending(rx).None? ==> In.Pending(Take(rx, i).rx).None?
  {
    hide In.Feed, In.Render, In.Stub, In.Deliverable, Take, In.Pending;
    NothingNamed(next);
    NothingPends();
    if rx == [] {
      TakeFirst(i);
      if !Whole(i) {
        PieceIsBelow(i, next);
      }
    } else {
      TakeNext(rx, i);
      if !Whole(i) {
        PingLength();
        In.PendingStays(rx, i.n);
      }
    }
  }

  lemma PieceIsBelow(i: Item, lim: nat)
    requires i.n <= |In.Render(i.request)| && NamedBelow(i, lim)
    ensures Below(In.Render(i.request)[..i.n], lim)
    ensures i.request == In.Ping ==> In.Pending(In.Render(i.request)[..i.n]) == None
  {
    hide In.Stub, In.Render;
    if i.request == In.Ping {
      In.NoStubOf(In.Ping, i.n);
    }
  }

  lemma PingNamesNothing(i: Item, lim: nat)
    requires i.request == In.Ping
    ensures Named(i) == None && NamedBelow(i, lim)
  {
    hide In.Stub;
    In.NoStubOf(In.Ping, Min(i.n, |In.Render(In.Ping)|));
  }

  /** The number of a whole request for a job, and of no other request. */
  lemma WholeNames(r: In.Request)
    requires In.Deliverable(r)
    ensures Named(Full(r)) == if r.RunJob? then Some(r.id) else None
  {
    hide In.Stub, In.Render, In.Deliverable;
    var line := In.Render(r);
    assert line[..|line|] == line;
    In.RequestReads(r);
    StubOfTaken(r);
  }

  lemma StubOfTaken(r: In.Request)
    requires In.ParseRequest(In.Render(r)) == Some(In.Taken(r))
    ensures In.Stub(In.Render(r)) == if r.RunJob? then Some(r.id) else None
  {
    hide In.ParseRequest;
  }

  lemma PingLength()
    ensures |In.Render(In.Ping)| == |In.PING|
  {
  }

  lemma NothingPends()
    ensures In.Pending([]) == None
  {
  }

  lemma {:induction false} NumbersGrow(rx: Bytes, items: seq<Item>, born: nat, next: nat, b: nat, n: nat)
    requires forall i :: 0 <= i < |items| ==> ItemOk(items[i])
    requires Numbers(rx, items, born, next) && born <= b && next <= n
    ensures Numbers(rx, items, b, n)
    decreases |items|
  {
    hide In.Pending, Take, ItemOk;
    if items != [] {
      NumbersGrow(Take(rx, items[0]).rx, items[1..], born, next, b, n);
    }
  }

  /** The buffer once devd has taken the items. */
  function After(rx: Bytes, items: seq<Item>): Bytes
    decreases |items|
  {
    if items == [] then rx else After(Take(rx, items[0]).rx, items[1..])
  }

  // ---- What the steps do to it ----

  /** devd takes the first item. */
  lemma OrderlyTake(rx: Bytes, items: seq<Item>, born: nat, next: nat)
    requires Orderly(rx, items, born, next) && items != []
    ensures Orderly(Take(rx, items[0]).rx, items[1..], born, next)
    ensures Settled(rx, items) ==> Settled(Take(rx, items[0]).rx, items[1..])
    ensures Below(rx, next) && RxOk(rx) && (Whole(items[0]) ==> Below(rx, born))
  {
    hide In.Pending, Take, ItemOk, In.Render, Below, RxOk, NamedBelow;
    NumbersHead(rx, items, born, next);
    if Whole(items[0]) {
      WholeEmpties(rx, items[0]);
    }
    assert forall i :: 0 <= i < |items[1..]| ==> items[1..][i] == items[i + 1];
  }

  lemma WholeEmpties(rx: Bytes, i: Item)
    requires RxOk(rx) && ItemOk(i) && Whole(i) && (rx != [] ==> i.request == In.Ping)
    ensures Take(rx, i).rx == []
  {
    hide In.Feed, In.Render, In.Deliverable, Take;
    if rx == [] {
      TakeFirst(i);
    } else {
      TakeNext(rx, i);
    }
  }

  lemma NumbersHead(rx: Bytes, items: seq<Item>, born: nat, next: nat)
    requires (forall i :: 0 <= i < |items| ==> ItemOk(items[i])) && Numbers(rx, items, born, next) && items != []
    ensures RxOk(rx) && Below(rx, next) && (Whole(items[0]) ==> Below(rx, born))
    ensures Numbers(Take(rx, items[0]).rx, items[1..], born, next)
  {
    hide In.Pending, Take, ItemOk, Below, RxOk;
  }

  lemma {:induction false} AfterIsBelow(rx: Bytes, items: seq<Item>, born: nat, next: nat)
    requires Orderly(rx, items, born, next)
    ensures RxOk(After(rx, items)) && Below(After(rx, items), next)
    ensures Settled(rx, items) ==> After(rx, items) == []
    decreases |items|
  {
    hide In.Pending, Take, ItemOk, In.Render, Below, RxOk, Orderly;
    OrderlyParts(rx, items, born, next);
    if items != [] {
      OrderlyTake(rx, items, born, next);
      AfterIsBelow(Take(rx, items[0]).rx, items[1..], born, next);
    }
  }

  lemma OrderlyParts(rx: Bytes, items: seq<Item>, born: nat, next: nat)
    requires Orderly(rx, items, born, next)
    ensures RxOk(rx) && Below(rx, next)
    ensures forall i :: 0 <= i < |items| ==> ItemOk(items[i])
    ensures items != [] ==> (Whole(items[0]) ==> Below(rx, born))
  {
    hide In.Pending, Take, ItemOk, In.Render;
  }

  lemma {:induction false} NumbersSnoc(rx: Bytes, items: seq<Item>, last: Item, born: nat, next: nat)
    requires Orderly(rx, items, born, next) && ItemOk(last)
    requires After(rx, items) != [] ==> last.request == In.Ping
    requires NamedBelow(last, next)
    requires Whole(last) ==> Below(After(rx, items), born)
    ensures forall i :: 0 <= i < |items + [last]| ==> ItemOk((items + [last])[i])
    ensures Numbers(rx, items + [last], born, next)
    decreases |items|
  {
    hide In.Pending, Take, ItemOk, In.Render, Below, RxOk, NamedBelow;
    var all := items + [last];
    assert forall i :: 0 <= i < |all| ==> ItemOk(all[i]);
    OrderlyParts(rx, items, born, next);
    if items == [] {
      assert all == [last] && all[1..] == [];
      TakeIsBelow(rx, last, next);
    } else {
      OrderlyTake(rx, items, born, next);
      NumbersSnoc(Take(rx, items[0]).rx, items[1..], last, born, next);
      assert all[0] == items[0] && all[1..] == items[1..] + [last];
    }
  }

  /** One more item, which is a ping when something before it was cut. */
  lemma OrderlySnoc(rx: Bytes, items: seq<Item>, last: Item, born: nat, next: nat)
    requires Orderly(rx, items, born, next) && ItemOk(last)
    requires !Settled(rx, items) ==> last.request == In.Ping
    requires NamedBelow(last, next)
    requires Whole(last) ==> Below(After(rx, items), born)
    ensures Orderly(rx, items + [last], born, next)
  {
    hide In.Pending, Take, ItemOk, In.Render, Below, RxOk, After, Numbers;
    AfterIsBelow(rx, items, born, next);
    NumbersSnoc(rx, items, last, born, next);
    var all := items + [last];
    assert forall i :: 0 <= i < |items| ==> all[i] == items[i];
  }

  /** The first `k` items, and what item `k` finds. */
  lemma {:induction false} OrderlyPrefix(rx: Bytes, items: seq<Item>, k: nat, born: nat, next: nat)
    requires Orderly(rx, items, born, next) && k <= |items|
    ensures Orderly(rx, items[..k], born, next)
    ensures k < |items| && Whole(items[k]) ==> Below(After(rx, items[..k]), born)
    decreases k
  {
    hide In.Pending, Take, ItemOk, In.Render, Below, RxOk, NamedBelow;
    OrderlyParts(rx, items, born, next);
    var front := items[..k];
    assert forall i :: 0 <= i < k ==> front[i] == items[i];
    if k > 0 {
      OrderlyTake(rx, items, born, next);
      OrderlyPrefix(Take(rx, items[0]).rx, items[1..], k - 1, born, next);
      assert front[1..] == items[1..][..k - 1] && front[0] == items[0];
    }
  }

  /** The buffer after one more item. */
  lemma {:induction false} AfterOneMore(rx: Bytes, items: seq<Item>, k: nat)
    requires k < |items|
    ensures After(rx, items[..k + 1]) == Take(After(rx, items[..k]), items[k]).rx
    decreases k
  {
    hide Take;
    var front := items[..k + 1];
    if k == 0 {
      assert front == [items[0]] && front[1..] == [] && items[..0] == [];
    } else {
      AfterOneMore(Take(rx, items[0]).rx, items[1..], k - 1);
      assert front[1..] == items[1..][..k] && items[..k][1..] == items[1..][..k - 1];
    }
  }

  /** A shorter piece names no higher number. */
  lemma CutNames(i: Item, n: nat, lim: nat)
    requires ItemOk(i) && NamedBelow(i, lim) && 0 < n <= i.n
    ensures ItemOk(Item(i.request, n)) && NamedBelow(Item(i.request, n), lim)
  {
    hide In.Stub, In.Render, In.Deliverable;
    var len := |In.Render(i.request)|;
    In.PieceNames(i.request, Min(n, len), Min(i.n, len));
  }

  /** A connection ends after `k` items and `n` bytes of the next. */
  lemma OrderlyCut(rx: Bytes, items: seq<Item>, k: nat, n: nat, born: nat, next: nat)
    requires Orderly(rx, items, born, next) && k < |items| && 0 < n <= items[k].n
    ensures Orderly(rx, items[..k] + [Item(items[k].request, n)], born, next)
  {
    hide In.Pending, Take, In.Render, In.Deliverable, Below, RxOk, After, Numbers, NamedBelow;
    var front, last := items[..k], Item(items[k].request, n);
    OrderlyPrefix(rx, items, k, born, next);
    assert Whole(last) ==> Whole(items[k]);
    assert k > 0 ==> front[|front| - 1] == items[k - 1];
    assert !Settled(rx, front) ==> last.request == In.Ping;
    CutNames(items[k], n, next);
    OrderlySnoc(rx, front, last, born, next);
  }

  /** A buffer that names no job, in place of the one the items were meant to find. */
  lemma {:induction false} NumbersFrom(y: Bytes, z: Bytes, items: seq<Item>, born: nat, next: nat)
    requires Orderly(y, items, born, next) && RxOk(z) && In.Pending(z).None?
    requires z != [] && items != [] ==> items[0].request == In.Ping
    ensures Numbers(z, items, born, next)
    decreases |items|
  {
    hide In.Pending, Take, ItemOk, In.Render, RxOk, Orderly;
    OrderlyParts(y, items, born, next);
    if items != [] {
      OrderlyTake(y, items, born, next);
      var rest := items[1..];
      OrderedNext(y, items, born, next);
      if items[0].request == In.Ping {
        PingNamesNothing(items[0], next);
        TakeIsBelow(z, items[0], next);
        NumbersFrom(Take(y, items[0]).rx, Take(z, items[0]).rx, rest, born, next);
      } else {
        assert y == z;
        OrderlyNumbers(Take(y, items[0]).rx, rest, born, next);
      }
    }
  }

  lemma OrderlyNumbers(rx: Bytes, items: seq<Item>, born: nat, next: nat)
    requires Orderly(rx, items, born, next)
    ensures (forall i :: 0 <= i < |items| ==> ItemOk(items[i])) && Numbers(rx, items, born, next)
  {
  }

  lemma OrderedNext(rx: Bytes, items: seq<Item>, born: nat, next: nat)
    requires Orderly(rx, items, born, next) && items != []
    ensures rx != [] ==> items[0].request == In.Ping
    ensures items[1..] != [] && !Whole(items[0]) ==> items[1..][0].request == In.Ping
  {
    hide In.Pending, Take, ItemOk, In.Render, Numbers;
    assert |items| > 1 ==> items[1..][0] == items[1];
  }

  /** devd's buffer is emptied, and the first `k` items are gone with it. */
  lemma {:induction false} OrderlyDrop(rx: Bytes, items: seq<Item>, k: nat, born: nat, next: nat)
    requires Orderly(rx, items, born, next) && k <= |items|
    ensures Orderly([], items[k..], born, next)
    decreases k
  {
    hide In.Pending, Take, In.Render, In.Deliverable, RxOk, Numbers;
    if k == 0 {
      assert items[0..] == items;
      NothingNamed(0);
      NothingPends();
      NumbersFrom(rx, [], items, born, next);
    } else {
      OrderlyTake(rx, items, born, next);
      OrderlyDrop(Take(rx, items[0]).rx, items[1..], k - 1, born, next);
      assert items[1..][k - 1..] == items[k..];
    }
  }

  /** Items that name only numbers below a limit, behind a buffer that does, keep to it. */
  lemma {:induction false} NumbersOfOrdered(rx: Bytes, items: seq<Item>, lim: nat)
    requires Ordered(rx, items, lim) && RxOk(rx) && Below(rx, lim)
    ensures Numbers(rx, items, lim, lim)
    decreases |items|
  {
    hide In.Pending, Take, ItemOk, In.Render, Below, RxOk, NamedBelow;
    if items != [] {
      var y, rest := Take(rx, items[0]).rx, items[1..];
      TakeIsBelow(rx, items[0], lim);
      assert forall i :: 0 <= i < |rest| ==> rest[i] == items[i + 1];
      NumbersOfOrdered(y, rest, lim);
    }
  }
}
