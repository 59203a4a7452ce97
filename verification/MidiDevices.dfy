/** MIDIServer's device list and what the driver removes from it when it starts
    (`remove_stale_devices` in `tools/midi-driver/device.c`). */
module MidiDevices {
  const MAX_SLOTS: nat := 8
  /** The length of `doomed`. */
  const MAX_DOOMED: nat := MAX_SLOTS * 2

  /** A device: one this load of the driver published, one an earlier load left behind, or one
      that does not carry the driver's marker. */
  datatype Device = Ours(dev: nat) | Leftover(n: nat) | Unmarked(n: nat)

  predicate Distinct(q: seq<Device>) {
    forall i, j :: 0 <= i < j < |q| ==> q[i] != q[j]
  }

  /** The devices that carry the marker, in order. */
  function MarkedOnes(setup: seq<Device>): seq<Device> {
    if setup == [] then []
    else
      var last := |setup| - 1;
      MarkedOnes(setup[..last]) + if setup[last].Unmarked? then [] else [setup[last]]
  }

  function Min(a: nat, b: nat): nat { if a < b then a else b }

  /** What `remove_stale_devices` collects. */
  function Doomed(setup: seq<Device>): seq<Device> {
    MarkedOnes(setup)[..Min(MAX_DOOMED, |MarkedOnes(setup)|)]
  }

  /** `MIDISetupRemoveDevice`. */
  function Remove(setup: seq<Device>, d: Device): seq<Device> {
    if setup == [] then []
    else
      var last := |setup| - 1;
      Remove(setup[..last], d) + if setup[last] == d then [] else [setup[last]]
  }

  /** The devices of `gone` removed, one after the other. */
  function RemoveEach(setup: seq<Device>, gone: seq<Device>): seq<Device> {
    if gone == [] then setup else Remove(RemoveEach(setup, gone[..|gone| - 1]), gone[|gone| - 1])
  }

  lemma {:induction false} RemoveIn(setup: seq<Device>, d: Device)
    ensures forall x :: x in Remove(setup, d) <==> x in setup && x != d
  {
    if setup != [] {
      var last := |setup| - 1;
      RemoveIn(setup[..last], d);
      assert setup == setup[..last] + [setup[last]];
    }
  }

  lemma {:induction false} MarkedIn(setup: seq<Device>)
    ensures forall x :: x in MarkedOnes(setup) <==> x in setup && !x.Unmarked?
    ensures |MarkedOnes(setup)| <= |setup|
  {
    if setup != [] {
      var last := |setup| - 1;
      MarkedIn(setup[..last]);
      assert setup == setup[..last] + [setup[last]];
    }
  }

  lemma {:induction false} MarkedOfPrefix(setup: seq<Device>, i: nat)
    requires i <= |setup|
    ensures MarkedOnes(setup[..i]) <= MarkedOnes(setup)
    decreases |setup|
  {
    if i < |setup| {
      MarkedOfPrefix(setup[..|setup| - 1], i);
      assert setup[..|setup| - 1][..i] == setup[..i];
    } else {
      assert setup[..i] == setup;
    }
  }

  /** Collects the marked devices, as many as fit, then removes each. */
  method RemoveStaleDevices(setup: seq<Device>) returns (after: seq<Device>)
    ensures after == RemoveEach(setup, Doomed(setup))
  {
    var doomed: seq<Device> := [];
    var i := 0;
    while i < |setup| && |doomed| < MAX_DOOMED
      invariant 0 <= i <= |setup| && |doomed| <= MAX_DOOMED
      invariant doomed == MarkedOnes(setup[..i])
    {
      assert setup[..i + 1][..i] == setup[..i];
      if !setup[i].Unmarked? {
        doomed := doomed + [setup[i]];
      }
      i := i + 1;
    }
    MarkedOfPrefix(setup, i);
    assert i == |setup| ==> setup[..i] == setup;
    assert doomed == Doomed(setup);
    after := setup;
    var n := 0;
    while n < |doomed|
      invariant 0 <= n <= |doomed|
      invariant after == RemoveEach(setup, doomed[..n])
    {
      assert doomed[..n + 1][..n] == doomed[..n];
      after := Remove(after, doomed[n]);
      n := n + 1;
    }
    assert doomed[..n] == doomed;
  }

  lemma {:induction false} RemoveEachIn(setup: seq<Device>, gone: seq<Device>)
    ensures forall x :: x in RemoveEach(setup, gone) <==> x in setup && x !in gone
  {
    if gone != [] {
      var n := |gone| - 1;
      RemoveEachIn(setup, gone[..n]);
      RemoveIn(RemoveEach(setup, gone[..n]), gone[n]);
      assert gone == gone[..n] + [gone[n]];
    }
  }

  lemma {:induction false} MarkedDistinct(setup: seq<Device>)
    requires Distinct(setup)
    ensures Distinct(MarkedOnes(setup))
  {
    if setup != [] {
      var last := |setup| - 1;
      MarkedDistinct(setup[..last]);
      MarkedIn(setup[..last]);
      assert forall i :: 0 <= i < last ==> setup[..last][i] == setup[i];
    }
  }

  /** What a driver that starts leaves in the setup: no device without its marker is touched, and
      of those with it the first 16 are gone. So nothing stale is left if and only if no more than
      16 devices carry the marker. */
  lemma StaleDevicesAreRemovedIff(setup: seq<Device>)
    requires Distinct(setup)
    ensures var after, marked := RemoveEach(setup, Doomed(setup)), MarkedOnes(setup);
            && (forall d :: d in after <==> d in setup && (d.Unmarked? || d in marked[Min(16, |marked|)..]))
            && ((forall d :: d in after ==> d.Unmarked?) <==> |marked| <= 16)
  {
    hide MarkedOnes, RemoveEach;
    var marked := MarkedOnes(setup);
    var n := Min(MAX_DOOMED, |marked|);
    MarkedIn(setup);
    MarkedDistinct(setup);
    RemoveEachIn(setup, Doomed(setup));
    assert marked == marked[..n] + marked[n..];
    if |marked| > MAX_DOOMED {
      var d := marked[n];
      assert d in marked[n..] && d in marked;
    }
  }

  lemma {:induction false} AllMarked(setup: seq<Device>)
    requires forall d :: d in setup ==> !d.Unmarked?
    ensures MarkedOnes(setup) == setup
  {
    if setup != [] {
      var last := |setup| - 1;
      AllMarked(setup[..last]);
      assert setup == setup[..last] + [setup[last]];
    }
  }

  /** After seventeen devices were left behind, one still is once the driver has started. */
  lemma SeventeenthStays()
    ensures var setup := seq(17, i requires i >= 0 => Leftover(i));
            Distinct(setup) && Leftover(16) in RemoveEach(setup, Doomed(setup))
  {
    hide RemoveEach, Doomed, MarkedOnes;
    var setup := seq(17, i requires i >= 0 => Leftover(i));
    AllMarked(setup);
    StaleDevicesAreRemovedIff(setup);
    assert setup[16] == Leftover(16);
    assert setup[16..][0] == setup[16];
  }
}
