/** Runs of a step machine: a machine is a partial step function on states, and a
    run is a finite list of actions, each enabled in the state the ones before it
    reached. */
module Runs {
  import opened Optional

  /** The state after `acts`, or None when one of them was not enabled. */
  function Exec<S, A>(step: (S, A) -> Option<S>, s: S, acts: seq<A>): Option<S> {
    if acts == [] then Some(s)
    else
      match Exec(step, s, acts[..|acts| - 1])
      case None => None
      case Some(t) => step(t, acts[|acts| - 1])
  }

  /** Every action of the run satisfies `ok` in the state it is taken from. */
  ghost predicate Guarded<S, A>(step: (S, A) -> Option<S>, ok: (S, A) -> bool, s: S, acts: seq<A>) {
    forall i :: 0 <= i < |acts| ==>
      var t := Exec(step, s, acts[..i]);
      t.Some? ==> ok(t.value, acts[i])
  }

  /** The guard of runs that take any enabled action. */
  ghost predicate Always<S, A>(s: S, a: A) {
    true
  }

  /** What every guarded step keeps holds at the end of every guarded run. */
  lemma {:induction false} RunKeeps<S(!new), A(!new)>(
      step: (S, A) -> Option<S>, ok: (S, A) -> bool, inv: S -> bool, s: S, acts: seq<A>)
    requires inv(s)
    requires forall t, a :: inv(t) && ok(t, a) && step(t, a).Some? ==> inv(step(t, a).value)
    requires Guarded(step, ok, s, acts)
    ensures Exec(step, s, acts).Some? ==> inv(Exec(step, s, acts).value)
  {
    if acts != [] {
      var k := |acts| - 1;
      var front := acts[..k];
      forall i | 0 <= i < k
        ensures var t := Exec(step, s, front[..i]); t.Some? ==> ok(t.value, front[i])
      {
        assert front[..i] == acts[..i];
      }
      RunKeeps(step, ok, inv, s, front);
    }
  }

  /** A guarded run without its last action. */
  lemma GuardedFront<S, A>(step: (S, A) -> Option<S>, ok: (S, A) -> bool, s: S, acts: seq<A>)
    requires acts != [] && Guarded(step, ok, s, acts) && Exec(step, s, acts).Some?
    ensures var front, last := acts[..|acts| - 1], acts[|acts| - 1];
            && Guarded(step, ok, s, front) && Exec(step, s, front).Some?
            && ok(Exec(step, s, front).value, last)
            && Exec(step, s, acts) == step(Exec(step, s, front).value, last)
  {
    var front := acts[..|acts| - 1];
    assert forall i :: 0 <= i <= |front| ==> front[..i] == acts[..i];
  }

  /** Running `a` and then `b` is running `a + b`. */
  lemma {:induction false} ExecConcat<S, A>(step: (S, A) -> Option<S>, s: S, a: seq<A>, b: seq<A>)
    requires Exec(step, s, a).Some?
    ensures Exec(step, s, a + b) == Exec(step, Exec(step, s, a).value, b)
  {
    if b == [] {
      assert a + b == a;
    } else {
      var k := |b| - 1;
      ExecConcat(step, s, a, b[..k]);
      assert (a + b)[..|a + b| - 1] == a + b[..k];
    }
  }

  lemma NoSteps<S, A>(step: (S, A) -> Option<S>, s: S)
    ensures Exec(step, s, []) == Some(s)
  {
  }

  /** Extends a run by one enabled action. */
  lemma Then<S, A>(step: (S, A) -> Option<S>, s: S, acts: seq<A>, t: S, a: A) returns (more: seq<A>, u: S)
    requires Exec(step, s, acts) == Some(t) && step(t, a).Some?
    ensures more == acts + [a] && Some(u) == step(t, a) && Exec(step, s, more) == Some(u)
  {
    more, u := acts + [a], step(t, a).value;
    assert more[..|more| - 1] == acts;
  }

  /** A guarded run followed by a guarded run is a guarded run. */
  lemma GuardedConcat<S, A>(step: (S, A) -> Option<S>, ok: (S, A) -> bool, s: S, a: seq<A>, b: seq<A>)
    requires Exec(step, s, a).Some? && Guarded(step, ok, s, a) && Guarded(step, ok, Exec(step, s, a).value, b)
    ensures Guarded(step, ok, s, a + b)
  {
    forall i | 0 <= i < |a + b|
      ensures var t := Exec(step, s, (a + b)[..i]); t.Some? ==> ok(t.value, (a + b)[i])
    {
      if i < |a| {
        assert (a + b)[..i] == a[..i];
      } else {
        assert (a + b)[..i] == a + b[..i - |a|];
        ExecConcat(step, s, a, b[..i - |a|]);
      }
    }
  }

  /** A run of one guarded action. */
  lemma GuardedOne<S, A>(step: (S, A) -> Option<S>, ok: (S, A) -> bool, s: S, a: A)
    requires ok(s, a)
    ensures Guarded(step, ok, s, [a]) && Exec(step, s, [a]) == step(s, a)
  {
    assert [a][..0] == [];
    assert Exec(step, s, [a][..0]) == Some(s);
  }

  /** Some guarded run leads from `s` to `t`. */
  ghost predicate Leads<S(!new), A(!new)>(step: (S, A) -> Option<S>, ok: (S, A) -> bool, s: S, t: S) {
    exists acts :: Guarded(step, ok, s, acts) && Exec(step, s, acts) == Some(t)
  }

  lemma LeadsNowhere<S(!new), A(!new)>(step: (S, A) -> Option<S>, ok: (S, A) -> bool, s: S)
    ensures Leads(step, ok, s, s)
  {
    var none: seq<A> := [];
    assert Guarded(step, ok, s, none) && Exec(step, s, none) == Some(s);
  }

  /** One more guarded step. */
  lemma LeadsOn<S(!new), A(!new)>(step: (S, A) -> Option<S>, ok: (S, A) -> bool, s: S, t: S, a: A)
    requires Leads(step, ok, s, t) && ok(t, a) && step(t, a).Some?
    ensures Leads(step, ok, s, step(t, a).value)
  {
    var acts :| Guarded(step, ok, s, acts) && Exec(step, s, acts) == Some(t);
    GuardedOne(step, ok, t, a);
    GuardedConcat(step, ok, s, acts, [a]);
    ExecConcat(step, s, acts, [a]);
    assert Guarded(step, ok, s, acts + [a]) && Exec(step, s, acts + [a]) == step(t, a);
  }

  lemma LeadsOnward<S(!new), A(!new)>(step: (S, A) -> Option<S>, ok: (S, A) -> bool, s: S, t: S, u: S)
    requires Leads(step, ok, s, t) && Leads(step, ok, t, u)
    ensures Leads(step, ok, s, u)
  {
    var a :| Guarded(step, ok, s, a) && Exec(step, s, a) == Some(t);
    var b :| Guarded(step, ok, t, b) && Exec(step, t, b) == Some(u);
    GuardedConcat(step, ok, s, a, b);
    ExecConcat(step, s, a, b);
    assert Guarded(step, ok, s, a + b) && Exec(step, s, a + b) == Some(u);
  }
}
