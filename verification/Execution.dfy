/** Runs of the protocol: composing them, and the principle by which a property of every
    reachable state is proved. */
module Execution {
  import opened Protocol

  lemma {:induction false} RunsJoin(r: Repairs, s: State, a: seq<Action>, b: seq<Action>)
    requires Runs(r, s, a) && Runs(r, Outcome(r, s, a), b)
    ensures Runs(r, s, a + b) && Outcome(r, s, a + b) == Outcome(r, Outcome(r, s, a), b)
    decreases |a|
  {
    hide Apply, Enabled;
    if a == [] {
      assert a + b == b;
    } else {
      RunsJoin(r, Apply(r, s, a[0]), a[1..], b);
      assert (a + b)[1..] == a[1..] + b;
    }
  }

  lemma Join(r: Repairs, s: State, t: State, u: State)
    requires Leads(r, s, t) && Leads(r, t, u)
    ensures Leads(r, s, u)
  {
    hide Apply, Enabled, Runs, Outcome;
    var a :| Runs(r, s, a) && Outcome(r, s, a) == t;
    var b :| Runs(r, t, b) && Outcome(r, t, b) == u;
    RunsJoin(r, s, a, b);
  }

  lemma One(r: Repairs, s: State, a: Action)
    requires Enabled(s, a)
    ensures Leads(r, s, Apply(r, s, a))
  {
    hide Apply, Enabled;
    var t := Apply(r, s, a);
    assert Runs(r, t, []) && Outcome(r, t, []) == t;
    assert [a][1..] == [];
    assert Runs(r, s, [a]) && Outcome(r, s, [a]) == t;
  }

  lemma Stay(r: Repairs, s: State)
    ensures Leads(r, s, s)
  {
    hide Apply, Enabled;
    assert Runs(r, s, []) && Outcome(r, s, []) == s;
  }

  /** One more action after `t`, which a run from `s` leads to. */
  lemma Then(r: Repairs, s: State, t: State, a: Action)
    requires Leads(r, s, t) && Enabled(t, a)
    ensures Leads(r, s, Apply(r, t, a))
  {
    hide Apply, Enabled, Leads;
    One(r, t, a);
    Join(r, s, t, Apply(r, t, a));
  }

  lemma {:induction false} RunsKeep(r: Repairs, inv: State -> bool, s: State, trace: seq<Action>)
    requires inv(s) && Runs(r, s, trace)
    requires forall t, a :: inv(t) && Enabled(t, a) ==> inv(Apply(r, t, a))
    ensures inv(Outcome(r, s, trace))
    decreases |trace|
  {
    hide Apply, Enabled;
    if trace != [] {
      RunsKeep(r, inv, Apply(r, s, trace[0]), trace[1..]);
    }
  }

  /** What every action keeps holds wherever a run from a state that has it leads. */
  lemma Preserved(r: Repairs, inv: State -> bool, s: State, t: State)
    requires inv(s) && Leads(r, s, t)
    requires forall u, a :: inv(u) && Enabled(u, a) ==> inv(Apply(r, u, a))
    ensures inv(t)
  {
    hide Apply, Enabled, Runs, Outcome;
    var trace :| Runs(r, s, trace) && Outcome(r, s, trace) == t;
    RunsKeep(r, inv, s, trace);
  }
}
