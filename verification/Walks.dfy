/** A whole dispatch, step by step in the protocol and with any callers in between: the matching
    requests hear the frame, each once, and those that have nothing more to hear are gone. */
module Walks {
  import opened Frames
  import opened Protocol
  import opened Execution
  import opened Basics
  import opened Results
  import opened Fitting
  import opened Lifetime
  import opened Delivery
  import opened Exactness
  import opened Sublists

  predicate InRange(ids: seq<nat>, s: State) {
    forall j :: 0 <= j < |ids| ==> ids[j] < |s.calls|
  }

  /** Which of the requests have nothing more to hear. */
  function Cleared(ids: seq<nat>, s: State): (es: seq<bool>)
    requires InRange(ids, s)
    ensures |es| == |ids| && forall j :: 0 <= j < |es| ==> es[j] == s.calls[ids[j]].req.Ends(s.calls[ids[j]].heard)
  {
    seq(|ids|, j requires 0 <= j < |ids| => s.calls[ids[j]].req.Ends(s.calls[ids[j]].heard))
  }

  predicate HeardOnce(f: Reply, before: Call, after: Call) {
    after.heard == before.heard + if Hit(before, Some(f)) then [f] else []
  }

  predicate Late(stage: Stage) {
    stage.Signal? || stage.Judge? || stage.After?
  }

  /** How many of the `n` requests of a walk that began with them are behind the cursor. */
  function Done(n: nat, t: State): int
    requires t.d.Walk?
  {
    n - (|t.reqs| - t.d.i)
  }

  /** The list in `t`: the first `k` of the requests that were on it, without those that are
      cleared, and all others. */
  ghost predicate ListSoFar(all: seq<nat>, t: State, k: nat)
    requires t.d.Walk? && InRange(all, t) && k <= |all| && t.d.i <= |t.reqs|
  {
    t.reqs[t.d.i..] == all[k..] && t.reqs[..t.d.i] == Kept(all[..k], Cleared(all[..k], t))
  }

  /** Which of the requests have heard the frame by then. */
  ghost predicate HeardSoFar(s: State, f: Reply, t: State, k: nat)
    requires InRange(s.reqs, s) && |s.calls| <= |t.calls| && t.d.Walk?
  {
    forall j :: 0 <= j < |s.reqs| ==>
      && t.calls[s.reqs[j]].req == s.calls[s.reqs[j]].req
      && if j < k || (j == k && Late(t.d.stage)) then HeardOnce(f, s.calls[s.reqs[j]], t.calls[s.reqs[j]])
         else t.calls[s.reqs[j]].heard == s.calls[s.reqs[j]].heard
  }

  /** `t` is in the walk for `f` that began in `s`. */
  ghost predicate Midwalk(s: State, f: Reply, t: State)
    requires InRange(s.reqs, s)
  {
    && t.d.Walk? && t.d.got == Some(f) && t.walked == s.walked && |s.calls| <= |t.calls| && t.d.i <= |t.reqs|
    && 0 <= Done(|s.reqs|, t) <= |s.reqs|
    && ListSoFar(s.reqs, t, Done(|s.reqs|, t)) && HeardSoFar(s, f, t, Done(|s.reqs|, t))
  }

  /** A step of anyone but the daemon changes none of it. */
  lemma OthersKeepMidwalk(r: Repairs, s: State, f: Reply, t: State, a: Action)
    requires InRange(s.reqs, s) && Locks(t) && Midwalk(s, f, t) && Enabled(t, a) && !a.Work?
    ensures Midwalk(s, f, Apply(r, t, a))
  {
    hide Apply, Enabled, HeardOnce, Late, Request.Ends;
    OthersKeep(r, t, a);
    OthersWait(r, t, a);
    var t' := Apply(r, t, a);
    var k := Done(|s.reqs|, t);
    assert Cleared(s.reqs[..k], t') == Cleared(s.reqs[..k], t);
    forall j | 0 <= j < |s.reqs|
      ensures HeardOnce(f, s.calls[s.reqs[j]], t.calls[s.reqs[j]]) == HeardOnce(f, s.calls[s.reqs[j]],
        t'.calls[s.reqs[j]])
    {
      SameHeardOnce(f, s.calls[s.reqs[j]], t.calls[s.reqs[j]], t'.calls[s.reqs[j]]);
    }
  }

  lemma SameHeardOnce(f: Reply, before: Call, call: Call, call': Call)
    requires SameRequest(call, call')
    ensures HeardOnce(f, before, call') == HeardOnce(f, before, call)
  {
  }

  /** The daemon's steps with one request. */
  lemma TreatHearsOnce(r: Repairs, f: Reply, before: Call, call: Call, stage: Stage, stale: bool)
    requires call.req == before.req && !stage.After? && Under(r, call, Some(f), stage) && Hit(before, Some(f))
    requires if Late(stage) then HeardOnce(f, before, call) else call.heard == before.heard
    ensures var call' := Treat(call, Some(f), stage);
      if Late(NextStage(r, call, Some(f), stage, stale)) then HeardOnce(f, before, call')
      else call'.heard == before.heard
  {
  }

  /** The daemon goes on with the request under the cursor: what has been heard. */
  lemma {:induction false} StaysHeard(r: Repairs, s: State, f: Reply, t: State, stale: bool, k: nat)
    requires InRange(s.reqs, s) && Distinct(s.reqs) && Listed(t) && AllFit(r, t) && CanWork(t)
    requires t.d.Walk? && t.d.got == Some(f) && t.d.i < |t.reqs| && k < |s.reqs| && t.reqs[t.d.i] == s.reqs[k]
    requires |s.calls| <= |t.calls| && HeardSoFar(s, f, t, k)
    requires !t.d.stage.After? && Hit(t.calls[t.reqs[t.d.i]], Some(f))
    ensures var t' := WorkDaemon(r, t, stale); t'.d.Walk? && |s.calls| <= |t'.calls| && HeardSoFar(s, f, t', k)
  {
    hide WorkDaemon, Treat, NextStage, HeardOnce, Under, CanWork, Hit, Late, Waiting, Swept, Unended;
    var c, t' := t.reqs[t.d.i], WorkDaemon(r, t, stale);
    WalkStep(r, t, stale);
    assert Fits(r, t.d, t.d.i, t.calls[c]);
    SameHit(s.calls[c], t.calls[c], Some(f));
    TreatHearsOnce(r, f, s.calls[c], t.calls[c], t.d.stage, stale);
    TreatKeeps(t.calls[c], t.d.got, t.d.stage);
    EarlyLook(t.d.stage);
    forall j | 0 <= j < |s.reqs| && j != k ensures t'.calls[s.reqs[j]] == t.calls[s.reqs[j]] {
      assert s.reqs[j] != c;
    }
  }

  /** The same for the list. */
  lemma StaysOnList(r: Repairs, all: seq<nat>, t: State, stale: bool, k: nat)
    requires Distinct(all) && k < |all| && CanWork(t) && t.d.Walk? && t.d.got.Some? && t.d.i < |t.reqs|
    requires InRange(all, t) && t.reqs[t.d.i] == all[k] && ListSoFar(all, t, k)
    requires !t.d.stage.After? && Hit(t.calls[t.reqs[t.d.i]], t.d.got)
    ensures var t' := WorkDaemon(r, t, stale);
      && t'.d == Walk(t.d.got, t.d.i, NextStage(r, t.calls[all[k]], t.d.got, t.d.stage, stale))
      && t'.reqs == t.reqs && t'.walked == t.walked && |t'.calls| == |t.calls| && ListSoFar(all, t', k)
  {
    hide WorkDaemon, Treat, NextStage, Hit, CanWork, Request.Ends;
    var t' := WorkDaemon(r, t, stale);
    WalkStep(r, t, stale);
    forall j | 0 <= j < k ensures t'.calls[all[j]] == t.calls[all[j]] {
      assert all[j] != all[k];
    }
    assert Cleared(all[..k], t') == Cleared(all[..k], t);
  }

  /** The daemon goes on with the request under the cursor. */
  lemma {:induction false} StaysMidwalk(r: Repairs, s: State, f: Reply, t: State, stale: bool)
    requires InRange(s.reqs, s) && Distinct(s.reqs) && Midwalk(s, f, t) && Listed(t) && AllFit(r, t) && CanWork(t)
    requires t.d.i < |t.reqs| && !t.d.stage.After? && Hit(t.calls[t.reqs[t.d.i]], Some(f))
    ensures Midwalk(s, f, WorkDaemon(r, t, stale))
  {
    hide WorkDaemon, NextStage, CanWork, Hit, AllFit, HeardSoFar, ListSoFar, Distinct;
    var k := Done(|s.reqs|, t);
    NextOfAll(s.reqs, t, k);
    StaysHeard(r, s, f, t, stale, k);
    StaysOnList(r, s.reqs, t, stale, k);
  }

  lemma EarlyLook(stage: Stage)
    ensures stage.Look? ==> !Late(stage)
  {
  }

  /** Whether the request is dropped is whether it has nothing more to hear. */
  lemma DropsEnded(r: Repairs, t: State)
    requires Listed(t) && AllFit(r, t) && t.d.Walk? && t.d.got.Some? && t.d.i < |t.reqs|
    requires t.d.stage.After? || (t.d.stage.Look? && !Hit(t.calls[t.reqs[t.d.i]], t.d.got))
    ensures var call := t.calls[t.reqs[t.d.i]]; call.req.Ends(call.heard) == Unlinks(t.d)
  {
    hide Hit, Distinct, Swept, Request.Ends;
    assert Fits(r, t.d, t.d.i, t.calls[t.reqs[t.d.i]]);
    NothingEndsEarly(t.calls[t.reqs[t.d.i]].req);
  }

  lemma Passes(r: Repairs, t: State, stale: bool)
    requires CanWork(t) && t.d.Walk? && t.d.got.Some? && t.d.i < |t.reqs|
    requires t.d.stage.After? || (t.d.stage.Look? && !Hit(t.calls[t.reqs[t.d.i]], t.d.got))
    ensures var t' := WorkDaemon(r, t, stale); var i := t.d.i;
      && t'.calls == t.calls && t'.walked == t.walked
      && t'.d == Walk(t.d.got, if Unlinks(t.d) then i else i + 1, Look)
      && t'.reqs == if Unlinks(t.d) then t.reqs[..i] + t.reqs[i + 1..] else t.reqs
  {
    hide WorkDaemon, NextStage, Hit, Treat;
    WalkStep(r, t, stale);
    var c := t.reqs[t.d.i];
    if t.d.stage.After? {
      AfterLeavesAlone(t.calls[c], t.d.got, t.d.stage);
    } else {
      LookLeavesAlone(t.calls[c], t.d.got);
    }
    assert t.calls[c := t.calls[c]] == t.calls;
  }

  lemma CutKept(reqs: seq<nat>, i: nat, all: seq<nat>, k: nat, es: seq<bool>, drop: bool)
    requires i < |reqs| && k < |all| && |es| == k && reqs[i..] == all[k..] && reqs[..i] == Kept(all[..k], es)
    ensures reqs[i] == all[k]
    ensures var reqs' := if drop then reqs[..i] + reqs[i + 1..] else reqs; var i' := if drop then i else i + 1;
      reqs'[i'..] == all[k + 1..] && reqs'[..i'] == Kept(all[..k + 1], es + [drop])
  {
    assert reqs[i..][0] == all[k..][0];
    assert reqs[i + 1..] == reqs[i..][1..] == all[k + 1..];
    assert all[..k + 1] == all[..k] + [reqs[i]];
    KeptSnoc(all[..k], es, reqs[i], drop);
    assert (reqs[..i] + reqs[i + 1..])[..i] == reqs[..i] && (reqs[..i] + reqs[i + 1..])[i..] == reqs[i + 1..];
    assert reqs[..i + 1] == reqs[..i] + [reqs[i]];
    assert reqs[..i] + [] == reqs[..i];
  }

  lemma PassesList(r: Repairs, all: seq<nat>, t: State, k: nat, t': State)
    requires t.d.Walk? && InRange(all, t) && k < |all| && t.d.i < |t.reqs| && ListSoFar(all, t, k)
    requires t'.d.Walk? && t'.calls == t.calls && t.reqs[t.d.i] < |t.calls|
    requires var call := t.calls[t.reqs[t.d.i]]; call.req.Ends(call.heard) == Unlinks(t.d)
    requires t'.d.i == if Unlinks(t.d) then t.d.i else t.d.i + 1
    requires t'.reqs == if Unlinks(t.d) then t.reqs[..t.d.i] + t.reqs[t.d.i + 1..] else t.reqs
    ensures t'.d.i <= |t'.reqs| && ListSoFar(all, t', k + 1)
  {
    hide Request.Ends, Unlinks, Kept;
    CutKept(t.reqs, t.d.i, all, k, Cleared(all[..k], t), Unlinks(t.d));
    assert Cleared(all[..k + 1], t') == Cleared(all[..k], t) + [Unlinks(t.d)];
  }

  lemma PassesHeard(s: State, f: Reply, t: State, k: nat, t': State)
    requires InRange(s.reqs, s) && |s.calls| <= |t.calls| && t.d.Walk? && k < |s.reqs| && HeardSoFar(s, f, t, k)
    requires t'.calls == t.calls && t'.d.Walk? && t'.d.stage.Look?
    requires t.d.stage.After? || (t.d.stage.Look? && !Hit(t.calls[s.reqs[k]], Some(f)))
    ensures HeardSoFar(s, f, t', k + 1)
  {
    hide HeardOnce, Hit;
    MissHears(f, s.calls[s.reqs[k]], t.calls[s.reqs[k]]);
  }

  /** The daemon leaves the request under the cursor behind, on the list or not. */
  lemma {:induction false} PassesMidwalk(r: Repairs, s: State, f: Reply, t: State, stale: bool)
    requires InRange(s.reqs, s) && Midwalk(s, f, t) && Listed(t) && AllFit(r, t) && CanWork(t) && t.d.i < |t.reqs|
    requires t.d.stage.After? || (t.d.stage.Look? && !Hit(t.calls[t.reqs[t.d.i]], t.d.got))
    ensures Midwalk(s, f, WorkDaemon(r, t, stale))
  {
    hide WorkDaemon, CanWork, Request.Ends, AllFit, Hit, HeardOnce, ListSoFar, HeardSoFar, Distinct;
    var k := Done(|s.reqs|, t);
    Passes(r, t, stale);
    DropsEnded(r, t);
    NextOfAll(s.reqs, t, k);
    PassesList(r, s.reqs, t, k, WorkDaemon(r, t, stale));
    PassesHeard(s, f, t, k, WorkDaemon(r, t, stale));
  }

  lemma NextOfAll(all: seq<nat>, t: State, k: nat)
    requires t.d.Walk? && InRange(all, t) && k <= |all| && t.d.i < |t.reqs| && ListSoFar(all, t, k)
    ensures k < |all| && t.reqs[t.d.i] == all[k] && k == Done(|all|, t)
  {
    assert |t.reqs[t.d.i..]| == |all[k..]|;
    assert t.reqs[t.d.i..][0] == all[k..][0];
  }

  lemma MissHears(f: Reply, before: Call, call: Call)
    ensures call.heard == before.heard && call.req == before.req && !Hit(call, Some(f)) ==> HeardOnce(f, before, call)
  {
  }

  /** In the walk for `f` that began in `s`, or past it. */
  ghost predicate InWalkOrPast(s: State, f: Reply, t: State)
    requires InRange(s.reqs, s)
  {
    && |s.walked| <= |t.walked|
    && (|t.walked| == |s.walked| && t.d.Walk? && t.d.got.Some? ==> Midwalk(s, f, t))
  }

  lemma MidwalkGot(s: State, f: Reply, t: State)
    requires InRange(s.reqs, s) && Midwalk(s, f, t)
    ensures t.d.Walk? && t.d.got == Some(f)
  {
  }

  /** A walk for a frame begins only with the frame. */
  lemma WalkedGrows(r: Repairs, t: State, stale: bool)
    requires CanWork(t)
    ensures var t' := WorkDaemon(r, t, stale);
      && t.walked <= t'.walked
      && (t'.d.Walk? && t'.d.got.Some? && |t'.walked| == |t.walked| ==>
            t.d.Walk? && t'.d.got == t.d.got && t.d.i < |t.reqs|)
  {
    hide Treat, NextStage, Hit;
  }

  lemma {:induction false} WalkKept(r: Repairs, s: State, f: Reply, t: State, a: Action)
    requires InRange(s.reqs, s) && Distinct(s.reqs)
    requires Locks(t) && Listed(t) && AllFit(r, t) && LinkedBefore(t) && InWalkOrPast(s, f, t) && Enabled(t, a)
    ensures InWalkOrPast(s, f, Apply(r, t, a))
  {
    hide Apply, Enabled, Midwalk, AllFit, Hit, Locks, Listed, LinkedBefore;
    if !a.Work? {
      OthersKeep(r, t, a);
      if t.d.Walk? && t.d.got.Some? && |t.walked| == |s.walked| {
        OthersKeepMidwalk(r, s, f, t, a);
      }
    } else {
      ApplyWork(r, t, a);
      WalkedGrows(r, t, a.stale);
      if t.d.Walk? && t.d.got.Some? && |t.walked| == |s.walked| && t.d.i < |t.reqs| {
        WorksMidwalk(r, s, f, t, a.stale);
      }
    }
  }

  lemma WorksMidwalk(r: Repairs, s: State, f: Reply, t: State, stale: bool)
    requires InRange(s.reqs, s) && Distinct(s.reqs)
    requires Listed(t) && AllFit(r, t) && LinkedBefore(t) && Midwalk(s, f, t) && CanWork(t) && t.d.i < |t.reqs|
    ensures Midwalk(s, f, WorkDaemon(r, t, stale))
  {
    hide WorkDaemon, Midwalk, AllFit, Hit, CanWork;
    MidwalkGot(s, f, t);
    if t.d.stage.After? || (t.d.stage.Look? && !Hit(t.calls[t.reqs[t.d.i]], t.d.got)) {
      PassesMidwalk(r, s, f, t, stale);
    } else {
      StaysMidwalk(r, s, f, t, stale);
    }
  }

  lemma WalkBegins(s: State, f: Reply)
    requires InRange(s.reqs, s) && s.d == Walk(Some(f), 0, Look)
    ensures Midwalk(s, f, s)
  {
    assert s.reqs[..0] == [];
  }

  /** The list after a dispatch is what it was without those that have nothing more to hear,
      and every request that was on it has heard the frame once if it matches and not
      otherwise. */
  ghost predicate Filtered(s: State, f: Reply, t: State) {
    && InRange(s.reqs, s) && InRange(s.reqs, t)
    && t.reqs == Kept(s.reqs, Cleared(s.reqs, t))
    && forall j :: 0 <= j < |s.reqs| ==>
         t.calls[s.reqs[j]].req == s.calls[s.reqs[j]].req && HeardOnce(f, s.calls[s.reqs[j]], t.calls[s.reqs[j]])
  }

  /** A run goes from where the daemon takes up a frame to the end of its walk, whatever the
      callers do meanwhile. */
  ghost predicate Dispatched(r: Repairs, s: State, f: Reply, t: State) {
    && Reachable(r, s) && Leads(r, s, t)
    && s.d == Walk(Some(f), 0, Look)
    && t.d == Walk(Some(f), |t.reqs|, Look) && t.walked == s.walked
  }

  ghost predicate Walking(r: Repairs, s: State, f: Reply, t: State)
    requires InRange(s.reqs, s)
  {
    Delivering(r, t) && (Trusted(r, t) ==> InWalkOrPast(s, f, t))
  }

  lemma WalkingKept(r: Repairs, s: State, f: Reply, t: State, a: Action)
    requires InRange(s.reqs, s) && Distinct(s.reqs) && Walking(r, s, f, t) && Enabled(t, a)
    ensures Walking(r, s, f, Apply(r, t, a))
  {
    hide Apply, Enabled, Trusted, AllFit, LinkedBefore, Delivered, Locks, Listed, Times, Sending, InWalkOrPast;
    DeliveringKept(r, t, a);
    if Trusted(r, Apply(r, t, a)) {
      TrustLasts(r, t, a);
      WalkKept(r, s, f, t, a);
    }
  }

  /** A dispatch filters the list, in every run in which no stream has been refused by its end,
      and in every run if callbacks read `rv` before they signal. */
  lemma DispatchIsFilter(r: Repairs, s: State, f: Reply, t: State)
    requires Dispatched(r, s, f, t) && Trusted(r, t)
    ensures Filtered(s, f, t)
  {
    hide Apply, Enabled, Leads, HeardOnce, Walking, Request.Ends, Trusted;
    WalkingStarts(r, s, f);
    forall u, a | Walking(r, s, f, u) && Enabled(u, a) ensures Walking(r, s, f, Apply(r, u, a)) {
      WalkingKept(r, s, f, u, a);
    }
    Preserved(r, u => Walking(r, s, f, u), s, t);
    WalkingEnds(r, s, f, t);
  }

  lemma WalkingStarts(r: Repairs, s: State, f: Reply)
    requires Reachable(r, s) && s.d == Walk(Some(f), 0, Look)
    ensures InRange(s.reqs, s) && Distinct(s.reqs) && Walking(r, s, f, s)
  {
    hide Reachable, Delivering, Midwalk;
    DeliveryHolds(r, s);
    BasicHolds(r, s);
    BasicLists(r, s);
    WalkBegins(s, f);
  }

  lemma WalkingEnds(r: Repairs, s: State, f: Reply, t: State)
    requires InRange(s.reqs, s) && Walking(r, s, f, t) && Trusted(r, t)
    requires t.d == Walk(Some(f), |t.reqs|, Look) && t.walked == s.walked
    ensures Filtered(s, f, t)
  {
    hide Delivering, HeardOnce, Request.Ends, Trusted;
    assert t.reqs[..|t.reqs|] == t.reqs && s.reqs[..|s.reqs|] == s.reqs;
  }

  /** Every dispatch filters the list if and only if callbacks read `rv` before they signal: as
      written, a refused query may stay on the list. */
  lemma DispatchIsFilterExactly(r: Repairs)
    ensures (forall s, f, t :: Dispatched(r, s, f, t) ==> Filtered(s, f, t)) <==> r.judgesFirst
  {
    hide Dispatched, Filtered;
    if r.judgesFirst {
      forall s, f, t | Dispatched(r, s, f, t) ensures Filtered(s, f, t) {
        DispatchIsFilter(r, s, f, t);
      }
    } else {
      var from, s := StaysListed(r);
      RefusalRefuses(s.calls[0].req);
      EndedStays(r, from, Refusal(), s);
    }
  }

  lemma EndedStays(r: Repairs, s: State, f: Reply, t: State)
    requires Reachable(r, s) && Leads(r, s, t) && s.d == Walk(Some(f), 0, Look)
    requires s.reqs == [0] && t.reqs == [0] && |s.calls| == 1 && |t.calls| == 1
    requires t.d == Walk(Some(f), 1, Look) && t.walked == s.walked && t.calls[0].req.Ends(t.calls[0].heard)
    ensures Dispatched(r, s, f, t) && !Filtered(s, f, t)
  {
    hide Leads, Request.Ends, HeardOnce;
    assert Cleared([0], t) == [true];
  }
}
