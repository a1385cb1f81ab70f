/** Every walk of the list comes to an end, the teardown's exactly when it moves on; and after
    it every call runs out of steps. */
module Teardown {
  import opened Frames
  import opened Codec
  import opened Protocol
  import opened Execution
  import opened Sublists
  import opened Basics
  import opened Ending

  // ---------- the walk ends ----------

  function StageLeft(stage: Stage): nat {
    match stage
    case Look => 6
    case Run => 5
    case Deliver => 1
    case Respond => 3
    case Signal(_) => 2
    case Judge => 1
    case After(_) => 0
  }

  /** How many steps the daemon has left in a walk of `reqs` at most. */
  function WalkLeft(reqs: nat, d: DaemonPc): nat
    requires d.Walk?
  {
    if d.i < reqs then (reqs - d.i) * 7 + StageLeft(d.stage) else 0
  }

  lemma StageShrinks(r: Repairs, call: Call, got: Option<Reply>, stage: Stage, stale: bool)
    requires !stage.After?
    ensures StageLeft(NextStage(r, call, got, stage, stale)) < StageLeft(stage)
  {
  }

  lemma WorkShrinks(r: Repairs, s: State, stale: bool)
    requires Listed(s) && s.d.Walk? && CanWork(s)
    requires s.d.got.Some? || r.sweepAdvances
    ensures var s' := WorkDaemon(r, s, stale);
      if s.d.i == |s.reqs| then s'.d == (if s.d.got.Some? then AtRead else Exited) && (s.d.got.None? ==> s'.reqs == [])
      else s'.d.Walk? && s'.d.got == s.d.got && WalkLeft(|s'.reqs|, s'.d) < WalkLeft(|s.reqs|, s.d)
  {
    hide WorkDaemon, Hit, NextStage, CanWork, Distinct, StageLeft, Treat;
    WalkStep(r, s, stale);
    StageBounds(s.d.stage);
    if s.d.i < |s.reqs| && !s.d.stage.After? {
      StageShrinks(r, s.calls[s.reqs[s.d.i]], s.d.got, s.d.stage, stale);
    }
  }

  lemma StageBounds(stage: Stage)
    ensures StageLeft(stage) <= 6 && StageLeft(Look) == 6
  {
  }

  /** In a walk, the list and the cursor are the daemon's alone; with a `next` that was saved,
      each of its steps uses up some of a bounded measure. */
  lemma WalkShrinks(r: Repairs, s: State, a: Action)
    requires Basic(r, s) && s.d.Walk? && Enabled(s, a)
    requires s.d.got.Some? || r.sweepAdvances
    ensures var s' := Apply(r, s, a);
      if !a.Work? then s'.d == s.d && s'.reqs == s.reqs
      else if s.d.i == |s.reqs| then if s.d.got.Some? then s'.d == AtRead else s'.d == Exited && s'.reqs == []
      else s'.d.Walk? && s'.d.got == s.d.got && WalkLeft(|s'.reqs|, s'.d) < WalkLeft(|s.reqs|, s.d)
  {
    if a.Work? {
      hide StepCall, WorkDaemon, CanWork, Locks, Times;
      WorkShrinks(r, s, a.stale);
    } else {
      hide Apply, Enabled, Listed, Times;
      OthersWait(r, s, a);
    }
  }

  /** How many steps the caller under the cursor needs at most to let go of its own lock. */
  function OwnLeft(s: State): nat {
    var cursor := Cursor(s);
    if cursor.None? || cursor.value >= |s.calls| then 0
    else
      var pc := s.calls[cursor.value].pc;
      if pc.AtReady? then 2 else if HoldsOwn(pc) then 1 else 0
  }

  /** In a walk the daemon waits at most for a caller that is looking at its own `ready`. */
  lemma WalkGoesOn(r: Repairs, s: State) returns (a: Action)
    requires Basic(r, s) && s.d.Walk?
    ensures Enabled(s, a)
    ensures a.Work? || (a.Step? && Apply(r, s, a).d == s.d && Apply(r, s, a).reqs == s.reqs
        && OwnLeft(Apply(r, s, a)) < OwnLeft(s))
  {
    hide Times, Encode, Taken, Current, Remove, ReturnValue;
    if CanWork(s) {
      a := Work(false);
    } else {
      a := Step(s.reqs[s.d.i]);
    }
  }

  /** The same calls, about the same requests. */
  ghost predicate SameCalls(s: State, t: State) {
    |t.calls| == |s.calls| && forall c :: 0 <= c < |s.calls| ==> t.calls[c].req == s.calls[c].req
  }

  lemma NoNewCall(r: Repairs, s: State, a: Action)
    requires Enabled(s, a) && !a.Begin?
    ensures SameCalls(s, Apply(r, s, a))
  {
    hide StepCall, WorkDaemon, CanWork, CanStep, Encode, Taken, Current;
    if a.Work? {
      WorkKeeps(r, s, a.stale);
    } else {
      OthersKeep(r, s, a);
      if a.Step? {
        StepCount(r, s, a.c);
      }
    }
  }

  lemma {:induction false} WalkEnds(r: Repairs, s: State) returns (t: State)
    requires Basic(r, s) && s.d.Walk?
    requires s.d.got.Some? || r.sweepAdvances
    ensures Leads(r, s, t) && Basic(r, t) && SameCalls(s, t)
    ensures t.d == (if s.d.got.Some? then AtRead else Exited) && (s.d.got.None? ==> t.reqs == [])
    decreases WalkLeft(|s.reqs|, s.d), OwnLeft(s)
  {
    hide Apply, Enabled, Leads, Basic;
    var a := WalkGoesOn(r, s);
    WalkShrinks(r, s, a);
    BasicKept(r, s, a);
    NoNewCall(r, s, a);
    One(r, s, a);
    t := Apply(r, s, a);
    if t.d.Walk? {
      var s' := t;
      t := WalkEnds(r, s');
      Join(r, s, s', t);
    }
  }

  // ---------- the teardown as written ----------

  /** The daemon is in its teardown, at the first of some requests. */
  predicate Stuck(s: State) {
    s.d.Walk? && s.d.got.None? && s.d.i == 0 && s.reqs != []
  }

  /** Of the calls of `s`, none but the first request's has been signalled on the way to `t`. */
  ghost predicate OthersUnsignalled(s: State, t: State)
    requires s.reqs != []
  {
    && |s.calls| <= |t.calls|
    && forall c :: 0 <= c < |s.calls| && c != s.reqs[0] ==> t.calls[c].ready == s.calls[c].ready
  }

  lemma StuckStays(r: Repairs, s: State, a: Action)
    requires !r.sweepAdvances && Basic(r, s) && Stuck(s) && Enabled(s, a)
    ensures Stuck(Apply(r, s, a)) && Apply(r, s, a).reqs == s.reqs && OthersUnsignalled(s, Apply(r, s, a))
  {
    hide Treat, Times, Encode, Taken, Current, Remove, NextPc;
  }

  /** As written the loop treats the first request again and again: whatever the others do,
      the daemon never exits, and no other request is signalled. */
  lemma TeardownNeverEnds(r: Repairs, s: State, t: State)
    requires !r.sweepAdvances && Basic(r, s) && Stuck(s) && Leads(r, s, t)
    ensures Stuck(t) && t.reqs == s.reqs && OthersUnsignalled(s, t)
  {
    hide Apply, Enabled, Basic;
    var inv := u => Basic(r, u) && Stuck(u) && u.reqs == s.reqs && OthersUnsignalled(s, u);
    forall u, a | inv(u) && Enabled(u, a) ensures inv(Apply(r, u, a)) {
      StuckStays(r, u, a);
      BasicKept(r, u, a);
    }
    Preserved(r, inv, s, t);
  }

  lemma NothingToSweep(r: Repairs, s: State)
    requires Basic(r, s) && s.d.Walk? && s.d.got.None? && s.reqs == []
    ensures Enabled(s, Work(false)) && Apply(r, s, Work(false)).d.Exited?
  {
    hide Times, Locks;
  }

  /** A teardown can come to its end exactly when its loop moves on to the next request, or
      there is none. */
  lemma TeardownEnds(r: Repairs, s: State)
    requires Reachable(r, s) && s.d.Walk? && s.d.got.None?
    ensures (exists t :: Leads(r, s, t) && t.d.Exited?) <==> r.sweepAdvances || s.reqs == []
  {
    hide Leads, Basic, Answered, Closing;
    EndingHolds(r, s);
    if r.sweepAdvances {
      var t := WalkEnds(r, s);
    } else if s.reqs == [] {
      NothingToSweep(r, s);
      One(r, s, Work(false));
    } else {
      forall t | Leads(r, s, t) ensures !t.d.Exited? {
        TeardownNeverEnds(r, s, t);
      }
    }
  }

  // ---------- after the teardown ----------

  /** How many steps a call has left at most once its request has been signalled. */
  function CallLeft(call: Call): nat {
    var length := |Encode(call.req.frame)|;
    match call.pc
    case Returned(_) => 0
    case AtReturn(_) => 1
    case AtLeave => 2
    case AtReady => 3
    case WantLock => 4
    case Parked(_) => 5
    case AtWait => 6
    case AtWithdraw => 6
    case WantReqsAgain => 7
    case AtUnlockOut(_) => 8
    case Writing(n) => if n <= length then 9 + (length - n) else 9
    case WantOut => 10 + length
    case AtUnlock(_) => 11 + length
    case AtLink => 12 + length
    case AtTest => 13 + length
    case WantReqs => 14 + length
  }

  predicate Moving(a: Action) {
    a.Step? || a.Send? || a.Fail?
  }

  /** A step that brings a call no nearer to its return: it finds that it must sleep. */
  predicate FallsAsleep(s: State, a: Action) {
    a.Step? && a.c < |s.calls| && s.calls[a.c].pc.AtReady? && !s.calls[a.c].ready
  }

  lemma StepRunsOut(r: Repairs, s: State, c: nat)
    requires c < |s.calls| && CanStep(s, c) && !FallsAsleep(s, Step(c))
    ensures CallLeft(StepCall(r, s, c).calls[c]) < CallLeft(s.calls[c])
  {
    hide Encode, Remove, ReturnValue;
  }

  lemma WriteRunsOut(call: Call, a: Action)
    requires if a.Send? then CanSend(call, a.n) else a.Fail? && CanFail(call)
    ensures CallLeft(AfterSend(call, a)) < CallLeft(call)
  {
    hide Encode, Current;
  }

  /** Every step a call takes is one less to its return, except that an unsignalled one falls
      asleep. */
  lemma MoveRunsOut(r: Repairs, s: State, a: Action)
    requires Moving(a) && Enabled(s, a) && !FallsAsleep(s, a)
    ensures |Apply(r, s, a).calls| == |s.calls|
    ensures CallLeft(Apply(r, s, a).calls[a.c]) < CallLeft(s.calls[a.c])
    ensures forall c :: 0 <= c < |s.calls| && c != a.c ==> Apply(r, s, a).calls[c] == s.calls[c]
  {
    hide CanStep, CallLeft, CanSend, CanFail, Taken, Current, AfterSend, WorkDaemon;
    if a.Step? {
      StepRunsOut(r, s, a.c);
    } else {
      hide StepCall;
      WriteRunsOut(s.calls[a.c], a);
    }
  }

  /** Once the daemon has exited, nothing else touches a call. */
  lemma CallsRunOut(r: Repairs, s: State, a: Action)
    requires s.d.Exited? && Enabled(s, a)
    ensures var s' := Apply(r, s, a);
      && s'.d.Exited? && |s.calls| <= |s'.calls|
      && forall c :: 0 <= c < |s.calls| ==>
           if !Moving(a) || a.c != c then s'.calls[c] == s.calls[c]
           else FallsAsleep(s, a) || CallLeft(s'.calls[c]) < CallLeft(s.calls[c])
  {
    if Moving(a) && !FallsAsleep(s, a) {
      hide Apply, Enabled, CallLeft;
      MoveRunsOut(r, s, a);
      OthersKeep(r, s, a);
    } else {
      hide CanStep, CallLeft, CanSend, CanFail, Taken, Current, AfterSend, WorkDaemon;
    }
  }
}
