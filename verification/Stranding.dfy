/** Nobody is left behind: from every state of the repaired client a run leads to where the
    daemon has exited and every call has returned; and which callers can never be woken. */
module Stranding {
  import opened Frames
  import opened Codec
  import opened Protocol
  import opened Execution
  import opened Sublists
  import opened Basics
  import opened Segments
  import opened Ending
  import opened Teardown
  import opened Deadlock

  // ---------- the daemon can exit ----------

  /** How far the daemon is from its exit if the next frame cannot be read. */
  function DaemonLeft(d: DaemonPc): nat {
    match d
    case DWantReqs(got) => if got.Some? then 9 else 5
    case DAtTest(got) => if got.Some? then 8 else 4
    case Walk(got, _, _) => if got.Some? then 7 else 0
    case AtRead => 6
    case DWantOut => 3
    case AtClose => 2
    case DAtUnlockOut => 1
    case Exited => 0
  }

  /** How many steps the caller has left that keeps the daemon waiting, if there is one. */
  function BlockLeft(s: State): nat {
    match WaitsFor(s, Daemon)
    case Caller(c) => if c < |s.calls| then 1 + CallLeft(s.calls[c]) else 0
    case _ => 0
  }

  lemma DaemonComesNearer(r: Repairs, s: State)
    requires Listed(s) && CanWork(s) && !s.d.Walk?
    ensures DaemonLeft(WorkDaemon(r, s, false).d) < DaemonLeft(s.d)
  {
    hide Treat, NextStage, Hit;
  }

  lemma WaitingDaemon(s: State)
    requires !s.d.Walk? && !s.d.AtRead? && !s.d.Exited? && Locks(s)
    ensures CanWork(s) || (WaitsFor(s, Daemon).Caller? && WaitsFor(s, Daemon).c < |s.calls|)
  {
  }

  /** The caller that keeps the daemon waiting comes nearer to letting go. */
  lemma HolderComesNearer(r: Repairs, s: State) returns (a: Action)
    requires Basic(r, s) && !s.d.Walk? && !s.d.AtRead? && !s.d.Exited? && !CanWork(s)
    ensures Enabled(s, a) && Moving(a)
    ensures Apply(r, s, a).d == s.d && BlockLeft(Apply(r, s, a)) < BlockLeft(s)
  {
    hide Apply, Enabled, CanWork, Times, Listed, Sending;
    WaitingDaemon(s);
    ChainsAreShort(r, s, Daemon);
    a := HolderMoves(r, s, Daemon);
    var c := WaitsFor(s, Daemon).c;
    HolderIsMoving(s, a, c);
    OthersKeep(r, s, a);
    BasicKept(r, s, a);
    HolderRunsOut(r, s, a);
  }

  lemma HolderIsMoving(s: State, a: Action, c: nat)
    requires CanMove(s, Caller(c), a)
    ensures Moving(a) && a.c == c && Enabled(s, a)
  {
    hide Enabled;
  }

  /** A lock that a caller holds is still held by it after its step, or free. */
  lemma StepPassesLocks(r: Repairs, s: State, a: Action)
    requires Locks(s) && Moving(a) && Enabled(s, a)
    ensures var s' := Apply(r, s, a);
      && (s.reqsLock == Caller(a.c) ==> s'.reqsLock.Free? || s'.reqsLock == Caller(a.c))
      && (s.outLock == Caller(a.c) ==> s'.outLock.Free? || s'.outLock == Caller(a.c))
  {
    hide WorkDaemon, CanWork, Remove, NextPc, Encode, Taken, Current, CanSend, CanFail;
  }

  lemma HolderRunsOut(r: Repairs, s: State, a: Action)
    requires Basic(r, s) && !s.d.Walk? && Moving(a) && Enabled(s, a)
    requires a.c < |s.calls| && WaitsFor(s, Daemon) == Caller(a.c) && Apply(r, s, a).d == s.d
    ensures BlockLeft(Apply(r, s, a)) < BlockLeft(s)
  {
    hide Apply, Enabled, CallLeft, Times, Listed, Sending;
    StepPassesLocks(r, s, a);
    assert !FallsAsleep(s, a);
    MoveRunsOut(r, s, a);
  }

  /** From every state there is a run in which the daemon exits, if its teardown advances. */
  lemma {:induction false} ToExit(r: Repairs, s: State) returns (t: State)
    requires r.sweepAdvances && Basic(r, s)
    ensures Leads(r, s, t) && t.d.Exited? && SameCalls(s, t) && (s.d.Exited? || t.reqs == [])
    decreases DaemonLeft(s.d), BlockLeft(s)
  {
    hide Apply, Enabled, Leads, Basic, CanWork, BlockLeft;
    Stay(r, s);
    if s.d.Exited? {
      t := s;
    } else if s.d.Walk? {
      t := WalkEnds(r, s);
      if s.d.got.Some? {
        var s' := t;
        t := ToExit(r, s');
        Join(r, s, s', t);
      }
    } else {
      var a := Nearer(r, s);
      BasicKept(r, s, a);
      NoNewCall(r, s, a);
      One(r, s, a);
      var s' := Apply(r, s, a);
      t := ToExit(r, s');
      Join(r, s, s', t);
    }
  }

  lemma Nearer(r: Repairs, s: State) returns (a: Action)
    requires Basic(r, s) && !s.d.Walk? && !s.d.Exited?
    ensures Enabled(s, a) && !a.Begin? && !Apply(r, s, a).d.Exited?
    ensures var s' := Apply(r, s, a);
      DaemonLeft(s'.d) < DaemonLeft(s.d) || (s'.d == s.d && BlockLeft(s') < BlockLeft(s))
  {
    if s.d.AtRead? {
      hide BlockLeft, CanWork, Times, Locks, Listed, Sending;
      a := Read(Option.None);
    } else if CanWork(s) {
      hide BlockLeft, CanWork, Times, Locks, Sending, WorkDaemon;
      a := Work(false);
      DaemonComesNearer(r, s);
    } else {
      hide Apply, Enabled, CanWork, BlockLeft;
      a := HolderComesNearer(r, s);
    }
  }

  // ---------- every call can return ----------

  function Total(calls: seq<Call>): nat {
    if calls == [] then 0 else CallLeft(calls[0]) + Total(calls[1..])
  }

  lemma {:induction false} TotalShrinks(a: seq<Call>, b: seq<Call>, c: nat)
    requires |a| == |b| && c < |a| && CallLeft(b[c]) < CallLeft(a[c])
    requires forall j :: 0 <= j < |a| && j != c ==> b[j] == a[j]
    ensures Total(b) < Total(a)
  {
    hide CallLeft;
    if c == 0 {
      assert a[1..] == b[1..];
    } else {
      assert a[1..][c - 1] == a[c] && b[1..][c - 1] == b[c];
      TotalShrinks(a[1..], b[1..], c - 1);
    }
  }

  /** The daemon has exited, and no call of bw2_query is to wait for nothing. */
  ghost predicate WindingUp(r: Repairs, s: State) {
    && r.connectFirst && Reachable(r, s) && s.d.Exited?
    && forall c :: 0 <= c < |s.calls| && s.calls[c].req.api.Query? ==> r.checksTransact
  }

  /** A call that has not returned can be brought nearer to it, itself or by the caller that
      holds the lock it needs. */
  lemma SomeoneMoves(r: Repairs, s: State, c: nat) returns (a: Action)
    requires WindingUp(r, s) && c < |s.calls| && !s.calls[c].pc.Returned?
    ensures Enabled(s, a) && Moving(a) && a.c < |s.calls| && !FallsAsleep(s, a)
  {
    hide Reachable, Apply, Enabled, WaitsFor, CanMove;
    ClosesDown(r, s);
    if WaitsFor(s, Caller(c)).Free? {
      a := OthersMove(r, s, Caller(c));
      if s.calls[c].pc.Parked? {
        NoLostWakeUp(r, s, c);
      }
      CallerMoves(s, Caller(c), a);
    } else {
      var mover;
      mover, a := NoDeadlock(r, s, Caller(c));
      CallerMoves(s, mover, a);
    }
    EndingHolds(r, s);
    AwakeByNow(r, s, a);
  }

  lemma CallerMoves(s: State, t: Owner, a: Action)
    requires s.d.Exited? && CanMove(s, t, a)
    ensures Moving(a) && Enabled(s, a) && a.c < |s.calls|
  {
  }

  lemma AwakeByNow(r: Repairs, s: State, a: Action)
    requires ClosedDown(r, s) && Moving(a) && a.c < |s.calls|
    requires forall c :: 0 <= c < |s.calls| && s.calls[c].req.api.Query? ==> r.checksTransact
    ensures !FallsAsleep(s, a)
  {
  }

  lemma {:induction false} CallsReturn(r: Repairs, s: State) returns (t: State)
    requires WindingUp(r, s)
    ensures Leads(r, s, t) && t.d.Exited? && |t.calls| == |s.calls|
    ensures forall c :: 0 <= c < |t.calls| ==> t.calls[c].pc.Returned?
    decreases Total(s.calls)
  {
    hide Leads, Apply, Enabled, FallsAsleep, CallLeft;
    if c: nat :| c < |s.calls| && !s.calls[c].pc.Returned? {
      var a := SomeoneMoves(r, s, c);
      MoveRunsOut(r, s, a);
      CallsRunOut(r, s, a);
      NoNewCall(r, s, a);
      One(r, s, a);
      var s' := Apply(r, s, a);
      TotalShrinks(s.calls, s'.calls, a.c);
      Join(r, Init(r), s, s');
      t := CallsReturn(r, s');
      Join(r, s, s', t);
    } else {
      Stay(r, s);
      t := s;
    }
  }

  /** From every reachable state, whatever the calls and the daemon are doing, a run leads to
      where the daemon has exited and every one of these calls has returned. */
  lemma EverybodyReturns(r: Repairs, s: State) returns (t: State)
    requires r.connectFirst && r.sweepAdvances && Reachable(r, s)
    requires forall c :: 0 <= c < |s.calls| && s.calls[c].req.api.Query? ==> r.checksTransact
    ensures Leads(r, s, t) && t.d.Exited? && |t.calls| == |s.calls|
    ensures forall c :: 0 <= c < |t.calls| ==> t.calls[c].pc.Returned?
  {
    hide Leads, Basic;
    BasicHolds(r, s);
    var u := ToExit(r, s);
    Join(r, Init(r), s, u);
    t := CallsReturn(r, u);
    Join(r, s, u, t);
  }

  // ---------- who can never be woken ----------

  /** The call waits for its signal, and no continuation of the run gives it one. */
  ghost predicate Stranded(r: Repairs, s: State, c: nat)
    requires c < |s.calls|
  {
    Waits(s.calls[c].pc) && forall t :: Leads(r, s, t) ==> c < |t.calls| && !t.calls[c].ready
  }

  /** A call whose request is linked and which has only to wait and return. */
  predicate Committed(call: Call) {
    Linked(call) && (Waits(call.pc) || call.pc.AtLeave? || call.pc == AtReturn(None) || call.pc.Returned?)
  }

  ghost predicate IsCommitted(s: State, c: nat) {
    c < |s.calls| && Committed(s.calls[c])
  }

  lemma StaysCommitted(r: Repairs, s: State, c: nat, a: Action)
    requires IsCommitted(s, c) && Enabled(s, a)
    ensures IsCommitted(Apply(r, s, a), c)
  {
    hide StepCall, CanStep, WorkDaemon, CanWork, Happens, CanHappen, IsCommitted;
    match a
    case Step(x) => StepCommits(r, s, c, x);
    case Work(stale) => WorkCommits(r, s, c, stale);
    case _ => HappensCommits(r, s, c, a);
  }

  lemma StepCommits(r: Repairs, s: State, c: nat, x: nat)
    requires IsCommitted(s, c) && x < |s.calls| && CanStep(s, x)
    ensures IsCommitted(StepCall(r, s, x), c)
  {
    hide Encode, Remove, ReturnValue;
  }

  lemma HappensCommits(r: Repairs, s: State, c: nat, a: Action)
    requires IsCommitted(s, c) && CanHappen(s, a)
    ensures IsCommitted(Happens(r, s, a), c)
  {
    hide Encode, Taken, Current;
  }

  lemma WorkCommits(r: Repairs, s: State, c: nat, stale: bool)
    requires IsCommitted(s, c) && CanWork(s)
    ensures IsCommitted(WorkDaemon(r, s, stale), c)
  {
    hide Treat, NextStage, Hit;
    if Cursor(s).Some? {
      TreatKeeps(s.calls[s.reqs[s.d.i]], s.d.got, s.d.stage);
    }
  }

  /** A committed call has been signalled once the daemon has exited with an empty list. */
  lemma SignalledAtExit(r: Repairs, s: State, t: State, c: nat)
    requires Reachable(r, s) && IsCommitted(s, c) && Leads(r, s, t) && t.reqs == []
    ensures c < |t.calls| && t.calls[c].ready
  {
    hide Apply, Enabled, Leads, Basic;
    forall u, a | IsCommitted(u, c) && Enabled(u, a) ensures IsCommitted(Apply(r, u, a), c) {
      StaysCommitted(r, u, c, a);
    }
    Preserved(r, u => IsCommitted(u, c), s, t);
    Join(r, Init(r), s, t);
    EndingHolds(r, t);
  }

  /** A waiting call that the daemon has no way to. */
  ghost predicate OutOfReach(s: State, c: nat) {
    c < |s.calls| && Waits(s.calls[c].pc) && !s.calls[c].ready && (s.d.Exited? || !Linked(s.calls[c]))
  }

  lemma StaysOutOfReach(r: Repairs, s: State, c: nat, a: Action)
    requires Listed(s) && OutOfReach(s, c) && Enabled(s, a)
    ensures OutOfReach(Apply(r, s, a), c)
  {
    hide StepCall, CanStep, WorkDaemon, CanWork, Happens, CanHappen, OutOfReach, Listed;
    match a
    case Step(x) => StepStaysOut(r, s, c, x);
    case Work(stale) => WorkStaysOut(r, s, c, stale);
    case _ => HappensStaysOut(r, s, c, a);
  }

  lemma StepStaysOut(r: Repairs, s: State, c: nat, x: nat)
    requires OutOfReach(s, c) && x < |s.calls| && CanStep(s, x)
    ensures OutOfReach(StepCall(r, s, x), c)
  {
    hide Encode, Remove, ReturnValue;
  }

  lemma WorkStaysOut(r: Repairs, s: State, c: nat, stale: bool)
    requires Listed(s) && OutOfReach(s, c) && CanWork(s)
    ensures OutOfReach(WorkDaemon(r, s, stale), c)
  {
    hide Treat, NextStage, Hit, Distinct;
  }

  lemma HappensStaysOut(r: Repairs, s: State, c: nat, a: Action)
    requires OutOfReach(s, c) && CanHappen(s, a)
    ensures OutOfReach(Happens(r, s, a), c)
  {
    hide Encode, Taken, Current;
  }

  lemma OutOfReachIsStranded(r: Repairs, s: State, c: nat)
    requires Basic(r, s) && OutOfReach(s, c)
    ensures Stranded(r, s, c)
  {
    hide Apply, Enabled, Leads, Basic;
    forall t | Leads(r, s, t) ensures c < |t.calls| && !t.calls[c].ready {
      forall u, a | Basic(r, u) && OutOfReach(u, c) && Enabled(u, a)
        ensures Basic(r, Apply(r, u, a)) && OutOfReach(Apply(r, u, a), c)
      {
        BasicKept(r, u, a);
        BasicLists(r, u);
        StaysOutOfReach(r, u, c, a);
      }
      Preserved(r, u => Basic(r, u) && OutOfReach(u, c), s, t);
    }
  }

  /** The first request of a teardown is signalled even by the loop as written. */
  lemma {:induction false} HeadIsSignalled(r: Repairs, s: State, c: nat) returns (t: State)
    requires Basic(r, s) && Answered(s) && Anchored(r, s)
    requires !r.sweepAdvances && Stuck(s) && s.reqs[0] == c && c < |s.calls|
    ensures Leads(r, s, t) && c < |t.calls| && t.calls[c].ready
    decreases StageLeft(s.d.stage), OwnLeft(s)
  {
    hide Apply, Enabled, Leads, Basic, Answered, Anchored;
    Stay(r, s);
    if s.calls[c].ready {
      t := s;
    } else {
      var a := WalkGoesOn(r, s);
      BasicLists(r, s);
      AnsweredParts(s);
      StuckStays(r, s, a);
      BasicKept(r, s, a);
      AnsweredKept(r, s, a);
      AnchoredKept(r, s, a);
      One(r, s, a);
      var s' := Apply(r, s, a);
      HeadComesNearer(r, s, c, a);
      if s'.calls[c].ready {
        t := s';
      } else {
        t := HeadIsSignalled(r, s', c);
        Join(r, s, s', t);
      }
    }
  }

  lemma HeadComesNearer(r: Repairs, s: State, c: nat, a: Action)
    requires Listed(s) && WalkSignals(s) && Stuck(s) && s.reqs[0] == c && c < |s.calls| && !s.calls[c].ready
    requires Enabled(s, a)
    ensures var s' := Apply(r, s, a);
      if a.Work? then s'.d.Walk? && (s'.calls[c].ready || StageLeft(s'.d.stage) < StageLeft(s.d.stage))
      else s'.d == s.d
  {
    hide CanStep, StepCall, Happens, Distinct;
    if !a.Work? {
      OthersKeep(r, s, a);
    }
  }

  /** When a teardown has begun, exactly those waiting callers are lost that it will not come
      to: those whose request is not on the list, and with the loop as written all but the
      first. After the daemon's exit everyone is who has not been signalled. */
  lemma TeardownStrands(r: Repairs, s: State, c: nat)
    requires Reachable(r, s) && c < |s.calls| && Waits(s.calls[c].pc) && !s.calls[c].ready
    requires s.d.Exited? || (s.d.Walk? && s.d.got.None?)
    ensures Stranded(r, s, c) <==> !(s.d.Walk? && c in s.reqs && (r.sweepAdvances || c == s.reqs[0]))
  {
    hide Reachable, Leads, Basic, Answered, Closing, Committed, OutOfReach;
    EndingHolds(r, s);
    if s.d.Walk? && c in s.reqs {
      if r.sweepAdvances {
        WillBeSwept(r, s, c);
      } else if c == s.reqs[0] {
        var t := HeadIsSignalled(r, s, c);
      } else {
        forall t | Leads(r, s, t) ensures c < |t.calls| && !t.calls[c].ready {
          TeardownNeverEnds(r, s, t);
        }
      }
    } else {
      OffListIsOut(r, s, c);
      OutOfReachIsStranded(r, s, c);
    }
  }

  lemma AnsweredParts(s: State)
    requires Answered(s)
    ensures WalkSignals(s)
  {
  }

  lemma OffListIsOut(r: Repairs, s: State, c: nat)
    requires Answered(s) && c < |s.calls| && Waits(s.calls[c].pc) && !s.calls[c].ready && (s.d.Exited? || c !in s.reqs)
    ensures OutOfReach(s, c)
  {
  }

  lemma WillBeSwept(r: Repairs, s: State, c: nat)
    requires r.sweepAdvances && Reachable(r, s) && s.d.Walk? && s.d.got.None? && c in s.reqs
    requires c < |s.calls| && Waits(s.calls[c].pc)
    ensures !Stranded(r, s, c)
  {
    hide Leads, Apply, Enabled, Locks, Times;
    BasicHolds(r, s);
    var t := WalkEnds(r, s);
    SignalledAtExit(r, s, t, c);
  }

  // ---------- when nobody is ----------

  /** With the flag set in time and a teardown that advances, every waiting call whose request
      was linked can still be signalled. */
  lemma NotStranded(r: Repairs, s: State, c: nat)
    requires r.connectFirst && r.sweepAdvances && Reachable(r, s) && c < |s.calls|
    requires r.checksTransact || !s.calls[c].req.api.Query?
    ensures !Stranded(r, s, c)
  {
    hide Leads, Apply, Enabled, Locks, Listed, Sending, CallLeft;
    if Waits(s.calls[c].pc) {
      EndingHolds(r, s);
      WaitsLinked(r, s, c);
      var t := ToExit(r, s);
      if s.d.Exited? {
        ClosesDown(r, s);
        Stay(r, s);
      } else {
        SignalledAtExit(r, s, t, c);
      }
    }
  }

  lemma WaitsLinked(r: Repairs, s: State, c: nat)
    requires Times(r, s) && c < |s.calls| && Waits(s.calls[c].pc) && (r.checksTransact || !s.calls[c].req.api.Query?)
    ensures IsCommitted(s, c)
  {
  }

  /** As written the daemon may find `connected` still false, exit, and have bw2_connect set it
      afterwards: the next call links its request, writes it and sleeps for ever. */
  lemma StartRaceStrands(r: Repairs, api: Api) returns (s: State)
    requires !r.connectFirst
    ensures Reachable(r, s) && s.d.Exited? && s.connected && |s.calls| == 1
    ensures s.calls[0].req.api == api && s.calls[0].pc == Parked(false) && Stranded(r, s, 0)
  {
    hide Leads, Encode, Stranded;
    var s0 := Init(r);
    Stay(r, s0);
    Exits(r, s0);
    var s1 := s0.(d := Exited, connected := false);
    Then(r, s0, s1, Connected);
    var s2 := Apply(r, s1, Connected);
    var req := Asking(api, false, s2);
    s := s2.(draws := s2.draws + 1, calls := s2.calls + [NewCall(req, 0)]);
    Begins(r, s2, req, 0);
    Join(r, s0, s2, s);
    var s4 := WithCall(s, 0, s.calls[0].(pc := WantOut, since := Some(|s.walked|))).(reqs := [0] + s.reqs);
    Links(r, s, 0);
    Join(r, s0, s, s4);
    var s5 := WithCall(s4, 0, s4.calls[0].(pc := WantLock))
      .(sent := s4.sent + Encode(req.frame), order := s4.order + [0]);
    Writes(r, s4, 0);
    Join(r, s0, s4, s5);
    s := WithCall(s5, 0, s5.calls[0].(pc := Parked(false)));
    Parks(r, s5, 0);
    Join(r, s0, s5, s);
    TeardownStrands(r, s, 0);
  }

  /** As written bw2_query sleeps for a request that bw2_transact refused to link. */
  lemma QueryStrands(r: Repairs) returns (s: State)
    requires !r.checksTransact
    ensures Reachable(r, s) && s.d.Exited? && |s.calls| == 1
    ensures s.calls[0].req.api.Query? && s.calls[0].pc == Parked(false) && Stranded(r, s, 0)
  {
    hide Leads, Encode, Stranded;
    var s0 := Init(r);
    FreshIsReachable(r);
    Exits(r, Fresh());
    var s1 := Fresh().(d := Exited, connected := false);
    Join(r, s0, Fresh(), s1);
    var req := Asking(Query, false, s1);
    var s2 := s1.(draws := s1.draws + 1, calls := s1.calls + [NewCall(req, 0)]);
    Begins(r, s1, req, 0);
    Join(r, s0, s1, s2);
    var s3 := WithCall(s2, 0, s2.calls[0].(pc := WantLock, refused := true));
    Refuses(r, s2, 0);
    Join(r, s0, s2, s3);
    s := WithCall(s3, 0, s3.calls[0].(pc := Parked(false)));
    Parks(r, s3, 0);
    Join(r, s0, s3, s);
    TeardownStrands(r, s, 0);
  }

  /** As written the teardown never comes to the second of two requests. */
  lemma SecondStrands(r: Repairs, api: Api) returns (s: State)
    requires !r.sweepAdvances
    ensures Reachable(r, s) && s.d == Walk(Option.None, 0, Look) && s.reqs == [1, 0] && |s.calls| == 2
    ensures s.calls[0].req.api == api && Stranded(r, s, 0)
  {
    hide Leads, Encode, Stranded;
    var s0 := Init(r);
    var s1 := OneRequest(r, api, false);
    var req := Asking(Publish, false, s1);
    Begins(r, s1, req, 0);
    var s2 := s1.(draws := s1.draws + 1, calls := s1.calls + [NewCall(req, 0)]);
    Join(r, s0, s1, s2);
    Links(r, s2, 1);
    var s3 := WithCall(s2, 1, s2.calls[1].(pc := WantOut, since := Some(|s2.walked|))).(reqs := [1] + s2.reqs);
    Join(r, s0, s2, s3);
    TearsDown(r, s3);
    s := s3.(d := Walk(Option.None, 0, Look), connected := false, reqsLock := Daemon);
    Join(r, s0, s3, s);
    TeardownStrands(r, s, 0);
  }

  /** No call of `api` is stranded in any run exactly when `connected` is set before the daemon
      starts, the teardown advances, and, for bw2_query, bw2_transact's result is looked at. */
  lemma NoCallerIsStranded(r: Repairs, api: Api)
    ensures (forall s, c :: Reachable(r, s) && 0 <= c < |s.calls| && s.calls[c].req.api == api ==> !Stranded(r, s, c))
            <==> r.connectFirst && r.sweepAdvances && (r.checksTransact || !api.Query?)
  {
    hide Reachable, Stranded;
    if r.connectFirst && r.sweepAdvances && (r.checksTransact || !api.Query?) {
      forall s, c | Reachable(r, s) && 0 <= c < |s.calls| && s.calls[c].req.api == api ensures !Stranded(r, s, c) {
        NotStranded(r, s, c);
      }
    } else if !r.connectFirst {
      var s := StartRaceStrands(r, api);
      assert s.calls[0].req.api == api;
    } else if !r.sweepAdvances {
      var s := SecondStrands(r, api);
      assert s.calls[0].req.api == api;
    } else {
      var s := QueryStrands(r);
      assert s.calls[0].req.api == api;
    }
  }
}
