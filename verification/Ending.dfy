/** The end of the connection: what all runs keep about who has been signalled, and what the
    daemon leaves behind when it exits. */
module Ending {
  import opened Frames
  import opened Codec
  import opened Protocol
  import opened Execution
  import opened Sublists
  import opened Basics

  /** The stages at which the request under the cursor has been signalled. */
  predicate Past(stage: Stage) {
    stage.Deliver? || stage.Judge? || stage.After?
  }

  /** A request leaves the list only after it has been signalled. */
  ghost predicate LeftSignalled(s: State) {
    forall c :: 0 <= c < |s.calls| && Linked(s.calls[c]) && !s.calls[c].ready ==> c in s.reqs
  }

  /** The daemon moves past a request only after signalling it; a teardown skips none. */
  ghost predicate WalkSignals(s: State) {
    s.d.Walk? ==>
      && (Past(s.d.stage) && s.d.i < |s.reqs| && s.reqs[s.d.i] < |s.calls| ==> s.calls[s.reqs[s.d.i]].ready)
      && (s.d.got.None? ==>
            forall p :: 0 <= p < s.d.i && p < |s.reqs| && s.reqs[p] < |s.calls| ==> s.calls[s.reqs[p]].ready)
  }

  ghost predicate Answered(s: State) {
    LeftSignalled(s) && WalkSignals(s)
  }

  predicate TearingDown(d: DaemonPc) {
    d.DAtUnlockOut? || d.Exited? || (d.Walk? && d.got.None?)
  }

  /** With the flag set before the daemon starts, nothing is linked behind its back. */
  ghost predicate Closing(r: Repairs, s: State) {
    r.connectFirst ==>
      && !s.starting
      && (TearingDown(s.d) ==> !s.connected)
      && (s.d.Exited? ==> s.reqs == [] && forall c :: 0 <= c < |s.calls| ==> !s.calls[c].pc.AtLink?)
  }

  /** A teardown that does not advance stays at the head of the list. */
  predicate Anchored(r: Repairs, s: State) {
    s.d.Walk? && s.d.got.None? && !r.sweepAdvances ==> s.d.i == 0
  }

  lemma StepKeepsAnswered(r: Repairs, s: State, c: nat)
    requires Basic(r, s) && Answered(s) && c < |s.calls| && CanStep(s, c)
    ensures Answered(StepCall(r, s, c))
  {
    hide Encode, Taken, Current, Remove, ReturnValue, AfterFailure, Times;
    Removed(s.reqs, c);
    var s' := StepCall(r, s, c);
    forall x | 0 <= x < |s.calls| && Linked(s'.calls[x]) && !s'.calls[x].ready ensures x in s'.reqs {
      assert x != c ==> s'.calls[x] == s.calls[x];
    }
  }

  lemma WorkLeavesSignalled(r: Repairs, s: State, stale: bool)
    requires Listed(s) && Answered(s) && CanWork(s)
    ensures LeftSignalled(WorkDaemon(r, s, stale))
  {
    hide Hit, NextStage;
    var s' := WorkDaemon(r, s, stale);
    forall x | 0 <= x < |s.calls| && Linked(s'.calls[x]) && !s'.calls[x].ready ensures x in s'.reqs {
      assert Linked(s.calls[x]) && !s.calls[x].ready;
    }
  }

  lemma TreatSignals(call: Call, got: Option<Reply>, stage: Stage)
    ensures Treat(call, got, stage).ready == (call.ready || stage.Signal?)
  {
  }

  lemma {:induction false} WorkSignals(r: Repairs, s: State, stale: bool)
    requires Listed(s) && WalkSignals(s) && CanWork(s)
    ensures WalkSignals(WorkDaemon(r, s, stale))
  {
    hide Treat, CanWork;
    var s' := WorkDaemon(r, s, stale);
    if s.d.Walk? && s'.d.Walk? && s.d.i < |s.reqs| {
      var call := s.calls[s.reqs[s.d.i]];
      TreatSignals(call, s.d.got, s.d.stage);
      if s.d.got.None? {
        forall p | 0 <= p < s'.d.i && p < |s.reqs| ensures s'.calls[s.reqs[p]].ready {
        }
      }
    }
  }

  lemma {:induction false} WorkKeepsAnswered(r: Repairs, s: State, stale: bool)
    requires Listed(s) && Answered(s) && CanWork(s)
    ensures Answered(WorkDaemon(r, s, stale))
  {
    hide WorkDaemon, CanWork, LeftSignalled, WalkSignals, Listed;
    WorkLeavesSignalled(r, s, stale);
    WorkSignals(r, s, stale);
  }

  lemma HappensKeepsAnswered(r: Repairs, s: State, a: Action)
    requires Listed(s) && Answered(s) && CanHappen(s, a)
    ensures Answered(Happens(r, s, a))
  {
    hide Encode, Taken, Current, Distinct;
    var s' := Happens(r, s, a);
    forall c | 0 <= c < |s.calls|
      ensures Linked(s'.calls[c]) == Linked(s.calls[c]) && s'.calls[c].ready == s.calls[c].ready
    {
    }
  }

  lemma {:induction false} AnsweredKept(r: Repairs, s: State, a: Action)
    requires Basic(r, s) && Answered(s) && Enabled(s, a)
    ensures Answered(Apply(r, s, a))
  {
    hide StepCall, CanStep, WorkDaemon, CanWork, Happens, CanHappen, Listed, Locks, Times, LeftSignalled, WalkSignals;
    match a
    case Step(c) => StepKeepsAnswered(r, s, c);
    case Work(stale) => WorkKeepsAnswered(r, s, stale);
    case _ => HappensKeepsAnswered(r, s, a);
  }

  lemma StepKeepsClosing(r: Repairs, s: State, c: nat)
    requires Locks(s) && Closing(r, s) && c < |s.calls| && CanStep(s, c)
    ensures Closing(r, StepCall(r, s, c))
  {
    hide Encode, ReturnValue;
  }

  lemma {:induction false} WorkKeepsClosing(r: Repairs, s: State, stale: bool)
    requires Locks(s) && Closing(r, s) && CanWork(s)
    ensures Closing(r, WorkDaemon(r, s, stale))
  {
    hide Treat, NextStage, Hit;
  }

  lemma HappensKeepsClosing(r: Repairs, s: State, a: Action)
    requires Closing(r, s) && CanHappen(s, a)
    ensures Closing(r, Happens(r, s, a))
  {
    hide Encode, Taken, Current;
  }

  lemma {:induction false} ClosingKept(r: Repairs, s: State, a: Action)
    requires Basic(r, s) && Closing(r, s) && Enabled(s, a)
    ensures Closing(r, Apply(r, s, a))
  {
    hide StepCall, CanStep, WorkDaemon, CanWork, Happens, CanHappen, Listed, Locks, Times, Closing;
    match a
    case Step(c) => StepKeepsClosing(r, s, c);
    case Work(stale) => WorkKeepsClosing(r, s, stale);
    case _ => HappensKeepsClosing(r, s, a);
  }

  lemma AnchoredKept(r: Repairs, s: State, a: Action)
    requires Anchored(r, s) && Enabled(s, a)
    ensures Anchored(r, Apply(r, s, a))
  {
    hide StepCall, CanStep, CanWork, Happens, CanHappen;
    if a.Work? {
      hide Treat, NextStage;
    } else {
      hide WorkDaemon;
      OthersKeep(r, s, a);
    }
  }

  ghost predicate EndsWell(r: Repairs, s: State) {
    Answered(s) && Closing(r, s) && Anchored(r, s)
  }

  lemma EndingHolds(r: Repairs, s: State)
    requires Reachable(r, s)
    ensures Basic(r, s) && EndsWell(r, s)
  {
    hide Apply, Enabled, Basic, Answered, Closing, Anchored;
    Stay(r, Init(r));
    BasicHolds(r, Init(r));
    StartsWell(r);
    forall t, a | Basic(r, t) && EndsWell(r, t) && Enabled(t, a)
      ensures Basic(r, Apply(r, t, a)) && EndsWell(r, Apply(r, t, a))
    {
      BasicKept(r, t, a);
      AnsweredKept(r, t, a);
      ClosingKept(r, t, a);
      AnchoredKept(r, t, a);
    }
    Preserved(r, t => Basic(r, t) && EndsWell(r, t), Init(r), s);
  }

  lemma StartsWell(r: Repairs)
    ensures Answered(Init(r)) && Closing(r, Init(r)) && Anchored(r, Init(r))
  {
  }

  /** The call waits, or is on its way to wait, for a signal that it may count on: as written
      bw2_query also waits for a request that is not on the list. */
  predicate Awaiting(r: Repairs, call: Call) {
    call.pc.AtLink? || Transacting(call.pc) || (Waits(call.pc) && (r.checksTransact || !call.req.api.Query?))
  }

  predicate ClosedDown(r: Repairs, s: State) {
    !s.connected && s.reqs == [] && forall c :: 0 <= c < |s.calls| && Awaiting(r, s.calls[c]) ==> s.calls[c].ready
  }

  /** Once the daemon has exited the connection is marked as closed, the list is empty, and
      every call at the wait or heading for it has been signalled. */
  lemma ClosesDown(r: Repairs, s: State)
    requires r.connectFirst && Reachable(r, s) && s.d.Exited?
    ensures ClosedDown(r, s)
  {
    hide Reachable, Init;
    EndingHolds(r, s);
  }

  // ---------- a closed connection ----------

  /** Of the calls in `t` only those are linked that were in `s`, or were about to be. */
  ghost predicate NobodyNew(s: State, t: State) {
    && |s.calls| <= |t.calls|
    && (forall c :: 0 <= c < |t.calls| && t.calls[c].pc.AtLink? ==> c < |s.calls| && s.calls[c].pc.AtLink?)
    && (forall c :: 0 <= c < |t.calls| && t.calls[c].since.Some? ==>
          c < |s.calls| && (s.calls[c].since.Some? || s.calls[c].pc.AtLink?))
  }

  ghost predicate ClosedSince(s: State, t: State) {
    !t.starting && !t.connected && t.walked == s.walked && NobodyNew(s, t)
  }

  lemma StepStaysClosed(r: Repairs, s: State, t: State, c: nat)
    requires ClosedSince(s, t) && c < |t.calls| && CanStep(t, c)
    ensures ClosedSince(s, StepCall(r, t, c))
  {
    hide Encode, Remove, ReturnValue;
  }

  lemma {:induction false} WorkStaysClosed(r: Repairs, s: State, t: State, stale: bool)
    requires ClosedSince(s, t) && CanWork(t)
    ensures ClosedSince(s, WorkDaemon(r, t, stale))
  {
    hide Treat, NextStage, Hit;
    if Cursor(t).Some? {
      TreatKeeps(t.calls[t.reqs[t.d.i]], t.d.got, t.d.stage);
    }
  }

  lemma HappensStaysClosed(r: Repairs, s: State, t: State, a: Action)
    requires ClosedSince(s, t) && CanHappen(t, a)
    ensures ClosedSince(s, Happens(r, t, a))
  {
    hide Encode, Taken, Current;
  }

  /** Once bw2_connect is through, a connection that is marked as closed stays so: no frame is
      dispatched any more, and no request is linked but one that was about to be. */
  lemma StaysClosed(r: Repairs, s: State, t: State)
    requires !s.starting && !s.connected && Leads(r, s, t)
    ensures !t.connected && t.walked == s.walked && NobodyNew(s, t)
  {
    hide StepCall, CanStep, WorkDaemon, CanWork, Happens, CanHappen, Leads, NobodyNew;
    forall u, a | ClosedSince(s, u) && Enabled(u, a) ensures ClosedSince(s, Apply(r, u, a)) {
      match a
      case Step(c) => StepStaysClosed(r, s, u, c);
      case Work(stale) => WorkStaysClosed(r, s, u, stale);
      case _ => HappensStaysClosed(r, s, u, a);
    }
    assert NobodyNew(s, s) by {
      NobodyYet(s);
    }
    Preserved(r, u => ClosedSince(s, u), s, t);
  }

  lemma NobodyYet(s: State)
    ensures NobodyNew(s, s)
  {
  }

  // ---------- before bw2_connect is through ----------

  /** Nothing has been linked or dispatched. */
  ghost predicate Idle(s: State) {
    s.starting ==>
      && !s.connected && s.walked == []
      && forall c :: 0 <= c < |s.calls| ==> s.calls[c].since.None? && !s.calls[c].pc.AtLink?
  }

  lemma StepStaysIdle(r: Repairs, s: State, c: nat)
    requires Idle(s) && c < |s.calls| && CanStep(s, c)
    ensures Idle(StepCall(r, s, c))
  {
    hide Encode, Remove, ReturnValue;
  }

  lemma {:induction false} WorkStaysIdle(r: Repairs, s: State, stale: bool)
    requires Idle(s) && CanWork(s)
    ensures Idle(WorkDaemon(r, s, stale))
  {
    hide Treat, NextStage, Hit;
    if Cursor(s).Some? {
      TreatKeeps(s.calls[s.reqs[s.d.i]], s.d.got, s.d.stage);
    }
  }

  lemma HappensStaysIdle(r: Repairs, s: State, a: Action)
    requires Idle(s) && CanHappen(s, a)
    ensures Idle(Happens(r, s, a))
  {
    hide Encode, Taken, Current;
  }

  /** Until bw2_connect sets `connected`, which it does before anything else if it is put right,
      no request is linked and no frame dispatched. */
  lemma NothingBeforeConnect(r: Repairs, s: State)
    requires Reachable(r, s) && s.starting
    ensures !r.connectFirst && !s.connected && s.walked == []
    ensures forall c :: 0 <= c < |s.calls| ==> s.calls[c].since.None?
  {
    hide StepCall, CanStep, WorkDaemon, CanWork, Happens, CanHappen, Leads, Idle, Basic, Answered, Anchored;
    forall u, a | Idle(u) && Enabled(u, a) ensures Idle(Apply(r, u, a)) {
      match a
      case Step(c) => StepStaysIdle(r, u, c);
      case Work(stale) => WorkStaysIdle(r, u, stale);
      case _ => HappensStaysIdle(r, u, a);
    }
    StartsIdle(r);
    Preserved(r, u => Idle(u), Init(r), s);
    IdleMeans(s);
    EndingHolds(r, s);
  }

  lemma StartsIdle(r: Repairs)
    ensures Idle(Init(r))
  {
  }

  lemma IdleMeans(s: State)
    requires Idle(s) && s.starting
    ensures !s.connected && s.walked == []
    ensures forall c :: 0 <= c < |s.calls| ==> s.calls[c].since.None?
  {
  }
}
