/** A call whose request was accepted returns 0, unless the teardown gets to the request before
    the call returns. */
module Overtaking {
  import opened Frames
  import opened Codec
  import opened Protocol
  import opened Execution
  import opened Sublists
  import opened Basics
  import opened Segments
  import opened Ending
  import opened Results
  import opened Fitting
  import opened Lifetime

  /** The teardown has begun with the request, or has been through it as an open stream. */
  predicate Overtaken(s: State, c: nat)
    requires c < |s.calls|
  {
    s.calls[c].lost || (Cursor(s) == Some(c) && s.d.got.None? && !s.d.stage.Look?)
  }

  /** What an accepted call holds, or has returned without an error of bw2_transact. */
  predicate Holds(call: Call, over: bool) {
    Accepted(call) ==>
      if call.pc.Returned? then call.refused || call.pc.v == 0 || over
      else call.rv == if over then ERROR_CONNECTION_LOST else 0
  }

  predicate Streaming(call: Call) {
    call.ready && call.handler.StreamCb?
  }

  /** A listed request that was accepted is a stream; `at` is the stage if the daemon is at it. */
  predicate Orderly(call: Call, got: Option<Reply>, at: Option<Stage>) {
    match at
    case None => Accepted(call) ==> Streaming(call)
    case Some(stage) =>
      match stage
      case Look => Accepted(call) ==> Streaming(call)
      case Run => Accepted(call) ==> Streaming(call)
      case Deliver => (got.Some? ==> call.ready) && (Accepted(call) ==> Streaming(call))
      case Respond => !Accepted(call)
      case Signal(stop) =>
        && (got.Some? ==> call.heard != [])
        && (Accepted(call) ==> got.Some? && (call.handler.StreamCb? || (call.handler.OneShotCb? && stop)))
      case Judge => Accepted(call) ==> got.Some? && Streaming(call)
      case After(stop) =>
        Accepted(call) ==>
          if got.None? then Streaming(call) && call.lost
          else call.ready && (call.handler.StreamCb? || (call.handler.OneShotCb? && stop))
  }

  function At(d: DaemonPc, p: nat): Option<Stage> {
    if d.Walk? && p == d.i then Some(d.stage) else None
  }

  ghost predicate AllOrderly(s: State) {
    forall p :: 0 <= p < |s.reqs| && s.reqs[p] < |s.calls| ==> Orderly(s.calls[s.reqs[p]], Results.Got(s.d), At(s.d, p))
  }

  ghost predicate AllHold(s: State) {
    forall c :: 0 <= c < |s.calls| ==> Holds(s.calls[c], Overtaken(s, c))
  }

  /** Until a teardown begins no stream has been told of one, and nobody is signalled unheard. */
  ghost predicate NoneLost(s: State) {
    !TearingDown(s.d) ==>
      forall c :: 0 <= c < |s.calls| ==> !s.calls[c].lost && (s.calls[c].ready ==> s.calls[c].heard != [])
  }

  ghost predicate InTime(s: State) {
    AllOrderly(s) && AllHold(s) && NoneLost(s)
  }

  // ---------- one request ----------

  lemma TreatOrderly(r: Repairs, call: Call, got: Option<Reply>, stage: Stage, stale: bool)
    requires Orderly(call, got, Some(stage)) && !stage.After? && (stage.Look? ==> Hit(call, got))
    requires got.Some? ==> (call.ready ==> call.heard != [])
    ensures Orderly(Treat(call, got, stage), got, Some(NextStage(r, call, got, stage, stale)))
  {
    hide Request.Verdict, Request.Quits;
  }

  lemma TreatHolds(call: Call, got: Option<Reply>, stage: Stage)
    requires Orderly(call, got, Some(stage)) && Holds(call, call.lost || (got.None? && !stage.Look?))
    requires got.Some? ==> !call.lost && (call.ready ==> call.heard != [])
    requires call.pc.Returned? && !call.refused ==> call.ready
    ensures var call' := Treat(call, got, stage); Holds(call', call'.lost || got.None?)
  {
    hide Request.Verdict;
  }

  /** The daemon leaves the request as it is and moves on. */
  lemma PassesOn(call: Call, got: Option<Reply>, stage: Stage)
    requires Orderly(call, got, Some(stage)) && (stage.After? || stage.Look?)
    requires stage.After? && got.Some? ==> !stage.stop
    requires Holds(call, call.lost || (got.None? && !stage.Look?))
    ensures Orderly(call, got, None) && Holds(call, call.lost)
  {
  }

  // ---------- the daemon's steps ----------

  lemma WalkOrders(r: Repairs, s: State, stale: bool)
    requires Listed(s) && InTime(s) && CanWork(s) && s.d.Walk? && s.d.i < |s.reqs|
    ensures AllOrderly(WorkDaemon(r, s, stale))
  {
    hide WorkDaemon, CanWork, Treat, NextStage, Hit, Orderly, AllHold, Distinct;
    var s', i := WorkDaemon(r, s, stale), s.d.i;
    WalkStep(r, s, stale);
    forall p | 0 <= p < |s'.reqs| && s'.reqs[p] < |s'.calls|
      ensures Orderly(s'.calls[s'.reqs[p]], Results.Got(s'.d), At(s'.d, p))
    {
      var q := if Unlinks(s.d) && p >= i then p + 1 else p;
      assert s'.reqs[p] == s.reqs[q];
      if q == i {
        CursorOrders(r, s, stale);
      } else {
        OthersOrder(r, s, stale, q);
      }
    }
  }

  /** The request under the cursor, unless it goes. */
  lemma CursorOrders(r: Repairs, s: State, stale: bool)
    requires Listed(s) && InTime(s) && CanWork(s) && s.d.Walk? && s.d.i < |s.reqs| && !Unlinks(s.d)
    ensures var s' := WorkDaemon(r, s, stale);
      Orderly(s'.calls[s.reqs[s.d.i]], Results.Got(s'.d), At(s'.d, s.d.i))
  {
    hide WorkDaemon, CanWork, Treat, NextStage, Hit, Orderly, Holds, Distinct;
    WalkStep(r, s, stale);
    var c := s.reqs[s.d.i];
    assert Orderly(s.calls[c], s.d.got, Some(s.d.stage)) && Holds(s.calls[c], Overtaken(s, c));
    if s.d.stage.After? || (s.d.stage.Look? && !Hit(s.calls[c], s.d.got)) {
      if s.d.stage.After? {
        AfterLeavesAlone(s.calls[c], s.d.got, s.d.stage);
      } else {
        LookLeavesAlone(s.calls[c], s.d.got);
      }
      PassesOn(s.calls[c], s.d.got, s.d.stage);
      LooksAgain(s.calls[c], s.d.got);
    } else {
      TreatOrderly(r, s.calls[c], s.d.got, s.d.stage, stale);
    }
  }

  lemma LooksAgain(call: Call, got: Option<Reply>)
    requires Orderly(call, got, None)
    ensures Orderly(call, got, Some(Look))
  {
  }

  lemma OthersOrder(r: Repairs, s: State, stale: bool, p: nat)
    requires Listed(s) && AllOrderly(s) && CanWork(s) && s.d.Walk? && s.d.i < |s.reqs| && p < |s.reqs| && p != s.d.i
    ensures var s' := WorkDaemon(r, s, stale);
      Orderly(s'.calls[s.reqs[p]], Results.Got(s'.d), At(s'.d, if Unlinks(s.d) && p > s.d.i then p - 1 else p))
  {
    hide WorkDaemon, CanWork, Treat, NextStage, Hit, Orderly;
    WalkStep(r, s, stale);
    assert s.reqs[p] != s.reqs[s.d.i];
    assert Orderly(s.calls[s.reqs[p]], s.d.got, None);
    LooksAgain(s.calls[s.reqs[p]], s.d.got);
  }

  lemma WalkHolds(r: Repairs, s: State, stale: bool)
    requires Listed(s) && Times(r, s) && InTime(s) && CanWork(s) && s.d.Walk? && s.d.i < |s.reqs|
    ensures AllHold(WorkDaemon(r, s, stale))
  {
    hide WorkDaemon, CanWork, Treat, NextStage, Hit, Orderly, Holds, Distinct, Times;
    WalkStep(r, s, stale);
    var s' := WorkDaemon(r, s, stale);
    forall c | 0 <= c < |s'.calls| ensures Holds(s'.calls[c], Overtaken(s', c)) {
      assert Holds(s.calls[c], Overtaken(s, c));
      if Cursor(s) == Some(c) {
        CursorHolds(r, s, stale);
      } else {
        NotOvertakenNext(r, s, stale, c);
      }
    }
  }

  /** The cursor comes to a request only at the first stage. */
  lemma NotOvertakenNext(r: Repairs, s: State, stale: bool, c: nat)
    requires Listed(s) && CanWork(s) && s.d.Walk? && s.d.i < |s.reqs| && c < |s.calls| && c != s.reqs[s.d.i]
    ensures var s' := WorkDaemon(r, s, stale);
      c < |s'.calls| && s'.calls[c] == s.calls[c] && Overtaken(s', c) == s.calls[c].lost == Overtaken(s, c)
  {
    hide WorkDaemon, CanWork, Treat, NextStage, Hit;
    WalkStep(r, s, stale);
  }

  lemma CursorHolds(r: Repairs, s: State, stale: bool)
    requires Listed(s) && Times(r, s) && InTime(s) && CanWork(s) && s.d.Walk? && s.d.i < |s.reqs|
    ensures var s' := WorkDaemon(r, s, stale); var c := s.reqs[s.d.i]; Holds(s'.calls[c], Overtaken(s', c))
  {
    hide WorkDaemon, CanWork, Treat, NextStage, Hit, Orderly, Holds, Distinct, Progress, Untouched;
    WalkStep(r, s, stale);
    var c, s' := s.reqs[s.d.i], WorkDaemon(r, s, stale);
    assert Orderly(s.calls[c], s.d.got, Some(s.d.stage)) && Holds(s.calls[c], Overtaken(s, c));
    if s.d.stage.After? || (s.d.stage.Look? && !Hit(s.calls[c], s.d.got)) {
      if s.d.stage.After? {
        AfterLeavesAlone(s.calls[c], s.d.got, s.d.stage);
      } else {
        LookLeavesAlone(s.calls[c], s.d.got);
      }
      PassedHolds(s.calls[c], s.d.got, s.d.stage);
      MovesCursor(r, s, stale);
    } else {
      ReturnedReady(r, s.calls[c]);
      TreatHolds(s.calls[c], s.d.got, s.d.stage);
      NextIsLater(r, s.calls[c], s.d.got, s.d.stage, stale);
    }
  }

  lemma ReturnedReady(r: Repairs, call: Call)
    requires Progress(r, call)
    ensures call.pc.Returned? && !call.refused ==> call.ready
  {
  }

  lemma PassedHolds(call: Call, got: Option<Reply>, stage: Stage)
    requires Orderly(call, got, Some(stage)) && (stage.After? || stage.Look?)
    requires Holds(call, call.lost || (got.None? && !stage.Look?))
    ensures Holds(call, call.lost)
  {
  }

  /** The request that the daemon moves on from is at most looked at again. */
  lemma MovesCursor(r: Repairs, s: State, stale: bool)
    requires Listed(s) && CanWork(s) && s.d.Walk? && s.d.i < |s.reqs|
    requires s.d.stage.After? || (s.d.stage.Look? && !Hit(s.calls[s.reqs[s.d.i]], s.d.got))
    ensures WorkDaemon(r, s, stale).d.Walk? && WorkDaemon(r, s, stale).d.stage.Look?
  {
    hide WorkDaemon, CanWork, Treat, NextStage, Hit;
    WalkStep(r, s, stale);
  }

  lemma NextIsLater(r: Repairs, call: Call, got: Option<Reply>, stage: Stage, stale: bool)
    ensures !NextStage(r, call, got, stage, stale).Look?
  {
  }

  lemma TreatLost(call: Call, got: Option<Reply>, stage: Stage)
    requires got.Some? && Orderly(call, got, Some(stage)) && !call.lost && (call.ready ==> call.heard != [])
    ensures var call' := Treat(call, got, stage); !call'.lost && (call'.ready ==> call'.heard != [])
  {
  }

  lemma WorkKeepsNoneLost(r: Repairs, s: State, stale: bool)
    requires Listed(s) && AllOrderly(s) && NoneLost(s) && CanWork(s)
    ensures NoneLost(WorkDaemon(r, s, stale))
  {
    if s.d.Walk? {
      hide WorkDaemon, CanWork, Treat, NextStage, Hit, Orderly, Distinct;
      WalkStep(r, s, stale);
      if s.d.i < |s.reqs| && s.d.got.Some? {
        assert Orderly(s.calls[s.reqs[s.d.i]], s.d.got, Some(s.d.stage));
        TreatLost(s.calls[s.reqs[s.d.i]], s.d.got, s.d.stage);
      }
    } else {
      hide Treat, NextStage, Hit, Orderly, AllOrderly, Distinct;
    }
  }

  /** Outside the turns of a walk the daemon touches no request. */
  lemma WorkElsewhereInTime(r: Repairs, s: State, stale: bool)
    requires Listed(s) && AllOrderly(s) && AllHold(s) && CanWork(s) && !(s.d.Walk? && s.d.i < |s.reqs|)
    ensures AllOrderly(WorkDaemon(r, s, stale)) && AllHold(WorkDaemon(r, s, stale))
  {
    hide Treat, NextStage, Hit, Orderly, Holds, Distinct;
    var s' := WorkDaemon(r, s, stale);
    forall p | 0 <= p < |s'.reqs| && s'.reqs[p] < |s'.calls|
      ensures Orderly(s'.calls[s'.reqs[p]], Results.Got(s'.d), At(s'.d, p))
    {
      assert Orderly(s.calls[s.reqs[p]], Results.Got(s.d), None);
      AnyGot(s.calls[s.reqs[p]], Results.Got(s.d), Results.Got(s'.d));
    }
    forall c | 0 <= c < |s'.calls| ensures Holds(s'.calls[c], Overtaken(s', c)) {
      assert Holds(s.calls[c], Overtaken(s, c));
    }
  }

  lemma AnyGot(call: Call, got: Option<Reply>, got': Option<Reply>)
    requires Orderly(call, got, None)
    ensures Orderly(call, got', None) && Orderly(call, got', Some(Look))
  {
  }

  lemma WorkInTime(r: Repairs, s: State, stale: bool)
    requires Listed(s) && Times(r, s) && InTime(s) && CanWork(s)
    ensures InTime(WorkDaemon(r, s, stale))
  {
    hide WorkDaemon, CanWork, AllOrderly, AllHold, NoneLost, Listed, Times;
    WorkKeepsNoneLost(r, s, stale);
    if s.d.Walk? && s.d.i < |s.reqs| {
      WalkOrders(r, s, stale);
      WalkHolds(r, s, stale);
    } else {
      WorkElsewhereInTime(r, s, stale);
    }
  }

  // ---------- the callers' steps ----------

  lemma SameOrder(call: Call, call': Call, got: Option<Reply>, at: Option<Stage>)
    requires SameRequest(call, call') && Orderly(call, got, at)
    ensures Orderly(call', got, at)
  {
  }

  lemma UnheardIsOrderly(call: Call, got: Option<Reply>)
    requires call.heard == []
    ensures Orderly(call, got, None) && forall over :: Holds(call, over)
  {
  }

  lemma StepOrders(r: Repairs, s: State, c: nat)
    requires Basic(r, s) && AllOrderly(s) && c < |s.calls| && CanStep(s, c)
    ensures AllOrderly(StepCall(r, s, c))
  {
    hide Encode, Remove, NextPc, Orderly, Progress, Untouched, Sending;
    StepKeepsOthers(r, s, c);
    Removed(s.reqs, c);
    LinksUnheard(r, s.calls[c]);
    var s' := StepCall(r, s, c);
    forall p | 0 <= p < |s'.reqs| && s'.reqs[p] < |s'.calls|
      ensures Orderly(s'.calls[s'.reqs[p]], Results.Got(s'.d), At(s'.d, p))
    {
      var x := s'.reqs[p];
      if s.calls[c].pc.AtLink? && p == 0 {
        UnheardIsOrderly(s'.calls[c], Results.Got(s.d));
      } else {
        if s'.reqs != s.reqs {
          assert !s.d.Walk? && x in s.reqs;
        }
        var q :| 0 <= q < |s.reqs| && s.reqs[q] == x && (s.d.Walk? ==> q == p);
        SameOrder(s.calls[x], s'.calls[x], Results.Got(s.d), At(s.d, q));
      }
    }
  }

  lemma LinksUnheard(r: Repairs, call: Call)
    requires Progress(r, call) && Untouched(call)
    ensures call.pc.AtLink? ==> call.heard == []
  {
  }

  /** A call returns what its request holds, unless bw2_transact has returned an error. */
  lemma StepHolds(r: Repairs, connected: bool, call: Call, call': Call, over: bool)
    requires Progress(r, call) && Holds(call, over) && SameRequest(call, call')
    requires || call'.pc == call.pc || call'.pc == NextPc(r, connected, call)
             || (!call.pc.Returned? && (call'.pc.Writing? || call'.pc.AtUnlockOut?))
    requires call.refused ==> call'.refused
    ensures Holds(call', over)
  {
    hide Encode, Request.Verdict;
  }

  /** What a step of a caller or of the network leaves alone. */
  ghost predicate Aside(r: Repairs, s: State, s': State) {
    && |s.calls| <= |s'.calls|
    && (forall c :: 0 <= c < |s.calls| ==>
          && SameRequest(s.calls[c], s'.calls[c]) && (s.calls[c].refused ==> s'.calls[c].refused)
          && (|| s'.calls[c].pc == s.calls[c].pc || s'.calls[c].pc == NextPc(r, s.connected, s.calls[c])
              || (!s.calls[c].pc.Returned? && (s'.calls[c].pc.Writing? || s'.calls[c].pc.AtUnlockOut?)))
          && Overtaken(s', c) == Overtaken(s, c))
    && (forall c :: |s.calls| <= c < |s'.calls| ==> s'.calls[c].heard == [])
  }

  lemma AsideHolds(r: Repairs, s: State, s': State)
    requires Times(r, s) && AllHold(s) && Aside(r, s, s')
    ensures AllHold(s')
  {
    hide Holds, Progress, Untouched, NextPc, Overtaken;
    forall c | 0 <= c < |s'.calls| ensures Holds(s'.calls[c], Overtaken(s', c)) {
      if c < |s.calls| {
        StepHolds(r, s.connected, s.calls[c], s'.calls[c], Overtaken(s, c));
      } else {
        UnheardIsOrderly(s'.calls[c], None);
      }
    }
  }

  lemma StepIsAside(r: Repairs, s: State, c: nat)
    requires Locks(s) && c < |s.calls| && CanStep(s, c)
    ensures Aside(r, s, StepCall(r, s, c))
  {
    hide Encode, Remove, NextPc;
    StepKeepsOthers(r, s, c);
    if s.d.Walk? {
      StepKeepsList(r, s, c);
    }
  }

  lemma HappensIsAside(r: Repairs, s: State, a: Action)
    requires CanHappen(s, a)
    ensures Aside(r, s, Happens(r, s, a))
  {
    hide Encode, Taken, Current, NextPc;
  }

  lemma HappensOrders(r: Repairs, s: State, a: Action)
    requires Listed(s) && AllOrderly(s) && CanHappen(s, a)
    ensures AllOrderly(Happens(r, s, a))
  {
    hide Encode, Taken, Current, Orderly, Distinct;
    HappensKeepsOthers(r, s, a);
    var s' := Happens(r, s, a);
    forall p | 0 <= p < |s'.reqs| && s'.reqs[p] < |s'.calls|
      ensures Orderly(s'.calls[s'.reqs[p]], Results.Got(s'.d), At(s'.d, p))
    {
      SameOrder(s.calls[s.reqs[p]], s'.calls[s.reqs[p]], Results.Got(s.d), At(s.d, p));
      if a.Read? {
        AnyGot(s'.calls[s.reqs[p]], Results.Got(s.d), Results.Got(s'.d));
      }
    }
  }

  lemma OthersKeepNoneLost(r: Repairs, s: State, a: Action)
    requires NoneLost(s) && Enabled(s, a) && !a.Work?
    ensures NoneLost(Apply(r, s, a))
  {
    hide Apply, Enabled;
    OthersKeep(r, s, a);
    NewCallsUnready(r, s, a);
    if a.Read? {
      ReadsAtHead(s, a);
    }
  }

  lemma ReadsAtHead(s: State, a: Action)
    requires Enabled(s, a) && a.Read?
    ensures !TearingDown(s.d)
  {
    hide Classify, Frame.Received;
  }

  lemma NewCallsUnready(r: Repairs, s: State, a: Action)
    requires Enabled(s, a) && !a.Work?
    ensures var s' := Apply(r, s, a);
      forall c :: |s.calls| <= c < |s'.calls| ==> !s'.calls[c].ready && !s'.calls[c].lost
  {
    hide WorkDaemon, CanWork, Encode, Taken, Current, NextPc, Remove;
  }

  lemma {:induction false} InTimeKept(r: Repairs, s: State, a: Action)
    requires Basic(r, s) && InTime(s) && Enabled(s, a)
    ensures InTime(Apply(r, s, a))
  {
    hide StepCall, CanStep, WorkDaemon, CanWork, Happens, CanHappen, Listed, Locks, Times, Sending;
    hide AllOrderly, AllHold, NoneLost, Aside;
    match a
    case Work(stale) => WorkInTime(r, s, stale);
    case Step(c) =>
      OthersKeepNoneLost(r, s, a);
      StepOrders(r, s, c);
      StepIsAside(r, s, c);
      AsideHolds(r, s, StepCall(r, s, c));
    case _ =>
      OthersKeepNoneLost(r, s, a);
      HappensOrders(r, s, a);
      HappensIsAside(r, s, a);
      AsideHolds(r, s, Happens(r, s, a));
  }

  lemma InTimeHolds(r: Repairs, s: State)
    requires Reachable(r, s)
    ensures Basic(r, s) && InTime(s)
  {
    hide Apply, Enabled, Basic, AllOrderly, AllHold, NoneLost;
    forall t, a | Basic(r, t) && InTime(t) && Enabled(t, a) ensures Basic(r, Apply(r, t, a)) && InTime(Apply(r, t, a)) {
      BasicKept(r, t, a);
      InTimeKept(r, t, a);
    }
    StartsInTime(r);
    Preserved(r, t => Basic(r, t) && InTime(t), Init(r), s);
  }

  lemma StartsInTime(r: Repairs)
    ensures Basic(r, Init(r)) && InTime(Init(r))
  {
  }

  // ---------- the result ----------

  /** A call whose request was accepted returns 0 if and only if the teardown has not got to its
      request by then; otherwise it returns a lost connection. Before a teardown has begun it
      returns 0. */
  lemma AcceptedReturnsZero(r: Repairs, s: State, c: nat)
    requires Reachable(r, s) && c < |s.calls| && s.calls[c].pc == AtReturn(Option.None) && Accepted(s.calls[c])
    ensures NextPc(r, s.connected, s.calls[c]) == Returned(if Overtaken(s, c) then ERROR_CONNECTION_LOST else 0)
    ensures NextPc(r, s.connected, s.calls[c]) == Returned(0) <==> !Overtaken(s, c)
    ensures !TearingDown(s.d) ==> !Overtaken(s, c)
  {
    hide Reachable, Basic, Accepted;
    InTimeHolds(r, s);
    assert Holds(s.calls[c], Overtaken(s, c));
  }

  // ---------- a run in which the teardown is first ----------

  /** The response to an accepted request. */
  function Acceptance(): Frame {
    Frame(RESPONSE, 0, Lists([KV(STATUS, OKAY)], [], []))
  }

  lemma AcceptanceAccepts()
    ensures MustResponse(Acceptance()) == 0 && !IsFinal(Acceptance())
    ensures Accepts(Acceptance(), Query)
  {
    var f := Acceptance();
    CStrOfText(STATUS);
    assert STATUS[0] != FINISHED[0];
    assert IsFirst(f.lists.kvs, STATUS, 0);
    MustResponseExactly(f);
    IsFinalExactly(f);
  }

  /** The signal of an accepted stream, and its result. */
  lemma KeepsAccepted(r: Repairs, s: State, f: Reply)
    requires s.d == Walk(Some(f), 0, Signal(false)) && s.reqs == [0] && |s.calls| == 1
    requires s.calls[0].pc.WantLock? && s.calls[0].handler.StreamCb? && s.calls[0].rv == 0
    ensures Leads(r, s, WithCall(s, 0, s.calls[0].(ready := true)).(d := Walk(Some(f), 0, After(false))))
  {
    hide Leads;
    Stay(r, s);
    Works(r, s, s, false);
    var s1 := WorkDaemon(r, s, false);
    if s1.d.stage.Judge? {
      Works(r, s, s1, false);
      assert WorkDaemon(r, s1, false).calls == s1.calls;
    }
  }

  /** And on to the loop head. */
  lemma GoesOn(r: Repairs, s: State, f: Reply)
    requires s.d == Walk(Some(f), 0, After(false)) && !f.final && s.reqs == [0] && |s.calls| == 1
    ensures Leads(r, s, s.(d := AtRead, reqsLock := Free))
  {
    hide Leads;
    Stay(r, s);
    Works(r, s, s, false);
    var s1 := WorkDaemon(r, s, false);
    Works(r, s, s1, false);
    assert WorkDaemon(r, s1, false).calls == s.calls;
  }

  /** A query that has been accepted, and the daemon back at its loop head. */
  lemma OneAccepted(r: Repairs) returns (s: State)
    ensures Reachable(r, s) && |s.calls| == 1 && s.reqs == [0] && s.d.AtRead?
    ensures s.reqsLock.Free? && s.outLock.Free?
    ensures s.walked == [Classify(Acceptance())]
    ensures s.calls[0] == FirstCall(Query, false).(pc := WantLock, ready := true, rv := 0, heard := s.walked)
  {
    hide Leads, Encode, IsFinal, MustResponse, HasHandle, Says, Mentions, Accepts;
    var f := Classify(Acceptance());
    AcceptanceAccepts();
    var s1 := OneDispatched(r, Query, false, Acceptance());
    TakesResponse(r, s1, f);
    var s2 := WithCall(s1, 0, s1.calls[0].(rv := 0, heard := [f])).(d := Walk(Some(f), 0, Signal(false)));
    Join(r, Init(r), s1, s2);
    KeepsAccepted(r, s2, f);
    var s3 := WithCall(s2, 0, s2.calls[0].(ready := true)).(d := Walk(Some(f), 0, After(false)));
    Join(r, Init(r), s2, s3);
    GoesOn(r, s3, f);
    s := s3.(d := AtRead, reqsLock := Free);
    Join(r, Init(r), s3, s);
  }

  /** In every version of the code the teardown may overtake the caller of an accepted query:
      the call reports a lost connection although its stream was opened, and the stream is
      then to be reported lost as well. */
  lemma AcceptedYetLost(r: Repairs) returns (s: State)
    ensures Reachable(r, s) && |s.calls| == 1 && s.reqs == [0] && s.d == Walk(Option.None, 0, Run)
    ensures s.calls[0].pc == Returned(ERROR_CONNECTION_LOST) && !s.calls[0].lost
    ensures WasAccepted(s, s.calls[0]) && Overtaken(s, 0)
  {
    hide Leads, Encode, IsFinal, MustResponse, HasHandle, Says, Mentions, Accepts;
    var s0 := Init(r);
    var s1 := OneAccepted(r);
    TearsDown(r, s1);
    var s2 := s1.(d := Walk(Option.None, 0, Look), connected := false, reqsLock := Daemon);
    Join(r, s0, s1, s2);
    Works(r, s0, s2, false);
    var s3 := WorkDaemon(r, s2, false);
    s := WithCall(s3, 0, s3.calls[0].(pc := Returned(s3.calls[0].rv)));
    Leaves(r, s3, 0);
    Join(r, s0, s3, s);
    AcceptanceAccepts();
    assert s.walked[0] == Classify(Acceptance());
  }

  // ---------- users who give up a request when its call fails ----------

  /** MemorySafe for users who also take a stream's context back when its call has returned an
      error. */
  predicate StrictlySafe(s: State) {
    && MemorySafe(s)
    && forall p :: 0 <= p < |s.reqs| && s.reqs[p] < |s.calls| && Touches(s, p) && s.calls[s.reqs[p]].pc.Returned? ==>
         s.calls[s.reqs[p]].pc.v == 0
  }

  /** The teardown is in the callback of a stream whose call has returned an error meanwhile. */
  predicate LeftBehind(s: State) {
    && s.d.Walk? && s.d.got.None? && (s.d.stage.Run? || s.d.stage.Deliver?)
    && s.d.i < |s.reqs| && s.reqs[s.d.i] < |s.calls|
    && s.calls[s.reqs[s.d.i]].pc.Returned? && s.calls[s.reqs[s.d.i]].pc.v != 0
  }

  /** A listed request that the daemon touches and that is not being swept has been accepted if
      its call has returned without an error of bw2_transact. */
  lemma ReturnedIsAccepted(r: Repairs, d: DaemonPc, p: nat, call: Call)
    requires Fits(r, d, p, call) && call.ready && (r.judgesFirst || !CutShort(call))
    requires d.Walk? && d.got.None? ==> r.sweepAdvances && r.judgesFirst && !(d.stage.Run? || d.stage.Deliver?)
    requires d.Walk? ==> if Unlinks(d) then p + 1 == d.i else p == d.i && !(d.stage.After? && d.got.None?)
    ensures Accepted(call) && !call.lost && (d.Walk? && p == d.i && d.got.None? ==> d.stage.Look?)
  {
    hide Request.Verdict;
    if d.Walk? && p == d.i && d.stage.Judge? {
      assert call.heard[..1] == call.heard;
    }
  }

  /** Under the guard of SafeWhileGuarded, the one place where such users are in danger is the
      callback of a stream that the teardown reached before its call had returned. */
  lemma StrictlySafeExactly(r: Repairs, s: State)
    requires Reachable(r, s) && Guard(r, s)
    ensures StrictlySafe(s) <==> !LeftBehind(s)
  {
    hide Reachable, Times, Sending, CutShort, Fits, Trusted, Distinct, MemorySafe, AllOrderly, NoneLost, Call.Gone;
    SafeWhileGuarded(r, s);
    if !LeftBehind(s) {
      forall p | 0 <= p < |s.reqs| && s.reqs[p] < |s.calls| && Touches(s, p) && s.calls[s.reqs[p]].pc.Returned?
        ensures s.calls[s.reqs[p]].pc.v == 0
      {
        ReturnedHoldsZero(r, s, p);
      }
    } else {
      assert Touches(s, s.d.i);
    }
  }

  lemma ReturnedHoldsZero(r: Repairs, s: State, p: nat)
    requires Reachable(r, s) && Guard(r, s) && !LeftBehind(s)
    requires p < |s.reqs| && s.reqs[p] < |s.calls| && Touches(s, p) && s.calls[s.reqs[p]].pc.Returned?
    ensures s.calls[s.reqs[p]].pc.v == 0
  {
    hide Reachable, Times, Sending, CutShort, Fits, Trusted, Distinct, AllOrderly, NoneLost, Accepted;
    FitHolds(r, s);
    NotRefusedEither(r, s);
    HomeHolds(r, s);
    InTimeHolds(r, s);
    WithdrawsAlone(s);
    var call := s.calls[s.reqs[p]];
    assert Holds(call, Overtaken(s, s.reqs[p])) && AtHome(call);
    if call.pc.v != 0 {
      ReturnedIsAccepted(r, s.d, p, call);
    }
  }

  /** They are in danger in some run of every version. */
  lemma NeverStrictlySafe(r: Repairs)
    ensures exists s :: Reachable(r, s) && !StrictlySafe(s)
  {
    hide Reachable, MemorySafe;
    var s := AcceptedYetLost(r);
    assert Touches(s, 0);
  }
}
