/** Nobody waits for ever on a lock: in every reachable state the chain of threads that wait for
    one another is short and ends in a thread that can move; and a signal is never lost. */
module Deadlock {
  import opened Frames
  import opened Codec
  import opened Protocol
  import opened Execution
  import opened Basics
  import opened Segments

  /** The thread that holds the lock which `t` needs for its next step; Free if `t` needs
      none, or one that nobody holds. Threads are named as owners of locks. */
  function WaitsFor(s: State, t: Owner): Owner {
    match t
    case Free => Free
    case Daemon =>
      (match s.d
       case DWantReqs(_) => s.reqsLock
       case DWantOut => s.outLock
       case Walk(_, i, stage) =>
         if i < |s.reqs| && s.reqs[i] < |s.calls| && NeedsOwn(s.calls[s.reqs[i]], stage)
             && HoldsOwn(s.calls[s.reqs[i]].pc)
         then Caller(s.reqs[i]) else Free
       case _ => Free)
    case Caller(c) =>
      if c >= |s.calls| then Free
      else
        match s.calls[c].pc
        case WantReqs => s.reqsLock
        case WantReqsAgain => s.reqsLock
        case WantOut => s.outLock
        case _ => Free
  }

  /** The action is a step of the thread. */
  predicate IsOf(a: Action, t: Owner) {
    match a
    case Work(_) => t.Daemon?
    case Step(c) => t == Caller(c)
    case Send(c, _) => t == Caller(c)
    case Fail(c, _) => t == Caller(c)
    case _ => false
  }

  /** An action the thread can take now; coming out of the condition wait for no reason does
      not count. */
  predicate CanMove(s: State, t: Owner, a: Action) {
    IsOf(a, t) && Enabled(s, a) && (a.Step? ==> s.calls[a.c].pc != Parked(false))
  }

  /** A thread that is waited for holds a lock, and can move unless it waits itself. */
  lemma HolderMoves(r: Repairs, s: State, t: Owner) returns (a: Action)
    requires Basic(r, s) && !WaitsFor(s, t).Free? && WaitsFor(s, WaitsFor(s, t)).Free?
    ensures CanMove(s, WaitsFor(s, t), a)
  {
    hide Encode, Taken, Current, Times;
    var h := WaitsFor(s, t);
    if h.Daemon? {
      a := Work(false);
    } else {
      var pc := s.calls[h.c].pc;
      if pc.Writing? && pc.n < |Encode(s.calls[h.c].req.frame)| {
        SomethingToSend(s.calls[h.c]);
      }
      a := if pc.Writing? && pc.n < |Encode(s.calls[h.c].req.frame)| then Send(h.c, 1) else Step(h.c);
    }
  }

  /** Locks are taken in one order: whoever is waited for by a thread that is waited for
      holds a lock under which nobody takes another. */
  lemma ChainsAreShort(r: Repairs, s: State, t: Owner)
    requires Basic(r, s)
    ensures var h := WaitsFor(s, t); var h' := WaitsFor(s, h);
      && (!h.Free? ==> h != t && h' != h)
      && (!h'.Free? ==> h.Daemon? && h' != t && WaitsFor(s, h').Free?)
  {
    hide Encode, Taken, Current, Times;
  }

  /** In every reachable state a thread that is kept waiting by a lock is kept waiting by
      another that can move, directly or through the daemon: there is no deadlock. */
  lemma NoDeadlock(r: Repairs, s: State, t: Owner) returns (mover: Owner, a: Action)
    requires Reachable(r, s) && !WaitsFor(s, t).Free?
    ensures mover != t && (mover == WaitsFor(s, t) || mover == WaitsFor(s, WaitsFor(s, t)))
    ensures WaitsFor(s, mover).Free? && CanMove(s, mover, a)
  {
    hide Reachable, Basic, CanMove, WaitsFor;
    BasicHolds(r, s);
    ChainsAreShort(r, s, t);
    var h := WaitsFor(s, t);
    if WaitsFor(s, h).Free? {
      mover := h;
      a := HolderMoves(r, s, t);
    } else {
      mover := WaitsFor(s, h);
      a := HolderMoves(r, s, h);
    }
  }

  /** A thread that no lock keeps waiting can move, unless its work is done, or it waits for
      what only its peer or the network can give: a signal, or the next frame. */
  lemma OthersMove(r: Repairs, s: State, t: Owner) returns (a: Action)
    requires Reachable(r, s) && WaitsFor(s, t).Free? && !t.Free? && (t.Caller? ==> t.c < |s.calls|)
    ensures CanMove(s, t, a)
         || (t.Daemon? && (s.d.AtRead? || s.d.Exited?))
         || (t.Caller? && (s.calls[t.c].pc.Returned? || s.calls[t.c].pc == Parked(false)))
  {
    hide Reachable, Encode, Taken, Current, Times;
    BasicHolds(r, s);
    if t.Daemon? {
      a := Work(false);
    } else {
      var pc := s.calls[t.c].pc;
      if pc.Writing? && pc.n < |Encode(s.calls[t.c].req.frame)| {
        SomethingToSend(s.calls[t.c]);
      }
      a := if pc.Writing? && pc.n < |Encode(s.calls[t.c].req.frame)| then Send(t.c, 1) else Step(t.c);
    }
  }

  /** The daemon asks for `ready` and signals only while the caller does not hold the lock of its
      request. */
  lemma OwnLockIsExclusive(s: State)
    requires CanWork(s) && s.d.Walk? && s.d.i < |s.reqs|
    requires s.d.stage.Signal? || (s.d.stage.Run? && s.calls[s.reqs[s.d.i]].handler.StreamCb?)
    ensures var pc := s.calls[s.reqs[s.d.i]].pc; !pc.AtReady? && !pc.AtWait? && !pc.AtLeave?
  {
  }

  // ---------- signals ----------

  /** A caller that is going to sleep, or sleeps without a wake-up on its way, has not been
      signalled. */
  predicate Awaited(call: Call) {
    && (call.pc.AtWait? ==> !call.ready)
    && (call.pc.Parked? ==> call.pc.woken == call.ready)
  }

  ghost predicate AllAwaited(s: State) {
    forall c :: 0 <= c < |s.calls| ==> Awaited(s.calls[c])
  }

  lemma TreatAwaits(call: Call, got: Option<Reply>, stage: Stage)
    requires Awaited(call) && (stage.Signal? ==> !HoldsOwn(call.pc))
    ensures Awaited(Treat(call, got, stage))
  {
  }

  lemma WorkAwaits(r: Repairs, s: State, stale: bool)
    requires Listed(s) && AllAwaited(s) && CanWork(s)
    ensures AllAwaited(WorkDaemon(r, s, stale))
  {
    hide Treat, NextStage, Hit, Awaited;
    if Cursor(s).Some? {
      TreatAwaits(s.calls[s.reqs[s.d.i]], s.d.got, s.d.stage);
    }
  }

  lemma StepAwaits(r: Repairs, s: State, c: nat)
    requires AllAwaited(s) && c < |s.calls| && CanStep(s, c)
    ensures AllAwaited(StepCall(r, s, c))
  {
    hide Encode, Remove, ReturnValue;
  }

  lemma HappensAwaits(r: Repairs, s: State, a: Action)
    requires AllAwaited(s) && CanHappen(s, a)
    ensures AllAwaited(Happens(r, s, a))
  {
    hide Encode, Taken, Current;
  }

  lemma {:induction false} AwaitedKept(r: Repairs, s: State, a: Action)
    requires Listed(s) && AllAwaited(s) && Enabled(s, a)
    ensures AllAwaited(Apply(r, s, a))
  {
    hide StepCall, CanStep, WorkDaemon, CanWork, Happens, CanHappen, Listed, AllAwaited;
    match a
    case Step(c) => StepAwaits(r, s, c);
    case Work(stale) => WorkAwaits(r, s, stale);
    case _ => HappensAwaits(r, s, a);
  }

  /** No wake-up is lost: whenever a caller sleeps on a request that has been signalled, the
      wake-up is pending, and none is pending without a signal. */
  lemma NoLostWakeUp(r: Repairs, s: State, c: nat)
    requires Reachable(r, s) && c < |s.calls| && s.calls[c].pc.Parked?
    ensures s.calls[c].pc.woken == s.calls[c].ready
  {
    hide Apply, Enabled, Basic;
    forall t, a | Basic(r, t) && AllAwaited(t) && Enabled(t, a)
      ensures Basic(r, Apply(r, t, a)) && AllAwaited(Apply(r, t, a))
    {
      BasicKept(r, t, a);
      BasicLists(r, t);
      AwaitedKept(r, t, a);
    }
    Stay(r, Init(r));
    BasicHolds(r, Init(r));
    Preserved(r, t => Basic(r, t) && AllAwaited(t), Init(r), s);
  }
}
