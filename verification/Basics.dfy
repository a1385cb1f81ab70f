/** What every run of the protocol keeps, whichever places of the code are put right: who holds
    which lock, and which calls are on the request list. */
module Basics {
  import opened Frames
  import opened Codec
  import opened Protocol
  import opened Execution
  import opened Sublists

  /** Each lock has the one owner whose program counter says so. */
  ghost predicate Locks(s: State) {
    && (s.reqsLock.Daemon? <==> DHoldsReqs(s.d))
    && (s.outLock.Daemon? <==> DHoldsOut(s.d))
    && (forall c :: 0 <= c < |s.calls| ==>
          && (HoldsReqs(s.calls[c].pc) <==> s.reqsLock == Caller(c))
          && (HoldsOut(s.calls[c].pc) <==> s.outLock == Caller(c)))
    && (s.reqsLock.Caller? ==> s.reqsLock.c < |s.calls|)
    && (s.outLock.Caller? ==> s.outLock.c < |s.calls|)
  }

  predicate BeforeLink(pc: Pc) {
    pc.WantReqs? || pc.AtTest? || pc.AtLink? || pc == AtUnlock(false)
  }

  predicate Transacting(pc: Pc) {
    pc == AtUnlock(true) || pc.WantOut? || pc.Writing? || pc.AtUnlockOut? || pc.WantReqsAgain? || pc.AtWithdraw?
  }

  predicate Linked(call: Call) {
    call.since.Some? && call.until.None?
  }

  /** Only bw2_query as written waits for a request that is not, or no longer, on the list. */
  predicate Waits(pc: Pc) {
    pc.WantLock? || pc.AtReady? || pc.AtWait? || pc.Parked?
  }

  /** How far bw2_transact has come, against what is recorded of its request. */
  predicate Entering(call: Call) {
    && (BeforeLink(call.pc) ==> call.since.None? && !call.refused)
    && (Transacting(call.pc) ==> call.since.Some? && call.until.None?)
    && (call.pc.WantReqsAgain? || call.pc.AtWithdraw? ==> call.refused)
    && (call.pc.AtUnlockOut? && call.pc.v != 0 ==> call.pc.v == ERROR_CONNECTION_LOST)
  }

  /** The same for the wait and the return. */
  predicate Leaving(r: Repairs, call: Call) {
    && (Waits(call.pc) && (call.since.None? || call.until.Some?) ==> !r.checksTransact && call.req.api.Query?)
    && (call.pc.AtLeave? || call.pc == AtReturn(None) || (call.pc.Returned? && !call.refused) ==> call.ready)
    && (call.pc.AtReturn? && call.pc.failed.Some? ==>
          && call.pc.failed.value == ERROR_CONNECTION_LOST && call.refused
          && (r.unlinksFailed ==> !Linked(call))
          && (call.req.api.Query? ==> r.checksTransact))
  }

  predicate Progress(r: Repairs, call: Call) {
    Entering(call) && Leaving(r, call)
  }

  /** Until its request is linked, only the call's own program counter moves. */
  predicate Untouched(call: Call) {
    call.since.None? ==>
      && call.until.None? && !call.ready && call.handler == FirstHandler(call.req.api)
      && call.heard == [] && !call.lost && call.trace == []
  }

  /** The list holds linked requests, each once, and the daemon's cursor is inside it. */
  ghost predicate Listed(s: State) {
    && Distinct(s.reqs)
    && (forall p :: 0 <= p < |s.reqs| ==> s.reqs[p] < |s.calls| && Linked(s.calls[s.reqs[p]]))
    && (s.d.Walk? ==> s.d.i <= |s.reqs| && (!s.d.stage.Look? ==> s.d.i < |s.reqs|))
    && (s.d.Walk? && s.d.got.Some? ==> s.walked != [] && s.walked[|s.walked| - 1] == s.d.got.value)
  }

  ghost predicate Times(r: Repairs, s: State) {
    forall c :: 0 <= c < |s.calls| ==>
      && Progress(r, s.calls[c]) && Untouched(s.calls[c])
      && (s.calls[c].since.Some? ==> s.calls[c].since.value <= |s.walked|)
      && (s.calls[c].until.Some? ==>
            s.calls[c].since.Some? && s.calls[c].since.value <= s.calls[c].until.value <= |s.walked|)
  }

  /** As long as no write fails, a linked request stays its caller's until it is signalled. */
  predicate Unfailed(call: Call) {
    && (call.pc.AtUnlockOut? ==> call.pc.v == 0)
    && !call.pc.WantReqsAgain? && !call.pc.AtWithdraw? && call.until.None?
    && (call.pc.AtReturn? && call.pc.failed.Some? ==> call.since.None?)
  }

  ghost predicate Sending(s: State) {
    !s.severed ==> forall c :: 0 <= c < |s.calls| ==> Unfailed(s.calls[c])
  }

  ghost predicate Basic(r: Repairs, s: State) {
    Locks(s) && Listed(s) && Times(r, s) && Sending(s)
  }

  lemma StepKeepsLocks(r: Repairs, s: State, c: nat)
    requires Locks(s) && c < |s.calls| && CanStep(s, c)
    ensures Locks(StepCall(r, s, c))
  {
    hide Encode, Taken, Current, Remove, ReturnValue;
    var s' := StepCall(r, s, c);
    forall x | 0 <= x < |s.calls|
      ensures HoldsReqs(s'.calls[x].pc) <==> s'.reqsLock == Caller(x)
      ensures HoldsOut(s'.calls[x].pc) <==> s'.outLock == Caller(x)
    {
    }
  }

  /** What the daemon leaves alone in a request it treats. */
  lemma TreatKeeps(call: Call, got: Option<Reply>, stage: Stage)
    ensures var call' := Treat(call, got, stage);
      && call'.req == call.req && call'.since == call.since && call'.until == call.until
      && call'.refused == call.refused
      && (call'.pc == call.pc || (call.pc.Parked? && call'.pc == Parked(true)))
      && call.heard <= call'.heard
  {
  }

  /** What the daemon leaves alone in all requests, and that it only takes from the list. */
  lemma WorkKeeps(r: Repairs, s: State, stale: bool)
    requires CanWork(s)
    ensures var s' := WorkDaemon(r, s, stale);
      && |s'.calls| == |s.calls| && s.walked <= s'.walked
      && (forall c :: 0 <= c < |s.calls| ==>
            && s'.calls[c].req == s.calls[c].req
            && s'.calls[c].since == s.calls[c].since
            && s'.calls[c].until == s.calls[c].until)
      && (forall c :: c in s'.reqs ==> c in s.reqs)
  {
    hide Treat, Hit, NextStage;
    if Cursor(s).Some? {
      TreatKeeps(s.calls[s.reqs[s.d.i]], s.d.got, s.d.stage);
    }
  }

  lemma WorkKeepsLocks(r: Repairs, s: State, stale: bool)
    requires Locks(s) && Listed(s) && CanWork(s)
    ensures Locks(WorkDaemon(r, s, stale))
  {
    hide NextStage, Hit;
    var s' := WorkDaemon(r, s, stale);
    forall x | 0 <= x < |s.calls|
      ensures HoldsReqs(s'.calls[x].pc) <==> HoldsReqs(s.calls[x].pc)
      ensures HoldsOut(s'.calls[x].pc) <==> HoldsOut(s.calls[x].pc)
    {
    }
  }

  lemma HappensKeepsLocks(r: Repairs, s: State, a: Action)
    requires Locks(s) && CanHappen(s, a)
    ensures Locks(Happens(r, s, a))
  {
    hide Encode, Taken, Current;
    var s' := Happens(r, s, a);
    forall x | 0 <= x < |s'.calls|
      ensures HoldsReqs(s'.calls[x].pc) <==> s'.reqsLock == Caller(x)
      ensures HoldsOut(s'.calls[x].pc) <==> s'.outLock == Caller(x)
    {
    }
  }

  lemma {:induction false} LocksKept(r: Repairs, s: State, a: Action)
    requires Locks(s) && Listed(s) && Enabled(s, a)
    ensures Locks(Apply(r, s, a))
  {
    hide StepCall, CanStep, WorkDaemon, CanWork, Happens, CanHappen, Locks, Listed;
    match a
    case Step(c) => StepKeepsLocks(r, s, c);
    case Work(stale) => WorkKeepsLocks(r, s, stale);
    case _ => HappensKeepsLocks(r, s, a);
  }

  lemma {:induction false} Removed(reqs: seq<nat>, c: nat)
    requires Distinct(reqs)
    ensures Distinct(Remove(reqs, c)) && c !in Remove(reqs, c)
    ensures forall x :: x in Remove(reqs, c) <==> x in reqs && x != c
  {
    if reqs != [] {
      assert Distinct(reqs[1..]);
      Removed(reqs[1..], c);
      if reqs[0] == c {
        assert reqs == [c] + reqs[1..];
      } else {
        assert reqs == [reqs[0]] + reqs[1..];
        assert reqs[0] !in Remove(reqs[1..], c);
      }
    }
  }

  lemma {:induction false} StepKeepsListed(r: Repairs, s: State, c: nat)
    requires Basic(r, s) && c < |s.calls| && CanStep(s, c)
    ensures Listed(StepCall(r, s, c))
  {
    hide Encode, Taken, Current, Remove, ReturnValue, AfterFailure;
    var s' := StepCall(r, s, c);
    Removed(s.reqs, c);
    forall p | 0 <= p < |s'.reqs| ensures s'.reqs[p] < |s'.calls| && Linked(s'.calls[s'.reqs[p]]) {
      if s.calls[c].pc.AtLink? {
      } else {
        assert s'.reqs[p] in s.reqs;
      }
    }
  }

  /** What the daemon's step does to the list. */
  lemma WorkUnlinks(r: Repairs, s: State, stale: bool)
    requires CanWork(s)
    ensures var s' := WorkDaemon(r, s, stale);
      || s'.reqs == s.reqs || s'.reqs == []
      || (s.d.Walk? && s.d.i < |s.reqs| && Unlinks(s.d) && s'.reqs == s.reqs[..s.d.i] + s.reqs[s.d.i + 1..])
  {
    hide NextD, Treat;
  }

  lemma WorkKeepsCursor(r: Repairs, s: State, stale: bool)
    requires Listed(s) && CanWork(s)
    ensures var s' := WorkDaemon(r, s, stale);
      && (s'.d.Walk? ==> s'.d.i <= |s'.reqs| && (!s'.d.stage.Look? ==> s'.d.i < |s'.reqs|))
      && (s'.d.Walk? && s'.d.got.Some? ==> s'.walked != [] && s'.walked[|s'.walked| - 1] == s'.d.got.value)
  {
    hide NextStage, Hit, Treat, Distinct, Linked;
  }

  lemma {:induction false} WorkKeepsListed(r: Repairs, s: State, stale: bool)
    requires Listed(s) && CanWork(s)
    ensures Listed(WorkDaemon(r, s, stale))
  {
    hide WorkDaemon, CanWork;
    WorkKeeps(r, s, stale);
    WorkUnlinks(r, s, stale);
    WorkKeepsCursor(r, s, stale);
  }

  lemma HappensKeepsListed(r: Repairs, s: State, a: Action)
    requires Listed(s) && CanHappen(s, a)
    ensures Listed(Happens(r, s, a))
  {
    hide Encode, Taken, Current, Distinct;
    var s' := Happens(r, s, a);
    forall c | 0 <= c < |s.calls| ensures Linked(s'.calls[c]) == Linked(s.calls[c]) {
    }
  }

  lemma ListedKept(r: Repairs, s: State, a: Action)
    requires Basic(r, s) && Enabled(s, a)
    ensures Listed(Apply(r, s, a))
  {
    hide StepCall, CanStep, WorkDaemon, CanWork, Happens, CanHappen, Locks, Listed, Times;
    match a
    case Step(c) => StepKeepsListed(r, s, c);
    case Work(stale) => WorkKeepsListed(r, s, stale);
    case _ => HappensKeepsListed(r, s, a);
  }

  lemma StepEnters(r: Repairs, s: State, c: nat)
    requires c < |s.calls| && CanStep(s, c) && Entering(s.calls[c]) && Untouched(s.calls[c])
    ensures Entering(StepCall(r, s, c).calls[c])
  {
    hide Encode, Remove, ReturnValue;
  }

  lemma StepLeaves(r: Repairs, s: State, c: nat)
    requires c < |s.calls| && CanStep(s, c) && Progress(r, s.calls[c]) && Untouched(s.calls[c])
    ensures Leaving(r, StepCall(r, s, c).calls[c])
  {
    hide Encode, Remove, ReturnValue;
  }

  lemma StepProgresses(r: Repairs, s: State, c: nat)
    requires c < |s.calls| && CanStep(s, c) && Progress(r, s.calls[c]) && Untouched(s.calls[c])
    ensures Progress(r, StepCall(r, s, c).calls[c])
  {
    hide StepCall, CanStep, Entering, Leaving, Untouched;
    StepEnters(r, s, c);
    StepLeaves(r, s, c);
  }

  lemma StepKeepsTimes(r: Repairs, s: State, c: nat)
    requires Times(r, s) && c < |s.calls| && CanStep(s, c)
    ensures Times(r, StepCall(r, s, c))
  {
    hide Encode, Taken, Current, Remove, NextPc, CanStep, Progress;
    StepProgresses(r, s, c);
    TransactsLinked(r, s.calls[c]);
  }

  lemma TransactsLinked(r: Repairs, call: Call)
    requires Progress(r, call)
    ensures Transacting(call.pc) ==> Linked(call)
    ensures BeforeLink(call.pc) ==> call.since.None?
  {
  }

  lemma WritesProgress(r: Repairs, call: Call, pc: Pc)
    requires Progress(r, call) && Untouched(call) && call.pc.Writing?
    requires pc.Writing? || (pc.AtUnlockOut? && (pc.v == 0 || pc.v == ERROR_CONNECTION_LOST))
    ensures Progress(r, call.(pc := pc)) && Untouched(call.(pc := pc))
  {
  }

  lemma BeginsWell(r: Repairs, req: Request, junk: int)
    ensures Progress(r, NewCall(req, junk)) && Untouched(NewCall(req, junk))
  {
  }

  lemma HappensKeepsTimes(r: Repairs, s: State, a: Action)
    requires Times(r, s) && CanHappen(s, a)
    ensures Times(r, Happens(r, s, a))
  {
    hide Encode, Taken, Current, Progress, Untouched;
    match a
    case Send(c, n) => WritesProgress(r, s.calls[c], Writing(s.calls[c].pc.n + n));
    case Fail(c, listed) => WritesProgress(r, s.calls[c], AtUnlockOut(if listed then ERROR_CONNECTION_LOST else 0));
    case Begin(req, junk) => BeginsWell(r, req, junk);
    case _ =>
  }

  lemma TreatProgresses(r: Repairs, call: Call, got: Option<Reply>, stage: Stage)
    requires Progress(r, call) && call.since.Some?
    ensures Progress(r, Treat(call, got, stage))
  {
  }

  lemma {:induction false} WorkKeepsTimes(r: Repairs, s: State, stale: bool)
    requires Listed(s) && Times(r, s) && CanWork(s)
    ensures Times(r, WorkDaemon(r, s, stale))
  {
    hide Treat, NextStage, Hit, Progress;
    WorkKeeps(r, s, stale);
    if Cursor(s).Some? {
      TreatProgresses(r, s.calls[s.reqs[s.d.i]], s.d.got, s.d.stage);
    }
  }

  lemma ApplyWork(r: Repairs, s: State, a: Action)
    requires Enabled(s, a) && a.Work?
    ensures CanWork(s) && Apply(r, s, a) == WorkDaemon(r, s, a.stale)
  {
    hide WorkDaemon, CanWork;
  }

  /** A call moves on without touching what its request holds. */
  predicate SameRequest(call: Call, call': Call) {
    call' == call.(pc := call'.pc, since := call'.since, until := call'.until, refused := call'.refused)
  }

  /** What every action leaves alone that is not the daemon's. */
  ghost predicate KeptByOthers(s: State, a: Action, s': State) {
    && |s.calls| <= |s'.calls| && s'.walked == s.walked && s'.d == (if a.Read? then DWantReqs(a.got) else s.d)
    && (forall c :: 0 <= c < |s.calls| ==> SameRequest(s.calls[c], s'.calls[c]))
    && (forall c :: |s.calls| <= c < |s'.calls| ==>
          && s'.calls[c].pc.WantReqs? && s'.calls[c].since.None?
          && s'.calls[c].heard == [] && s'.calls[c].trace == [])
  }

  lemma SameHit(call: Call, call': Call, got: Option<Reply>)
    requires call'.req == call.req
    ensures Hit(call', got) == Hit(call, got)
  {
  }

  lemma StepKeepsOthers(r: Repairs, s: State, c: nat)
    requires c < |s.calls| && CanStep(s, c)
    ensures KeptByOthers(s, Step(c), StepCall(r, s, c))
  {
    hide Encode, Remove, NextPc;
  }

  lemma StepCount(r: Repairs, s: State, c: nat)
    requires c < |s.calls| && CanStep(s, c)
    ensures |StepCall(r, s, c).calls| == |s.calls|
  {
  }

  lemma HappensKeepsOthers(r: Repairs, s: State, a: Action)
    requires CanHappen(s, a)
    ensures KeptByOthers(s, a, Happens(r, s, a))
  {
    hide Encode, Taken, Current;
  }

  lemma OthersKeep(r: Repairs, s: State, a: Action)
    requires Enabled(s, a) && !a.Work?
    ensures KeptByOthers(s, a, Apply(r, s, a))
  {
    hide StepCall, CanStep, Happens, CanHappen, KeptByOthers;
    if a.Step? {
      StepKeepsOthers(r, s, a.c);
    } else {
      HappensKeepsOthers(r, s, a);
    }
  }

  /** The list and the times at which requests were linked and withdrawn. */
  ghost predicate SameList(s: State, s': State) {
    && s'.reqs == s.reqs && |s.calls| <= |s'.calls|
    && (forall c :: 0 <= c < |s.calls| ==>
          s'.calls[c].since == s.calls[c].since && s'.calls[c].until == s.calls[c].until)
  }

  lemma HappensKeepsList(r: Repairs, s: State, a: Action)
    requires CanHappen(s, a)
    ensures SameList(s, Happens(r, s, a))
  {
    hide Encode, Taken, Current;
  }

  lemma StepKeepsList(r: Repairs, s: State, c: nat)
    requires Locks(s) && c < |s.calls| && CanStep(s, c) && DHoldsReqs(s.d)
    ensures SameList(s, StepCall(r, s, c))
  {
    hide Encode, Remove, NextPc;
    assert !HoldsReqs(s.calls[c].pc);
  }

  /** While the daemon holds reqslock, the list and the times stay as they are. */
  lemma OthersWait(r: Repairs, s: State, a: Action)
    requires Locks(s) && Enabled(s, a) && !a.Work? && DHoldsReqs(s.d)
    ensures Apply(r, s, a).d == s.d && SameList(s, Apply(r, s, a))
  {
    hide StepCall, CanStep, Happens, CanHappen, Locks, SameList, KeptByOthers;
    if a.Step? {
      StepKeepsList(r, s, a.c);
      StepKeepsOthers(r, s, a.c);
    } else {
      HappensKeepsList(r, s, a);
      HappensKeepsOthers(r, s, a);
    }
    StaysPut(s, a, Apply(r, s, a));
  }

  lemma StaysPut(s: State, a: Action, s': State)
    requires Enabled(s, a) && KeptByOthers(s, a, s') && DHoldsReqs(s.d)
    ensures s'.d == s.d
  {
    hide CanStep, CanWork, Encode;
  }

  lemma {:induction false} TimesKept(r: Repairs, s: State, a: Action)
    requires Basic(r, s) && Enabled(s, a)
    ensures Times(r, Apply(r, s, a))
  {
    hide StepCall, CanStep, WorkDaemon, CanWork, Happens, CanHappen, Locks, Listed, Times;
    match a
    case Step(c) => StepKeepsTimes(r, s, c);
    case Work(stale) => WorkKeepsTimes(r, s, stale);
    case _ => HappensKeepsTimes(r, s, a);
  }

  lemma StepKeepsSending(r: Repairs, s: State, c: nat)
    requires Times(r, s) && Sending(s) && c < |s.calls| && CanStep(s, c)
    ensures Sending(StepCall(r, s, c))
  {
    hide Encode, Remove, ReturnValue;
  }

  lemma {:induction false} WorkKeepsSending(r: Repairs, s: State, stale: bool)
    requires Sending(s) && CanWork(s)
    ensures Sending(WorkDaemon(r, s, stale))
  {
    hide Treat, NextStage, Hit;
    if Cursor(s).Some? {
      TreatKeeps(s.calls[s.reqs[s.d.i]], s.d.got, s.d.stage);
    }
  }

  lemma HappensKeepsSending(r: Repairs, s: State, a: Action)
    requires Sending(s) && CanHappen(s, a)
    ensures Sending(Happens(r, s, a))
  {
    hide Encode, Taken, Current;
  }

  lemma {:induction false} SendingKept(r: Repairs, s: State, a: Action)
    requires Basic(r, s) && Enabled(s, a)
    ensures Sending(Apply(r, s, a))
  {
    hide StepCall, CanStep, WorkDaemon, CanWork, Happens, CanHappen, Locks, Listed, Times, Sending;
    match a
    case Step(c) => StepKeepsSending(r, s, c);
    case Work(stale) => WorkKeepsSending(r, s, stale);
    case _ => HappensKeepsSending(r, s, a);
  }

  lemma BasicKept(r: Repairs, s: State, a: Action)
    requires Basic(r, s) && Enabled(s, a)
    ensures Basic(r, Apply(r, s, a))
  {
    hide Apply, Enabled, Locks, Listed, Times, Sending;
    LocksKept(r, s, a);
    ListedKept(r, s, a);
    TimesKept(r, s, a);
    SendingKept(r, s, a);
  }

  /** Every reachable state is well formed. */
  lemma BasicHolds(r: Repairs, s: State)
    requires Reachable(r, s)
    ensures Basic(r, s)
  {
    hide Apply, Enabled;
    forall t, a | Basic(r, t) && Enabled(t, a) ensures Basic(r, Apply(r, t, a)) {
      BasicKept(r, t, a);
    }
    Preserved(r, t => Basic(r, t), Init(r), s);
  }

  lemma BasicLists(r: Repairs, s: State)
    requires Basic(r, s)
    ensures Listed(s)
  {
  }

  /** A step of the daemon in a walk: the request under the cursor is treated, taken out or
      passed by, and nothing else changes. */
  lemma WalkStep(r: Repairs, s: State, stale: bool)
    requires s.d.Walk? && CanWork(s)
    ensures var s' := WorkDaemon(r, s, stale); var got, i, stage := s.d.got, s.d.i, s.d.stage;
      && s'.walked == s.walked
      && if i >= |s.reqs| then
           && s'.calls == s.calls && s'.d == (if got.Some? then AtRead else Exited)
           && s'.reqs == if got.Some? then s.reqs else []
         else
           var call := s.calls[s.reqs[i]];
           && s'.calls == s.calls[s.reqs[i] := Treat(call, got, stage)]
           && s'.reqs == (if Unlinks(s.d) then s.reqs[..i] + s.reqs[i + 1..] else s.reqs)
           && s'.d == if stage.After? then
                        Walk(got, if Unlinks(s.d) || (got.None? && !r.sweepAdvances) then i else i + 1, Look)
                      else if stage.Look? && !Hit(call, got) then Walk(got, i + 1, Look)
                      else Walk(got, i, NextStage(r, call, got, stage, stale))
  {
    hide Treat, Hit, NextStage;
  }
}
