/** What every listed request is like: unanswered or an open stream, and in between only while
    the daemon is at it. */
module Fitting {
  import opened Frames
  import opened Codec
  import opened Protocol
  import opened Execution
  import opened Sublists
  import opened Basics

  /** A stream whose response was not accepted. */
  predicate Refused(call: Call) {
    IsStream(call.req.api) && call.heard != [] && call.req.Verdict(call.heard[0]) != 0
  }

  /** The daemon can rely on `rv` as it reads it back: because it does so before signalling, or
      because no stream has been refused so far. */
  predicate Trusted(r: Repairs, s: State) {
    r.judgesFirst || forall c :: 0 <= c < |s.calls| ==> !Refused(s.calls[c])
  }

  /** The teardown as written, at the first of some requests. */
  predicate Suspended(r: Repairs, d: DaemonPc) {
    !r.sweepAdvances && d.Walk? && d.got.None?
  }

  predicate Unended(call: Call) {
    call.heard == [] || !call.req.Ends(call.heard)
  }

  /** A listed request that the daemon is not treating: unanswered, or an open stream. */
  predicate Waiting(call: Call) {
    && !call.lost && Unended(call)
    && (if call.heard == [] then !call.ready && call.handler == FirstHandler(call.req.api)
        else call.ready && call.handler.StreamCb?)
  }

  predicate AnsweredOnce(call: Call, f: Reply) {
    && !call.lost && call.heard == [f] && call.rv == call.req.Verdict(f)
    && (call.handler.OneShotCb? <==> !IsStream(call.req.api)) && !call.handler.SubscribeCb?
  }

  /** The request under the daemon's cursor. */
  predicate Under(r: Repairs, call: Call, got: Option<Reply>, stage: Stage) {
    match stage
    case Look => Waiting(call)
    case Run => Waiting(call)
    case Deliver => Waiting(call) && call.ready
    case Respond => Waiting(call) && !call.ready
    case Signal(stop) =>
      && !call.ready
      && (match got
          case None => call.heard == [] && !call.lost
          case Some(f) => AnsweredOnce(call, f) && stop == (call.handler.OneShotCb? || call.rv != 0))
    case Judge =>
      && !r.judgesFirst && call.ready && !call.handler.OneShotCb?
      && (match got
          case None => call.heard == [] && !call.lost
          case Some(f) => AnsweredOnce(call, f))
    case After(stop) =>
      && call.ready
      && (match got
          case None => call.heard == [] || call.lost == !call.req.Ends(call.heard)
          case Some(f) =>
            && !call.lost && call.heard != [] && (f.final || stop <==> call.req.Ends(call.heard))
            && (call.handler.OneShotCb? <==> !IsStream(call.req.api)) && !call.handler.SubscribeCb?)
  }

  /** A request the teardown has been through: if it was an open stream, its user was told. */
  predicate Swept(call: Call) {
    call.ready && (call.heard != [] ==> call.lost == !call.req.Ends(call.heard))
  }

  predicate Fits(r: Repairs, d: DaemonPc, p: nat, call: Call) {
    if !d.Walk? then Waiting(call)
    else if Suspended(r, d) then Unended(call)
    else if p == d.i then Under(r, call, d.got, d.stage)
    else if p < d.i && d.got.None? then Swept(call)
    else Waiting(call)
  }

  ghost predicate AllFit(r: Repairs, s: State) {
    forall p :: 0 <= p < |s.reqs| && s.reqs[p] < |s.calls| ==> Fits(r, s.d, p, s.calls[s.reqs[p]])
  }

  // ---------- one request ----------

  lemma EndsNext(req: Request, heard: seq<Reply>, f: Reply)
    ensures heard == [] ==> (req.Ends([f]) <==> !IsStream(req.api) || req.Verdict(f) != 0 || f.final)
    ensures heard != [] && !req.Ends(heard) ==>
              IsStream(req.api) && (req.Ends(heard + [f]) <==> f.final || req.Quits(|heard| - 1))
  {
    if heard == [] {
      assert [f][0] == f;
    } else {
      var heard' := heard + [f];
      assert heard'[0] == heard[0] && heard'[|heard|] == f;
      if k :| 0 <= k < |heard'| && heard'[k].final && !f.final {
        assert heard[k].final;
      }
    }
  }

  lemma NothingEndsEarly(req: Request)
    ensures !req.Ends([])
  {
  }

  lemma StaysFitting(r: Repairs, call: Call, got: Option<Reply>, stage: Stage, stale: bool)
    requires r.judgesFirst || !Refused(call)
    requires Under(r, call, got, stage) && !stage.After? && (stage.Look? ==> Hit(call, got))
    ensures Under(r, Treat(call, got, stage), got, NextStage(r, call, got, stage, stale))
  {
    hide Request.Ends;
    if got.Some? {
      EndsNext(call.req, if stage.Signal? || stage.Judge? then [] else call.heard, got.value);
    }
  }

  lemma MovesOn(r: Repairs, call: Call, f: Reply)
    requires Under(r, call, Some(f), After(false)) && !f.final
    ensures Waiting(call)
  {
  }

  lemma SweptOver(r: Repairs, call: Call, stop: bool)
    requires Under(r, call, None, After(stop))
    ensures Swept(call)
  {
  }

  lemma AfterLeavesAlone(call: Call, got: Option<Reply>, stage: Stage)
    requires stage.After?
    ensures Treat(call, got, stage) == call
  {
  }

  lemma LookLeavesAlone(call: Call, got: Option<Reply>)
    requires !Hit(call, got)
    ensures Treat(call, got, Look) == call
  {
  }

  lemma TreatUnended(call: Call, stage: Stage)
    ensures Unended(Treat(call, None, stage)) == Unended(call)
  {
  }

  // ---------- the list ----------

  /** The request under the cursor, after the daemon's step. */
  lemma CursorFits(r: Repairs, s: State, stale: bool)
    requires Trusted(r, s) && Listed(s) && AllFit(r, s) && CanWork(s) && s.d.Walk? && s.d.i < |s.reqs|
    ensures var s' := WorkDaemon(r, s, stale); !Unlinks(s.d) ==> Fits(r, s'.d, s.d.i, s'.calls[s.reqs[s.d.i]])
  {
    hide WorkDaemon, Treat, NextStage, Waiting, Swept, CanWork, Unended, Hit, Refused, Distinct;
    WalkStep(r, s, stale);
    var i, got, stage := s.d.i, s.d.got, s.d.stage;
    var call := s.calls[s.reqs[i]];
    assert Fits(r, s.d, i, call);
    if Suspended(r, s.d) {
      TreatUnended(call, stage);
    } else if stage.After? {
      AfterLeavesAlone(call, got, stage);
      if got.None? {
        SweptOver(r, call, stage.stop);
      } else if !Unlinks(s.d) {
        MovesOn(r, call, got.value);
      }
    } else if stage.Look? && !Hit(call, got) {
      LookLeavesAlone(call, got);
      NoneHits(call, got);
    } else {
      StaysFitting(r, call, got, stage, stale);
    }
  }

  lemma NoneHits(call: Call, got: Option<Reply>)
    requires !Hit(call, got)
    ensures got.Some?
  {
  }

  /** The other requests, as the cursor moves. */
  lemma OthersFit(r: Repairs, s: State, stale: bool, p: nat)
    requires Listed(s) && AllFit(r, s) && CanWork(s) && s.d.Walk? && s.d.i < |s.reqs|
    requires p < |s.reqs| && p != s.d.i
    ensures var s' := WorkDaemon(r, s, stale);
      Fits(r, s'.d, if Unlinks(s.d) && p > s.d.i then p - 1 else p, s'.calls[s.reqs[p]])
  {
    hide WorkDaemon, Treat, NextStage, Swept, CanWork, Unended, Hit, Waiting;
    WalkStep(r, s, stale);
    assert Fits(r, s.d, p, s.calls[s.reqs[p]]);
    assert s.reqs[p] != s.reqs[s.d.i];
  }

  lemma WalkFits(r: Repairs, s: State, stale: bool)
    requires Trusted(r, s) && Listed(s) && AllFit(r, s) && CanWork(s) && s.d.Walk? && s.d.i < |s.reqs|
    ensures AllFit(r, WorkDaemon(r, s, stale))
  {
    hide WorkDaemon, Fits, CanWork, Treat, NextStage, Hit, AllFit, Trusted, Distinct;
    var s' := WorkDaemon(r, s, stale);
    var i := s.d.i;
    CursorFits(r, s, stale);
    WalkStep(r, s, stale);
    forall p | 0 <= p < |s'.reqs| && s'.reqs[p] < |s'.calls| ensures Fits(r, s'.d, p, s'.calls[s'.reqs[p]]) {
      var q := if Unlinks(s.d) && p >= i then p + 1 else p;
      assert s'.reqs[p] == s.reqs[q];
      if q != i {
        OthersFit(r, s, stale, q);
      }
    }
    AllFitFrom(r, s');
  }

  lemma AllFitFrom(r: Repairs, s: State)
    requires forall p :: 0 <= p < |s.reqs| && s.reqs[p] < |s.calls| ==> Fits(r, s.d, p, s.calls[s.reqs[p]])
    ensures AllFit(r, s)
  {
    hide Fits;
  }

  lemma WorkKeepsFit(r: Repairs, s: State, stale: bool)
    requires Trusted(r, s) && Listed(s) && AllFit(r, s) && CanWork(s)
    ensures AllFit(r, WorkDaemon(r, s, stale))
  {
    if s.d.Walk? && s.d.i < |s.reqs| {
      hide WorkDaemon, CanWork, AllFit, Listed, Trusted;
      WalkFits(r, s, stale);
    } else {
      hide Treat, NextStage, Unended, Swept, Trusted;
    }
  }

  lemma SameFit(r: Repairs, d: DaemonPc, p: nat, call: Call, call': Call)
    requires SameRequest(call, call')
    ensures Fits(r, d, p, call') == Fits(r, d, p, call)
  {
  }

  lemma FreshWaits(call: Call, call': Call)
    requires Untouched(call) && call.since.None? && SameRequest(call, call')
    ensures Waiting(call')
  {
  }

  lemma StepKeepsFit(r: Repairs, s: State, c: nat)
    requires Locks(s) && Listed(s) && Times(r, s) && AllFit(r, s) && c < |s.calls| && CanStep(s, c)
    ensures AllFit(r, StepCall(r, s, c))
  {
    hide Encode, Under, Remove, NextPc, Waiting, Unended, Progress, Untouched;
    StepKeepsOthers(r, s, c);
    Removed(s.reqs, c);
    TransactsLinked(r, s.calls[c]);
    var s' := StepCall(r, s, c);
    forall p | 0 <= p < |s'.reqs| && s'.reqs[p] < |s'.calls| ensures Fits(r, s'.d, p, s'.calls[s'.reqs[p]]) {
      var x := s'.reqs[p];
      if s.calls[c].pc.AtLink? && p == 0 {
        FreshWaits(s.calls[c], s'.calls[c]);
      } else {
        if s'.reqs != s.reqs {
          assert !s.d.Walk? && x in s.reqs;
        }
        SameFit(r, s.d, p, s.calls[x], s'.calls[x]);
      }
    }
  }

  lemma HappensKeepsFit(r: Repairs, s: State, a: Action)
    requires Listed(s) && AllFit(r, s) && CanHappen(s, a)
    ensures AllFit(r, Happens(r, s, a))
  {
    hide Encode, Taken, Current, Under, Waiting, Unended, Swept, Distinct;
    HappensKeepsOthers(r, s, a);
    var s' := Happens(r, s, a);
    forall p | 0 <= p < |s'.reqs| && s'.reqs[p] < |s'.calls| ensures Fits(r, s'.d, p, s'.calls[s'.reqs[p]]) {
      SameFit(r, s.d, p, s.calls[s.reqs[p]], s'.calls[s.reqs[p]]);
    }
  }

  lemma {:induction false} FitKept(r: Repairs, s: State, a: Action)
    requires Trusted(r, s) && Basic(r, s) && AllFit(r, s) && Enabled(s, a)
    ensures AllFit(r, Apply(r, s, a))
  {
    hide StepCall, CanStep, WorkDaemon, CanWork, Happens, CanHappen, Trusted, Locks, Listed, Times, Sending, AllFit;
    match a
    case Step(c) => StepKeepsFit(r, s, c);
    case Work(stale) => WorkKeepsFit(r, s, stale);
    case _ => HappensKeepsFit(r, s, a);
  }

  /** What was refused stays refused. */
  lemma TrustLasts(r: Repairs, s: State, a: Action)
    requires Enabled(s, a) && Trusted(r, Apply(r, s, a))
    ensures Trusted(r, s)
  {
    hide Apply, Enabled, Request.Verdict;
    if a.Work? {
      ApplyWork(r, s, a);
      WorkHears(r, s, a.stale);
    } else {
      OthersKeep(r, s, a);
    }
  }

  lemma WorkHears(r: Repairs, s: State, stale: bool)
    requires CanWork(s)
    ensures var s' := WorkDaemon(r, s, stale);
      && |s'.calls| == |s.calls|
      && forall c :: 0 <= c < |s.calls| ==> s'.calls[c].req == s.calls[c].req && s.calls[c].heard <= s'.calls[c].heard
  {
    hide Treat, NextStage, Hit;
    if Cursor(s).Some? {
      TreatKeeps(s.calls[s.reqs[s.d.i]], s.d.got, s.d.stage);
    }
  }

  ghost predicate Fitted(r: Repairs, s: State) {
    Basic(r, s) && (Trusted(r, s) ==> AllFit(r, s))
  }

  lemma FittedKept(r: Repairs, s: State, a: Action)
    requires Fitted(r, s) && Enabled(s, a)
    ensures Fitted(r, Apply(r, s, a))
  {
    hide Apply, Enabled, Basic, Trusted, AllFit;
    BasicKept(r, s, a);
    if Trusted(r, Apply(r, s, a)) {
      TrustLasts(r, s, a);
      FitKept(r, s, a);
    }
  }

  /** In every reachable state each listed request fits, unless a stream was refused and the
      daemon reads `rv` too late. */
  lemma FitHolds(r: Repairs, s: State)
    requires Reachable(r, s)
    ensures Basic(r, s) && (Trusted(r, s) ==> AllFit(r, s))
  {
    hide Apply, Enabled, Basic, Trusted;
    forall t, a | Fitted(r, t) && Enabled(t, a) ensures Fitted(r, Apply(r, t, a)) {
      FittedKept(r, t, a);
    }
    Stay(r, Init(r));
    BasicHolds(r, Init(r));
    Preserved(r, t => Fitted(r, t), Init(r), s);
  }
}
