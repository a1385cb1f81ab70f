/** What an API call returns: the verdict on a frame that the daemon dispatched to it, or that
    the connection was lost. */
module Results {
  import opened Frames
  import opened Codec
  import opened Protocol
  import opened Execution
  import opened Basics
  import opened Segments
  import opened Ending

  /** A value that may be returned: never one that no frame and no failure accounts for. */
  predicate Accounts(call: Call, v: int) {
    v == ERROR_CONNECTION_LOST || (call.heard != [] && v == call.req.Verdict(call.heard[0]))
  }

  predicate Accepted(call: Call) {
    call.heard != [] && call.req.Verdict(call.heard[0]) == 0
  }

  /** The functions that never return a `rv` that nobody has set: bw2_publish and
      bw2_setEntity as written, and bw2_query as long as it waits in any case. */
  predicate Earns(r: Repairs, api: Api) {
    r.returnsLocal || api.Publish? || api.SetEntity? || (api.Query? && !r.checksTransact)
  }

  /** What a call returns is to be accounted for: it is one of these functions, or its
      bw2_transact returned no error. */
  predicate Answerable(r: Repairs, call: Call) {
    Earns(r, call.req.api) || !call.refused
  }

  predicate Result(r: Repairs, call: Call) {
    && (call.ready && !call.pc.Returned? ==> Accounts(call, call.rv))
    && (call.pc.Returned? && Answerable(r, call) ==> Accounts(call, call.pc.v))
  }

  /** A listed request that the daemon is not treating. */
  predicate Quiet(call: Call) {
    if call.ready then Accepted(call) && call.handler.StreamCb? else call.heard == []
  }

  /** A request that the daemon is treating for a frame. */
  predicate Treated(call: Call, stage: Stage) {
    match stage
    case Look => Quiet(call)
    case Run => Quiet(call)
    case Deliver => call.ready && Quiet(call)
    case Respond => !call.ready && Quiet(call)
    case Signal(stop) =>
      && call.heard != [] && call.rv == call.req.Verdict(call.heard[0])
      && !call.handler.SubscribeCb? && (!stop ==> call.rv == 0 && call.handler.StreamCb?)
    case Judge => call.ready && call.heard != [] && call.rv == call.req.Verdict(call.heard[0]) && call.handler.StreamCb?
    case After(stop) => call.ready && (!stop ==> Quiet(call))
  }

  /** What holds of the request at position `p` of the list, unless its call has returned. */
  predicate Heeds(d: DaemonPc, p: nat, call: Call) {
    if d.Walk? then
      if d.got.None? then p == d.i && !d.stage.Look? ==> call.rv == ERROR_CONNECTION_LOST
      else if p == d.i then Treated(call, d.stage)
      else Quiet(call)
    else TearingDown(d) || Quiet(call)
  }

  ghost predicate AllResults(r: Repairs, s: State) {
    forall c :: 0 <= c < |s.calls| ==> Result(r, s.calls[c])
  }

  ghost predicate AllHeed(s: State) {
    forall p :: 0 <= p < |s.reqs| && s.reqs[p] < |s.calls| && !s.calls[s.reqs[p]].pc.Returned? ==>
      Heeds(s.d, p, s.calls[s.reqs[p]])
  }

  ghost predicate Answers(r: Repairs, s: State) {
    AllResults(r, s) && AllHeed(s)
  }

  lemma TreatKeepsResult(r: Repairs, call: Call, got: Option<Reply>, stage: Stage)
    requires Result(r, call)
    requires !call.pc.Returned? && got.Some? ==> Treated(call, stage)
    requires !call.pc.Returned? && got.None? ==> stage.Look? || call.rv == ERROR_CONNECTION_LOST
    ensures Result(r, Treat(call, got, stage))
  {
  }

  lemma {:induction false} WorkKeepsAllResults(r: Repairs, s: State, stale: bool)
    requires Listed(s) && Answers(r, s) && CanWork(s)
    ensures AllResults(r, WorkDaemon(r, s, stale))
  {
    hide Treat, NextStage, Treated, Quiet, Result, Hit;
    if s.d.Walk? && s.d.i < |s.reqs| {
      TreatKeepsResult(r, s.calls[s.reqs[s.d.i]], s.d.got, s.d.stage);
    }
  }

  /** The request under the cursor, while the daemon stays with it. */
  lemma StaysHeeding(r: Repairs, call: Call, got: Option<Reply>, i: nat, stage: Stage, stale: bool)
    requires Heeds(Walk(got, i, stage), i, call) && !call.pc.Returned?
    requires !stage.After? && (stage.Look? ==> Hit(call, got))
    ensures Heeds(Walk(got, i, NextStage(r, call, got, stage, stale)), i, Treat(call, got, stage))
  {
  }

  /** The request under the cursor, unless it goes. */
  lemma CursorHeeds(r: Repairs, s: State, stale: bool)
    requires Listed(s) && AllHeed(s) && CanWork(s) && s.d.Walk? && s.d.i < |s.reqs| && !Unlinks(s.d)
    requires !s.calls[s.reqs[s.d.i]].pc.Returned?
    ensures var s' := WorkDaemon(r, s, stale); Heeds(s'.d, s.d.i, s'.calls[s.reqs[s.d.i]])
  {
    hide WorkDaemon, CanWork, Treat, NextStage, Hit, Heeds;
    WalkStep(r, s, stale);
    var i, call := s.d.i, s.calls[s.reqs[s.d.i]];
    assert Heeds(s.d, i, call);
    if s.d.stage.After? || (s.d.stage.Look? && !Hit(call, s.d.got)) {
      TreatOnlyHits(call, s.d.got, s.d.stage);
      MissesSome(call, s.d.got);
      LeavesHeeding(s.d, call, WorkDaemon(r, s, stale).d);
    } else {
      StaysHeeding(r, call, s.d.got, i, s.d.stage, stale);
    }
  }

  lemma MissesSome(call: Call, got: Option<Reply>)
    ensures !Hit(call, got) ==> got.Some?
  {
  }

  /** The request that the daemon moves on from, or back to. */
  lemma LeavesHeeding(d: DaemonPc, call: Call, d': DaemonPc)
    requires d.Walk? && Heeds(d, d.i, call) && !Unlinks(d) && (d.stage.After? || (d.stage.Look? && d.got.Some?))
    requires d'.Walk? && d'.got == d.got && d'.stage.Look? && (d.got.Some? ==> d'.i == d.i + 1)
    ensures Heeds(d', d.i, call)
  {
    hide Accounts, Accepted;
  }

  /** The other requests, as the cursor moves. */
  lemma OthersHeed(r: Repairs, s: State, stale: bool, p: nat)
    requires Listed(s) && AllHeed(s) && CanWork(s) && s.d.Walk? && s.d.i < |s.reqs| && p < |s.reqs| && p != s.d.i
    requires !s.calls[s.reqs[p]].pc.Returned?
    ensures var s' := WorkDaemon(r, s, stale);
      Heeds(s'.d, if Unlinks(s.d) && p > s.d.i then p - 1 else p, s'.calls[s.reqs[p]])
  {
    hide WorkDaemon, CanWork, Treat, NextStage, Hit, Quiet;
    WalkStep(r, s, stale);
    assert s.reqs[p] != s.reqs[s.d.i];
    assert Heeds(s.d, p, s.calls[s.reqs[p]]);
  }

  lemma {:induction false} WalkHeeds(r: Repairs, s: State, stale: bool)
    requires Listed(s) && AllHeed(s) && CanWork(s) && s.d.Walk? && s.d.i < |s.reqs|
    ensures AllHeed(WorkDaemon(r, s, stale))
  {
    hide WorkDaemon, CanWork, Treat, Heeds, AllHeed;
    var s', i := WorkDaemon(r, s, stale), s.d.i;
    WalkStep(r, s, stale);
    TreatKeeps(s.calls[s.reqs[i]], s.d.got, s.d.stage);
    forall p | 0 <= p < |s'.reqs| && s'.reqs[p] < |s'.calls| && !s'.calls[s'.reqs[p]].pc.Returned?
      ensures Heeds(s'.d, p, s'.calls[s'.reqs[p]])
    {
      var q := if Unlinks(s.d) && p >= i then p + 1 else p;
      assert s'.reqs[p] == s.reqs[q];
      if q == i {
        CursorHeeds(r, s, stale);
      } else {
        OthersHeed(r, s, stale, q);
      }
    }
    AllHeedFrom(s');
  }

  lemma AllHeedFrom(s: State)
    requires forall p :: 0 <= p < |s.reqs| && s.reqs[p] < |s.calls| && !s.calls[s.reqs[p]].pc.Returned? ==>
               Heeds(s.d, p, s.calls[s.reqs[p]])
    ensures AllHeed(s)
  {
    hide Heeds;
  }

  lemma TreatOnlyHits(call: Call, got: Option<Reply>, stage: Stage)
    ensures stage.After? || (stage.Look? && !Hit(call, got)) ==> Treat(call, got, stage) == call
  {
  }

  lemma {:induction false} WorkKeepsResults(r: Repairs, s: State, stale: bool)
    requires Listed(s) && Answers(r, s) && CanWork(s)
    ensures Answers(r, WorkDaemon(r, s, stale))
  {
    WorkKeepsAllResults(r, s, stale);
    if s.d.Walk? && s.d.i < |s.reqs| {
      hide WorkDaemon, CanWork, AllResults, AllHeed, Listed;
      WalkHeeds(r, s, stale);
    } else {
      hide Treat, NextStage, Quiet, AllResults;
    }
  }

  lemma StepKeepsResult(r: Repairs, s: State, c: nat)
    requires Times(r, s) && AllResults(r, s) && c < |s.calls| && CanStep(s, c)
    ensures AllResults(r, StepCall(r, s, c))
  {
    hide Encode, Taken, Current, Remove;
  }

  lemma StepKeepsHeeding(r: Repairs, s: State, c: nat)
    requires Basic(r, s) && AllHeed(s) && c < |s.calls| && CanStep(s, c)
    ensures AllHeed(StepCall(r, s, c))
  {
    hide Encode, Taken, Current, ReturnValue, AfterFailure, Treated, Remove;
    var s' := StepCall(r, s, c);
    Removed(s.reqs, c);
    forall p | 0 <= p < |s'.reqs| && s'.reqs[p] < |s'.calls| && !s'.calls[s'.reqs[p]].pc.Returned?
      ensures Heeds(s'.d, p, s'.calls[s'.reqs[p]])
    {
      var x := s'.reqs[p];
      SameHeeding(s'.d, p, s.calls[x], s'.calls[x]);
      if s.calls[c].pc.AtLink? && p == 0 {
      } else if s'.reqs == s.reqs {
        assert x == s.reqs[p];
      } else {
        assert x in s.reqs;
        var q :| 0 <= q < |s.reqs| && s.reqs[q] == x;
      }
    }
  }

  lemma SameHeeding(d: DaemonPc, p: nat, call: Call, call': Call)
    requires call'.req == call.req && call'.ready == call.ready && call'.rv == call.rv
    requires call'.handler == call.handler && call'.heard == call.heard
    ensures Heeds(d, p, call') == Heeds(d, p, call)
  {
  }

  lemma HappensKeepsResults(r: Repairs, s: State, a: Action)
    requires Listed(s) && Answers(r, s) && CanHappen(s, a)
    ensures Answers(r, Happens(r, s, a))
  {
    hide Encode, Taken, Current, Treated;
    var s' := Happens(r, s, a);
    forall p | 0 <= p < |s'.reqs| && s'.reqs[p] < |s'.calls| && !s'.calls[s'.reqs[p]].pc.Returned?
      ensures Heeds(s'.d, p, s'.calls[s'.reqs[p]])
    {
      SameHeeding(s'.d, p, s.calls[s.reqs[p]], s'.calls[s.reqs[p]]);
    }
  }

  lemma {:induction false} ResultsKept(r: Repairs, s: State, a: Action)
    requires Basic(r, s) && Answers(r, s) && Enabled(s, a)
    ensures Answers(r, Apply(r, s, a))
  {
    hide StepCall, CanStep, WorkDaemon, CanWork, Happens, CanHappen, AllResults, AllHeed, Locks, Listed, Times;
    match a
    case Step(c) =>
      StepKeepsResult(r, s, c);
      StepKeepsHeeding(r, s, c);
    case Work(stale) => WorkKeepsResults(r, s, stale);
    case _ => HappensKeepsResults(r, s, a);
  }

  // ---------- where the frames a request has heard come from ----------

  function Got(d: DaemonPc): Option<Reply> {
    match d
    case DWantReqs(got) => got
    case DAtTest(got) => got
    case Walk(got, _, _) => got
    case _ => None
  }

  /** The daemon dispatches what it computed from frames it read. */
  ghost predicate Classified(s: State) {
    && (forall w :: 0 <= w < |s.walked| ==> s.walked[w] == Classify(s.walked[w].frame))
    && (Got(s.d).Some? ==> Got(s.d).value == Classify(Got(s.d).value.frame))
  }

  /** Everything the request has heard was dispatched after it was linked, and under its own
      sequence number. */
  ghost predicate Sourced(walked: seq<Reply>, call: Call) {
    forall f :: f in call.heard ==>
      f.seqno == call.req.Seqno() && call.since.Some? && call.since.value <= |walked| && f in walked[call.since.value..]
  }

  /** In a dispatch, every listed request was linked before the frame was taken up, and the
      one that is being treated for it matches. */
  ghost predicate LinkedBefore(s: State) {
    s.d.Walk? && s.d.got.Some? ==>
      && (forall c :: c in s.reqs && c < |s.calls| ==> s.calls[c].since.Some? && s.calls[c].since.value < |s.walked|)
      && (!s.d.stage.Look? && s.d.i < |s.reqs| && s.reqs[s.d.i] < |s.calls| ==> Hit(s.calls[s.reqs[s.d.i]], s.d.got))
  }

  ghost predicate Sources(s: State) {
    Classified(s) && LinkedBefore(s) && forall c :: 0 <= c < |s.calls| ==> Sourced(s.walked, s.calls[c])
  }

  lemma WorkClassifies(r: Repairs, s: State, stale: bool)
    requires Classified(s) && CanWork(s)
    ensures Classified(WorkDaemon(r, s, stale))
  {
    hide Treat, NextStage, Hit, Classify;
  }

  lemma ClassifiedKept(r: Repairs, s: State, a: Action)
    requires Classified(s) && Enabled(s, a)
    ensures Classified(Apply(r, s, a))
  {
    hide StepCall, WorkDaemon, CanWork, CanStep, Classify, Encode, Taken, Current;
    if a.Work? {
      hide Classified;
      WorkClassifies(r, s, a.stale);
    } else {
      OthersKeep(r, s, a);
    }
  }

  lemma {:induction false} WorkKeepsLinkedBefore(r: Repairs, s: State, stale: bool)
    requires Listed(s) && Times(r, s) && LinkedBefore(s) && CanWork(s)
    ensures LinkedBefore(WorkDaemon(r, s, stale))
  {
    hide Treat, NextStage, Progress;
    WorkKeeps(r, s, stale);
    var s' := WorkDaemon(r, s, stale);
    if s.d.Walk? && s'.d.Walk? {
      hide WorkDaemon, Times;
      WorkInWalk(r, s, stale);
    }
  }

  lemma WorkInWalk(r: Repairs, s: State, stale: bool)
    requires Listed(s) && s.d.Walk? && CanWork(s) && WorkDaemon(r, s, stale).d.Walk?
    ensures var s' := WorkDaemon(r, s, stale);
      && s'.walked == s.walked && s'.d.got == s.d.got
      && (!s'.d.stage.Look? ==>
            && s'.d.i == s.d.i && s'.reqs == s.reqs
            && (s.d.stage.Look? ==> Hit(s.calls[s.reqs[s.d.i]], s.d.got)))
  {
    hide Treat, Hit, NextStage;
  }

  lemma LinkedBeforeKept(r: Repairs, s: State, a: Action)
    requires Basic(r, s) && LinkedBefore(s) && Enabled(s, a)
    ensures LinkedBefore(Apply(r, s, a))
  {
    hide Apply, Enabled, LinkedBefore, Locks, Times;
    if a.Work? {
      ApplyWork(r, s, a);
      WorkKeepsLinkedBefore(r, s, a.stale);
    } else {
      OthersKeepLinkedBefore(r, s, a);
    }
  }

  lemma OthersKeepLinkedBefore(r: Repairs, s: State, a: Action)
    requires Locks(s) && Listed(s) && LinkedBefore(s) && Enabled(s, a) && !a.Work?
    ensures LinkedBefore(Apply(r, s, a))
  {
    hide Apply, Enabled, Hit, Locks;
    OthersKeep(r, s, a);
    if s.d.Walk? {
      OthersWait(r, s, a);
      if Cursor(s).Some? {
        SameHit(s.calls[s.reqs[s.d.i]], Apply(r, s, a).calls[s.reqs[s.d.i]], s.d.got);
      }
    }
  }

  lemma {:induction false} SourcedKept(r: Repairs, s: State, a: Action)
    requires Basic(r, s) && Sources(s) && Enabled(s, a)
    ensures forall c :: 0 <= c < |Apply(r, s, a).calls| ==> Sourced(Apply(r, s, a).walked, Apply(r, s, a).calls[c])
  {
    hide Apply, Enabled;
    var s' := Apply(r, s, a);
    if a.Work? {
      ApplyWork(r, s, a);
      WorkKeepsSourced(r, s, a.stale);
    } else {
      OthersKeep(r, s, a);
      OthersKeepSince(r, s, a);
    }
  }

  lemma OthersKeepSince(r: Repairs, s: State, a: Action)
    requires Times(r, s) && Enabled(s, a) && !a.Work?
    ensures forall c :: 0 <= c < |s.calls| && c < |Apply(r, s, a).calls| && s.calls[c].since.Some? ==>
              Apply(r, s, a).calls[c].since == s.calls[c].since
  {
    hide StepCall, Happens, CanWork, CanHappen, CanStep, Times;
    if a.Step? {
      StepKeepsSince(r, s, a.c);
    } else {
      HappensKeepsList(r, s, a);
    }
  }

  lemma StepKeepsSince(r: Repairs, s: State, c: nat)
    requires Times(r, s) && c < |s.calls| && CanStep(s, c)
    ensures var s' := StepCall(r, s, c);
      && |s'.calls| == |s.calls|
      && forall x :: 0 <= x < |s.calls| && s.calls[x].since.Some? ==> s'.calls[x].since == s.calls[x].since
  {
    hide Encode, Remove, NextPc, CanStep, Untouched;
    TransactsLinked(r, s.calls[c]);
  }

  lemma SourcedLater(walked: seq<Reply>, walked': seq<Reply>, call: Call)
    requires Sourced(walked, call) && walked <= walked'
    ensures Sourced(walked', call)
  {
    if call.since.Some? && call.since.value <= |walked| {
      assert walked <= walked' && walked[call.since.value..] <= walked'[call.since.value..];
    }
  }

  lemma TreatKeepsSourced(walked: seq<Reply>, call: Call, got: Option<Reply>, stage: Stage)
    requires Sourced(walked, call)
    requires (stage.Deliver? || stage.Respond?) && got.Some? ==>
               Hit(call, got) && call.since.Some? && call.since.value < |walked| && walked[|walked| - 1] == got.value
    ensures Sourced(walked, Treat(call, got, stage))
  {
  }

  lemma WorkKeepsSourced(r: Repairs, s: State, stale: bool)
    requires Listed(s) && Sources(s) && CanWork(s)
    ensures var s' := WorkDaemon(r, s, stale); forall c :: 0 <= c < |s'.calls| ==> Sourced(s'.walked, s'.calls[c])
  {
    hide Treat, Hit, Sourced, NextStage, Classified;
    WorkKeeps(r, s, stale);
    var s' := WorkDaemon(r, s, stale);
    forall c | 0 <= c < |s'.calls| ensures Sourced(s'.walked, s'.calls[c]) {
      if Cursor(s) == Some(c) {
        TreatKeepsSourced(s.walked, s.calls[c], s.d.got, s.d.stage);
      } else {
        SourcedLater(s.walked, s'.walked, s.calls[c]);
      }
    }
  }

  lemma ResultsHold(r: Repairs, s: State)
    requires Reachable(r, s)
    ensures Basic(r, s) && Answers(r, s) && Sources(s)
  {
    hide Apply, Enabled, Basic, Answers, Classified, LinkedBefore, Sourced;
    StartsWithResults(r);
    forall t, a | Basic(r, t) && Answers(r, t) && Sources(t) && Enabled(t, a)
      ensures Basic(r, Apply(r, t, a)) && Answers(r, Apply(r, t, a)) && Sources(Apply(r, t, a))
    {
      BasicKept(r, t, a);
      ResultsKept(r, t, a);
      ClassifiedKept(r, t, a);
      LinkedBeforeKept(r, t, a);
      SourcedKept(r, t, a);
    }
    Preserved(r, t => Basic(r, t) && Answers(r, t) && Sources(t), Init(r), s);
  }

  lemma StartsWithResults(r: Repairs)
    ensures Basic(r, Init(r)) && Answers(r, Init(r)) && Sources(Init(r))
  {
  }

  /** The frame accepts a request of the function: it is a response with the status "okay", and
      brings the handle if bw2_subscribe was asked for it. */
  ghost predicate Accepts(f: Frame, api: Api) {
    f.cmd == RESPONSE && Says(f, STATUS, OKAY) && (api == Subscribe(true) ==> Mentions(f, HANDLE))
  }

  /** What the callbacks store in `rv` for a frame taken as the response, code by code. */
  lemma VerdictExactly(req: Request, f: Frame)
    ensures var v := req.Verdict(Classify(f));
      && (v == 0 <==> Accepts(f, req.api))
      && (v == ERROR_UNEXPECTED_FRAME <==> f.cmd != RESPONSE)
      && (v == ERROR_RESPONSE_STATUS <==> f.cmd == RESPONSE && Mentions(f, STATUS) && !Says(f, STATUS, OKAY))
      && (v == ERROR_MISSING_HEADER <==>
            f.cmd == RESPONSE && (!Mentions(f, STATUS)
                                  || (Says(f, STATUS, OKAY) && req.api == Subscribe(true) && !Mentions(f, HANDLE))))
  {
    hide Says, Mentions, MustResponse, HasHandle, IsFinal;
    MustResponseExactly(f);
    HasHandleExactly(f);
    SaysMentions(f, STATUS, OKAY);
  }

  lemma SaysMentions(f: Frame, key: bytes, literal: bytes)
    ensures Says(f, key, literal) ==> Mentions(f, key)
  {
  }

  /** The daemon dispatched, after the request was linked, a frame with its sequence number
      that accepts it. */
  ghost predicate WasAccepted(s: State, call: Call) {
    call.since.Some? && exists w: nat {:trigger s.walked[w]} ::
      && call.since.value <= w < |s.walked|
      && s.walked[w].frame.seqno == call.req.Seqno()
      && Accepts(s.walked[w].frame, call.req.api)
  }

  lemma ClassifiesNumber(f: Frame)
    ensures Classify(f).seqno == f.seqno
  {
  }

  lemma ZeroMeansAccepted(r: Repairs, s: State, c: nat)
    requires Reachable(r, s) && c < |s.calls| && Answerable(r, s.calls[c]) && s.calls[c].pc == Returned(0)
    ensures WasAccepted(s, s.calls[c])
  {
    hide Reachable, Basic, AllHeed, LinkedBefore, Answerable, Accepts, Classify;
    ResultsHold(r, s);
    var call := s.calls[c];
    var f := call.heard[0];
    assert f in call.heard;
    var k :| 0 <= k < |s.walked[call.since.value..]| && s.walked[call.since.value..][k] == f;
    var w := call.since.value + k;
    assert s.walked[w] == f && f == Classify(f.frame);
    VerdictExactly(call.req, f.frame);
    ClassifiesNumber(f.frame);
  }

  /** Every other function, on a closed connection, returns whatever its request held before
      any callback set it, which may be 0. */
  lemma RefusedButZero(r: Repairs, api: Api) returns (s: State)
    requires !Earns(r, api)
    ensures Reachable(r, s) && |s.calls| == 1 && s.calls[0].req.api == api
    ensures s.calls[0].pc == Returned(0) && s.calls[0].refused && !WasAccepted(s, s.calls[0])
  {
    hide Leads, Encode;
    var s0 := Init(r);
    FreshIsReachable(r);
    Then(r, s0, Fresh(), Disconnect);
    var s1 := Apply(r, Fresh(), Disconnect);
    var req := Asking(api, false, s1);
    Begins(r, s1, req, 0);
    var s2 := s1.(draws := s1.draws + 1, calls := s1.calls + [NewCall(req, 0)]);
    Join(r, s0, s1, s2);
    var s3 := WithCall(s2, 0, s2.calls[0].(pc := AfterFailure(r, api), refused := true));
    Refuses(r, s2, 0);
    Join(r, s0, s2, s3);
    Moves(r, s0, s3, 0);
    s := StepCall(r, s3, 0);
  }

  /** A call of `api` that returns 0 was answered with an accepted response after it had linked
      its request, in every run, exactly when that function never returns a `rv` that nobody
      has set. */
  lemma ZeroIsEarned(r: Repairs, api: Api)
    ensures (forall s, c ::
               Reachable(r, s) && 0 <= c < |s.calls| && s.calls[c].req.api == api && s.calls[c].pc == Returned(0) ==>
                 WasAccepted(s, s.calls[c]))
            <==> Earns(r, api)
  {
    hide Reachable, WasAccepted, Earns;
    if Earns(r, api) {
      forall s, c | Reachable(r, s) && 0 <= c < |s.calls| && s.calls[c].req.api == api && s.calls[c].pc == Returned(0)
        ensures WasAccepted(s, s.calls[c])
      {
        ZeroMeansAccepted(r, s, c);
      }
    } else {
      var s := RefusedButZero(r, api);
      assert s.calls[0].pc == Returned(0);
    }
  }

  /** What a call returns: the verdict on the first frame its request heard, or that the
      connection was lost. */
  lemma ReturnsAreAccounted(r: Repairs, s: State, c: nat)
    requires Reachable(r, s) && c < |s.calls| && Answerable(r, s.calls[c]) && s.calls[c].pc.Returned?
    ensures var call := s.calls[c];
      || call.pc.v == ERROR_CONNECTION_LOST
      || (call.heard != [] && call.pc.v == call.req.Verdict(call.heard[0]))
  {
    hide Reachable, Basic, AllHeed, Sources, Answerable;
    ResultsHold(r, s);
  }

  /** A call that has waited for its signal returns what its request holds, and that is
      accounted for, in every version of the code. */
  lemma WaitedIsAccounted(r: Repairs, s: State, c: nat)
    requires Reachable(r, s) && c < |s.calls| && s.calls[c].pc == AtReturn(None)
    ensures exists v {:trigger Accounts(s.calls[c], v)} ::
              NextPc(r, s.connected, s.calls[c]) == Returned(v) && Accounts(s.calls[c], v)
  {
    hide Reachable, AllHeed, Sources;
    ResultsHold(r, s);
    var call := s.calls[c];
    assert Accounts(call, call.rv);
  }
}
