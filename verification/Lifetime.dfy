/** The memory of requests: the daemon never touches one whose memory may have been reused. */
module Lifetime {
  import opened Frames
  import opened Codec
  import opened RoundTrip
  import opened Protocol
  import opened Execution
  import opened Sublists
  import opened Basics
  import opened Segments
  import opened Fitting

  predicate AtHome(call: Call) {
    && (Linked(call) && call.pc.Returned? ==> call.ready)
    && (Linked(call) && call.refused ==> call.pc.WantReqsAgain? || call.pc.AtWithdraw?)
  }

  /** A linked request whose call has returned was signalled first, and is not one that
      bw2_transact reported as failed, unless a write failed and left it linked. */
  ghost predicate Home(r: Repairs, s: State) {
    r.unlinksFailed || !s.severed ==> forall c :: 0 <= c < |s.calls| ==> AtHome(s.calls[c])
  }

  lemma StepKeepsHome(r: Repairs, s: State, c: nat)
    requires Times(r, s) && Sending(s) && Home(r, s) && c < |s.calls| && CanStep(s, c)
    ensures Home(r, StepCall(r, s, c))
  {
    hide Encode, Remove, ReturnValue;
  }

  lemma WorkKeepsHome(r: Repairs, s: State, stale: bool)
    requires Home(r, s) && CanWork(s)
    ensures Home(r, WorkDaemon(r, s, stale))
  {
    hide Treat, NextStage, Hit;
    if Cursor(s).Some? {
      TreatKeeps(s.calls[s.reqs[s.d.i]], s.d.got, s.d.stage);
      TreatStaysReady(s.calls[s.reqs[s.d.i]], s.d.got, s.d.stage);
    }
  }

  lemma TreatStaysReady(call: Call, got: Option<Reply>, stage: Stage)
    ensures call.ready ==> Treat(call, got, stage).ready
  {
  }

  lemma HappensKeepsHome(r: Repairs, s: State, a: Action)
    requires Home(r, s) && CanHappen(s, a)
    ensures Home(r, Happens(r, s, a))
  {
    hide Encode, Taken, Current;
  }

  lemma {:induction false} HomeKept(r: Repairs, s: State, a: Action)
    requires Basic(r, s) && Home(r, s) && Enabled(s, a)
    ensures Home(r, Apply(r, s, a))
  {
    hide StepCall, CanStep, WorkDaemon, CanWork, Happens, CanHappen, Locks, Listed, Times, Sending, Home;
    match a
    case Step(c) => StepKeepsHome(r, s, c);
    case Work(stale) => WorkKeepsHome(r, s, stale);
    case _ => HappensKeepsHome(r, s, a);
  }

  lemma HomeHolds(r: Repairs, s: State)
    requires Reachable(r, s)
    ensures Home(r, s)
  {
    hide Apply, Enabled, Basic;
    forall t, a | Basic(r, t) && Home(r, t) && Enabled(t, a)
      ensures Basic(r, Apply(r, t, a)) && Home(r, Apply(r, t, a))
    {
      BasicKept(r, t, a);
      HomeKept(r, t, a);
    }
    Stay(r, Init(r));
    BasicHolds(r, Init(r));
    Preserved(r, t => Basic(r, t) && Home(r, t), Init(r), s);
  }

  // ---------- no step touches memory that is gone ----------

  /** The next step of the daemon, or of a caller withdrawing its request, reads or writes the
      request at position `p`: the one under the cursor, or, when that one is taken out, the
      one before it, whose `next` is overwritten. */
  predicate Touches(s: State, p: nat) {
    || (s.d.Walk? && (if s.d.stage.After? && s.d.got.None? then false
                      else if Unlinks(s.d) then p + 1 == s.d.i
                      else p == s.d.i))
    || (exists c :: 0 <= c < |s.calls| && s.calls[c].pc.AtWithdraw?)
  }

  /** Once its call has returned, a request may go if it was never answered, if nothing more is
      to be heard, or if its user has been told of the lost connection. */
  lemma GoneExactly(call: Call)
    requires call.pc.Returned?
    ensures call.Gone() <==> call.heard == [] || call.req.Ends(call.heard) || call.lost
  {
  }

  /** The callback of bw2_subscribe is about to use the context on its caller's stack, which
      is there only as long as the caller cannot leave its wait. */
  predicate UsesStack(s: State, call: Call) {
    s.d.Walk? && (s.d.stage.Run? || s.d.stage.Respond?) && call.handler.SubscribeCb?
  }

  predicate MemorySafe(s: State) {
    && (forall p :: 0 <= p < |s.reqs| && s.reqs[p] < |s.calls| && Touches(s, p) ==> !s.calls[s.reqs[p]].Gone())
    && (s.d.Walk? && s.d.i < |s.reqs| && s.reqs[s.d.i] < |s.calls| && UsesStack(s, s.calls[s.reqs[s.d.i]]) ==>
          !s.calls[s.reqs[s.d.i]].ready && !s.calls[s.reqs[s.d.i]].pc.Returned?)
  }

  /** No failed write has closed the connection, or a failed one takes its request off the list. */
  predicate WritesHeld(r: Repairs, s: State) {
    r.unlinksFailed || !s.severed
  }

  /** The daemon is not sweeping any requests, or does so as it should. */
  predicate SweepsWell(r: Repairs, s: State) {
    s.d.Walk? && s.d.got.None? && s.reqs != [] ==> r.sweepAdvances && r.judgesFirst
  }

  /** A stream that its first frame refused or finished. */
  predicate CutShort(call: Call) {
    IsStream(call.req.api) && call.heard != [] && call.req.Ends(call.heard[..1])
  }

  /** No stream was cut short, or callbacks are done with a request when they signal it. */
  predicate StreamsLast(r: Repairs, s: State) {
    r.judgesFirst || forall c :: 0 <= c < |s.calls| ==> !CutShort(s.calls[c])
  }

  predicate Guard(r: Repairs, s: State) {
    WritesHeld(r, s) && SweepsWell(r, s) && StreamsLast(r, s)
  }

  /** A request that fits is not gone at any stage at which the daemon touches it. */
  lemma FittingIsThere(r: Repairs, d: DaemonPc, p: nat, call: Call)
    requires Fits(r, d, p, call) && (call.pc.Returned? ==> call.ready) && (r.judgesFirst || !CutShort(call))
    requires d.Walk? && d.got.None? ==> r.sweepAdvances && r.judgesFirst
    requires d.Walk? ==> if Unlinks(d) then p + 1 == d.i else p == d.i && !(d.stage.After? && d.got.None?)
    ensures !call.Gone()
  {
    if d.Walk? && p == d.i && d.stage.Judge? {
      assert call.heard[..1] == call.heard;
    }
  }

  lemma StackIsThere(r: Repairs, d: DaemonPc, call: Call)
    requires d.Walk? && Fits(r, d, d.i, call) && (call.pc.Returned? ==> call.ready) && !Suspended(r, d)
    requires (d.stage.Run? || d.stage.Respond?) && call.handler.SubscribeCb?
    ensures !call.ready && !call.pc.Returned?
  {
  }

  lemma NotRefusedEither(r: Repairs, s: State)
    requires StreamsLast(r, s)
    ensures Trusted(r, s)
  {
  }

  /** No step touches a request whose memory may have been reused, nor bw2_subscribe's stack
      context after its caller could have returned, in any state of the code as written or put
      right, as long as no failed write has closed the connection, the daemon is not sweeping a list with a loop that
      is not as it should be, and no stream was refused or finished by its first frame, or the
      place behind each of these is put right. */
  lemma SafeWhileGuarded(r: Repairs, s: State)
    requires Reachable(r, s) && Guard(r, s)
    ensures MemorySafe(s)
  {
    hide Reachable, Times, Sending, CutShort, Fits, Trusted, Distinct;
    FitHolds(r, s);
    NotRefusedEither(r, s);
    HomeHolds(r, s);
    forall p | 0 <= p < |s.reqs| && s.reqs[p] < |s.calls| && Touches(s, p) ensures !s.calls[s.reqs[p]].Gone() {
      WithdrawsAlone(s);
      FittingIsThere(r, s.d, p, s.calls[s.reqs[p]]);
    }
    if s.d.Walk? && s.d.i < |s.reqs| && UsesStack(s, s.calls[s.reqs[s.d.i]]) {
      StackIsThere(r, s.d, s.calls[s.reqs[s.d.i]]);
    }
  }

  lemma WithdrawsAlone(s: State)
    requires Locks(s)
    ensures forall c :: 0 <= c < |s.calls| && s.calls[c].pc.AtWithdraw? ==> !s.d.Walk?
  {
  }

  /** A frame that is no response, to the first call's number. */
  function Refusal(): Reply {
    Classify(Frame(RESULT, 0, NO_ITEMS))
  }

  /** bw2_readFrame yields such a frame, on any heap and before any bytes. */
  lemma RefusalArrives(b: Build, h: Heap, s: bytes, broken: bool)
    ensures ReadFrame(b, h, Encode(Refusal().frame) + s, broken) == Got(Refusal().frame, s)
    ensures Refusal().frame.Received()
  {
    hide ReadFrame, Encode, IsFinal, MustResponse, HasHandle;
    assert Refusal().frame == Frame(RESULT, 0, NO_ITEMS);
    FrameRoundTrip(b, h, Refusal().frame, s, broken);
  }

  /** A query is linked and its frame sent, and the daemon takes up a frame that refuses it. */
  predicate AboutToRefuse(s: State, listener: bool) {
    && s.d == Walk(Some(Refusal()), 0, Look) && s.walked == [Refusal()]
    && s.reqs == [0] && s.calls == [FirstCall(Query, listener).(pc := WantLock)]
  }

  /** The query is refused and signalled, and the daemon is about to read back its `rv`. */
  lemma JudgesLate(r: Repairs, listener: bool) returns (from: State, s: State)
    requires !r.judgesFirst
    ensures Reachable(r, from) && AboutToRefuse(from, listener) && Leads(r, from, s)
    ensures Reachable(r, s) && !s.severed && |s.calls| == 1 && s.reqs == [0] && s.connected && s.outLock.Free?
    ensures s.d == Walk(Some(Refusal()), 0, Judge) && s.walked == [Refusal()] && s.reqsLock.Daemon?
    ensures s.calls[0] == FirstCall(Query, listener)
      .(pc := WantLock, ready := true, rv := ERROR_UNEXPECTED_FRAME, heard := [Refusal()])
    ensures !Refusal().final
  {
    hide Leads, Encode, HasHandle;
    from := OneDispatched(r, Query, listener, Frame(RESULT, 0, NO_ITEMS));
    TakesResponse(r, from, Refusal());
    var s2 := WithCall(from, 0, from.calls[0].(rv := ERROR_UNEXPECTED_FRAME, heard := [Refusal()]))
      .(d := Walk(Some(Refusal()), 0, Signal(true)));
    Works(r, from, s2, false);
    s := WorkDaemon(r, s2, false);
    Join(r, Init(r), from, s);
  }

  /** As written, the callback of a refused query reads `rv` from a request whose caller was
      woken and has returned. */
  lemma ReadsBack(r: Repairs) returns (s: State)
    requires !r.judgesFirst
    ensures Reachable(r, s) && !MemorySafe(s) && s.d.Walk? && s.d.stage.Judge?
    ensures WritesHeld(r, s) && SweepsWell(r, s)
  {
    hide Leads, Encode;
    var from, t := JudgesLate(r, false);
    s := WithCall(t, 0, t.calls[0].(pc := Returned(t.calls[0].rv)));
    Leaves(r, t, 0);
    Join(r, Init(r), t, s);
    assert Touches(s, 0);
  }

  /** The first three steps of the teardown on an unanswered one-shot request. */
  lemma SweepBegins(r: Repairs, s: State)
    requires s.d == Walk(Option.None, 0, Look) && s.reqs == [0] && |s.calls| == 1
    requires s.calls[0].handler.OneShotCb? && !s.calls[0].ready
    ensures var swept := WithCall(s, 0, s.calls[0].(rv := ERROR_CONNECTION_LOST));
      Leads(r, s, swept.(d := Walk(Option.None, 0, Signal(true))))
  {
    hide Leads, Encode, Taken, Current;
    Stay(r, s);
    Works(r, s, s, false);
    var s1 := WorkDaemon(r, s, false);
    Works(r, s, s1, false);
    var s2 := WorkDaemon(r, s1, false);
    Works(r, s, s2, false);
    var s3 := WorkDaemon(r, s2, false);
    assert s3.calls == s.calls[0 := s.calls[0].(rv := ERROR_CONNECTION_LOST)];
  }

  lemma SweepsOnce(r: Repairs, s: State)
    requires !r.sweepAdvances && s.d == Walk(Option.None, 0, Look) && s.reqs == [0] && |s.calls| == 1
    requires s.calls[0].handler.OneShotCb? && !s.calls[0].ready && s.calls[0].pc.WantLock?
    ensures Leads(r, s, WithCall(s, 0, s.calls[0].(rv := ERROR_CONNECTION_LOST, ready := true)))
  {
    hide Leads, Encode, Taken, Current;
    SweepBegins(r, s);
    var s3 := WithCall(s, 0, s.calls[0].(rv := ERROR_CONNECTION_LOST)).(d := Walk(Option.None, 0, Signal(true)));
    Works(r, s, s3, false);
    var s4 := WorkDaemon(r, s3, false);
    Works(r, s, s4, false);
    var s5 := WorkDaemon(r, s4, false);
    assert s5.calls == s.calls[0 := s.calls[0].(rv := ERROR_CONNECTION_LOST, ready := true)];
  }

  /** As written, the teardown goes back to a request whose caller was woken and has returned. */
  lemma SweepsAgain(r: Repairs) returns (s: State)
    requires !r.sweepAdvances
    ensures Reachable(r, s) && !MemorySafe(s) && s.d == Walk(Option.None, 0, Look)
    ensures WritesHeld(r, s) && StreamsLast(r, s)
  {
    hide Leads, Encode, Taken, Current;
    var s0 := Init(r);
    var s1 := OneRequest(r, Publish, false);
    TearsDown(r, s1);
    var s2 := s1.(d := Walk(Option.None, 0, Look), connected := false, reqsLock := Daemon);
    Join(r, s0, s1, s2);
    var s7 := WithCall(s2, 0, s2.calls[0].(rv := ERROR_CONNECTION_LOST, ready := true));
    SweepsOnce(r, s2);
    Join(r, s0, s2, s7);
    s := WithCall(s7, 0, s7.calls[0].(pc := Returned(s7.calls[0].rv)));
    Leaves(r, s7, 0);
    Join(r, s0, s7, s);
    assert Touches(s, 0);
  }

  lemma FailsToWrite(r: Repairs, s: State)
    requires !r.unlinksFailed && |s.calls| == 1 && s.calls[0].pc.WantOut? && s.calls[0].req.api.Publish?
        && s.outLock.Free?
    ensures Leads(r, s, s.(calls := [s.calls[0].(pc := AtReturn(Some(ERROR_CONNECTION_LOST)), refused := true)],
      cut := true, severed := true,
      connected := false))
  {
    hide Leads, Encode, Taken, Current;
    Stay(r, s);
    Moves(r, s, s, 0);
    var s1 := StepCall(r, s, 0);
    EncodeSomething(s.calls[0].req.frame);
    Then(r, s, s1, Fail(0, true));
    var s2 := Apply(r, s1, Fail(0, true));
    Moves(r, s, s2, 0);
    var s3 := StepCall(r, s2, 0);
    assert s3.calls == [s.calls[0].(pc := AtReturn(Some(ERROR_CONNECTION_LOST)), refused := true)];
  }

  /** As written, a call whose write failed returns with its request still on the list, and a
      daemon that has taken up a frame gets to it. */
  lemma LeavesLinked(r: Repairs) returns (s: State)
    requires !r.unlinksFailed
    ensures Reachable(r, s) && !MemorySafe(s) && s.reqs == [0] && |s.calls| == 1 && s.calls[0].pc.Returned?
    ensures SweepsWell(r, s) && StreamsLast(r, s)
  {
    hide Leads, Encode;
    var s0 := Init(r);
    var s1 := OneLinked(r, Publish, false);
    var f := Frame(RESULT, 0, NO_ITEMS);
    Dispatches(r, s1, f);
    var s2 := s1.(d := Walk(Some(Classify(f)), 0, Look), walked := s1.walked + [Classify(f)], reqsLock := Daemon);
    Join(r, s0, s1, s2);
    var s3 := s2.(calls := [s2.calls[0].(pc := AtReturn(Some(ERROR_CONNECTION_LOST)), refused := true)],
      cut := true, severed := true,
      connected := false);
    FailsToWrite(r, s2);
    Join(r, s0, s2, s3);
    Moves(r, s0, s3, 0);
    s := StepCall(r, s3, 0);
    assert Touches(s, 0);
  }

  /** Memory is safe in every run if and only if all three places are put right; each of the
      three parts of the guard is needed where its place is not. */
  lemma RequestsOutliveTheirUse(r: Repairs)
    ensures (forall s :: Reachable(r, s) ==> MemorySafe(s)) <==> r.judgesFirst && r.sweepAdvances && r.unlinksFailed
  {
    hide Reachable, MemorySafe;
    if r.judgesFirst && r.sweepAdvances && r.unlinksFailed {
      forall s | Reachable(r, s) ensures MemorySafe(s) {
        SafeWhileGuarded(r, s);
      }
    } else if !r.judgesFirst {
      var s := ReadsBack(r);
    } else if !r.sweepAdvances {
      var s := SweepsAgain(r);
    } else {
      var s := LeavesLinked(r);
    }
  }
}
