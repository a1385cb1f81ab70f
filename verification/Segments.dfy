/** Stretches of runs in which one thread moves and the others stand still. */
module Segments {
  import opened Frames
  import opened Codec
  import opened Arrays
  import opened Protocol
  import opened Execution

  function WithCall(s: State, c: nat, call: Call): State
    requires c < |s.calls|
  {
    s.(calls := s.calls[c := call])
  }

  lemma Moves(r: Repairs, s: State, t: State, c: nat)
    requires Leads(r, s, t) && c < |t.calls| && CanStep(t, c)
    ensures Leads(r, s, StepCall(r, t, c))
  {
    hide StepCall, CanStep, Leads;
    Then(r, s, t, Step(c));
  }

  lemma Works(r: Repairs, s: State, t: State, stale: bool)
    requires Leads(r, s, t) && CanWork(t)
    ensures Leads(r, s, WorkDaemon(r, t, stale))
  {
    hide WorkDaemon, CanWork, Leads;
    Then(r, s, t, Work(stale));
  }

  /** From its first lock to the socket. */
  lemma Links(r: Repairs, s: State, c: nat)
    requires c < |s.calls| && s.calls[c].pc.WantReqs? && s.connected && s.reqsLock.Free?
    ensures Leads(r, s, WithCall(s, c, s.calls[c].(pc := WantOut, since := Some(|s.walked|))).(reqs := [c] + s.reqs))
  {
    hide Leads, Encode;
    Stay(r, s);
    var a := StepCall(r, s, c);
    Moves(r, s, s, c);
    var b := StepCall(r, a, c);
    Moves(r, s, a, c);
    var d := StepCall(r, b, c);
    Moves(r, s, b, c);
    var e := StepCall(r, d, c);
    Moves(r, s, d, c);
    assert e.calls == s.calls[c := s.calls[c].(pc := WantOut, since := Some(|s.walked|))];
  }

  /** From its first lock back out, when the connection is closed. */
  lemma Refuses(r: Repairs, s: State, c: nat)
    requires c < |s.calls| && s.calls[c].pc.WantReqs? && !s.connected && s.reqsLock.Free?
    ensures Leads(r, s, WithCall(s, c, s.calls[c].(pc := AfterFailure(r, s.calls[c].req.api), refused := true)))
  {
    hide Leads, Encode, AfterFailure;
    Stay(r, s);
    Moves(r, s, s, c);
    var a := StepCall(r, s, c);
    Moves(r, s, a, c);
    var b := StepCall(r, a, c);
    Moves(r, s, b, c);
    var d := StepCall(r, b, c);
    assert d.calls == s.calls[c := s.calls[c].(pc := AfterFailure(r, s.calls[c].req.api), refused := true)];
  }

  lemma EncodeSomething(f: Frame)
    ensures |Encode(f)| > 0
  {
  }

  /** There is always an array to go on with. */
  lemma SomethingToSend(call: Call)
    requires call.pc.Writing? && call.pc.n < |Encode(call.req.frame)|
    ensures call.pc.n < Current(call).1 <= |Encode(call.req.frame)|
  {
    hide Encode, FrameArrays;
    FrameArraysConcat(call.req.frame);
  }

  /** The state after `s` in which the call has sent its frame up to `n`. */
  function SentUpTo(s: State, c: nat, n: nat): State
    requires c < |s.calls| && s.calls[c].pc.Writing? && s.calls[c].pc.n <= n <= |Encode(s.calls[c].req.frame)|
  {
    WithCall(s, c, s.calls[c].(pc := Writing(n))).(sent := s.sent + Encode(s.calls[c].req.frame)[s.calls[c].pc.n..n])
  }

  lemma SentNothing(s: State, c: nat)
    requires c < |s.calls| && s.calls[c].pc.Writing? && s.calls[c].pc.n <= |Encode(s.calls[c].req.frame)|
    ensures SentUpTo(s, c, s.calls[c].pc.n) == s
  {
    hide Encode;
    var t := SentUpTo(s, c, s.calls[c].pc.n);
    assert t.calls == s.calls && t.sent == s.sent;
  }

  lemma SentTwice(s: State, c: nat, m: nat, n: nat)
    requires c < |s.calls| && s.calls[c].pc.Writing? && s.calls[c].pc.n <= m <= n <= |Encode(s.calls[c].req.frame)|
    ensures var t := SentUpTo(s, c, m);
      && |t.calls| == |s.calls| && t.calls[c].req == s.calls[c].req && t.calls[c].pc == Writing(m)
      && SentUpTo(t, c, n) == SentUpTo(s, c, n)
  {
    hide Encode;
    var e, k := Encode(s.calls[c].req.frame), s.calls[c].pc.n;
    assert e[k..m] + e[m..n] == e[k..n];
    var t, u := SentUpTo(SentUpTo(s, c, m), c, n), SentUpTo(s, c, n);
    assert t.calls == u.calls && t.sent == u.sent;
  }

  /** One array in one send. */
  lemma SendsArray(r: Repairs, s: State, c: nat)
    requires c < |s.calls| && s.calls[c].pc.Writing? && s.calls[c].pc.n < |Encode(s.calls[c].req.frame)|
    requires Current(s.calls[c]).0 == s.calls[c].pc.n
    ensures Current(s.calls[c]).1 <= |Encode(s.calls[c].req.frame)|
    ensures var t := SentUpTo(s, c, Current(s.calls[c]).1); Leads(r, s, t) && Current(t.calls[c]).0 == t.calls[c].pc.n
  {
    hide Leads, Encode, FrameArrays, ArrayAt;
    var call := s.calls[c];
    SomethingToSend(call);
    FrameArraysConcat(call.req.frame);
    NextArray(FrameArrays(call.req.frame), call.pc.n);
    Stay(r, s);
    Then(r, s, s, Send(c, Current(call).1 - call.pc.n));
  }

  /** The rest of a frame, one send for each array. */
  lemma {:induction false} SendsRest(r: Repairs, s: State, c: nat)
    requires c < |s.calls| && s.calls[c].pc.Writing? && s.calls[c].pc.n <= |Encode(s.calls[c].req.frame)|
    requires Current(s.calls[c]).0 == s.calls[c].pc.n
    ensures Leads(r, s, SentUpTo(s, c, |Encode(s.calls[c].req.frame)|))
    decreases |Encode(s.calls[c].req.frame)| - s.calls[c].pc.n
  {
    hide Leads, Encode, Current, SentUpTo;
    var e, n := Encode(s.calls[c].req.frame), s.calls[c].pc.n;
    if n == |e| {
      Stay(r, s);
      SentNothing(s, c);
    } else {
      SomethingToSend(s.calls[c]);
      var end := Current(s.calls[c]).1;
      SendsArray(r, s, c);
      var s1 := SentUpTo(s, c, end);
      SentTwice(s, c, end, |e|);
      SendsRest(r, s1, c);
      Join(r, s, s1, SentUpTo(s1, c, |e|));
    }
  }

  /** One frame, sent whole, by a caller nobody is in the way of. */
  lemma Writes(r: Repairs, s: State, c: nat)
    requires c < |s.calls| && s.calls[c].pc.WantOut? && s.outLock.Free?
    ensures Leads(r, s, WithCall(s, c, s.calls[c].(pc := WantLock))
      .(sent := s.sent + Encode(s.calls[c].req.frame), order := s.order + [c]))
  {
    hide Leads, Encode, FrameArrays, ArrayAt;
    var e := Encode(s.calls[c].req.frame);
    Stay(r, s);
    Moves(r, s, s, c);
    var s1 := StepCall(r, s, c);
    FirstArray(FrameArrays(s.calls[c].req.frame));
    SendsRest(r, s1, c);
    var s2 := SentUpTo(s1, c, |e|);
    Join(r, s, s1, s2);
    assert e[0..|e|] == e;
    Moves(r, s, s2, c);
    var s3 := StepCall(r, s2, c);
    Moves(r, s, s3, c);
    var s4 := StepCall(r, s3, c);
    assert s4.calls == s.calls[c := s.calls[c].(pc := WantLock)];
  }

  /** A caller whose request has not been signalled goes to sleep. */
  lemma Parks(r: Repairs, s: State, c: nat)
    requires c < |s.calls| && s.calls[c].pc.WantLock? && !s.calls[c].ready
    ensures Leads(r, s, WithCall(s, c, s.calls[c].(pc := Parked(false))))
  {
    hide Leads, Encode;
    Stay(r, s);
    Moves(r, s, s, c);
    var s1 := StepCall(r, s, c);
    Moves(r, s, s1, c);
    var s2 := StepCall(r, s1, c);
    Moves(r, s, s2, c);
    var s3 := StepCall(r, s2, c);
    assert s3.calls == s.calls[c := s.calls[c].(pc := Parked(false))];
  }

  /** A caller whose request has been signalled returns what the request holds. */
  lemma Leaves(r: Repairs, s: State, c: nat)
    requires c < |s.calls| && s.calls[c].pc.WantLock? && s.calls[c].ready
    ensures Leads(r, s, WithCall(s, c, s.calls[c].(pc := Returned(s.calls[c].rv))))
  {
    hide Leads, Encode;
    Stay(r, s);
    Moves(r, s, s, c);
    var s1 := StepCall(r, s, c);
    Moves(r, s, s1, c);
    var s2 := StepCall(r, s1, c);
    Moves(r, s, s2, c);
    var s3 := StepCall(r, s2, c);
    Moves(r, s, s3, c);
    var s4 := StepCall(r, s3, c);
    assert s4.calls == s.calls[c := s.calls[c].(pc := Returned(s.calls[c].rv))];
  }

  /** The daemon finds the connection closed, up to the head of its teardown loop. */
  lemma TearsDown(r: Repairs, s: State)
    requires s.d.AtRead? && s.reqsLock.Free? && s.outLock.Free?
    ensures Leads(r, s, s.(d := Walk(Option.None, 0, Look), connected := false, reqsLock := Daemon))
  {
    hide Leads, Encode;
    Stay(r, s);
    Then(r, s, s, Read(Option.None));
    var s1 := Apply(r, s, Read(Option.None));
    Works(r, s, s1, false);
    var s2 := WorkDaemon(r, s1, false);
    Works(r, s, s2, false);
    var s3 := WorkDaemon(r, s2, false);
    Works(r, s, s3, false);
    var s4 := WorkDaemon(r, s3, false);
    Works(r, s, s4, false);
    var s5 := WorkDaemon(r, s4, false);
    Works(r, s, s5, false);
    var s6 := WorkDaemon(r, s5, false);
    assert s6 == s.(d := Walk(Option.None, 0, Look), connected := false, reqsLock := Daemon);
  }

  /** With nothing on the list the daemon then exits. */
  lemma Exits(r: Repairs, s: State)
    requires s.d.AtRead? && s.reqsLock.Free? && s.outLock.Free? && s.reqs == []
    ensures Leads(r, s, s.(d := Exited, connected := false))
  {
    hide Leads, Encode;
    TearsDown(r, s);
    var t := s.(d := Walk(Option.None, 0, Look), connected := false, reqsLock := Daemon);
    Works(r, s, t, false);
  }

  /** The daemon takes a frame into its dispatch loop. */
  lemma Dispatches(r: Repairs, s: State, f: Frame)
    requires s.d.AtRead? && s.reqsLock.Free? && s.connected && f.Received()
    ensures Leads(r, s, s.(d := Walk(Some(Classify(f)), 0, Look), walked := s.walked + [Classify(f)],
      reqsLock := Daemon))
  {
    hide Leads, Encode, IsFinal, MustResponse, HasHandle;
    var got := Some(Classify(f));
    Stay(r, s);
    Then(r, s, s, Read(got));
    var s1 := Apply(r, s, Read(got));
    Works(r, s, s1, false);
    var s2 := WorkDaemon(r, s1, false);
    Works(r, s, s2, false);
  }

  /** The connection is up, nothing else has happened. */
  function Fresh(): State {
    State(true, false, Free, Free, [], [], 0, AtRead, [], [], [], false, false, false)
  }

  lemma FreshIsReachable(r: Repairs)
    ensures Reachable(r, Fresh())
  {
    hide Leads;
    Stay(r, Init(r));
    if !r.connectFirst {
      Then(r, Init(r), Init(r), Connected);
    }
  }

  function Asking(api: Api, listener: bool, s: State): Request {
    Request(api, listener, Option.None, s.draws, Frame(Command(api), SeqNo(s.draws), NO_ITEMS))
  }

  lemma Begins(r: Repairs, s: State, req: Request, junk: int)
    requires req.drawn == s.draws && req.Sendable()
    ensures Leads(r, s, s.(draws := s.draws + 1, calls := s.calls + [NewCall(req, junk)]))
  {
    hide Leads;
    Stay(r, s);
    Then(r, s, s, Begin(req, junk));
  }

  /** One request of the given kind, linked, and its caller about to write it. */
  function FirstCall(api: Api, listener: bool): Call {
    NewCall(Asking(api, listener, Fresh()), 0).(pc := WantOut, since := Some(0))
  }

  lemma OneLinked(r: Repairs, api: Api, listener: bool) returns (s: State)
    ensures Reachable(r, s) && s == Fresh().(draws := 1, calls := [FirstCall(api, listener)], reqs := [0])
  {
    hide Leads, Encode;
    var s0 := Init(r);
    FreshIsReachable(r);
    var req := Asking(api, listener, Fresh());
    Begins(r, Fresh(), req, 0);
    var s1 := Fresh().(draws := Fresh().draws + 1, calls := Fresh().calls + [NewCall(req, 0)]);
    Join(r, s0, Fresh(), s1);
    Links(r, s1, 0);
    s := WithCall(s1, 0, s1.calls[0].(pc := WantOut, since := Some(|s1.walked|))).(reqs := [0] + s1.reqs);
    Join(r, s0, s1, s);
    assert s.calls == [FirstCall(api, listener)] && s.reqs == [0];
  }

  /** The same with the frame written, and the caller about to wait. */
  lemma OneRequest(r: Repairs, api: Api, listener: bool) returns (s: State)
    ensures Reachable(r, s)
    ensures s == Fresh().(draws := 1, calls := [FirstCall(api, listener).(pc := WantLock)], reqs := [0],
                          sent := Encode(FirstCall(api, listener).req.frame), order := [0])
  {
    hide Leads, Encode;
    var s1 := OneLinked(r, api, listener);
    Writes(r, s1, 0);
    s := WithCall(s1, 0, s1.calls[0].(pc := WantLock))
      .(sent := s1.sent + Encode(s1.calls[0].req.frame), order := s1.order + [0]);
    Join(r, Init(r), s1, s);
    assert s.calls == [FirstCall(api, listener).(pc := WantLock)];
    assert s.order == [0] && s.sent == Encode(s1.calls[0].req.frame);
  }

  /** The same with a frame taken up by the daemon. */
  lemma OneDispatched(r: Repairs, api: Api, listener: bool, f: Frame) returns (s: State)
    requires f.Received()
    ensures Reachable(r, s)
    ensures s == Fresh().(draws := 1, calls := [FirstCall(api, listener).(pc := WantLock)], reqs := [0],
                          sent := Encode(FirstCall(api, listener).req.frame), order := [0],
                          d := Walk(Some(Classify(f)), 0, Look), walked := [Classify(f)], reqsLock := Daemon)
  {
    hide Leads, Encode, Classify;
    var s1 := OneRequest(r, api, listener);
    Dispatches(r, s1, f);
    s := s1.(d := Walk(Some(Classify(f)), 0, Look), walked := s1.walked + [Classify(f)], reqsLock := Daemon);
    Join(r, Init(r), s1, s);
    assert s.walked == [Classify(f)];
  }

  /** The daemon takes a frame for the response of a stream, up to the signal. */
  lemma TakesResponse(r: Repairs, s: State, f: Reply)
    requires s.d == Walk(Some(f), 0, Look) && s.reqs == [0] && |s.calls| == 1
    requires s.calls[0].handler.StreamCb? && !s.calls[0].ready && s.calls[0].heard == []
    requires s.calls[0].req.Seqno() == f.seqno && !HoldsOwn(s.calls[0].pc)
    ensures var v := s.calls[0].req.Verdict(f);
      Leads(r, s, WithCall(s, 0, s.calls[0].(rv := v, heard := [f])).(d := Walk(Some(f), 0, Signal(v != 0))))
  {
    hide Leads;
    Stay(r, s);
    Works(r, s, s, false);
    var s1 := WorkDaemon(r, s, false);
    Works(r, s, s1, false);
    var s2 := WorkDaemon(r, s1, false);
    Works(r, s, s2, false);
    var s3 := WorkDaemon(r, s2, false);
    assert s.calls[0].heard + [f] == [f];
    assert s3.calls == s.calls[0 := s.calls[0].(rv := s.calls[0].req.Verdict(f), heard := [f])];
  }
}
