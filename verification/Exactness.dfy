/** What users are told: exactly what the frames dispatched since the request was linked call
    for, unless the daemon reads `rv` of a request that it has already signalled. */
module Exactness {
  import opened Frames
  import opened Codec
  import opened Protocol
  import opened Execution
  import opened Basics
  import opened Results
  import opened Numbers
  import opened Segments
  import opened Fitting
  import opened Lifetime
  import opened Streams
  import opened Delivery

  /** How many of the dispatched frames were the request's to hear. */
  function HeardUntil(s: State, call: Call): nat {
    if call.until.Some? then call.until.value else |s.walked|
  }

  /** The request has heard exactly the frames that were dispatched since it was linked, under
      its own sequence number, up to and including the one that ended it: none twice, none
      skipped, none out of order. Its user was told of every one behind the response, and of
      nothing else; one more invocation reports the lost connection, only under an open
      stream, and always once the daemon has exited with the stream open. The request is on
      the list for as long as there may be more to hear. */
  ghost predicate Exact(s: State, c: nat)
    requires c < |s.calls| && s.calls[c].since.Some?
  {
    var call := s.calls[c];
    && call.since.value <= HeardUntil(s, call) <= |s.walked|
    && call.heard == HeardOf(call.req, s.walked[call.since.value..HeardUntil(s, call)])
    && call.trace == TraceOf(call.req, call.heard, call.lost)
    && (call.lost ==> call.Open())
    && (s.d.Exited? && call.until.None? && c !in s.reqs && call.Open() ==> call.lost)
    && (call.until.None? && c !in s.reqs && !s.d.Exited? ==> call.req.Ends(call.heard))
    && (c in s.reqs ==> call.heard == [] || call.Open())
  }

  /** Whenever the daemon is not in the middle of a walk, delivery is exact, in every run of
      the code as written or put right in which no stream was refused, and in every run if
      callbacks read `rv` before they signal. */
  lemma DeliveryIsExact(r: Repairs, s: State, c: nat)
    requires Reachable(r, s) && Trusted(r, s) && c < |s.calls| && s.calls[c].since.Some? && !s.d.Walk?
    ensures Exact(s, c)
  {
    hide Reachable, HeardOf, TraceOf, Request.Ends, Trusted;
    DeliveryHolds(r, s);
    var call := s.calls[c];
    if c in s.reqs {
      var p :| 0 <= p < |s.reqs| && s.reqs[p] == c;
      assert HeardUpTo(s.walked, s.calls[s.reqs[p]], |s.walked|);
      assert Fits(r, s.d, p, s.calls[s.reqs[p]]);
    } else if call.until.None? {
      assert Left(s, call);
    } else {
      assert HeardUpTo(s.walked, call, call.until.value);
    }
  }

  // ---------- in terms of the frames themselves ----------

  /** bw2_subscribe, bw2_query and bw2_list. */
  predicate OpensStreams(api: Api) {
    api.Subscribe? || api.Query? || api.List?
  }

  /** Of the frames `ms` for the request, the one at `k` is the last that it hears: the response
      if it does not accept the request, a frame that says it is the last, or the one for which
      the user's callback returns true. */
  ghost predicate IsLast(req: Request, ms: seq<Reply>, k: nat)
    requires k < |ms|
  {
    || Finishes(ms[k].frame)
    || (k == 0 && !Accepts(ms[k].frame, req.api))
    || (k > 0 && req.listener && req.quit == Some(k - 1))
  }

  /** The frames with the number of the request that were dispatched in its time. */
  function FramesFor(s: State, call: Call): seq<Reply>
    requires call.since.Some? && call.since.value <= HeardUntil(s, call) <= |s.walked|
  {
    Matching(call.req.frame.seqno, s.walked[call.since.value..HeardUntil(s, call)])
  }

  lemma EndsAtLast(req: Request, ms: seq<Reply>, n: nat)
    requires n <= |ms| && OpensStreams(req.api) && forall f :: f in ms ==> f == Classify(f.frame)
    ensures req.Ends(ms[..n]) <==> exists k :: 0 <= k < n && IsLast(req, ms, k)
  {
    hide Classify, Finishes, Accepts, Request.Verdict;
    var heard := ms[..n];
    forall k | 0 <= k < n ensures heard[k] == ms[k] && (ms[k].final <==> Finishes(ms[k].frame)) {
      assert ms[k] in ms;
      FinalFinishes(ms[k].frame);
    }
    if n > 0 {
      VerdictExactly(req, ms[0].frame);
      assert ms[0] in ms;
      if k :| 0 <= k < n && IsLast(req, ms, k) {
        assert heard[k] == ms[k];
      }
      if req.Ends(heard) && !IsLast(req, ms, 0) {
        if k :| 0 <= k < n && heard[k].final {
          assert IsLast(req, ms, k);
        } else {
          assert IsLast(req, ms, req.quit.value + 1);
        }
      }
    }
  }

  lemma FinalFinishes(f: Frame)
    ensures Classify(f).final <==> Finishes(f)
  {
    hide IsFinal, Finishes, MustResponse, HasHandle;
    IsFinalExactly(f);
  }

  lemma FramesForAreClassified(r: Repairs, s: State, c: nat)
    requires Reachable(r, s) && c < |s.calls| && s.calls[c].since.Some?
    requires s.calls[c].since.value <= HeardUntil(s, s.calls[c]) <= |s.walked|
    ensures forall f :: f in FramesFor(s, s.calls[c]) ==>
              f in s.walked && f == Classify(f.frame) && f.frame.seqno == s.calls[c].req.frame.seqno
  {
    hide Reachable, Classify, Basic, Answers, LinkedBefore, Sourced, Matching;
    ResultsHold(r, s);
    NumberedHolds(r, s);
    var call := s.calls[c];
    var fs := s.walked[call.since.value..HeardUntil(s, call)];
    MatchingAreThere(call.req.frame.seqno, fs);
    forall f | f in FramesFor(s, call)
      ensures f in s.walked && f == Classify(f.frame) && f.frame.seqno == call.req.frame.seqno
    {
      assert f in fs;
      ClassifiesNumber(f.frame);
    }
  }

  /** The user of a stream is told of every frame behind the response that accepts the request,
      in order and once, up to the first that is the last; then of nothing but possibly the
      lost connection. */
  lemma UserIsTold(r: Repairs, s: State, c: nat) returns (n: nat)
    requires Reachable(r, s) && Trusted(r, s) && c < |s.calls| && s.calls[c].since.Some? && !s.d.Walk?
    requires OpensStreams(s.calls[c].req.api)
    ensures s.calls[c].since.value <= HeardUntil(s, s.calls[c]) <= |s.walked|
    ensures var call := s.calls[c]; var ms := FramesFor(s, call);
      && n <= |ms| && call.heard == ms[..n]
      && (forall k :: 0 <= k < n - 1 ==> !IsLast(call.req, ms, k))
      && (n == |ms| || (n > 0 && IsLast(call.req, ms, n - 1)))
      && (call.req.listener ==>
            call.trace == (if n == 0 then [] else Messages(ms[1..n])) + if call.lost then [Lost] else [])
  {
    hide Reachable, Trusted, IsLast, Request.Ends, HeardOf, Matching, Request.Seqno;
    DeliveryIsExact(r, s, c);
    NumberedHolds(r, s);
    var call := s.calls[c];
    var ms := FramesFor(s, call);
    FramesForAreClassified(r, s, c);
    n := HeardIsPrefix(call.req, s.walked[call.since.value..HeardUntil(s, call)]);
    EndsAtLast(call.req, ms, n);
    if n > 0 {
      EndsAtLast(call.req, ms, n - 1);
      assert ms[..n][1..] == ms[1..n];
    }
  }

  /** Every other request hears its first frame only, and its user is told nothing. */
  lemma OthersHearOnce(r: Repairs, s: State, c: nat)
    requires Reachable(r, s) && Trusted(r, s) && c < |s.calls| && s.calls[c].since.Some? && !s.d.Walk?
    requires !OpensStreams(s.calls[c].req.api)
    ensures s.calls[c].since.value <= HeardUntil(s, s.calls[c]) <= |s.walked|
    ensures var call := s.calls[c]; var ms := FramesFor(s, call);
      call.trace == [] && call.heard == if ms == [] then [] else [ms[0]]
  {
    hide Reachable, Trusted, Request.Ends, HeardOf, Matching, Request.Seqno;
    DeliveryIsExact(r, s, c);
    NumberedHolds(r, s);
    var call := s.calls[c];
    var ms := FramesFor(s, call);
    var n := HeardIsPrefix(call.req, s.walked[call.since.value..HeardUntil(s, call)]);
    if ms != [] {
      StreamsOpen(call.req, ms[0]);
      assert ms[..1] == [ms[0]] && ms[..0] == [];
    }
  }

  /** As written, the daemon may read back 0 from a refused query whose caller has returned,
      and keep it on the list. */
  lemma StaysListed(r: Repairs) returns (from: State, s: State)
    requires !r.judgesFirst
    ensures Reachable(r, from) && AboutToRefuse(from, true) && Leads(r, from, s)
    ensures |s.calls| == 1 && s.reqs == [0] && s.connected && s.d == Walk(Some(Refusal()), 1, Look)
    ensures s.walked == [Refusal()] && !Refusal().final
    ensures s.calls[0] == FirstCall(Query, true)
      .(pc := Returned(ERROR_UNEXPECTED_FRAME), ready := true, rv := ERROR_UNEXPECTED_FRAME, heard := [Refusal()])
  {
    hide Leads, Encode, Refusal, Classify;
    var t;
    from, t := JudgesLate(r, true);
    var s1 := WithCall(t, 0, t.calls[0].(pc := Returned(t.calls[0].rv)));
    Leaves(r, t, 0);
    Join(r, from, t, s1);
    RefusalRefuses(s1.calls[0].req);
    KeepsRefused(r, s1);
    s := s1.(d := Walk(Some(Refusal()), 1, Look));
    Join(r, from, s1, s);
  }

  /** The memory the daemon reads back happens to hold 0. */
  lemma KeepsRefused(r: Repairs, s: State)
    requires s.d.Walk? && s.d.got.Some? && !s.d.got.value.final && s.d.i == 0 && s.d.stage.Judge? && s.reqs == [0]
    requires |s.calls| == 1 && s.calls[0].Gone()
    ensures Leads(r, s, s.(d := Walk(s.d.got, 1, Look)))
  {
    hide Leads;
    Stay(r, s);
    Works(r, s, s, false);
    var s1 := WorkDaemon(r, s, false);
    Works(r, s, s1, false);
    assert WorkDaemon(r, s1, false).calls == s.calls;
  }

  lemma RefusalRefuses(req: Request)
    ensures req.Verdict(Refusal()) == ERROR_UNEXPECTED_FRAME && req.Ends([Refusal()])
  {
    assert [Refusal()][0] == Refusal();
  }

  /** The daemon takes a frame for the open stream at the head of the list, up to the callback. */
  lemma TakesFrame(r: Repairs, s: State, f: Frame)
    requires s.d.AtRead? && s.reqsLock.Free? && s.connected && s.reqs == [0] && |s.calls| == 1
    requires s.calls[0].handler.StreamCb? && s.calls[0].ready && !HoldsOwn(s.calls[0].pc)
    requires s.calls[0].req.Seqno() == Classify(f).seqno && f.Received()
    ensures Leads(r, s, WithCall(s, 0, s.calls[0].(rv := 0))
      .(d := Walk(Some(Classify(f)), 0, Deliver), walked := s.walked + [Classify(f)], reqsLock := Daemon))
  {
    hide Leads, Encode, Classify;
    Dispatches(r, s, f);
    var s2 := s.(d := Walk(Some(Classify(f)), 0, Look), walked := s.walked + [Classify(f)], reqsLock := Daemon);
    Works(r, s, s2, false);
    var s3 := WorkDaemon(r, s2, false);
    Works(r, s, s3, false);
    assert WorkDaemon(r, s3, false).calls == s.calls[0 := s.calls[0].(rv := 0)];
  }

  function Heard(call: Call, f: Reply): Call {
    call.(heard := call.heard + [f], trace := call.trace + [Message(f)])
  }

  /** From the callback back to reading, if the frame was not final and the user goes on. */
  lemma PassesFrame(r: Repairs, s: State, f: Reply)
    requires s.d == Walk(Some(f), 0, Deliver) && s.reqs == [0] && |s.calls| == 1 && !f.final
    requires s.calls[0].req.quit.None? && s.calls[0].req.listener
    ensures Leads(r, s, WithCall(s, 0, Heard(s.calls[0], f)).(d := AtRead, reqsLock := Free))
  {
    hide Leads;
    Stay(r, s);
    Works(r, s, s, false);
    var s2 := WorkDaemon(r, s, false);
    Works(r, s, s2, false);
    var s3 := WorkDaemon(r, s2, false);
    Works(r, s, s3, false);
    var s4 := WorkDaemon(r, s3, false);
    assert s4.calls == s.calls[0 := Heard(s.calls[0], f)];
  }

  /** Its user is then told of the next frame as if the query had been accepted. */
  lemma ToldAfterRefusal(r: Repairs) returns (s: State)
    requires !r.judgesFirst
    ensures Reachable(r, s) && |s.calls| == 1 && s.calls[0].since.Some? && !s.d.Walk? && !Exact(s, 0)
    ensures s.calls[0].pc == Returned(ERROR_UNEXPECTED_FRAME) && s.calls[0].trace == [Message(Refusal())]
  {
    hide Leads, Encode, Classify, Refusal;
    var from, s0 := StaysListed(r);
    Join(r, Init(r), from, s0);
    Works(r, Init(r), s0, false);
    var s1 := WorkDaemon(r, s0, false);
    var f := Frame(RESULT, 0, NO_ITEMS);
    IsRefusal();
    TakesFrame(r, s1, f);
    var s2 := WithCall(s1, 0, s1.calls[0].(rv := 0))
      .(d := Walk(Some(Classify(f)), 0, Deliver), walked := s1.walked + [Classify(f)], reqsLock := Daemon);
    Join(r, Init(r), s1, s2);
    PassesFrame(r, s2, Refusal());
    s := WithCall(s2, 0, Heard(s2.calls[0], Refusal())).(d := AtRead, reqsLock := Free);
    Join(r, Init(r), s2, s);
    RefusalRefuses(s.calls[0].req);
    NotExact(s);
  }

  /** A refused request that has heard two frames has heard too much. */
  lemma NotExact(s: State)
    requires |s.calls| == 1 && s.calls[0].since.Some? && |s.calls[0].heard| == 2
    requires s.calls[0].req.Verdict(s.calls[0].heard[0]) != 0
    ensures !Exact(s, 0)
  {
    hide HeardOf, TraceOf, Request.Ends, Request.Verdict;
    if Exact(s, 0) {
      RefusalIsAll(s.calls[0].req, s.walked[s.calls[0].since.value..HeardUntil(s, s.calls[0])]);
    }
  }

  lemma IsRefusal()
    ensures Refusal() == Classify(Frame(RESULT, 0, NO_ITEMS)) && Refusal().seqno == 0
  {
  }

  /** Delivery is exact in all runs if and only if callbacks read `rv` before they signal. */
  lemma DeliveryIsExactExactly(r: Repairs)
    ensures (forall s, c :: Reachable(r, s) && 0 <= c < |s.calls| && s.calls[c].since.Some? && !s.d.Walk? ==>
               Exact(s, c)) <==> r.judgesFirst
  {
    hide Reachable, Exact;
    if r.judgesFirst {
      forall s, c | Reachable(r, s) && 0 <= c < |s.calls| && s.calls[c].since.Some? && !s.d.Walk? ensures Exact(s, c) {
        DeliveryIsExact(r, s, c);
      }
    } else {
      var s := ToldAfterRefusal(r);
      assert s.calls[0].since.Some?;
    }
  }

  lemma {:induction false} RefusalIsAll(req: Request, fs: seq<Reply>)
    ensures var heard := HeardOf(req, fs); heard != [] && req.Verdict(heard[0]) != 0 ==> |heard| == 1
  {
    if fs != [] {
      RefusalIsAll(req, fs[..|fs| - 1]);
    }
  }

  /** At every stage there is a number of frames up to which a request has heard everything. */
  lemma HasHeard(r: Repairs, s: State, c: nat) returns (n: int)
    requires Basic(r, s) && Delivered(r, s) && c < |s.calls| && s.calls[c].heard != []
    ensures HeardUpTo(s.walked, s.calls[c], n)
  {
    hide HeardUpTo, Locks, Progress;
    if s.calls[c].until.Some? {
      n := s.calls[c].until.value;
    } else if p :| 0 <= p < |s.reqs| && s.reqs[p] == c {
      n := |s.walked| - if Behind(s.d, p) then 1 else 0;
    } else {
      n := |s.walked|;
      assert c !in s.reqs;
      assert Left(s, s.calls[c]);
    }
  }

  /** A user whose request was refused is told nothing. */
  lemma RefusedIsSilent(r: Repairs, s: State, c: nat)
    requires r.judgesFirst && Reachable(r, s)
    requires c < |s.calls| && s.calls[c].heard != [] && s.calls[c].req.Verdict(s.calls[c].heard[0]) != 0
    ensures s.calls[c].trace == [] && !s.calls[c].lost
  {
    hide Reachable, HeardOf, HeardUpTo, Basic, Leavings, Withdrawals, Hearings;
    DeliveryHolds(r, s);
    BasicLists(r, s);
    HeardAlone(r, s, c);
    EndedIsLeftAlone(r, s, c);
  }

  lemma EndedIsLeftAlone(r: Repairs, s: State, c: nat)
    requires Listed(s) && AllFit(r, s) && c < |s.calls|
    requires s.calls[c].heard != [] && s.calls[c].req.Ends(s.calls[c].heard)
    ensures !Harried(r, s, c)
  {
    hide Waiting, Under, Swept, Request.Ends;
    if s.reqs != [] {
      assert Fits(r, s.d, 0, s.calls[s.reqs[0]]);
    }
  }

  lemma HeardAlone(r: Repairs, s: State, c: nat)
    requires Basic(r, s) && Delivered(r, s)
    requires c < |s.calls| && s.calls[c].heard != [] && s.calls[c].req.Verdict(s.calls[c].heard[0]) != 0
    ensures |s.calls[c].heard| == 1 && s.calls[c].req.Ends(s.calls[c].heard)
  {
    hide HeardOf, Basic, Delivered;
    var n := HasHeard(r, s, c);
    RefusalIsAll(s.calls[c].req, s.walked[s.calls[c].since.value..n]);
  }
}
