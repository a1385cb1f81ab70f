/** Delivery is exact: in every reachable state each request has heard, and its user has been
    told, precisely what the frames dispatched since its link call for. */
module Delivery {
  import opened Frames
  import opened Codec
  import opened Protocol
  import opened Execution
  import opened Sublists
  import opened Basics
  import opened Ending
  import opened Results
  import opened Fitting
  import opened Streams

  /** The frame being dispatched has yet to reach the request at position `p`. */
  predicate Behind(d: DaemonPc, p: nat) {
    && d.Walk? && d.got.Some?
    && (p > d.i || (p == d.i && (d.stage.Look? || d.stage.Run? || d.stage.Deliver? || d.stage.Respond?)))
  }

  /** The request has heard what it was to hear of the first `n` dispatched frames. */
  predicate HeardUpTo(walked: seq<Reply>, call: Call, n: int) {
    && call.since.Some? && call.since.value <= n <= |walked|
    && call.heard == HeardOf(call.req, walked[call.since.value..n])
  }

  predicate UserTold(call: Call) {
    && call.trace == TraceOf(call.req, call.heard, call.lost)
    && (call.lost ==> call.Open())
  }

  /** A linked request that has left the list has nothing more to hear, or the daemon is gone
      and an open stream has been told. */
  predicate Left(s: State, call: Call) {
    HeardUpTo(s.walked, call, |s.walked|) && (call.req.Ends(call.heard) || (s.d.Exited? && (call.Open() ==> call.lost)))
  }

  /** The teardown as written goes over its first request for ever; what its user is told in
      the meantime is not accounted for. */
  predicate Harried(r: Repairs, s: State, c: nat) {
    Suspended(r, s.d) && s.reqs != [] && c == s.reqs[0]
  }

  ghost predicate Tellings(r: Repairs, s: State) {
    forall c :: 0 <= c < |s.calls| && !Harried(r, s, c) ==> UserTold(s.calls[c])
  }

  ghost predicate Leavings(s: State) {
    forall c :: 0 <= c < |s.calls| && Linked(s.calls[c]) && c !in s.reqs ==> Left(s, s.calls[c])
  }

  ghost predicate Withdrawals(s: State) {
    forall c :: 0 <= c < |s.calls| && s.calls[c].until.Some? ==> HeardUpTo(s.walked, s.calls[c], s.calls[c].until.value)
  }

  ghost predicate Hearings(s: State) {
    forall p :: 0 <= p < |s.reqs| && s.reqs[p] < |s.calls| ==>
      HeardUpTo(s.walked, s.calls[s.reqs[p]], |s.walked| - if Behind(s.d, p) then 1 else 0)
  }

  ghost predicate Delivered(r: Repairs, s: State) {
    Tellings(r, s) && Leavings(s) && Withdrawals(s) && Hearings(s)
  }

  // ---------- one request ----------

  lemma HeardLater(walked: seq<Reply>, f: Reply, call: Call, n: int)
    requires HeardUpTo(walked, call, n)
    ensures HeardUpTo(walked + [f], call, n)
  {
    assert (walked + [f])[call.since.value..n] == walked[call.since.value..n];
  }

  /** A dispatched frame that the request has not heard, because it does not match or because
      nothing more is to be heard, makes no difference. */
  lemma HeardPast(walked: seq<Reply>, call: Call)
    requires walked != [] && HeardUpTo(walked, call, |walked| - 1)
    requires call.req.Ends(call.heard) || !Hit(call, Some(walked[|walked| - 1]))
    ensures HeardUpTo(walked, call, |walked|)
  {
    hide Request.Ends;
    var a := call.since.value;
    assert walked[a..|walked|] == walked[a..|walked| - 1] + [walked[|walked| - 1]];
    HeardNext(call.req, walked[a..|walked| - 1], walked[|walked| - 1]);
  }

  lemma HearsOneMore(walked: seq<Reply>, call: Call, call': Call)
    requires walked != [] && HeardUpTo(walked, call, |walked| - 1)
    requires !call.req.Ends(call.heard) && Hit(call, Some(walked[|walked| - 1]))
    requires call'.req == call.req && call'.since == call.since && call'.heard == call.heard + [walked[|walked| - 1]]
    ensures HeardUpTo(walked, call', |walked|)
  {
    hide Request.Ends;
    var a := call.since.value;
    assert walked[a..|walked|] == walked[a..|walked| - 1] + [walked[|walked| - 1]];
    HeardNext(call.req, walked[a..|walked| - 1], walked[|walked| - 1]);
  }

  lemma SameHeard(walked: seq<Reply>, call: Call, call': Call, n: int)
    requires call'.req == call.req && call'.since == call.since && call'.heard == call.heard
    ensures HeardUpTo(walked, call', n) == HeardUpTo(walked, call, n)
  {
  }

  lemma TreatHeard(call: Call, got: Option<Reply>, stage: Stage)
    ensures var call' := Treat(call, got, stage);
      && call'.req == call.req && call'.since == call.since
      && call'.heard == call.heard + if got.Some? && (stage.Deliver? || stage.Respond?) then [got.value] else []
  {
    assert call.heard + [] == call.heard;
  }

  lemma WaitsToHear(r: Repairs, call: Call, got: Option<Reply>, stage: Stage)
    requires Under(r, call, got, stage) && (stage.Deliver? || stage.Respond?)
    ensures !call.req.Ends(call.heard)
  {
  }

  lemma TreatHears(r: Repairs, walked: seq<Reply>, call: Call, got: Option<Reply>, stage: Stage)
    requires got.Some? ==> Under(r, call, got, stage)
    requires got.Some? ==> Hit(call, got) && walked != [] && walked[|walked| - 1] == got.value
    requires HeardUpTo(walked, call, |walked| - if Behind(Walk(got, 0, stage), 0) then 1 else 0)
    ensures var behind := Behind(Walk(got, 0, stage), 0) && !stage.Deliver? && !stage.Respond?;
      HeardUpTo(walked, Treat(call, got, stage), |walked| - if behind then 1 else 0)
  {
    hide Request.Ends, HeardUpTo, Under, Treat, Hit;
    TreatHeard(call, got, stage);
    if got.Some? && (stage.Deliver? || stage.Respond?) {
      WaitsToHear(r, call, got, stage);
      HearsOneMore(walked, call, Treat(call, got, stage));
    } else {
      assert call.heard + [] == call.heard;
      SameHeard(walked, call, Treat(call, got, stage), |walked| - if Behind(Walk(got, 0, stage), 0) then 1 else 0);
    }
  }

  lemma TreatTells(r: Repairs, call: Call, got: Option<Reply>, stage: Stage)
    requires Under(r, call, got, stage) && UserTold(call)
    ensures UserTold(Treat(call, got, stage))
  {
    hide Request.Ends;
    if stage.Deliver? && got.Some? {
      assert (call.heard + [got.value])[1..] == call.heard[1..] + [got.value];
      assert Messages(call.heard[1..] + [got.value]) == Messages(call.heard[1..]) + [Message(got.value)];
    }
    if stage.Respond? && got.Some? {
      assert [got.value][1..] == [];
    }
  }

  // ---------- the daemon's steps ----------

  lemma WorkTells(r: Repairs, s: State, stale: bool)
    requires Listed(s) && AllFit(r, s) && Anchored(r, s) && Tellings(r, s)
    requires CanWork(s) && s.d.Walk? && s.d.i < |s.reqs|
    ensures Tellings(r, WorkDaemon(r, s, stale))
  {
    hide WorkDaemon, Treat, NextStage, Hit, UserTold, Under, CanWork, Waiting, Swept, Unended, Distinct;
    WalkStep(r, s, stale);
    var c := s.reqs[s.d.i];
    if !Suspended(r, s.d) {
      assert Fits(r, s.d, s.d.i, s.calls[c]);
      TreatTells(r, s.calls[c], s.d.got, s.d.stage);
    }
  }

  /** Taking up a frame leaves every request as far as it was. */
  lemma {:induction false} TakesUp(r: Repairs, s: State, stale: bool)
    requires Listed(s) && Delivered(r, s) && CanWork(s) && s.d.DAtTest?
    ensures Delivered(r, WorkDaemon(r, s, stale))
  {
    hide HeardUpTo, Treat, NextStage, UserTold;
    var s' := WorkDaemon(r, s, stale);
    if s'.d.Walk? {
      var f := s.d.got.value;
      forall c | 0 <= c < |s.calls| && Linked(s.calls[c]) && c !in s.reqs ensures Left(s', s.calls[c]) {
        HeardLater(s.walked, f, s.calls[c], |s.walked|);
        HeardPast(s'.walked, s.calls[c]);
      }
      forall c | 0 <= c < |s.calls| && s.calls[c].until.Some?
        ensures HeardUpTo(s'.walked, s.calls[c], s.calls[c].until.value)
      {
        HeardLater(s.walked, f, s.calls[c], s.calls[c].until.value);
      }
      forall p | 0 <= p < |s.reqs| ensures HeardUpTo(s'.walked, s.calls[s.reqs[p]], |s.walked|) {
        HeardLater(s.walked, f, s.calls[s.reqs[p]], |s.walked|);
      }
    }
  }

  /** The request that the daemon leaves behind has heard the frame. */
  lemma PassesOver(s: State)
    requires Listed(s) && Hearings(s) && s.d.Walk? && s.d.i < |s.reqs|
    requires s.d.stage.After? || (s.d.stage.Look? && !Hit(s.calls[s.reqs[s.d.i]], s.d.got))
    ensures HeardUpTo(s.walked, s.calls[s.reqs[s.d.i]], |s.walked|)
  {
    hide HeardUpTo, Distinct;
    var call := s.calls[s.reqs[s.d.i]];
    assert HeardUpTo(s.walked, call, |s.walked| - if Behind(s.d, s.d.i) then 1 else 0);
    if s.d.stage.Look? {
      NoneHits(call, s.d.got);
      HeardPast(s.walked, call);
    }
  }

  /** The request under the cursor, while the daemon stays with it. */
  lemma CursorHears(r: Repairs, s: State, stale: bool)
    requires Listed(s) && Hearings(s) && AllFit(r, s) && LinkedBefore(s) && CanWork(s) && s.d.Walk? && s.d.i < |s.reqs|
    requires !s.d.stage.After? && (s.d.stage.Look? ==> Hit(s.calls[s.reqs[s.d.i]], s.d.got))
    ensures var s' := WorkDaemon(r, s, stale);
      HeardUpTo(s'.walked, s'.calls[s.reqs[s.d.i]], |s'.walked| - if Behind(s'.d, s.d.i) then 1 else 0)
  {
    hide WorkDaemon, Treat, NextStage, HeardUpTo, Under, CanWork, Hit, Distinct, Waiting, Swept;
    WalkStep(r, s, stale);
    var call := s.calls[s.reqs[s.d.i]];
    assert Fits(r, s.d, s.d.i, call);
    assert HeardUpTo(s.walked, call, |s.walked| - if Behind(s.d, s.d.i) then 1 else 0);
    TreatHears(r, s.walked, call, s.d.got, s.d.stage);
    NextIsBehind(r, call, s.d.got, s.d.stage, stale);
  }

  /** The other requests, as the cursor moves. */
  lemma OthersHear(r: Repairs, s: State, stale: bool, p: nat)
    requires Listed(s) && Hearings(s) && CanWork(s) && s.d.Walk? && s.d.i < |s.reqs| && p < |s.reqs| && p != s.d.i
    ensures var s' := WorkDaemon(r, s, stale); var p' := if Unlinks(s.d) && p > s.d.i then p - 1 else p;
      HeardUpTo(s'.walked, s'.calls[s.reqs[p]], |s'.walked| - if Behind(s'.d, p') then 1 else 0)
  {
    hide WorkDaemon, Treat, NextStage, HeardUpTo, CanWork, Hit;
    WalkStep(r, s, stale);
    assert s.reqs[p] != s.reqs[s.d.i];
    assert HeardUpTo(s.walked, s.calls[s.reqs[p]], |s.walked| - if Behind(s.d, p) then 1 else 0);
  }

  lemma PassedHears(r: Repairs, s: State, stale: bool)
    requires Listed(s) && Hearings(s) && CanWork(s) && s.d.Walk? && s.d.i < |s.reqs| && !Unlinks(s.d)
    requires s.d.stage.After? || (s.d.stage.Look? && !Hit(s.calls[s.reqs[s.d.i]], s.d.got))
    ensures var s' := WorkDaemon(r, s, stale);
      HeardUpTo(s'.walked, s'.calls[s.reqs[s.d.i]], |s'.walked| - if Behind(s'.d, s.d.i) then 1 else 0)
  {
    hide WorkDaemon, Treat, NextStage, HeardUpTo, CanWork, Hit, Hearings, Distinct;
    WalkStep(r, s, stale);
    PassesOver(s);
    var call := s.calls[s.reqs[s.d.i]];
    if s.d.stage.After? {
      AfterLeavesAlone(call, s.d.got, s.d.stage);
    } else {
      LookLeavesAlone(call, s.d.got);
    }
  }

  lemma WalkHears(r: Repairs, s: State, stale: bool)
    requires Listed(s) && Hearings(s) && AllFit(r, s) && LinkedBefore(s) && CanWork(s) && s.d.Walk? && s.d.i < |s.reqs|
    ensures Hearings(WorkDaemon(r, s, stale))
  {
    hide WorkDaemon, Treat, NextStage, HeardUpTo, CanWork, Hit, AllFit, Distinct, Hearings, LinkedBefore, Behind;
    var s', i := WorkDaemon(r, s, stale), s.d.i;
    WalkStep(r, s, stale);
    forall p | 0 <= p < |s'.reqs|
      ensures HeardUpTo(s'.walked, s'.calls[s'.reqs[p]], |s'.walked| - if Behind(s'.d, p) then 1 else 0)
    {
      var q := if Unlinks(s.d) && p >= i then p + 1 else p;
      assert s'.reqs[p] == s.reqs[q];
      if q != i {
        OthersHear(r, s, stale, q);
      } else if s.d.stage.After? || (s.d.stage.Look? && !Hit(s.calls[s.reqs[i]], s.d.got)) {
        PassedHears(r, s, stale);
      } else {
        CursorHears(r, s, stale);
      }
    }
    HearingsFrom(s');
  }

  lemma HearingsFrom(s: State)
    requires forall p :: 0 <= p < |s.reqs| && s.reqs[p] < |s.calls| ==>
               HeardUpTo(s.walked, s.calls[s.reqs[p]], |s.walked| - if Behind(s.d, p) then 1 else 0)
    ensures Hearings(s)
  {
    hide HeardUpTo, Behind;
  }

  lemma NextIsBehind(r: Repairs, call: Call, got: Option<Reply>, stage: Stage, stale: bool)
    requires !stage.After?
    ensures Behind(Walk(got, 0, NextStage(r, call, got, stage, stale)), 0)
            <==> Behind(Walk(got, 0, stage), 0) && !stage.Deliver? && !stage.Respond?
  {
  }

  /** Who leaves the list in a walk has heard the frame, and all there was to hear. */
  lemma UnlinkedHasHeard(r: Repairs, s: State)
    requires Listed(s) && Hearings(s) && AllFit(r, s) && s.d.Walk? && s.d.i < |s.reqs| && Unlinks(s.d)
    ensures var call := s.calls[s.reqs[s.d.i]]; HeardUpTo(s.walked, call, |s.walked|) && call.req.Ends(call.heard)
  {
    hide HeardUpTo, Distinct, Request.Ends, Waiting, Swept;
    PassesOver(s);
    assert Fits(r, s.d, s.d.i, s.calls[s.reqs[s.d.i]]);
  }

  lemma SweptHasHeard(r: Repairs, s: State, c: nat)
    requires Listed(s) && Hearings(s) && AllFit(r, s) && Anchored(r, s) && c in s.reqs
    requires s.d.Walk? && s.d.got.None? && s.d.i >= |s.reqs|
    ensures HeardUpTo(s.walked, s.calls[c], |s.walked|) && (s.calls[c].Open() ==> s.calls[c].lost)
  {
    hide HeardUpTo, Distinct, Request.Ends, Waiting, Under;
    var p :| 0 <= p < |s.reqs| && s.reqs[p] == c;
    assert Fits(r, s.d, p, s.calls[s.reqs[p]]);
    assert HeardUpTo(s.walked, s.calls[s.reqs[p]], |s.walked| - if Behind(s.d, p) then 1 else 0);
  }

  lemma WorkLeaves(r: Repairs, s: State, stale: bool)
    requires Listed(s) && Leavings(s) && Hearings(s) && AllFit(r, s) && Anchored(r, s) && CanWork(s) && s.d.Walk?
    ensures Leavings(WorkDaemon(r, s, stale))
  {
    hide WorkDaemon, Treat, NextStage, HeardUpTo, CanWork, Hit, Request.Ends, AllFit, Anchored, Hearings, Distinct;
    WorkKeeps(r, s, stale);
    WalkStep(r, s, stale);
    var s' := WorkDaemon(r, s, stale);
    forall c | 0 <= c < |s'.calls| && Linked(s'.calls[c]) && c !in s'.reqs ensures Left(s', s'.calls[c]) {
      if c in s.reqs {
        var p :| 0 <= p < |s.reqs| && s.reqs[p] == c;
        if s.d.i < |s.reqs| {
          OnlyCursorLeaves(s.reqs, s.d.i, p);
          UnlinkedHasHeard(r, s);
          AfterLeavesAlone(s.calls[c], s.d.got, s.d.stage);
        } else {
          SweptHasHeard(r, s, c);
        }
      } else if s.d.i < |s.reqs| {
        assert c != s.reqs[s.d.i];
      }
    }
  }

  lemma OnlyCursorLeaves(reqs: seq<nat>, i: nat, p: nat)
    requires i < |reqs| && p < |reqs|
    ensures p != i ==> reqs[p] in reqs[..i] + reqs[i + 1..]
  {
    var rest := reqs[..i] + reqs[i + 1..];
    if p < i {
      assert rest[p] == reqs[p];
    } else if p > i {
      assert rest[p - 1] == reqs[p];
    }
  }

  lemma WalkWithdraws(r: Repairs, s: State, stale: bool)
    requires Listed(s) && Withdrawals(s) && CanWork(s) && s.d.Walk?
    ensures Withdrawals(WorkDaemon(r, s, stale))
  {
    hide WorkDaemon, Treat, NextStage, HeardUpTo, CanWork, Hit, Distinct;
    WorkKeeps(r, s, stale);
    WalkStep(r, s, stale);
  }

  lemma WalkStops(r: Repairs, s: State, stale: bool)
    requires Listed(s) && Delivered(r, s) && AllFit(r, s) && Anchored(r, s)
    requires CanWork(s) && s.d.Walk? && s.d.i >= |s.reqs|
    ensures Delivered(r, WorkDaemon(r, s, stale))
  {
    hide WorkDaemon, Treat, NextStage, HeardUpTo, UserTold, AllFit, Leavings, CanWork;
    WorkLeaves(r, s, stale);
    WalkStep(r, s, stale);
  }

  lemma WorkElsewhere(r: Repairs, s: State, stale: bool)
    requires Delivered(r, s) && CanWork(s) && !s.d.Walk? && !s.d.DAtTest?
    ensures Delivered(r, WorkDaemon(r, s, stale))
  {
    hide Treat, NextStage, HeardUpTo, UserTold, Request.Ends;
  }

  lemma {:induction false} WorkKeepsDelivered(r: Repairs, s: State, stale: bool)
    requires Listed(s) && Delivered(r, s) && AllFit(r, s) && Anchored(r, s) && LinkedBefore(s) && CanWork(s)
    ensures Delivered(r, WorkDaemon(r, s, stale))
  {
    hide WorkDaemon, CanWork, Tellings, Leavings, Withdrawals, Hearings, AllFit, LinkedBefore, Listed, Anchored;
    if s.d.DAtTest? {
      TakesUp(r, s, stale);
    } else if !s.d.Walk? {
      WorkElsewhere(r, s, stale);
    } else if s.d.i < |s.reqs| {
      WorkTells(r, s, stale);
      WalkWithdraws(r, s, stale);
      WorkLeaves(r, s, stale);
      WalkHears(r, s, stale);
    } else {
      WalkStops(r, s, stale);
    }
  }

  // ---------- the callers' steps ----------

  lemma SameTold(call: Call, call': Call)
    requires SameRequest(call, call')
    ensures UserTold(call') == UserTold(call) && call'.Open() == call.Open()
  {
  }

  lemma HearsNothingYet(walked: seq<Reply>, call: Call)
    requires call.since == Some(|walked|) && call.heard == []
    ensures HeardUpTo(walked, call, |walked|)
  {
    assert walked[|walked|..|walked|] == [];
  }

  /** What one caller's step means for the request of any call `x`. */
  lemma StepHears(r: Repairs, s: State, c: nat, x: nat)
    requires Locks(s) && Listed(s) && Times(r, s) && Delivered(r, s) && c < |s.calls| && x < |s.calls| && CanStep(s, c)
    ensures var s' := StepCall(r, s, c);
      && (s'.calls[x].until.Some? ==> HeardUpTo(s'.walked, s'.calls[x], s'.calls[x].until.value))
      && (Linked(s'.calls[x]) && x !in s'.reqs ==> Left(s', s'.calls[x]))
  {
    hide Encode, HeardUpTo, Remove, NextPc, CanStep, Tellings, Request.Ends, Progress, Untouched, Locks;
    Removed(s.reqs, c);
    StepKeepsOthers(r, s, c);
    TransactsLinked(r, s.calls[c]);
    var s' := StepCall(r, s, c);
    if x == c && !s.calls[c].pc.AtLink? {
      SameHeard(s.walked, s.calls[c], s'.calls[c], |s.walked|);
      SameTold(s.calls[c], s'.calls[c]);
      if s.calls[c].until.Some? {
        SameHeard(s.walked, s.calls[c], s'.calls[c], s.calls[c].until.value);
      }
      if s.calls[c].pc.AtWithdraw? {
        WithdrawnHasHeard(r, s, c);
      }
    }
  }

  lemma WithdrawnHasHeard(r: Repairs, s: State, c: nat)
    requires Locks(s) && Listed(s) && Times(r, s) && Delivered(r, s) && c < |s.calls| && s.calls[c].pc.AtWithdraw?
    ensures HeardUpTo(s.walked, s.calls[c], |s.walked|) && !s.d.Walk?
  {
    hide HeardUpTo, UserTold;
    if c in s.reqs {
      var p :| 0 <= p < |s.reqs| && s.reqs[p] == c;
    } else {
      assert Left(s, s.calls[c]);
    }
  }

  lemma {:induction false} StepKeepsHearings(r: Repairs, s: State, c: nat)
    requires Locks(s) && Listed(s) && Times(r, s) && Hearings(s) && c < |s.calls| && CanStep(s, c)
    ensures Hearings(StepCall(r, s, c))
  {
    hide Encode, HeardUpTo, Remove, NextPc, CanStep, Progress;
    StepKeepsOthers(r, s, c);
    TransactsLinked(r, s.calls[c]);
    Removed(s.reqs, c);
    var s' := StepCall(r, s, c);
    forall p | 0 <= p < |s'.reqs| && s'.reqs[p] < |s'.calls|
      ensures HeardUpTo(s'.walked, s'.calls[s'.reqs[p]], |s'.walked| - if Behind(s'.d, p) then 1 else 0)
    {
      var x := s'.reqs[p];
      if s.calls[c].pc.AtLink? && p == 0 {
        HearsNothingYet(s'.walked, s'.calls[c]);
      } else {
        if s'.reqs != s.reqs {
          assert !s.d.Walk? && x in s.reqs;
        }
        SameHeard(s.walked, s.calls[x], s'.calls[x], |s.walked| - if Behind(s'.d, p) then 1 else 0);
      }
    }
  }

  /** A step of a caller leaves what users were told, and the request it may be about. */
  lemma StepTells(r: Repairs, s: State, c: nat)
    requires Locks(s) && Tellings(r, s) && c < |s.calls| && CanStep(s, c)
    ensures Tellings(r, StepCall(r, s, c))
  {
    hide Encode, Remove, NextPc, CanStep, UserTold;
    StepKeepsOthers(r, s, c);
    var s' := StepCall(r, s, c);
    if s.d.Walk? {
      hide StepCall;
      StepKeepsList(r, s, c);
    }
    forall x | 0 <= x < |s.calls| ensures UserTold(s'.calls[x]) == UserTold(s.calls[x]) {
      SameTold(s.calls[x], s'.calls[x]);
    }
  }

  lemma {:induction false} StepKeepsDelivered(r: Repairs, s: State, c: nat)
    requires Basic(r, s) && Delivered(r, s) && c < |s.calls| && CanStep(s, c)
    ensures Delivered(r, StepCall(r, s, c))
  {
    hide StepCall, CanStep, Locks, Listed, Times, Sending, Tellings, HeardUpTo, Left, Hearings;
    var s' := StepCall(r, s, c);
    StepKeepsHearings(r, s, c);
    StepTells(r, s, c);
    StepCount(r, s, c);
    forall x | 0 <= x < |s'.calls|
      ensures s'.calls[x].until.Some? ==> HeardUpTo(s'.walked, s'.calls[x], s'.calls[x].until.value)
      ensures Linked(s'.calls[x]) && x !in s'.reqs ==> Left(s', s'.calls[x])
    {
      StepHears(r, s, c, x);
    }
  }

  lemma NobodyTold(call: Call)
    requires call.heard == [] && call.trace == [] && !call.lost
    ensures UserTold(call)
  {
  }

  /** No other action touches what a request has heard, or takes one off the list. */
  lemma HappensKeepsDelivered(r: Repairs, s: State, a: Action)
    requires Listed(s) && Delivered(r, s) && CanHappen(s, a)
    ensures Delivered(r, Happens(r, s, a))
  {
    hide Happens, CanHappen, HeardUpTo, UserTold, Request.Ends, Distinct;
    var s' := Happens(r, s, a);
    HappensKeepsOthers(r, s, a);
    HappensKeepsList(r, s, a);
    HappensElsewhere(r, s, a);
    forall x | 0 <= x < |s'.calls|
      ensures x < |s.calls| ==> UserTold(s'.calls[x]) == UserTold(s.calls[x])
      ensures x < |s.calls| ==> s'.calls[x].Open() == s.calls[x].Open()
      ensures x >= |s.calls| ==> UserTold(s'.calls[x])
      ensures x < |s.calls| ==> forall n :: HeardUpTo(s'.walked, s'.calls[x], n) == HeardUpTo(s.walked, s.calls[x], n)
    {
      if x < |s.calls| {
        SameTold(s.calls[x], s'.calls[x]);
        forall n ensures HeardUpTo(s'.walked, s'.calls[x], n) == HeardUpTo(s.walked, s.calls[x], n) {
          SameHeard(s.walked, s.calls[x], s'.calls[x], n);
        }
      } else {
        NobodyTold(s'.calls[x]);
      }
    }
  }

  lemma HappensElsewhere(r: Repairs, s: State, a: Action)
    requires CanHappen(s, a)
    ensures var s' := Happens(r, s, a);
      && (s.d.Walk? || s.d.Exited? ==> s'.d == s.d) && (!s.d.Walk? ==> !s'.d.Walk?)
      && (forall c :: |s.calls| <= c < |s'.calls| ==> s'.calls[c].until.None? && !s'.calls[c].lost)
  {
    hide Encode, Taken, Current;
  }

  lemma {:induction false} DeliveredKept(r: Repairs, s: State, a: Action)
    requires Basic(r, s) && Anchored(r, s) && Delivered(r, s) && AllFit(r, s) && LinkedBefore(s) && Enabled(s, a)
    ensures Delivered(r, Apply(r, s, a))
  {
    hide StepCall, CanStep, WorkDaemon, CanWork, Happens, CanHappen, Locks, Listed, Times, Sending;
    hide Delivered, AllFit, LinkedBefore, Anchored;
    match a
    case Step(c) => StepKeepsDelivered(r, s, c);
    case Work(stale) => WorkKeepsDelivered(r, s, stale);
    case _ => HappensKeepsDelivered(r, s, a);
  }

  /** What all runs keep of the streams, as long as the daemon can rely on `rv`. */
  ghost predicate Delivering(r: Repairs, s: State) {
    && Basic(r, s) && Anchored(r, s) && LinkedBefore(s)
    && (Trusted(r, s) ==> AllFit(r, s) && Delivered(r, s))
  }

  lemma {:induction false} DeliveringKept(r: Repairs, s: State, a: Action)
    requires Delivering(r, s) && Enabled(s, a)
    ensures Delivering(r, Apply(r, s, a))
  {
    hide Apply, Enabled, Basic, Anchored, LinkedBefore, Trusted, AllFit, Delivered;
    BasicKept(r, s, a);
    AnchoredKept(r, s, a);
    LinkedBeforeKept(r, s, a);
    if Trusted(r, Apply(r, s, a)) {
      TrustLasts(r, s, a);
      FitKept(r, s, a);
      DeliveredKept(r, s, a);
    }
  }

  lemma DeliveryHolds(r: Repairs, s: State)
    requires Reachable(r, s)
    ensures Delivering(r, s)
  {
    hide Apply, Enabled, Delivering;
    DeliveryStarts(r);
    forall t, a | Delivering(r, t) && Enabled(t, a) ensures Delivering(r, Apply(r, t, a)) {
      DeliveringKept(r, t, a);
    }
    Preserved(r, t => Delivering(r, t), Init(r), s);
  }

  lemma DeliveryStarts(r: Repairs)
    ensures Delivering(r, Init(r))
  {
  }
}
