/** The list code of the daemon, which goes through the nodes in one go, and the protocol, in
    which other threads move in between, dispatch a frame alike. */
module Agreement {
  import opened Frames
  import opened Protocol
  import opened Execution
  import opened Basics
  import opened Results
  import opened Fitting
  import opened Delivery
  import opened Sublists
  import opened Walks
  import Dispatch

  /** The nodes of the list stand for the requests, in the same order. */
  ghost predicate Stands(nodes: seq<Dispatch.ReqCtx>, ids: map<Dispatch.ReqCtx, nat>, reqs: seq<nat>) {
    |nodes| == |reqs| && forall j :: 0 <= j < |nodes| ==> nodes[j] in ids && ids[nodes[j]] == reqs[j]
  }

  predicate Visits(visits: seq<Dispatch.Visit>, node: Dispatch.ReqCtx) {
    exists i :: 0 <= i < |visits| && visits[i].node == node
  }

  /** What the callback of a request returns for a frame. */
  predicate Answer(call: Call, f: Reply) {
    if call.heard == [] then !IsStream(call.req.api) || call.req.Verdict(f) != 0
    else call.req.Quits(|call.heard| - 1)
  }

  lemma {:induction false} KeptStands(nodes: seq<Dispatch.ReqCtx>, ids: map<Dispatch.ReqCtx, nat>, reqs: seq<nat>,
                                      drops: seq<bool>)
    requires Stands(nodes, ids, reqs) && |drops| == |nodes|
    ensures Stands(Kept(nodes, drops), ids, Kept(reqs, drops))
    decreases |nodes|
  {
    if nodes != [] {
      var n := |nodes| - 1;
      KeptStands(nodes[..n], ids, reqs[..n], drops[..n]);
    }
  }

  /** Whether a listed request has nothing more to hear after the frame is whether it matches
      and either the frame is final or the callback asks to stop. */
  lemma EndedByAnswer(before: Call, after: Call, f: Reply)
    requires Waiting(before) && after.req == before.req && HeardOnce(f, before, after)
    ensures after.req.Ends(after.heard) <==> Hit(before, Some(f)) && (f.final || Answer(before, f))
  {
    hide Request.Ends, Request.Verdict, Request.Quits, Hit;
    EndsNext(before.req, before.heard, f);
    NothingEndsEarly(before.req);
    assert before.heard + [] == before.heard;
    assert before.heard == [] ==> before.heard + [f] == [f];
  }

  /** The visits that the list code makes are those of the matching nodes. */
  lemma VisitsMatching(nodes: seq<Dispatch.ReqCtx>, ns: seq<int>, frame: Frame, visits: seq<Dispatch.Visit>,
                       left: seq<Dispatch.ReqCtx>, j: nat)
    requires |ns| == |nodes| && j < |nodes| && Distinct(nodes)
    requires Dispatch.DispatchedTo(nodes, ns, frame, visits, left)
    ensures ns[j] == frame.seqno <==> Visits(visits, nodes[j])
  {
    hide Finishes;
    var misses := Dispatch.Misses(ns, frame.seqno);
    var from := KeptInOrder(nodes, misses);
    forall i | 0 <= i < |visits| ensures visits[i].node == nodes[from[i]] && ns[from[i]] == frame.seqno {
      assert Dispatch.Visited(visits)[i] == nodes[from[i]];
    }
    if ns[j] == frame.seqno {
      var i :| 0 <= i < |from| && from[i] == j;
      assert visits[i].node == nodes[j];
    }
  }

  lemma EndedVisits(frame: Frame, visits: seq<Dispatch.Visit>, node: Dispatch.ReqCtx,
                    stop: bool)
    requires forall i :: 0 <= i < |visits| ==> visits[i].final == Finishes(frame)
    requires forall i :: 0 <= i < |visits| && visits[i].node == node ==> visits[i].stop == stop
    ensures Dispatch.Ended(node, visits) <==> Visits(visits, node) && (Finishes(frame) || stop)
  {
    hide Finishes;
  }

  lemma MatchesNumber(call: Call, f: Reply)
    ensures Hit(call, Some(f)) == (call.req.Seqno() == f.seqno)
  {
  }

  /** What the walk of the protocol does between `s` and `t` is what the list code does to a
      list that stands for the same requests, when its callbacks return what those of the
      protocol do: the same requests are treated, and the lists stand for the same requests
      afterwards. */
  lemma DispatchesAgree(r: Repairs, s: State, f: Reply, t: State, nodes: seq<Dispatch.ReqCtx>, ns: seq<int>,
                        ids: map<Dispatch.ReqCtx, nat>, visits: seq<Dispatch.Visit>, left: seq<Dispatch.ReqCtx>)
    requires Dispatched(r, s, f, t) && Trusted(r, t)
    requires InRange(s.reqs, s) && Stands(nodes, ids, s.reqs) && Distinct(nodes) && |ns| == |nodes|
    requires forall j :: 0 <= j < |ns| ==> ns[j] == s.calls[s.reqs[j]].req.Seqno()
    requires Dispatch.DispatchedTo(nodes, ns, f.frame, visits, left)
    requires forall i, j :: 0 <= i < |visits| && 0 <= j < |nodes| && visits[i].node == nodes[j] ==>
               visits[i].stop == Answer(s.calls[s.reqs[j]], f)
    ensures InRange(s.reqs, t) && Stands(left, ids, t.reqs)
    ensures forall j :: 0 <= j < |nodes| ==>
              t.calls[s.reqs[j]].heard == s.calls[s.reqs[j]].heard
                + if Visits(visits, nodes[j]) then [f] else []
  {
    hide Dispatched, IsFinal, Finishes, Answer, Request.Ends, Trusted, Visits, Hit;
    DispatchIsFilter(r, s, f, t);
    AtTheStart(r, s, f, t);
    forall j | 0 <= j < |nodes|
      ensures Dispatch.Ended(nodes[j], visits) == t.calls[s.reqs[j]].req.Ends(t.calls[s.reqs[j]].heard)
      ensures HeardOnce(f, s.calls[s.reqs[j]], t.calls[s.reqs[j]])
      ensures Hit(s.calls[s.reqs[j]], Some(f)) <==> Visits(visits, nodes[j])
    {
      MatchesNumber(s.calls[s.reqs[j]], f);
      IsFinalExactly(f.frame);
      EndedByAnswer(s.calls[s.reqs[j]], t.calls[s.reqs[j]], f);
      VisitsMatching(nodes, ns, f.frame, visits, left, j);
      EndedVisits(f.frame, visits, nodes[j], Answer(s.calls[s.reqs[j]], f));
    }
    assert Dispatch.Endings(nodes, visits) == Cleared(s.reqs, t);
    KeptStands(nodes, ids, s.reqs, Dispatch.Endings(nodes, visits));
  }

  /** When the daemon takes up a frame, every listed request waits for it. */
  lemma AtTheStart(r: Repairs, s: State, f: Reply, t: State)
    requires Dispatched(r, s, f, t) && Trusted(r, t)
    ensures f == Classify(f.frame) && InRange(s.reqs, s)
    ensures forall j :: 0 <= j < |s.reqs| ==> Waiting(s.calls[s.reqs[j]])
  {
    hide Leads, Waiting, Under, Trusted, Classify, Delivered, Times, Sending, Answers;
    TrustedBefore(r, s, t);
    DeliveryHolds(r, s);
    ResultsHold(r, s);
    forall j | 0 <= j < |s.reqs| ensures Waiting(s.calls[s.reqs[j]]) {
      assert Fits(r, s.d, j, s.calls[s.reqs[j]]);
      if j == 0 {
        LookingWaits(r, s.calls[s.reqs[j]], s.d.got);
      }
    }
  }

  lemma LookingWaits(r: Repairs, call: Call, got: Option<Reply>)
    requires Under(r, call, got, Look)
    ensures Waiting(call)
  {
  }

  lemma TrustedBefore(r: Repairs, s: State, t: State)
    requires Leads(r, s, t) && Trusted(r, t)
    ensures Trusted(r, s)
  {
    hide Apply, Enabled, Leads, Trusted;
    var inv := (u: State) => Trusted(r, u) ==> Trusted(r, s);
    forall u, a | inv(u) && Enabled(u, a) ensures inv(Apply(r, u, a)) {
      if Trusted(r, Apply(r, u, a)) {
        TrustLasts(r, u, a);
      }
    }
    Preserved(r, inv, s, t);
  }
}
