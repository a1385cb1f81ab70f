/** What a request hears: exactly the frames with its sequence number that are dispatched after
    it is linked, up to the one that ends it. */
module Streams {
  import opened Protocol

  /** What a request is to hear of the frames dispatched since it was linked. */
  function HeardOf(req: Request, fs: seq<Reply>): seq<Reply> {
    if fs == [] then []
    else
      var heard := HeardOf(req, fs[..|fs| - 1]);
      var f := fs[|fs| - 1];
      if f.seqno == req.Seqno() && !req.Ends(heard) then heard + [f] else heard
  }

  /** The frames with a given sequence number, in order. */
  function Matching(seqno: int, fs: seq<Reply>): seq<Reply> {
    if fs == [] then []
    else
      Matching(seqno, fs[..|fs| - 1]) + (if fs[|fs| - 1].seqno == seqno then [fs[|fs| - 1]] else [])
  }

  lemma {:induction false} HeardIsPrefix(req: Request, fs: seq<Reply>) returns (n: nat)
    ensures n <= |Matching(req.Seqno(), fs)| && HeardOf(req, fs) == Matching(req.Seqno(), fs)[..n]
    ensures forall k :: 0 <= k < n ==> !req.Ends(Matching(req.Seqno(), fs)[..k])
    ensures n == |Matching(req.Seqno(), fs)| || req.Ends(Matching(req.Seqno(), fs)[..n])
  {
    if fs == [] {
      n := 0;
    } else {
      var before := Matching(req.Seqno(), fs[..|fs| - 1]);
      var all := Matching(req.Seqno(), fs);
      n := HeardIsPrefix(req, fs[..|fs| - 1]);
      assert forall k :: 0 <= k <= |before| ==> all[..k] == before[..k];
      if fs[|fs| - 1].seqno == req.Seqno() && !req.Ends(before[..n]) {
        n := n + 1;
      }
    }
  }

  lemma HeardNext(req: Request, fs: seq<Reply>, f: Reply)
    ensures HeardOf(req, fs + [f]) ==
            if f.seqno == req.Seqno() && !req.Ends(HeardOf(req, fs)) then HeardOf(req, fs) + [f] else HeardOf(req, fs)
  {
    assert (fs + [f])[..|fs|] == fs;
  }

  function Messages(fs: seq<Reply>): (es: seq<Event>)
    ensures |es| == |fs| && forall k :: 0 <= k < |es| ==> es[k] == Message(fs[k])
  {
    seq(|fs|, k requires 0 <= k < |fs| => Message(fs[k]))
  }

  /** The invocations of the user's callback of a request that has heard `heard`: one for every
      frame behind the response, and one more if the connection was lost under an open stream. */
  function TraceOf(req: Request, heard: seq<Reply>, lost: bool): seq<Event> {
    if !req.listener then []
    else Messages(if heard == [] then [] else heard[1..]) + (if lost then [Lost] else [])
  }

  lemma {:induction false} MatchingAreThere(seqno: int, fs: seq<Reply>)
    ensures forall f :: f in Matching(seqno, fs) ==> f in fs && f.seqno == seqno
  {
    if fs != [] {
      MatchingAreThere(seqno, fs[..|fs| - 1]);
    }
  }

  // ---------- which functions open streams ----------

  /** The callback each request starts with: only bw2_subscribe's looks for a handle, on its
      caller's stack. */
  lemma FirstHandlers(api: Api)
    ensures FirstHandler(api).SubscribeCb? <==> api.Subscribe?
    ensures FirstHandler(api).StreamCb? <==> api.Query? || api.List?
  {
  }

  /** bw2_subscribe, bw2_query and bw2_list open a stream with an accepted response, unless that
      is final; every other function is done with its first frame. */
  lemma StreamsOpen(req: Request, f: Reply)
    ensures req.api.Subscribe? || req.api.Query? || req.api.List? ==>
              (req.Ends([f]) <==> f.final || req.Verdict(f) != 0)
    ensures !(req.api.Subscribe? || req.api.Query? || req.api.List?) ==> req.Ends([f])
    ensures !req.Ends([])
  {
    hide Request.Verdict;
    assert [f][0] == f;
  }
}
