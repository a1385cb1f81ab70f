/** Sequence numbers: which calls can be confused, and that a frame reaches one request only. */
module Numbers {
  import opened Codec
  import opened Protocol
  import opened Execution
  import opened Frames
  import opened Grammar
  import opened Basics
  import opened Results

  /** Two draws give the same number exactly when a multiple of 2^31 draws lies between them:
      any 2^31 draws in a row are different, and one more is not. */
  lemma SameNumber(i: nat, j: nat)
    requires i <= j
    ensures SeqNo(i) == SeqNo(j) <==> exists k: nat :: j == i + k * SEQNOS
  {
    if SeqNo(i) == SeqNo(j) {
      var k := j / SEQNOS - i / SEQNOS;
      assert j == i + k * SEQNOS;
    }
  }

  lemma CloseDrawsDiffer(i: nat, j: nat)
    requires i < j < i + SEQNOS
    ensures SeqNo(i) != SeqNo(j)
  {
    SameNumber(i, j);
  }

  /** Calls are in the order of their draws, and carry the number they drew. */
  ghost predicate Numbered(s: State) {
    && (forall c, d :: 0 <= c < d < |s.calls| ==> s.calls[c].req.drawn < s.calls[d].req.drawn)
    && (forall c :: 0 <= c < |s.calls| ==>
          s.calls[c].req.drawn < s.draws && s.calls[c].req.Sendable())
  }

  /** No action changes what a call is about, and only a new call takes the next draw. */
  lemma RequestsStay(r: Repairs, s: State, a: Action)
    requires Enabled(s, a)
    ensures var s' := Apply(r, s, a);
      && |s.calls| <= |s'.calls| <= |s.calls| + 1 && s.draws <= s'.draws
      && (forall c :: 0 <= c < |s.calls| ==> s'.calls[c].req == s.calls[c].req)
      && (|s'.calls| > |s.calls| ==>
            && s'.calls[|s.calls|].req.drawn == s.draws && s'.draws == s.draws + 1
            && s'.calls[|s.calls|].req.Sendable())
  {
    if a.Work? {
      hide WorkDaemon, CanWork;
      WorkKeeps(r, s, a.stale);
      WorkDraws(r, s, a.stale);
    } else {
      hide WorkDaemon, CanWork, Encode, Taken, Current, NextPc, Remove, Command;
    }
  }

  lemma WorkDraws(r: Repairs, s: State, stale: bool)
    requires CanWork(s)
    ensures WorkDaemon(r, s, stale).draws == s.draws
  {
    hide Treat, NextD, Unlinks;
  }

  lemma NumberedHolds(r: Repairs, s: State)
    requires Reachable(r, s)
    ensures Numbered(s)
  {
    hide Apply, Enabled, Request.Sendable;
    forall t, a | Numbered(t) && Enabled(t, a) ensures Numbered(Apply(r, t, a)) {
      RequestsStay(r, t, a);
    }
    Preserved(r, t => Numbered(t), Init(r), s);
  }

  /** Fewer than 2^31 numbers have been drawn since the call drew its own. */
  predicate Recent(s: State, c: nat)
    requires c < |s.calls|
  {
    s.draws - s.calls[c].req.drawn <= SEQNOS
  }

  /** As long as fewer than 2^31 numbers are drawn during the life of a request, no other
      request has its number, and no frame was ever given to it and to another one. */
  lemma CorrelationIsUnambiguous(r: Repairs, s: State, c: nat, d: nat)
    requires Reachable(r, s) && c < |s.calls| && d < |s.calls| && c != d && Recent(s, c) && Recent(s, d)
    ensures s.calls[c].req.frame.seqno != s.calls[d].req.frame.seqno
    ensures forall f :: f in s.calls[c].heard ==> f !in s.calls[d].heard
  {
    hide Reachable, Basic, Answers, Classified, LinkedBefore;
    NumberedHolds(r, s);
    ResultsHold(r, s);
    assert Sourced(s.walked, s.calls[c]) && Sourced(s.walked, s.calls[d]);
    if c < d {
      CloseDrawsDiffer(s.calls[c].req.drawn, s.calls[d].req.drawn);
    } else {
      CloseDrawsDiffer(s.calls[d].req.drawn, s.calls[c].req.drawn);
    }
  }

  /** The draws among the actions: one for every call, whether it makes a request or not. */
  function Drawn(trace: seq<Action>): nat {
    if trace == [] then 0 else (if trace[0].Draw? || trace[0].Begin? then 1 else 0) + Drawn(trace[1..])
  }

  lemma DrawsOne(r: Repairs, s: State, a: Action)
    requires Enabled(s, a)
    ensures Apply(r, s, a).draws == s.draws + if a.Draw? || a.Begin? then 1 else 0
  {
    if a.Work? {
      hide WorkDaemon, CanWork;
      WorkDraws(r, s, a.stale);
    } else {
      hide WorkDaemon, CanWork, CanStep, Encode, Taken, Current, NextPc, Remove, Command;
    }
  }

  /** Every draw is counted, so that no number is drawn twice within 2^31 draws. */
  lemma {:induction false} DrawsAreCounted(r: Repairs, s: State, trace: seq<Action>)
    requires Runs(r, s, trace)
    ensures Outcome(r, s, trace).draws == s.draws + Drawn(trace)
    decreases |trace|
  {
    hide Apply, Enabled;
    if trace != [] {
      DrawsOne(r, s, trace[0]);
      DrawsAreCounted(r, Apply(r, s, trace[0]), trace[1..]);
    }
  }

  // ---------- commands ----------

  lemma CommandWords(api: Api)
    ensures match api
      case Publish => Spells(Command(api), "publ")
      case SetEntity => Spells(Command(api), "sete")
      case Unsubscribe => Spells(Command(api), "usub")
      case CreateDOT => Spells(Command(api), "makd")
      case CreateEntity => Spells(Command(api), "make")
      case CreateDOTChain => Spells(Command(api), "makc")
      case Subscribe(_) => Spells(Command(api), "subs")
      case Query => Spells(Command(api), "quer")
      case List => Spells(Command(api), "list")
    ensures Spells(PERSIST, "pers")
  {
  }

  /** What a call writes begins with the command of its function. */
  lemma CommandsSent(r: Repairs, s: State, c: nat)
    requires Reachable(r, s) && c < |s.calls|
    ensures var call := s.calls[c]; var cmd := call.req.frame.cmd;
      match call.req.api
      case Publish => Spells(cmd, "publ") || Spells(cmd, "pers")
      case SetEntity => Spells(cmd, "sete")
      case Unsubscribe => Spells(cmd, "usub")
      case CreateDOT => Spells(cmd, "makd")
      case CreateEntity => Spells(cmd, "make")
      case CreateDOTChain => Spells(cmd, "makc")
      case Subscribe(_) => Spells(cmd, "subs")
      case Query => Spells(cmd, "quer")
      case List => Spells(cmd, "list")
  {
    hide Reachable, Command;
    NumberedHolds(r, s);
    CommandWords(s.calls[c].req.api);
  }
}
