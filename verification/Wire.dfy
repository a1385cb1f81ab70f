/** The bytes on the socket: whole frames in the order in which outlock was held, and at most
    one partial frame behind them, so that the peer reads exactly those frames. */
module Wire {
  import opened Frames
  import opened Codec
  import opened Arrays
  import opened Framing
  import opened Protocol
  import opened Execution
  import opened Sublists
  import opened Basics
  import opened Segments

  predicate Known(s: State) {
    forall k :: 0 <= k < |s.order| ==> s.order[k] < |s.calls|
  }

  /** The frames of the calls that have written, in the order in which they did. */
  function FramesOf(s: State): (fs: seq<Frame>)
    requires Known(s)
    ensures |fs| == |s.order| && forall k :: 0 <= k < |fs| ==> fs[k] == s.calls[s.order[k]].req.frame
  {
    seq(|s.order|, k requires 0 <= k < |s.order| => s.calls[s.order[k]].req.frame)
  }

  function Encodings(fs: seq<Frame>): (es: seq<bytes>)
    ensures |es| == |fs| && forall k :: 0 <= k < |es| ==> es[k] == Encode(fs[k])
  {
    seq(|fs|, k requires 0 <= k < |fs| => Encode(fs[k]))
  }

  /** The call in the middle of bw2_writeFrame. */
  function WriterOf(s: State): Option<nat> {
    if s.outLock.Caller? && s.outLock.c < |s.calls| && s.calls[s.outLock.c].pc.Writing? then Some(s.outLock.c) else None
  }

  /** What the call in the middle of bw2_writeFrame has sent of its frame. */
  function Partial(s: State): bytes {
    match WriterOf(s)
    case None => []
    case Some(c) =>
      var e := Encode(s.calls[c].req.frame);
      if s.calls[c].pc.n <= |e| then e[..s.calls[c].pc.n] else e
  }

  /** A writer is within its frame and, if no send was split, at the beginning of an array. */
  predicate WithinFrame(call: Call, split: bool) {
    call.pc.Writing? ==> call.pc.n <= |Encode(call.req.frame)| && (!split ==> Current(call).0 == call.pc.n)
  }

  predicate HasWritten(pc: Pc) {
    pc.AtUnlockOut? || pc.WantReqsAgain? || pc.AtWithdraw? || Waits(pc) || pc.AtLeave? || pc.AtReturn? || pc.Returned?
  }

  ghost predicate Writers(s: State) {
    && Known(s)
    && (forall c :: 0 <= c < |s.calls| ==> WithinFrame(s.calls[c], s.split))
    && (forall k :: 0 <= k < |s.order| ==> HasWritten(s.calls[s.order[k]].pc))
    && Distinct(s.order)
  }

  /** No write has failed, and each send went on where the last one ended: because it always
      does, or because none was split. */
  predicate Clean(r: Repairs, s: State) {
    !s.cut && (r.advancesSend || !s.split)
  }

  ghost predicate WholeFrames(r: Repairs, s: State)
    requires Known(s)
  {
    Clean(r, s) ==> s.sent == Concat(Encodings(FramesOf(s))) + Partial(s)
  }

  ghost predicate Wire(r: Repairs, s: State) {
    Writers(s) && WholeFrames(r, s)
  }

  lemma {:induction false} EncodingsSnoc(fs: seq<Frame>, f: Frame)
    ensures Concat(Encodings(fs + [f])) == Concat(Encodings(fs)) + Encode(f)
  {
    assert Encodings(fs + [f]) == Encodings(fs) + [Encode(f)];
    ConcatSnoc(Encodings(fs), Encode(f));
  }

  lemma StepWithin(r: Repairs, s: State, c: nat)
    requires c < |s.calls| && CanStep(s, c) && WithinFrame(s.calls[c], s.split)
    ensures WithinFrame(StepCall(r, s, c).calls[c], s.split)
  {
    hide Encode, Remove, ReturnValue, FrameArrays, ArrayAt;
    FirstArray(FrameArrays(s.calls[c].req.frame));
  }

  lemma StepHasWritten(r: Repairs, connected: bool, call: Call)
    ensures HasWritten(call.pc) || call.pc.Writing? ==> HasWritten(NextPc(r, connected, call))
    ensures !(HasWritten(call.pc) && call.pc.Writing?)
  {
    hide ReturnValue;
  }

  lemma {:induction false} StepKeepsWriters(r: Repairs, s: State, c: nat)
    requires Writers(s) && c < |s.calls| && CanStep(s, c)
    ensures Writers(StepCall(r, s, c))
  {
    hide CanStep, NextPc, Remove, WithinFrame, HasWritten;
    var s' := StepCall(r, s, c);
    StepWithin(r, s, c);
    StepHasWritten(r, s.connected, s.calls[c]);
    forall k | 0 <= k < |s.order|
      ensures HasWritten(s'.calls[s.order[k]].pc) && (s.calls[c].pc.Writing? ==> s.order[k] != c)
    {
      assert HasWritten(s.calls[s.order[k]].pc);
    }
  }

  /** A step of a call that neither begins nor ends its write leaves the writer alone. */
  lemma StepKeepsPartial(r: Repairs, s: State, c: nat)
    requires Locks(s) && c < |s.calls| && CanStep(s, c) && !s.calls[c].pc.Writing?
    ensures Partial(StepCall(r, s, c)) == Partial(s)
  {
    hide Encode, Remove, ReturnValue;
  }

  lemma StepKeepsFrames(r: Repairs, s: State, c: nat)
    requires Known(s) && c < |s.calls| && CanStep(s, c) && Known(StepCall(r, s, c))
    ensures var s' := StepCall(r, s, c);
      && s'.cut == s.cut && s'.split == s.split && s'.sent == s.sent
      && FramesOf(s') == FramesOf(s) + if s.calls[c].pc.Writing? then [s.calls[c].req.frame] else []
  {
    hide Encode, Remove, NextPc;
  }

  lemma {:induction false} StepKeepsWholeFrames(r: Repairs, s: State, c: nat)
    requires Locks(s) && Wire(r, s) && c < |s.calls| && CanStep(s, c) && Known(StepCall(r, s, c))
    ensures WholeFrames(r, StepCall(r, s, c))
  {
    hide Encode, Concat, Encodings, StepCall, CanStep, Partial, FramesOf, WithinFrame, Locks, Distinct;
    StepKeepsFrames(r, s, c);
    if s.calls[c].pc.Writing? {
      EncodingsSnoc(FramesOf(s), s.calls[c].req.frame);
      WriteEnds(r, s, c);
    } else {
      assert FramesOf(s) + [] == FramesOf(s);
      StepKeepsPartial(r, s, c);
    }
  }

  lemma WriteEnds(r: Repairs, s: State, c: nat)
    requires Locks(s) && c < |s.calls| && CanStep(s, c) && s.calls[c].pc.Writing? && WithinFrame(s.calls[c], s.split)
    ensures Partial(s) == Encode(s.calls[c].req.frame) && Partial(StepCall(r, s, c)) == []
  {
    hide Encode;
  }

  lemma SendKeepsWriters(r: Repairs, s: State, a: Action)
    requires Writers(s) && Enabled(s, a) && a.Send?
    ensures Writers(Apply(r, s, a))
  {
    hide Encode, CanStep, CanWork, StepCall, WorkDaemon, Taken, FrameArrays, ArrayAt;
    var call := s.calls[a.c];
    FrameArraysConcat(call.req.frame);
    SomethingToSend(call);
    NextArray(FrameArrays(call.req.frame), call.pc.n);
  }

  /** A send puts the next bytes of the frame on the wire, as long as all is clean. */
  lemma TakesNext(r: Repairs, s: State, a: Action)
    requires Writers(s) && Enabled(s, a) && a.Send? && Clean(r, Apply(r, s, a))
    ensures Clean(r, s)
    ensures var n := s.calls[a.c].pc.n;
      Taken(r, s.calls[a.c], a.n) == Encode(s.calls[a.c].req.frame)[n..n + a.n]
  {
    hide Encode, CanStep, CanWork, StepCall, WorkDaemon, FrameArrays, ArrayAt;
  }

  lemma PartialGrows(r: Repairs, s: State, a: Action)
    requires Locks(s) && Enabled(s, a) && a.Send?
    ensures var e, n := Encode(s.calls[a.c].req.frame), s.calls[a.c].pc.n;
      Partial(Apply(r, s, a)) == Partial(s) + e[n..n + a.n]
  {
    hide Encode, CanStep, CanWork, StepCall, WorkDaemon, Taken, Current;
    var e, n := Encode(s.calls[a.c].req.frame), s.calls[a.c].pc.n;
    assert e[..n] + e[n..n + a.n] == e[..n + a.n];
    assert HoldsOut(s.calls[a.c].pc);
  }

  lemma {:induction false} SendsMore(r: Repairs, s: State, a: Action)
    requires Locks(s) && Wire(r, s) && Enabled(s, a) && a.Send? && Known(Apply(r, s, a))
    ensures WholeFrames(r, Apply(r, s, a))
  {
    hide Encode, Concat, CanStep, CanWork, StepCall, WorkDaemon, Writers, Partial, Locks, Taken, Current, Clean;
    var s' := Apply(r, s, a);
    PartialGrows(r, s, a);
    assert FramesOf(s') == FramesOf(s);
    if Clean(r, s') {
      TakesNext(r, s, a);
    }
  }

  lemma {:induction false} WorkKeepsWriters(r: Repairs, s: State, stale: bool)
    requires Writers(s) && CanWork(s)
    ensures Writers(WorkDaemon(r, s, stale))
  {
    hide Treat, NextStage, Hit, Encode, ArrayAt, FrameArrays;
    if Cursor(s).Some? {
      TreatKeeps(s.calls[s.reqs[s.d.i]], s.d.got, s.d.stage);
    }
  }

  lemma {:induction false} WorkKeepsWholeFrames(r: Repairs, s: State, stale: bool)
    requires Locks(s) && Wire(r, s) && CanWork(s) && Known(WorkDaemon(r, s, stale))
    ensures WholeFrames(r, WorkDaemon(r, s, stale))
  {
    hide Treat, NextStage, Hit, Encode, Concat;
    WorkKeeps(r, s, stale);
    var s' := WorkDaemon(r, s, stale);
    assert FramesOf(s') == FramesOf(s);
    if Cursor(s).Some? {
      TreatKeeps(s.calls[s.reqs[s.d.i]], s.d.got, s.d.stage);
    }
  }

  lemma {:induction false} WorkKeepsWire(r: Repairs, s: State, stale: bool)
    requires Locks(s) && Wire(r, s) && CanWork(s)
    ensures Wire(r, WorkDaemon(r, s, stale))
  {
    hide WorkDaemon, CanWork, Locks, WholeFrames;
    WorkKeepsWriters(r, s, stale);
    WorkKeepsWholeFrames(r, s, stale);
  }

  lemma OthersKeepWriters(r: Repairs, s: State, a: Action)
    requires Writers(s) && Enabled(s, a) && !a.Send? && !a.Step? && !a.Work?
    ensures Writers(Apply(r, s, a))
  {
    hide Encode, CanStep, CanWork, StepCall, WorkDaemon, Current, Taken;
  }

  lemma {:induction false} OthersKeepWholeFrames(r: Repairs, s: State, a: Action)
    requires Locks(s) && Wire(r, s) && Enabled(s, a) && !a.Send? && !a.Step? && !a.Work? && Known(Apply(r, s, a))
    ensures WholeFrames(r, Apply(r, s, a))
  {
    hide Encode, Concat, CanStep, CanWork, StepCall, WorkDaemon, WithinFrame, HasWritten, Taken, Current, Distinct;
    assert FramesOf(Apply(r, s, a)) == FramesOf(s);
  }

  lemma {:induction false} OthersKeepWire(r: Repairs, s: State, a: Action)
    requires Locks(s) && Wire(r, s) && Enabled(s, a) && !a.Send? && !a.Step? && !a.Work?
    ensures Wire(r, Apply(r, s, a))
  {
    hide Apply, Enabled, Locks, WholeFrames;
    OthersKeepWriters(r, s, a);
    OthersKeepWholeFrames(r, s, a);
  }

  lemma {:induction false} WireKept(r: Repairs, s: State, a: Action)
    requires Basic(r, s) && Wire(r, s) && Enabled(s, a)
    ensures Wire(r, Apply(r, s, a))
  {
    hide Times, Wire;
    match a
    case Step(c) =>
      hide StepCall, CanStep, Locks, Listed;
      StepKeepsWire(r, s, c);
    case Work(stale) =>
      hide WorkDaemon, CanWork, Locks, Listed;
      WorkKeepsWire(r, s, stale);
    case Send(_, _) =>
      hide Apply, Enabled, Locks, Listed;
      SendKeepsWire(r, s, a);
    case _ =>
      hide Apply, Enabled, Locks, Listed;
      OthersKeepWire(r, s, a);
  }

  lemma {:induction false} SendKeepsWire(r: Repairs, s: State, a: Action)
    requires Locks(s) && Wire(r, s) && Enabled(s, a) && a.Send?
    ensures Wire(r, Apply(r, s, a))
  {
    hide Apply, Enabled, Locks, WholeFrames;
    SendKeepsWriters(r, s, a);
    SendsMore(r, s, a);
  }

  lemma StepKeepsWire(r: Repairs, s: State, c: nat)
    requires Locks(s) && Wire(r, s) && c < |s.calls| && CanStep(s, c)
    ensures Wire(r, StepCall(r, s, c))
  {
    hide StepCall, CanStep, Locks, WholeFrames;
    StepKeepsWriters(r, s, c);
    StepKeepsWholeFrames(r, s, c);
  }

  lemma WireHolds(r: Repairs, s: State)
    requires Reachable(r, s)
    ensures Basic(r, s) && Wire(r, s)
  {
    hide Apply, Enabled, Basic, Wire;
    WireStarts(r);
    forall t, a | Basic(r, t) && Wire(r, t) && Enabled(t, a)
      ensures Basic(r, Apply(r, t, a)) && Wire(r, Apply(r, t, a))
    {
      BasicKept(r, t, a);
      WireKept(r, t, a);
    }
    Preserved(r, t => Basic(r, t) && Wire(r, t), Init(r), s);
  }

  lemma WireStarts(r: Repairs)
    ensures Basic(r, Init(r)) && Wire(r, Init(r))
  {
    assert Encodings([]) == [];
    assert FramesOf(Init(r)) == [];
  }

  /** Writes of concurrent calls do not mix: until a write fails or a split send starts over,
      the bytes on the socket are the whole frames of the calls that held outlock, in that
      order and each once, and then what the present writer has sent of its own. */
  lemma FramesAreWhole(r: Repairs, s: State)
    requires Reachable(r, s) && !s.cut && (r.advancesSend || !s.split)
    ensures Known(s) && Distinct(s.order)
    ensures s.sent == Concat(Encodings(FramesOf(s))) + Partial(s)
    ensures WriterOf(s).Some? ==> WriterOf(s).value !in s.order
  {
    hide Reachable, Basic, Encode;
    WireHolds(r, s);
  }

  /** As written, a frame whose header goes out in two sends begins with its first byte twice. */
  lemma RestartGarbles(r: Repairs) returns (s: State)
    requires !r.advancesSend
    ensures Reachable(r, s) && !s.cut && Known(s) && s.sent != Concat(Encodings(FramesOf(s))) + Partial(s)
  {
    hide Leads, FrameArrays, ArrayAt, Encode, Partial, Known;
    s := SendsTwice(r);
    GarbledTwice(s, Encode(s.calls[0].req.frame));
  }

  /** One call, about to send its frame. */
  lemma OneWriting(r: Repairs) returns (s: State)
    ensures Reachable(r, s) && !s.cut && |s.calls| == 1 && s.outLock == Caller(0) && s.order == [] && s.sent == []
    ensures s.calls[0].pc == Writing(0) && s.calls[0].req.frame == Frame(PUBLISH, 0, NO_ITEMS)
  {
    hide Leads, Encode;
    var s1 := OneLinked(r, Publish, false);
    Moves(r, Init(r), s1, 0);
    s := StepCall(r, s1, 0);
  }

  lemma SendsTwice(r: Repairs) returns (s: State)
    requires !r.advancesSend
    ensures Reachable(r, s) && !s.cut && |s.calls| == 1 && s.outLock == Caller(0) && s.order == []
    ensures s.calls[0].pc == Writing(2) && s.calls[0].req.frame == Frame(PUBLISH, 0, NO_ITEMS)
    ensures var e := Encode(s.calls[0].req.frame); |e| > 2 && e[0] != e[1] && s.sent == [e[0], e[0]]
  {
    hide Leads, FrameArrays, ArrayAt, Encode, FrameHeader;
    var s2 := OneWriting(r);
    TwoBytes(s2.calls[0].req.frame);
    SendsFirst(r, s2, 0);
    var s3 := SentFirst(s2, 0);
    Join(r, Init(r), s2, s3);
    SendsFirst(r, s3, 1);
    s := SentFirst(s3, 1);
    Join(r, Init(r), s3, s);
  }

  /** The state after `s` in which one more send has taken the first byte of the frame. */
  function SentFirst(s: State, n: nat): State
    requires |s.calls| == 1 && Encode(s.calls[0].req.frame) != []
  {
    s.(calls := [s.calls[0].(pc := Writing(n + 1))], sent := s.sent + [Encode(s.calls[0].req.frame)[0]], split := true)
  }

  lemma SendsFirst(r: Repairs, s: State, n: nat)
    requires !r.advancesSend && n < 2 && |s.calls| == 1 && s.calls[0].pc == Writing(n)
    requires s.calls[0].req.frame == Frame(PUBLISH, 0, NO_ITEMS) && Encode(s.calls[0].req.frame) != []
    ensures Leads(r, s, SentFirst(s, n))
  {
    hide Leads, FrameArrays, ArrayAt, Encode;
    TwoBytes(s.calls[0].req.frame);
    Stay(r, s);
    Then(r, s, s, Send(0, 1));
    assert Apply(r, s, Send(0, 1)) == SentFirst(s, n);
  }

  lemma GarbledTwice(s: State, e: bytes)
    requires |s.calls| == 1 && s.outLock == Caller(0) && s.order == [] && s.calls[0].pc == Writing(2)
    requires e == Encode(s.calls[0].req.frame) && |e| > 2 && e[0] != e[1] && s.sent == [e[0], e[0]]
    ensures Known(s) && s.sent != Concat(Encodings(FramesOf(s))) + Partial(s)
  {
    hide Encode;
    assert FramesOf(s) == [] && Encodings([]) == [];
    assert Partial(s) == e[..2];
    assert Concat(Encodings(FramesOf(s))) + Partial(s) == e[..2];
    assert s.sent[1] == e[0] && e[..2][1] == e[1];
  }

  lemma TwoBytes(f: Frame)
    requires f == Frame(PUBLISH, 0, NO_ITEMS)
    ensures |Encode(f)| > 2 && Encode(f)[0] != Encode(f)[1]
    ensures 2 < |FrameHeader(f)| <= |Encode(f)|
    ensures forall n: nat :: n < 2 ==> ArrayAt(FrameArrays(f), n) == (0, |FrameHeader(f)|)
  {
    hide SeqnoText, Codec.ItemsLength;
    var h := FrameHeader(f);
    assert h[0] == PUBLISH[0] && h[1] == PUBLISH[1];
    assert FrameArrays(f)[0] == h;
  }

  /** The bytes of concurrent calls are whole frames in every run without a failed write if and
      only if each send goes on where the last one ended. */
  lemma FramesAreWholeExactly(r: Repairs)
    ensures (forall s :: Reachable(r, s) && !s.cut ==>
               Known(s) && s.sent == Concat(Encodings(FramesOf(s))) + Partial(s))
            <==> r.advancesSend
  {
    hide Reachable, Encode, Concat, Partial;
    if r.advancesSend {
      forall s | Reachable(r, s) && !s.cut ensures Known(s) && s.sent == Concat(Encodings(FramesOf(s))) + Partial(s) {
        FramesAreWhole(r, s);
      }
    } else {
      var s := RestartGarbles(r);
    }
  }

  /** What the peer makes of the bytes, if it reads the format as bw2_readFrame does with room
      for every frame: exactly the frames written, in the order in which outlock was held. */
  lemma {:induction false} PeerReadsTheFrames(r: Repairs, s: State, b: Build, h: Heap, broken: bool)
    requires Reachable(r, s) && !s.cut && (r.advancesSend || !s.split)
    requires forall c :: 0 <= c < |s.calls| ==> Readable(b, h, s.calls[c].req.frame)
    ensures Known(s)
    ensures var frames := FramesOf(s); var writer := WriterOf(s);
      ReadAll(b, h, s.sent, broken) ==
        if writer.Some? && Partial(s) == Encode(s.calls[writer.value].req.frame)
        then frames + [s.calls[writer.value].req.frame] else frames
  {
    hide Reachable, Basic, Encode, Concat, ReadAll, Readable;
    FramesAreWhole(r, s);
    var fs, writer := FramesOf(s), WriterOf(s);
    if writer.None? {
      OnlyWholeFrames(b, h, fs, broken);
      assert Concat(Encodings(fs)) + [] == Concat(Encodings(fs));
    } else {
      var f := s.calls[writer.value].req.frame;
      if Partial(s) == Encode(f) {
        EncodingsSnoc(fs, f);
        OnlyWholeFrames(b, h, fs + [f], broken);
      } else {
        StreamRoundTrip(b, h, Encodings(fs), fs, f, s.calls[writer.value].pc.n, broken);
      }
    }
  }

  lemma {:induction false} OnlyWholeFrames(b: Build, h: Heap, fs: seq<Frame>, broken: bool)
    requires forall k :: 0 <= k < |fs| ==> Readable(b, h, fs[k])
    ensures ReadAll(b, h, Concat(Encodings(fs)), broken) == fs
  {
    hide Encode, Readable;
    forall k | 0 <= k < |fs| ensures ReadsAs(b, h, Encodings(fs)[k], fs[k], broken) {
      ReadableFrameReads(b, h, fs[k], broken);
    }
    hide ReadsAs;
    WholeFramesFirst(b, h, Encodings(fs), fs, [], broken);
    assert Concat(Encodings(fs)) + [] == Concat(Encodings(fs));
    NothingToRead(b, h, broken);
  }

  lemma NothingToRead(b: Build, h: Heap, broken: bool)
    ensures ReadAll(b, h, [], broken) == []
  {
  }

  /** While a call is in the middle of its frame, nobody but that call closes the connection:
      bw2_disconnect and the daemon take outlock for it. */
  lemma NobodyClosesUnderAWriter(r: Repairs, s: State, c: nat, a: Action)
    requires Reachable(r, s) && c < |s.calls| && s.calls[c].pc.Writing? && Enabled(s, a)
    requires s.connected && !Apply(r, s, a).connected
    ensures a == Fail(c, true)
  {
    hide Reachable, Encode, Taken, Current, Treat, NextStage, Listed, Times, Sending, Frame.Received, Classify;
    BasicHolds(r, s);
    assert s.outLock == Caller(c);
  }
}
