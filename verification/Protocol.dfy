/** The request protocol of the client as a transition system: any number of API calls, each
    with its own program counter, and the daemon thread, sharing the request list, the
    connection flag and the socket. Every action below is one step between two points where
    another thread may run. A critical section on a lock under which no other lock is taken
    and nobody waits (the sequence-number lock, bw2_disconnect, and the daemon's use of a
    request's own lock) is one step, enabled when the lock is free. */
module Protocol {
  import opened Frames
  import opened Codec
  import opened Arrays

  /** The places where the code departs from what it is evidently for, one flag each; a flag
      that is true stands for the code with that one place put right. */
  datatype Repairs = Repairs(
    connectFirst: bool,     // api.c:300-305 starts the daemon before it sets `connected`
    sweepAdvances: bool,    // daemon.c:66-69 never moves on from the first request
    judgesFirst: bool,      // api.c:459-460, 490-491, 576-577 read `rv` after signalling
    unlinksFailed: bool,    // daemon.c:133-138 leaves a request linked when its write failed
    checksTransact: bool,   // api.c:537-538 waits even if bw2_transact failed
    returnsLocal: bool,     // api.c:520, 602, 671, 731, 774, 883 return a `rv` nobody may have set
    advancesSend: bool)     // utils.c:188 always sends from the start of the array

  /** The calls of the API that make a request. */
  datatype Api =
    | Publish | SetEntity | Unsubscribe | CreateDOT | CreateEntity | CreateDOTChain
    | Subscribe(handle: bool) | Query | List

  /** The command of the frame that the function sends. */
  function Command(api: Api): (cmd: bytes)
    ensures |cmd| == 4
  {
    match api
    case Publish => PUBLISH
    case SetEntity => SET_ENTITY
    case Unsubscribe => UNSUBSCRIBE
    case CreateDOT => MAKE_DOT
    case CreateEntity => MAKE_ENTITY
    case CreateDOTChain => MAKE_CHAIN
    case Subscribe(_) => SUBSCRIBE
    case Query => QUERY
    case List => LIST
  }

  predicate IsStream(api: Api) {
    api.Subscribe? || api.Query? || api.List?
  }

  /** The functions a request's `onframe` may point to. */
  datatype Handler = OneShotCb | SubscribeCb | StreamCb

  function FirstHandler(api: Api): Handler {
    if api.Subscribe? then SubscribeCb else if IsStream(api) then StreamCb else OneShotCb
  }

  /** A received frame and what the client computes from it. */
  datatype Reply = Reply(frame: Frame, seqno: int, final: bool, status: int, handle: bool)

  function Classify(f: Frame): Reply {
    Reply(f, f.seqno, IsFinal(f), MustResponse(f), HasHandle(f))
  }

  /** What is fixed when a call begins. */
  datatype Request = Request(
    api: Api,
    listener: bool,          // the user's callback is not NULL
    quit: Option<nat>,       // which of its invocations is the first to return true
    drawn: nat,              // how many sequence numbers were drawn before
    frame: Frame)
  {
    function Seqno(): nat {
      SeqNo(drawn)
    }

    /** The frame has the number that was drawn and the command of the function; bw2_publish has
        a second one. */
    predicate Sendable() {
      frame.seqno == Seqno() && (frame.cmd == Command(api) || (api.Publish? && frame.cmd == PERSIST))
    }

    /** What the callback stores in `rv` for a frame taken as the response. */
    function Verdict(r: Reply): int {
      if r.status == 0 && api == Subscribe(true) && !r.handle then ERROR_MISSING_HEADER else r.status
    }

    /** The user's callback returns true for its `k`-th message. */
    predicate Quits(k: int) {
      listener && quit.Some? && quit.value == k
    }

    /** Nothing more is to be heard after `heard`: no stream was opened by its first frame,
        or one of the frames was final, or the user's callback returned true. */
    predicate Ends(heard: seq<Reply>) {
      && heard != []
      && (|| !IsStream(api)
          || Verdict(heard[0]) != 0
          || (exists k :: 0 <= k < |heard| && heard[k].final)
          || (listener && quit.Some? && quit.value < |heard| - 1))
    }
  }

  /** An invocation of a user's callback: with a message, or for the lost connection. */
  datatype Event = Message(r: Reply) | Lost

  datatype Pc =
    | WantReqs              // daemon.c:118
    | AtTest                // daemon.c:120, holding reqslock
    | AtLink                // daemon.c:125, holding reqslock
    | AtUnlock(ok: bool)    // daemon.c:121 or 127, holding reqslock
    | WantOut               // daemon.c:130
    | Writing(n: nat)       // daemon.c:131, holding outlock, `n` bytes of the frame sent
    | AtUnlockOut(v: int)   // daemon.c:137 or 141, holding outlock
    | WantReqsAgain         // the repaired failure path: take the request off the list again
    | AtWithdraw            // holding reqslock
    | WantLock              // daemon.c:158, or coming out of the condition wait
    | AtReady               // daemon.c:159, holding the request's lock
    | AtWait                // daemon.c:160, holding the request's lock, `ready` found false
    | Parked(woken: bool)   // in the condition wait, lock released
    | AtLeave               // daemon.c:162, holding the request's lock
    | AtReturn(failed: Option<int>)
    | Returned(v: int)

  /** One API call and its request context. The last six fields are history: how many frames
      the daemon had dispatched when the request was linked and when it was withdrawn, whether
      bw2_transact has returned an error, the frames its callbacks were run on, whether one was
      run for the lost connection while the stream was open, and the invocations of the user's
      callback. */
  datatype Call = Call(
    req: Request,
    pc: Pc,
    ready: bool,
    rv: int,
    handler: Handler,
    since: Option<nat>,
    until: Option<nat>,
    refused: bool,
    heard: seq<Reply>,
    lost: bool,
    trace: seq<Event>)
  {
    /** A stream whose user still expects frames. */
    predicate Open() {
      heard != [] && !req.Ends(heard)
    }

    /** The memory of the request may be reused: its call has returned, and it is not the
        context of a stream whose user still expects frames. */
    predicate Gone() {
      pc.Returned? && (!Open() || lost)
    }
  }

  const SEQNOS: nat := 0x8000_0000

  /** _bw2_getSeqNo: the counter after `n` draws from zero. */
  function SeqNo(n: nat): nat {
    n % SEQNOS
  }

  datatype Owner = Free | Daemon | Caller(c: nat)

  /** Where the daemon is in its treatment of one request. */
  datatype Stage =
    | Look                  // comparing the sequence number, or about to sweep the request
    | Run                   // `rv` set, about to run `onframe`
    | Deliver               // in a streaming callback that found `ready` true
    | Respond               // in a callback that takes the frame for the response
    | Signal(stop: bool)    // about to signal; `stop` is what the callback will return
    | Judge                 // as written: signalled, about to read `rv` for its result
    | After(stop: bool)     // the callback has returned

  datatype DaemonPc =
    | AtRead                                                // daemon.c:47
    | DWantReqs(got: Option<Reply>)                         // daemon.c:49
    | DAtTest(got: Option<Reply>)                           // daemon.c:54, holding reqslock
    | DWantOut                                              // daemon.c:58, holding reqslock
    | AtClose                                               // daemon.c:59, holding both
    | DAtUnlockOut                                          // daemon.c:63, holding both
    | Walk(got: Option<Reply>, i: nat, stage: Stage)        // daemon.c:66-99, holding reqslock
    | Exited

  datatype State = State(
    connected: bool,
    starting: bool,         // bw2_connect has yet to set `connected`
    reqsLock: Owner,
    outLock: Owner,
    reqs: seq<nat>,         // client->reqs, head first
    calls: seq<Call>,       // all calls ever made
    draws: nat,
    d: DaemonPc,
    walked: seq<Reply>,     // the frames dispatched so far
    sent: bytes,            // the bytes put on the socket
    order: seq<nat>,        // the calls whose frames are fully sent, in that order
    cut: bool,              // some write has failed
    severed: bool,          // a failed write has closed the connection
    split: bool)            // some send has taken a part of its array only

  datatype Action =
    | Connected                                                   // api.c:305
    | Disconnect                                                  // bw2_disconnect
    | Draw                                                        // a call that returns before its request
    | Begin(req: Request, junk: int)                              // `junk` is what `rv` held before
    | Step(c: nat)                                                // the next step of a call
    | Send(c: nat, n: nat)                                        // one send takes `n` bytes
    | Fail(c: nat, listed: bool)                                  // a send fails
    | Read(got: Option<Reply>)                                    // bw2_readFrame returns
    | Work(stale: bool)                                           // the next step of the daemon

  function Init(r: Repairs): State {
    State(r.connectFirst, !r.connectFirst, Free, Free, [], [], 0, AtRead, [], [], [], false, false, false)
  }

  function NewCall(req: Request, junk: int): Call {
    Call(req, WantReqs, false, junk, FirstHandler(req.api), None, None, false, [], false, [])
  }

  // ---------- calls ----------

  predicate HoldsReqs(pc: Pc) {
    pc.AtTest? || pc.AtLink? || pc.AtUnlock? || pc.AtWithdraw?
  }

  predicate HoldsOut(pc: Pc) {
    pc.Writing? || pc.AtUnlockOut?
  }

  /** The call holds the lock of its own request. */
  predicate HoldsOwn(pc: Pc) {
    pc.AtReady? || pc.AtWait? || pc.AtLeave?
  }

  predicate CanStep(s: State, c: nat)
    requires c < |s.calls|
  {
    var call := s.calls[c];
    match call.pc
    case WantReqs => s.reqsLock.Free?
    case WantReqsAgain => s.reqsLock.Free?
    case WantOut => s.outLock.Free?
    case Writing(n) => n >= |Encode(call.req.frame)|
    case Returned(_) => false
    case _ => true
  }

  /** Where a call goes once bw2_transact has returned an error. */
  function AfterFailure(r: Repairs, api: Api): Pc {
    if api.Query? && !r.checksTransact then WantLock else AtReturn(Some(ERROR_CONNECTION_LOST))
  }

  /** The value an API function returns: publish and setEntity return bw2_transact's error,
      the others return the context's `rv` in any case. */
  function ReturnValue(r: Repairs, call: Call, failed: Option<int>): int {
    if failed.Some? && (r.returnsLocal || call.req.api.Publish? || call.req.api.SetEntity?) then failed.value
    else call.rv
  }

  function Remove(reqs: seq<nat>, c: nat): seq<nat> {
    if reqs == [] then []
    else if reqs[0] == c then reqs[1..]
    else [reqs[0]] + Remove(reqs[1..], c)
  }

  function NextPc(r: Repairs, connected: bool, call: Call): Pc {
    match call.pc
    case WantReqs => AtTest
    case AtTest => if connected then AtLink else AtUnlock(false)
    case AtLink => AtUnlock(true)
    case AtUnlock(ok) => if ok then WantOut else AfterFailure(r, call.req.api)
    case WantOut => Writing(0)
    case Writing(_) => AtUnlockOut(0)
    case AtUnlockOut(v) =>
      if v == 0 then WantLock else if r.unlinksFailed then WantReqsAgain else AfterFailure(r, call.req.api)
    case WantReqsAgain => AtWithdraw
    case AtWithdraw => AfterFailure(r, call.req.api)
    case WantLock => AtReady
    case AtReady => if call.ready then AtLeave else AtWait
    case AtWait => Parked(false)
    case Parked(_) => WantLock
    case AtLeave => AtReturn(None)
    case AtReturn(failed) => Returned(ReturnValue(r, call, failed))
    case Returned(v) => Returned(v)
  }

  function StepCall(r: Repairs, s: State, c: nat): State
    requires c < |s.calls|
  {
    var call := s.calls[c];
    var pc := call.pc;
    s.(
    calls := s.calls[c := call.(
                          pc := NextPc(r, s.connected, call),
                          since := if pc.AtLink? then Some(|s.walked|) else call.since,
                          until := if pc.AtWithdraw? then Some(|s.walked|) else call.until,
                          refused := call.refused || pc == AtUnlock(false) || (pc.AtUnlockOut? && pc.v != 0))],
    reqs := if pc.AtLink? then [c] + s.reqs else if pc.AtWithdraw? then Remove(s.reqs, c) else s.reqs,
    order := if pc.Writing? then s.order + [c] else s.order,
    reqsLock := (match pc
                 case WantReqs => Caller(c)
                 case WantReqsAgain => Caller(c)
                 case AtUnlock(_) => Free
                 case AtWithdraw => Free
                 case _ => s.reqsLock),
    outLock := if pc.WantOut? then Caller(c) else if pc.AtUnlockOut? then Free else s.outLock)
  }

  // ---------- the daemon ----------

  predicate DHoldsReqs(d: DaemonPc) {
    d.DAtTest? || d.DWantOut? || d.AtClose? || d.DAtUnlockOut? || d.Walk?
  }

  predicate DHoldsOut(d: DaemonPc) {
    d.AtClose? || d.DAtUnlockOut?
  }

  /** The request's own lock is needed to ask whether it was signalled, and to signal it. */
  predicate NeedsOwn(call: Call, stage: Stage) {
    stage.Signal? || (stage.Run? && call.handler.StreamCb?)
  }

  predicate CanWork(s: State) {
    match s.d
    case AtRead => false
    case DWantReqs(_) => s.reqsLock.Free?
    case DWantOut => s.outLock.Free?
    case Walk(_, i, stage) =>
      && (stage.Look? || i < |s.reqs|)
      && (i < |s.reqs| ==> s.reqs[i] < |s.calls|)
      && (i < |s.reqs| && NeedsOwn(s.calls[s.reqs[i]], stage) ==> !HoldsOwn(s.calls[s.reqs[i]].pc))
    case Exited => false
    case _ => true
  }

  /** bw2_reqctxSignal wakes the caller if it is parked. */
  function Signalled(call: Call): Call {
    call.(ready := true, pc := if call.pc.Parked? then Parked(true) else call.pc)
  }

  /** The trace after one more invocation of the user's callback, if there is one. */
  function Told(call: Call, e: Event): seq<Event> {
    if call.req.listener then call.trace + [e] else call.trace
  }

  /** The request is treated: its sequence number matches, or the daemon is sweeping. */
  predicate Hit(call: Call, got: Option<Reply>) {
    got.None? || call.req.Seqno() == got.value.seqno
  }

  /** One step on the request under the cursor. */
  function Treat(call: Call, got: Option<Reply>, stage: Stage): Call {
    match stage
    case Look => if !Hit(call, got) then call else call.(rv := if got.Some? then 0 else ERROR_CONNECTION_LOST)
    case Deliver =>
      (match got
       case Some(f) => call.(heard := call.heard + [f], trace := Told(call, Message(f)))
       case None => call.(lost := true, trace := Told(call, Lost)))
    case Respond =>
      var call := call.(handler := if call.handler.SubscribeCb? then StreamCb else call.handler);
      (match got
       case Some(f) => call.(rv := call.req.Verdict(f), heard := call.heard + [f])
       case None => call)
    case Signal(_) => Signalled(call)
    case _ => call
  }

  /** Where the daemon goes after that step, if it stays with the request. As written, a
      streaming callback reads `rv` back from a request that it has signalled; `stale` is
      what that memory may hold by then. */
  function NextStage(r: Repairs, call: Call, got: Option<Reply>, stage: Stage, stale: bool): Stage {
    match stage
    case Look => Run
    case Run => if call.handler.StreamCb? && call.ready then Deliver else Respond
    case Deliver => After(got.None? || call.req.Quits(|call.heard| - 1))
    case Respond => Signal(call.handler.OneShotCb? || Treat(call, got, stage).rv != 0)
    case Signal(stop) => if r.judgesFirst || call.handler.OneShotCb? then After(stop) else Judge
    case Judge => After(if call.Gone() then stale else call.rv != 0)
    case After(stop) => After(stop)
  }

  /** The daemon is about to take the request under the cursor off the list. */
  predicate Unlinks(d: DaemonPc) {
    d.Walk? && d.stage.After? && d.got.Some? && (d.got.value.final || d.stage.stop)
  }

  function NextD(r: Repairs, s: State, stale: bool): DaemonPc
    requires CanWork(s)
  {
    match s.d
    case AtRead => AtRead
    case DWantReqs(got) => DAtTest(got)
    case DAtTest(got) => if got.None? || !s.connected then DWantOut else Walk(got, 0, Look)
    case DWantOut => AtClose
    case AtClose => DAtUnlockOut
    case DAtUnlockOut => Walk(None, 0, Look)
    case Exited => Exited
    case Walk(got, i, stage) =>
      if i >= |s.reqs| then (if got.Some? then AtRead else Exited)
      else
        var call := s.calls[s.reqs[i]];
        if stage.After? then
          Walk(got, if Unlinks(s.d) || (got.None? && !r.sweepAdvances) then i else i + 1, Look)
        else if stage.Look? && !Hit(call, got) then Walk(got, i + 1, Look)
        else Walk(got, i, NextStage(r, call, got, stage, stale))
  }

  /** The call whose request is under the daemon's cursor. */
  function Cursor(s: State): Option<nat> {
    if s.d.Walk? && s.d.i < |s.reqs| then Some(s.reqs[s.d.i]) else None
  }

  function WorkDaemon(r: Repairs, s: State, stale: bool): State
    requires CanWork(s)
  {
    var d := s.d;
    var d' := NextD(r, s, stale);
    var cursor := Cursor(s);
    s.(
    d := d',
    calls := if cursor.None? then s.calls
    else s.calls[cursor.value := Treat(s.calls[cursor.value], d.got, d.stage)],
    reqs := if d'.Exited? then [] else if cursor.Some? && Unlinks(d) then s.reqs[..d.i] + s.reqs[d.i + 1..] else s.reqs,
    walked := if d.DAtTest? && d'.Walk? then s.walked + [d.got.value] else s.walked,
    connected := s.connected && !d.AtClose?,
    reqsLock := if d.DWantReqs? then Daemon else if cursor.None? && d.Walk? then Free else s.reqsLock,
    outLock := if d.DWantOut? then Daemon else if d.DAtUnlockOut? then Free else s.outLock)
  }

  // ---------- runs ----------

  /** Where the array that the call is sending begins and ends in its frame. */
  function Current(call: Call): (r: (nat, nat))
    requires call.pc.Writing?
    ensures r.0 <= call.pc.n <= r.1
  {
    ArrayAt(FrameArrays(call.req.frame), call.pc.n)
  }

  /** What one send puts on the socket: the next `n` bytes of the array or, as written, its
      first `n` bytes. */
  function Taken(r: Repairs, call: Call, n: nat): bytes
    requires call.pc.Writing? && call.pc.n + n <= |Encode(call.req.frame)|
  {
    var from := if r.advancesSend then call.pc.n else Current(call).0;
    Encode(call.req.frame)[from..from + n]
  }

  predicate CanSend(call: Call, n: nat) {
    call.pc.Writing? && 1 <= n && call.pc.n + n <= Current(call).1 <= |Encode(call.req.frame)|
  }

  predicate CanFail(call: Call) {
    call.pc.Writing? && call.pc.n < |Encode(call.req.frame)|
  }

  /** The actions that are neither a step of a call nor one of the daemon. */
  predicate CanHappen(s: State, a: Action) {
    match a
    case Connected => s.starting
    case Disconnect => s.outLock.Free?
    case Draw => true
    case Begin(req, _) => req.drawn == s.draws && req.Sendable()
    case Send(c, n) => c < |s.calls| && CanSend(s.calls[c], n)
    case Fail(c, _) => c < |s.calls| && CanFail(s.calls[c])
    case Read(got) =>
      s.d.AtRead? && (got.Some? ==> got.value == Classify(got.value.frame) && got.value.frame.Received())
    case _ => false
  }

  /** A call in the middle of a write, after a send that took some bytes or failed. */
  function AfterSend(call: Call, a: Action): Call
    requires a.Send? || a.Fail?
    requires a.Send? ==> call.pc.Writing?
  {
    call.(pc := if a.Send? then Writing(call.pc.n + a.n)
    else AtUnlockOut(if a.listed then ERROR_CONNECTION_LOST else 0))
  }

  function Happens(r: Repairs, s: State, a: Action): State
    requires CanHappen(s, a)
  {
    s.(
    connected := (s.connected || a.Connected?) && !a.Disconnect? && !(a.Fail? && a.listed),
    starting := s.starting && !a.Connected?,
    draws := if a.Draw? || a.Begin? then s.draws + 1 else s.draws,
    calls := if a.Begin? then s.calls + [NewCall(a.req, a.junk)]
    else if a.Send? || a.Fail? then s.calls[a.c := AfterSend(s.calls[a.c], a)]
    else s.calls,
    d := if a.Read? then DWantReqs(a.got) else s.d,
    sent := if a.Send? then s.sent + Taken(r, s.calls[a.c], a.n) else s.sent,
    split := s.split || (a.Send? && s.calls[a.c].pc.n + a.n < Current(s.calls[a.c]).1),
    cut := s.cut || a.Fail?,
    severed := s.severed || (a.Fail? && a.listed))
  }

  predicate Enabled(s: State, a: Action) {
    match a
    case Step(c) => c < |s.calls| && CanStep(s, c)
    case Work(_) => CanWork(s)
    case _ => CanHappen(s, a)
  }

  function Apply(r: Repairs, s: State, a: Action): State
    requires Enabled(s, a)
  {
    match a
    case Step(c) => StepCall(r, s, c)
    case Work(stale) => WorkDaemon(r, s, stale)
    case _ => Happens(r, s, a)
  }

  /** The actions can be taken one after the other. */
  predicate Runs(r: Repairs, s: State, trace: seq<Action>)
    decreases |trace|
  {
    trace == [] || (Enabled(s, trace[0]) && Runs(r, Apply(r, s, trace[0]), trace[1..]))
  }

  function Outcome(r: Repairs, s: State, trace: seq<Action>): State
    requires Runs(r, s, trace)
    decreases |trace|
  {
    if trace == [] then s else Outcome(r, Apply(r, s, trace[0]), trace[1..])
  }

  /** Some run goes from `s` to `t`. */
  ghost predicate Leads(r: Repairs, s: State, t: State) {
    exists trace :: Runs(r, s, trace) && Outcome(r, s, trace) == t
  }

  ghost predicate Reachable(r: Repairs, s: State) {
    Leads(r, Init(r), s)
  }
}
