/** The tasks sharing one WebSocket, as a step machine. Each step is one stretch of code
    between two awaits: senders inside _send_request, the reader, the keepalive task, any
    number of close() calls, and the receive loop consuming requests(). Steps of different
    tasks interleave freely, and any task may be cancelled at any time. */
module WsProtocol {
  import opened WsMux

  /** How a call ended: a response, "websocket closed", an error raised by conn.send, or cancellation. */
  datatype CallEnd = Returned(resp: WsResponse) | SocketGone | SendRaised | CallCancelled

  /** A _send_request call: suspended in conn.send, suspended on its future, or over. */
  datatype Phase = Sending | Waiting | Ended(end: CallEnd)

  /** cancel: a cancellation is on its way. History: how many frames had been read when the
      call registered, and whether the reader had already finished by then. */
  datatype Call = Call(phase: Phase, cancel: bool, bornAt: nat, late: bool)

  datatype TaskEnd = Normal | Died | Stopped
  datatype Reader = Reading(cancel: bool) | ReaderOver(end: TaskEnd)
  datatype Keepalive = Off | Unstarted(cancel: bool) | Asleep(cancel: bool) | Calling(rid: nat) | KeepaliveOver(end: TaskEnd)

  /** The receive loop; last marks an ack sent while a cancellation is unwinding. */
  datatype Consumer = Idle | Handling(req: WsRequest) | Acking(req: WsRequest, last: bool) | Finished | Abandoned

  datatype Closer = AwaitReader | AwaitKeepalive | ClosingSocket | CloseReturned | CloseRaised

  datatype Event = Started(req: WsRequest) | Acked(id: nat, status: int)

  datatype State = State(
    mux: Mux,
    calls: map<nat, Call>,
    reader: Reader,
    keepalive: Keepalive,
    consumer: Consumer,
    closers: map<nat, Closer>,
    // history
    frames: seq<Frame>,        // everything the reader has read
    consumed: seq<WsRequest>,  // what requests() has yielded
    log: seq<Event>)           // handling started and ack attempted, in order

  datatype CallStep = Start | SendOk(rid: nat) | SendFail(rid: nat) | SendStop(rid: nat) | Resume(rid: nat) | Interrupt(rid: nat)
  datatype ReaderStep = Read(frame: Frame) | SocketEnd | StopNow | InterruptReader
  datatype KeepaliveStep = Run | InterruptKeepalive
  datatype ConsumerStep = TakeItem | HandlerDone(raised: bool) | AckDone(failed: bool) | InterruptConsumer
  datatype CloserStep = Begin(closer: nat) | Advance(closer: nat)

  datatype Step =
    | Sender(call: CallStep)
    | ReaderTask(read: ReaderStep)
    | KeepaliveTask(tick: KeepaliveStep)
    | ConsumerTask(consume: ConsumerStep)
    | CloserTask(close: CloserStep)

  function Init(withKeepalive: bool): State {
    State(FRESH, map[], Reading(false), if withKeepalive then Unstarted(false) else Off, Idle, map[], [], [], [])
  }

  function FutureOf(s: State, rid: nat): FutureState {
    if rid in s.mux.futures then s.mux.futures[rid] else Pending
  }

  predicate Live(s: State, rid: nat) {
    rid in s.calls && !s.calls[rid].phase.Ended?
  }

  predicate CallEnabled(s: State, step: CallStep) {
    match step
    case Start => true
    case SendOk(rid) => rid in s.calls && s.calls[rid].phase.Sending? && !s.calls[rid].cancel
    case SendFail(rid) => rid in s.calls && s.calls[rid].phase.Sending? && !s.calls[rid].cancel
    case SendStop(rid) => rid in s.calls && s.calls[rid].phase.Sending? && s.calls[rid].cancel
    case Resume(rid) => rid in s.calls && s.calls[rid].phase.Waiting? && !FutureOf(s, rid).Pending?
    case Interrupt(rid) => Live(s, rid)
  }

  predicate ReaderEnabled(s: State, step: ReaderStep) {
    match step
    case Read(_) => s.reader == Reading(false)
    case SocketEnd => s.reader == Reading(false)
    case StopNow => s.reader == Reading(true)
    case InterruptReader => s.reader.Reading?
  }

  predicate KeepaliveEnabled(s: State, step: KeepaliveStep) {
    match step
    case Run => s.keepalive.Unstarted? || s.keepalive.Asleep?
    case InterruptKeepalive => s.keepalive.Unstarted? || s.keepalive.Asleep? || s.keepalive.Calling?
  }

  predicate ConsumerEnabled(s: State, step: ConsumerStep) {
    match step
    case TakeItem => s.consumer.Idle? && s.mux.queue != []
    case HandlerDone(_) => s.consumer.Handling?
    case AckDone(_) => s.consumer.Acking?
    case InterruptConsumer => s.consumer.Idle? || s.consumer.Handling? || s.consumer.Acking?
  }

  predicate CloserEnabled(s: State, step: CloserStep) {
    match step
    case Begin(c) => c !in s.closers
    case Advance(c) =>
      c in s.closers && match s.closers[c] {
        case AwaitReader => s.reader.ReaderOver?
        case AwaitKeepalive => s.keepalive.KeepaliveOver?
        case ClosingSocket => true
        case _ => false
      }
  }

  predicate Enabled(s: State, step: Step) {
    match step
    case Sender(c) => CallEnabled(s, c)
    case ReaderTask(r) => ReaderEnabled(s, r)
    case KeepaliveTask(k) => KeepaliveEnabled(s, k)
    case ConsumerTask(u) => ConsumerEnabled(s, u)
    case CloserTask(z) => CloserEnabled(s, z)
  }

  function StartCall(s: State): State {
    s.(mux := Register(s.mux),
       calls := s.calls[s.mux.nextId := Call(Sending, false, |s.frames|, s.reader.ReaderOver?)])
  }

  function AfterCall(s: State, end: CallEnd): Keepalive {
    match end
    case Returned(_) => if s.mux.closed then KeepaliveOver(Normal) else Asleep(false)
    case SocketGone => KeepaliveOver(Normal)
    case SendRaised => KeepaliveOver(Died)
    case CallCancelled => KeepaliveOver(Stopped)
  }

  /** The finally block of a call, and what the keepalive task does next if the call was its own. */
  function EndCall(s: State, rid: nat, end: CallEnd): State
    requires rid in s.calls
  {
    s.(mux := Forget(s.mux, rid),
       calls := s.calls[rid := s.calls[rid].(phase := Ended(end))],
       keepalive := if s.keepalive == Calling(rid) then AfterCall(s, end) else s.keepalive)
  }

  function EndOf(f: FutureState): CallEnd {
    match f
    case Done(resp) => Returned(resp)
    case Failed => SocketGone
    case _ => CallCancelled
  }

  function Cancel(s: State, rid: nat): State {
    if !Live(s, rid) then s
    else s.(calls := s.calls[rid := s.calls[rid].(cancel := true)],
            mux := if s.calls[rid].phase.Waiting? then CancelFuture(s.mux, rid) else s.mux)
  }

  function FinishReader(s: State, end: TaskEnd): State {
    s.(mux := Shutdown(s.mux), reader := ReaderOver(end))
  }

  function ReadFrame(s: State, frame: Frame): State {
    var t := s.(frames := s.frames + [frame]);
    match frame
    case Text => t
    case Unknown => t
    case Malformed => FinishReader(t, Died)
    case Request(req) => t.(mux := Enqueue(s.mux, req))
    case Response(resp) => t.(mux := Deliver(s.mux, resp))
  }

  function StopReader(s: State): State {
    if s.reader.Reading? then s.(reader := Reading(true)) else s
  }

  function StopKeepalive(s: State): State {
    match s.keepalive
    case Unstarted(_) => s.(keepalive := Unstarted(true))
    case Asleep(_) => s.(keepalive := Asleep(true))
    case Calling(rid) => Cancel(s, rid)
    case _ => s
  }

  function RunKeepalive(s: State): State {
    match s.keepalive
    case Unstarted(cancel) =>
      s.(keepalive := if cancel then KeepaliveOver(Stopped) else if s.mux.closed then KeepaliveOver(Normal) else Asleep(false))
    case Asleep(cancel) =>
      if cancel then s.(keepalive := KeepaliveOver(Stopped))
      else if s.mux.closed then s.(keepalive := KeepaliveOver(Normal))
      else StartCall(s).(keepalive := Calling(s.mux.nextId))
    case _ => s
  }

  /** The loop's finally clause acks whether handling returned, raised or was cancelled. */
  function SendAck(s: State, last: bool): State
    requires s.consumer.Handling?
  {
    s.(consumer := Acking(s.consumer.req, last), log := s.log + [Acked(s.consumer.req.id, 200)])
  }

  function Consume(s: State): State
    requires s.mux.queue != []
  {
    var t := s.(mux := s.mux.(queue := s.mux.queue[1..]));
    match s.mux.queue[0]
    case Sentinel => t.(consumer := Finished)
    case Push(req) => t.(consumer := Handling(req), consumed := s.consumed + [req], log := s.log + [Started(req)])
  }

  function AdvanceClose(s: State, c: nat): State
    requires CloserEnabled(s, Advance(c))
  {
    match s.closers[c]
    case AwaitReader =>
      if s.reader.end.Died? then s.(closers := s.closers[c := CloseRaised])
      else if s.keepalive.Off? then s.(closers := s.closers[c := ClosingSocket])
      else StopKeepalive(s).(closers := s.closers[c := AwaitKeepalive])
    case AwaitKeepalive =>
      s.(closers := s.closers[c := if s.keepalive.end.Died? then CloseRaised else ClosingSocket])
    case _ => s.(closers := s.closers[c := CloseReturned])
  }

  function ApplyCall(s: State, step: CallStep): State
    requires CallEnabled(s, step)
  {
    match step
    case Start => StartCall(s)
    case SendOk(rid) =>
      if FutureOf(s, rid).Pending? then s.(calls := s.calls[rid := s.calls[rid].(phase := Waiting)])
      else EndCall(s, rid, EndOf(FutureOf(s, rid)))
    case SendFail(rid) => EndCall(s, rid, SendRaised)
    case SendStop(rid) => EndCall(s, rid, CallCancelled)
    case Resume(rid) => EndCall(s, rid, if s.calls[rid].cancel then CallCancelled else EndOf(FutureOf(s, rid)))
    case Interrupt(rid) => Cancel(s, rid)
  }

  function ApplyReader(s: State, step: ReaderStep): State
    requires ReaderEnabled(s, step)
  {
    match step
    case Read(frame) => ReadFrame(s, frame)
    case SocketEnd => FinishReader(s, Normal)
    case StopNow => FinishReader(s, Stopped)
    case InterruptReader => StopReader(s)
  }

  function ApplyKeepalive(s: State, step: KeepaliveStep): State
    requires KeepaliveEnabled(s, step)
  {
    if step.Run? then RunKeepalive(s) else StopKeepalive(s)
  }

  function ApplyConsumer(s: State, step: ConsumerStep): State
    requires ConsumerEnabled(s, step)
  {
    match step
    case TakeItem => Consume(s)
    case HandlerDone(_) => SendAck(s, false)
    case AckDone(_) => s.(consumer := if s.consumer.last then Abandoned else Idle)
    case InterruptConsumer => if s.consumer.Handling? then SendAck(s, true) else s.(consumer := Abandoned)
  }

  function ApplyCloser(s: State, step: CloserStep): State
    requires CloserEnabled(s, step)
  {
    match step
    case Begin(c) => StopReader(s.(mux := s.mux.(closed := true), closers := s.closers[c := AwaitReader]))
    case Advance(c) => AdvanceClose(s, c)
  }

  function Apply(s: State, step: Step): State
    requires Enabled(s, step)
  {
    match step
    case Sender(c) => ApplyCall(s, c)
    case ReaderTask(r) => ApplyReader(s, r)
    case KeepaliveTask(k) => ApplyKeepalive(s, k)
    case ConsumerTask(u) => ApplyConsumer(s, u)
    case CloserTask(z) => ApplyCloser(s, z)
  }

  /** t is reached from s by taking the given steps, each enabled when taken. */
  ghost predicate Runs(s: State, steps: seq<Step>, t: State)
    decreases steps
  {
    if steps == [] then s == t
    else Enabled(s, steps[0]) && Runs(Apply(s, steps[0]), steps[1..], t)
  }

  // ---------------------------------------------------------------- invariant

  /** Every id below nextId names one future and one call; the table holds the live calls the
      reader has not swept. */
  ghost predicate TableInv(s: State) {
    && 1 <= s.mux.nextId
    && (forall r :: r in s.mux.futures <==> 1 <= r < s.mux.nextId)
    && (forall r :: r in s.mux.futures <==> r in s.calls)
    && (forall r :: r in s.mux.pending <==> r in s.calls && !s.calls[r].phase.Ended? && (s.reader.ReaderOver? ==> s.calls[r].late))
  }

  /** The reader's end closes the socket for good and leaves no earlier call unresolved. */
  ghost predicate SweepInv(s: State) {
    && (s.reader.ReaderOver? ==> s.mux.closed)
    && (s.keepalive.Calling? ==> Live(s, s.keepalive.rid) && !s.calls[s.keepalive.rid].late)
    && (forall r :: r in s.calls && r in s.mux.futures ==>
          && (s.calls[r].late ==> s.reader.ReaderOver? && !s.mux.futures[r].Done? && !s.mux.futures[r].Failed?)
          && (s.reader.ReaderOver? && !s.calls[r].late && !s.calls[r].phase.Ended? ==> !s.mux.futures[r].Pending?)
          && (s.calls[r].cancel && s.calls[r].phase.Waiting? ==> !s.mux.futures[r].Pending?))
  }

  ghost predicate Answers(f: Frame, rid: nat) {
    f.Response? && f.resp.id == rid
  }

  ghost predicate NoAnswer(frames: seq<Frame>, from: nat, rid: nat) {
    forall j :: from <= j < |frames| ==> !Answers(frames[j], rid)
  }

  /** resp is the first response with this id read at or after position from. */
  ghost predicate FirstAnswer(frames: seq<Frame>, from: nat, rid: nat, resp: WsResponse) {
    exists k :: from <= k < |frames| && frames[k] == Response(resp) && resp.id == rid && NoAnswer(frames[..k], from, rid)
  }

  ghost predicate AnswerInv(s: State) {
    forall r :: r in s.calls && r in s.mux.futures ==>
      && s.calls[r].bornAt <= |s.frames|
      && (s.mux.futures[r].Done? ==> FirstAnswer(s.frames, s.calls[r].bornAt, r, s.mux.futures[r].resp))
      && (s.mux.futures[r].Pending? && r in s.mux.pending ==> NoAnswer(s.frames, s.calls[r].bornAt, r))
      && (s.calls[r].phase.Ended? && s.calls[r].phase.end.Returned? ==> s.mux.futures[r] == Done(s.calls[r].phase.end.resp))
  }

  function Requests(frames: seq<Frame>): seq<WsRequest> {
    if frames == [] then []
    else
      var rest := Requests(frames[..|frames| - 1]);
      if frames[|frames| - 1].Request? then rest + [frames[|frames| - 1].req] else rest
  }

  function Items(reqs: seq<WsRequest>): (items: seq<Item>)
    ensures |items| == |reqs| && forall i :: 0 <= i < |reqs| ==> items[i] == Push(reqs[i])
  {
    seq(|reqs|, i requires 0 <= i < |reqs| => Push(reqs[i]))
  }

  /** The queue holds the requests read but not yet yielded, and then the sentinel if the
      reader is over and the sentinel has not been taken. */
  ghost predicate QueueInv(s: State) {
    && s.consumed <= Requests(s.frames)
    && s.mux.queue == Items(Requests(s.frames)[|s.consumed|..])
         + (if s.reader.ReaderOver? && !s.consumer.Finished? then [Sentinel] else [])
    && (s.consumer.Finished? ==> s.reader.ReaderOver? && s.consumed == Requests(s.frames))
  }

  ghost predicate LogInv(s: State) {
    && |s.log| == 2 * |s.consumed| - (if s.consumer.Handling? then 1 else 0)
    && (forall k :: 0 <= k < |s.consumed| ==>
          && s.log[2 * k] == Started(s.consumed[k])
          && (2 * k + 1 < |s.log| ==> s.log[2 * k + 1] == Acked(s.consumed[k].id, 200)))
    && (s.consumer.Handling? || s.consumer.Acking? ==> |s.consumed| > 0 && s.consumer.req == s.consumed[|s.consumed| - 1])
  }

  /** The keepalive task is over, or its next step ends it. */
  ghost predicate KeepaliveEnding(s: State) {
    match s.keepalive
    case Off => false
    case Unstarted(cancel) => cancel
    case Asleep(cancel) => cancel
    case Calling(rid) => Live(s, rid) && s.calls[rid].cancel
    case KeepaliveOver(_) => true
  }

  ghost predicate CloseInv(s: State) {
    forall c :: c in s.closers ==>
      && s.mux.closed
      && match s.closers[c] {
        case AwaitReader => s.reader == Reading(true) || s.reader.ReaderOver?
        case AwaitKeepalive => s.reader.ReaderOver? && !s.reader.end.Died? && KeepaliveEnding(s)
        case CloseRaised => s.reader == ReaderOver(Died) || s.keepalive == KeepaliveOver(Died)
        case _ => s.reader.ReaderOver? && !s.reader.end.Died?
                  && (s.keepalive.Off? || (s.keepalive.KeepaliveOver? && !s.keepalive.end.Died?))
      }
  }

  ghost predicate Inv(s: State) {
    TableInv(s) && SweepInv(s) && AnswerInv(s) && QueueInv(s) && LogInv(s) && CloseInv(s)
  }

  lemma InitInv(withKeepalive: bool)
    ensures Inv(Init(withKeepalive))
  {
  }

  ghost predicate CoreInv(s: State) {
    TableInv(s) && SweepInv(s)
  }

  lemma CoreStart(s: State)
    requires CoreInv(s)
    ensures CoreInv(StartCall(s))
  {
  }

  lemma CoreEnd(s: State, rid: nat, end: CallEnd)
    requires CoreInv(s) && rid in s.calls
    ensures CoreInv(EndCall(s, rid, end))
  {
  }

  lemma CoreCancel(s: State, rid: nat)
    requires CoreInv(s)
    ensures CoreInv(Cancel(s, rid))
  {
  }

  lemma CoreFinish(s: State, end: TaskEnd)
    requires CoreInv(s) && s.reader.Reading?
    ensures CoreInv(FinishReader(s, end))
  {
  }

  lemma CoreDeliver(s: State, resp: WsResponse)
    requires CoreInv(s) && s.reader.Reading?
    ensures CoreInv(s.(mux := Deliver(s.mux, resp)))
  {
  }

  lemma CoreRead(s: State, frame: Frame)
    requires CoreInv(s) && s.reader.Reading?
    ensures CoreInv(ReadFrame(s, frame))
  {
    var t := s.(frames := s.frames + [frame]);
    match frame
    case Malformed => CoreFinish(t, Died);
    case Response(resp) => CoreDeliver(t, resp);
    case _ =>
  }

  lemma CoreSuspend(s: State, rid: nat)
    requires CoreInv(s) && rid in s.calls && s.calls[rid].phase.Sending? && !s.calls[rid].cancel
    ensures CoreInv(s.(calls := s.calls[rid := s.calls[rid].(phase := Waiting)]))
  {
  }

  lemma CoreSetKeepalive(s: State, k: Keepalive)
    requires CoreInv(s) && !k.Calling?
    ensures CoreInv(s.(keepalive := k))
  {
  }

  /** Steps that touch only the queue, the consumer, the closers or a cancel flag of the reader. */
  ghost predicate SameCalls(s: State, t: State) {
    && t.mux.(queue := s.mux.queue) == s.mux
    && t.calls == s.calls && t.keepalive == s.keepalive && t.reader.ReaderOver? == s.reader.ReaderOver?
  }

  lemma CoreFrame(s: State, t: State)
    requires CoreInv(s) && SameCalls(s, t)
    ensures CoreInv(t)
  {
    assert t.mux.futures == s.mux.futures && t.mux.pending == s.mux.pending
        && t.mux.nextId == s.mux.nextId && t.mux.closed == s.mux.closed;
  }

  lemma CoreCall(s: State, step: CallStep)
    requires CallEnabled(s, step) && CoreInv(s)
    ensures CoreInv(ApplyCall(s, step))
  {
    match step
    case Start => CoreStart(s);
    case SendOk(rid) =>
      if FutureOf(s, rid).Pending? { CoreSuspend(s, rid); } else { CoreEnd(s, rid, EndOf(FutureOf(s, rid))); }
    case SendFail(rid) => CoreEnd(s, rid, SendRaised);
    case SendStop(rid) => CoreEnd(s, rid, CallCancelled);
    case Resume(rid) => CoreEnd(s, rid, if s.calls[rid].cancel then CallCancelled else EndOf(FutureOf(s, rid)));
    case Interrupt(rid) => CoreCancel(s, rid);
  }

  lemma CoreReader(s: State, step: ReaderStep)
    requires ReaderEnabled(s, step) && CoreInv(s)
    ensures CoreInv(ApplyReader(s, step))
  {
    match step
    case Read(frame) => CoreRead(s, frame);
    case SocketEnd => CoreFinish(s, Normal);
    case StopNow => CoreFinish(s, Stopped);
    case InterruptReader => CoreFrame(s, StopReader(s));
  }

  lemma CoreRunKeepalive(s: State)
    requires CoreInv(s)
    ensures CoreInv(RunKeepalive(s))
  {
    if s.keepalive == Asleep(false) && !s.mux.closed {
      CoreStart(s);
    } else {
      var t := RunKeepalive(s);
      if !t.keepalive.Calling? { CoreSetKeepalive(s, t.keepalive); }
    }
  }

  lemma CoreStopKeepalive(s: State)
    requires CoreInv(s)
    ensures CoreInv(StopKeepalive(s))
  {
    if s.keepalive.Calling? { CoreCancel(s, s.keepalive.rid); } else { CoreSetKeepalive(s, StopKeepalive(s).keepalive); }
  }

  lemma CoreBegin(s: State, c: nat)
    requires CoreInv(s) && c !in s.closers
    ensures CoreInv(ApplyCloser(s, Begin(c)))
  {
  }

  lemma CoreAdvance(s: State, c: nat)
    requires CoreInv(s) && CloserEnabled(s, Advance(c))
    ensures CoreInv(AdvanceClose(s, c))
  {
    CoreStopKeepalive(s);
    var t := AdvanceClose(s, c);
    if SameCalls(s, t) { CoreFrame(s, t); } else { CoreFrame(StopKeepalive(s), t); }
  }

  lemma StepCore(s: State, step: Step)
    requires Enabled(s, step) && CoreInv(s)
    ensures CoreInv(Apply(s, step))
  {
    match step
    case Sender(c) => CoreCall(s, c);
    case ReaderTask(r) => CoreReader(s, r);
    case KeepaliveTask(_) => CoreRunKeepalive(s); CoreStopKeepalive(s);
    case ConsumerTask(u) => CoreFrame(s, ApplyConsumer(s, u));
    case CloserTask(z) => if z.Begin? { CoreBegin(s, z.closer); } else { CoreAdvance(s, z.closer); }
  }

  lemma NoAnswerAppend(frames: seq<Frame>, f: Frame, from: nat, rid: nat)
    ensures NoAnswer(frames + [f], from, rid) <==>
            NoAnswer(frames, from, rid) && (from <= |frames| ==> !Answers(f, rid))
  {
    var all := frames + [f];
    assert all[|frames|] == f;
    assert forall j :: 0 <= j < |frames| ==> all[j] == frames[j];
  }

  lemma FirstAnswerAppend(frames: seq<Frame>, f: Frame, from: nat, rid: nat, resp: WsResponse)
    requires FirstAnswer(frames, from, rid, resp) ||
             (from <= |frames| && NoAnswer(frames, from, rid) && f == Response(resp) && resp.id == rid)
    ensures FirstAnswer(frames + [f], from, rid, resp)
  {
    var all := frames + [f];
    if FirstAnswer(frames, from, rid, resp) {
      var k :| from <= k < |frames| && frames[k] == Response(resp) && resp.id == rid && NoAnswer(frames[..k], from, rid);
      assert all[k] == frames[k] && all[..k] == frames[..k];
    } else {
      assert all[|frames|] == f && all[..|frames|] == frames;
    }
  }

  lemma AnswerEnd(s: State, rid: nat, end: CallEnd)
    requires CoreInv(s) && AnswerInv(s) && rid in s.calls
    requires end.Returned? ==> s.mux.futures[rid] == Done(end.resp)
    ensures AnswerInv(EndCall(s, rid, end))
  {
  }

  lemma AnswerCancel(s: State, rid: nat)
    requires CoreInv(s) && AnswerInv(s)
    ensures AnswerInv(Cancel(s, rid))
  {
  }

  lemma AnswerFinish(s: State, end: TaskEnd)
    requires CoreInv(s) && AnswerInv(s)
    ensures AnswerInv(FinishReader(s, end))
  {
  }

  lemma AnswerStart(s: State)
    requires CoreInv(s) && AnswerInv(s)
    ensures AnswerInv(StartCall(s))
  {
  }

  /** Reading a frame answers exactly the call it names, if that call is still waiting. */
  lemma AnswerHistory(s: State, frame: Frame)
    requires CoreInv(s) && AnswerInv(s) && !frame.Response?
    ensures AnswerInv(s.(frames := s.frames + [frame]))
  {
    forall r | r in s.calls
      ensures NoAnswer(s.frames, s.calls[r].bornAt, r) ==> NoAnswer(s.frames + [frame], s.calls[r].bornAt, r)
      ensures s.mux.futures[r].Done? ==> FirstAnswer(s.frames + [frame], s.calls[r].bornAt, r, s.mux.futures[r].resp)
    {
      NoAnswerAppend(s.frames, frame, s.calls[r].bornAt, r);
      if s.mux.futures[r].Done? { FirstAnswerAppend(s.frames, frame, s.calls[r].bornAt, r, s.mux.futures[r].resp); }
    }
  }

  lemma AnswerDeliver(s: State, resp: WsResponse)
    requires CoreInv(s) && AnswerInv(s)
    ensures AnswerInv(s.(frames := s.frames + [Response(resp)], mux := Deliver(s.mux, resp)))
  {
    var m, frame := Deliver(s.mux, resp), Response(resp);
    forall r | r in s.calls
      ensures NoAnswer(s.frames, s.calls[r].bornAt, r) && r != resp.id ==> NoAnswer(s.frames + [frame], s.calls[r].bornAt, r)
      ensures m.futures[r].Done? ==> FirstAnswer(s.frames + [frame], s.calls[r].bornAt, r, m.futures[r].resp)
    {
      NoAnswerAppend(s.frames, frame, s.calls[r].bornAt, r);
      if m.futures[r].Done? { FirstAnswerAppend(s.frames, frame, s.calls[r].bornAt, r, m.futures[r].resp); }
    }
  }

  lemma AnswerRead(s: State, frame: Frame)
    requires CoreInv(s) && AnswerInv(s) && s.reader.Reading?
    ensures AnswerInv(ReadFrame(s, frame))
  {
    if frame.Response? {
      AnswerDeliver(s, frame.resp);
    } else {
      AnswerHistory(s, frame);
      if frame.Malformed? {
        AnswerFinish(s.(frames := s.frames + [frame]), Died);
      }
    }
  }

  lemma AnswerFrame(s: State, t: State)
    requires AnswerInv(s)
    requires t.mux.futures == s.mux.futures && t.mux.pending == s.mux.pending && t.calls == s.calls && t.frames == s.frames
    ensures AnswerInv(t)
  {
  }

  lemma AnswerSuspend(s: State, rid: nat)
    requires AnswerInv(s) && rid in s.calls
    ensures AnswerInv(s.(calls := s.calls[rid := s.calls[rid].(phase := Waiting)]))
  {
  }

  lemma AnswerCall(s: State, step: CallStep)
    requires CallEnabled(s, step) && CoreInv(s) && AnswerInv(s)
    ensures AnswerInv(ApplyCall(s, step))
  {
    match step
    case Start => AnswerStart(s);
    case SendOk(rid) =>
      if FutureOf(s, rid).Pending? { AnswerSuspend(s, rid); } else { AnswerEnd(s, rid, EndOf(FutureOf(s, rid))); }
    case SendFail(rid) => AnswerEnd(s, rid, SendRaised);
    case SendStop(rid) => AnswerEnd(s, rid, CallCancelled);
    case Resume(rid) => AnswerEnd(s, rid, if s.calls[rid].cancel then CallCancelled else EndOf(FutureOf(s, rid)));
    case Interrupt(rid) => AnswerCancel(s, rid);
  }

  lemma AnswerReader(s: State, step: ReaderStep)
    requires ReaderEnabled(s, step) && CoreInv(s) && AnswerInv(s)
    ensures AnswerInv(ApplyReader(s, step))
  {
    match step
    case Read(frame) => AnswerRead(s, frame);
    case SocketEnd => AnswerFinish(s, Normal);
    case StopNow => AnswerFinish(s, Stopped);
    case InterruptReader => AnswerFrame(s, StopReader(s));
  }

  lemma StepAnswer(s: State, step: Step)
    requires Enabled(s, step) && CoreInv(s) && AnswerInv(s)
    ensures AnswerInv(Apply(s, step))
  {
    match step
    case Sender(c) => AnswerCall(s, c);
    case ReaderTask(r) => AnswerReader(s, r);
    case KeepaliveTask(_) => AnswerKeepalive(s); AnswerStopKeepalive(s);
    case ConsumerTask(u) => AnswerFrame(s, ApplyConsumer(s, u));
    case CloserTask(z) => if z.Begin? { AnswerFrame(s, ApplyCloser(s, z)); } else { AnswerClose(s, z.closer); }
  }

  lemma AnswerKeepalive(s: State)
    requires CoreInv(s) && AnswerInv(s)
    ensures AnswerInv(RunKeepalive(s))
  {
    if s.keepalive == Asleep(false) && !s.mux.closed {
      AnswerStart(s);
      AnswerFrame(StartCall(s), RunKeepalive(s));
    } else {
      AnswerFrame(s, RunKeepalive(s));
    }
  }

  lemma AnswerClose(s: State, c: nat)
    requires CoreInv(s) && AnswerInv(s) && CloserEnabled(s, Advance(c))
    ensures AnswerInv(AdvanceClose(s, c))
  {
    AnswerStopKeepalive(s);
    var t := AdvanceClose(s, c);
    if t.calls == s.calls && t.mux == s.mux { AnswerFrame(s, t); } else { AnswerFrame(StopKeepalive(s), t); }
  }

  lemma AnswerStopKeepalive(s: State)
    requires CoreInv(s) && AnswerInv(s)
    ensures AnswerInv(StopKeepalive(s))
  {
    if s.keepalive.Calling? { AnswerCancel(s, s.keepalive.rid); } else { AnswerFrame(s, StopKeepalive(s)); }
  }

  lemma RequestsAppend(frames: seq<Frame>, f: Frame)
    ensures Requests(frames + [f]) == Requests(frames) + (if f.Request? then [f.req] else [])
  {
    assert (frames + [f])[..|frames|] == frames;
  }

  lemma QueueRead(s: State, frame: Frame)
    requires QueueInv(s) && s.reader.Reading?
    ensures QueueInv(ReadFrame(s, frame))
  {
    var reqs, more := Requests(s.frames), Requests(s.frames + [frame]);
    RequestsAppend(s.frames, frame);
    assert more[|s.consumed|..] == reqs[|s.consumed|..] + (if frame.Request? then [frame.req] else []);
  }

  lemma QueueTake(s: State)
    requires QueueInv(s) && s.consumer.Idle? && s.mux.queue != []
    ensures QueueInv(Consume(s))
  {
    var reqs := Requests(s.frames);
    if |s.consumed| < |reqs| {
      assert s.mux.queue[0] == Push(reqs[|s.consumed|]);
      assert Items(reqs[|s.consumed|..])[1..] == Items(reqs[|s.consumed| + 1..]);
    }
  }

  /** The reader-to-consumer stream is untouched. */
  ghost predicate SameStream(s: State, t: State) {
    && t.mux.queue == s.mux.queue && t.frames == s.frames && t.consumed == s.consumed
    && t.consumer == s.consumer && t.log == s.log && t.reader.ReaderOver? == s.reader.ReaderOver?
  }

  lemma CallStream(s: State, step: CallStep)
    requires CallEnabled(s, step)
    ensures SameStream(s, ApplyCall(s, step)) && ApplyCall(s, step).reader == s.reader
    ensures ApplyCall(s, step).closers == s.closers && ApplyCall(s, step).mux.closed == s.mux.closed
  {
  }

  lemma KeepaliveStream(s: State, step: KeepaliveStep)
    requires KeepaliveEnabled(s, step)
    ensures SameStream(s, ApplyKeepalive(s, step)) && ApplyKeepalive(s, step).reader == s.reader
    ensures ApplyKeepalive(s, step).closers == s.closers && ApplyKeepalive(s, step).mux.closed == s.mux.closed
  {
  }

  lemma CloserStream(s: State, step: CloserStep)
    requires CloserEnabled(s, step)
    ensures SameStream(s, ApplyCloser(s, step))
  {
  }

  lemma StreamFrame(s: State, t: State)
    requires SameStream(s, t) && QueueInv(s) && LogInv(s)
    ensures QueueInv(t) && LogInv(t)
  {
  }

  lemma QueueFinish(s: State, end: TaskEnd)
    requires QueueInv(s) && s.reader.Reading?
    ensures QueueInv(FinishReader(s, end))
  {
  }

  lemma QueueConsumer(s: State, step: ConsumerStep)
    requires ConsumerEnabled(s, step) && QueueInv(s)
    ensures QueueInv(ApplyConsumer(s, step))
  {
    if step.TakeItem? { QueueTake(s); }
  }

  lemma LogConsumer(s: State, step: ConsumerStep)
    requires ConsumerEnabled(s, step) && LogInv(s)
    ensures LogInv(ApplyConsumer(s, step))
  {
  }

  lemma QueueReader(s: State, step: ReaderStep)
    requires ReaderEnabled(s, step) && QueueInv(s)
    ensures QueueInv(ApplyReader(s, step))
  {
    match step
    case Read(frame) => QueueRead(s, frame);
    case SocketEnd => QueueFinish(s, Normal);
    case StopNow => QueueFinish(s, Stopped);
    case InterruptReader =>
  }

  lemma LogReader(s: State, step: ReaderStep)
    requires ReaderEnabled(s, step) && LogInv(s)
    ensures LogInv(ApplyReader(s, step))
  {
  }

  lemma StepStream(s: State, step: Step)
    requires Enabled(s, step) && QueueInv(s) && LogInv(s)
    ensures QueueInv(Apply(s, step)) && LogInv(Apply(s, step))
  {
    match step
    case Sender(c) => CallStream(s, c); StreamFrame(s, ApplyCall(s, c));
    case ReaderTask(r) => QueueReader(s, r); LogReader(s, r);
    case KeepaliveTask(k) => KeepaliveStream(s, k); StreamFrame(s, ApplyKeepalive(s, k));
    case ConsumerTask(u) => QueueConsumer(s, u); LogConsumer(s, u);
    case CloserTask(z) => CloserStream(s, z); StreamFrame(s, ApplyCloser(s, z));
  }

  lemma CloseCall(s: State, step: CallStep)
    requires CallEnabled(s, step) && CoreInv(s) && CloseInv(s)
    ensures CloseInv(ApplyCall(s, step))
  {
    CallStream(s, step);
  }

  lemma CloseReader(s: State, step: ReaderStep)
    requires ReaderEnabled(s, step) && CloseInv(s)
    ensures CloseInv(ApplyReader(s, step))
  {
  }

  lemma CloseKeepalive(s: State, step: KeepaliveStep)
    requires KeepaliveEnabled(s, step) && CoreInv(s) && CloseInv(s)
    ensures CloseInv(ApplyKeepalive(s, step))
  {
    KeepaliveStream(s, step);
  }

  lemma CloseCloser(s: State, step: CloserStep)
    requires CloserEnabled(s, step) && CoreInv(s) && CloseInv(s)
    ensures CloseInv(ApplyCloser(s, step))
  {
  }

  lemma CloseFrame(s: State, t: State)
    requires CloseInv(s) && t.mux.closed == s.mux.closed && t.closers == s.closers
    requires t.reader == s.reader && t.keepalive == s.keepalive && t.calls == s.calls
    ensures CloseInv(t)
  {
  }

  lemma StepClose(s: State, step: Step)
    requires Enabled(s, step) && CoreInv(s) && CloseInv(s)
    ensures CloseInv(Apply(s, step))
  {
    match step
    case Sender(c) => CloseCall(s, c);
    case ReaderTask(r) => CloseReader(s, r);
    case KeepaliveTask(k) => CloseKeepalive(s, k);
    case ConsumerTask(u) => CloseFrame(s, ApplyConsumer(s, u));
    case CloserTask(z) => CloseCloser(s, z);
  }

  lemma StepInv(s: State, step: Step)
    requires Enabled(s, step) && Inv(s)
    ensures Inv(Apply(s, step))
  {
    StepCore(s, step);
    StepAnswer(s, step);
    StepStream(s, step);
    StepClose(s, step);
  }

  lemma {:induction false} RunInv(s: State, steps: seq<Step>, t: State)
    requires Runs(s, steps, t) && Inv(s)
    ensures Inv(t)
    decreases steps
  {
    if steps != [] {
      StepInv(s, steps[0]);
      RunInv(Apply(s, steps[0]), steps[1..], t);
    }
  }
}
