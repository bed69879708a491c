/** What holds over whole runs of the WebSocket step machine. */
module WsTheorems {
  import opened WsMux
  import opened WsProtocol

  ghost predicate Reachable(s: State) {
    exists withKeepalive, steps :: Runs(Init(withKeepalive), steps, s)
  }

  lemma ReachableInv(s: State)
    requires Reachable(s)
    ensures Inv(s)
  {
    var withKeepalive, steps :| Runs(Init(withKeepalive), steps, s);
    InitInv(withKeepalive);
    RunInv(Init(withKeepalive), steps, s);
  }

  lemma {:induction false} RunsAppend(s: State, a: seq<Step>, t: State, b: seq<Step>, u: State)
    requires Runs(s, a, t) && Runs(t, b, u)
    ensures Runs(s, a + b, u)
    decreases a
  {
    if a == [] {
      assert a + b == b;
    } else {
      RunsAppend(Apply(s, a[0]), a[1..], t, b, u);
      assert (a + b)[0] == a[0] && (a + b)[1..] == a[1..] + b;
    }
  }

  lemma RunsThree(s: State, a: Step, b: Step, c: Step)
    requires Enabled(s, a) && Enabled(Apply(s, a), b) && Enabled(Apply(Apply(s, a), b), c)
    ensures Runs(s, [a, b, c], Apply(Apply(Apply(s, a), b), c))
  {
    var t := Apply(Apply(Apply(s, a), b), c);
    assert Runs(t, [], t);
    assert Runs(Apply(Apply(s, a), b), [c], t);
    assert Runs(Apply(s, a), [b, c], t) by { assert [b, c][1..] == [c]; }
    assert [a, b, c][1..] == [b, c];
  }

  // ------------------------------------------------------------ request ids

  /** The ids handed out along a run. */
  ghost function Issued(s: State, steps: seq<Step>): seq<nat>
    decreases steps
  {
    if steps == [] || !Enabled(s, steps[0]) then []
    else
      var t := Apply(s, steps[0]);
      (if t.mux.nextId != s.mux.nextId then [s.mux.nextId] else []) + Issued(t, steps[1..])
  }

  lemma NextIdCloser(s: State, step: CloserStep)
    requires CloserEnabled(s, step)
    ensures ApplyCloser(s, step).mux.nextId == s.mux.nextId
  {
  }

  lemma NextIdStep(s: State, step: Step)
    requires Enabled(s, step)
    ensures Apply(s, step).mux.nextId == s.mux.nextId || Apply(s, step).mux.nextId == s.mux.nextId + 1
  {
    if step.CloserTask? { NextIdCloser(s, step.close); }
  }

  lemma {:induction false} IdsNeverRepeat(s: State, steps: seq<Step>, t: State)
    requires Runs(s, steps, t)
    ensures forall i :: 0 <= i < |Issued(s, steps)| ==> s.mux.nextId <= Issued(s, steps)[i] < t.mux.nextId
    ensures forall i, j :: 0 <= i < j < |Issued(s, steps)| ==> Issued(s, steps)[i] < Issued(s, steps)[j]
    ensures s.mux.nextId <= t.mux.nextId
    decreases steps
  {
    if steps != [] {
      NextIdStep(s, steps[0]);
      IdsNeverRepeat(Apply(s, steps[0]), steps[1..], t);
    }
  }

  // ------------------------------------------------------------ completion

  /** Completed futures and ended calls of s are unchanged in t; histories only grow. */
  ghost predicate Keeps(s: State, t: State) {
    && (forall r :: r in s.mux.futures ==> r in t.mux.futures && (!s.mux.futures[r].Pending? ==> t.mux.futures[r] == s.mux.futures[r]))
    && (forall r :: r in s.calls ==> r in t.calls && t.calls[r].late == s.calls[r].late && t.calls[r].bornAt == s.calls[r].bornAt
                                     && (s.calls[r].phase.Ended? ==> t.calls[r] == s.calls[r]))
    && s.frames <= t.frames && s.consumed <= t.consumed && s.log <= t.log
    && (s.reader.ReaderOver? ==> t.reader == s.reader)
    && (s.mux.closed ==> t.mux.closed)
  }

  lemma KeepsCall(s: State, step: CallStep)
    requires CallEnabled(s, step) && CoreInv(s)
    ensures Keeps(s, ApplyCall(s, step))
  {
    CallStream(s, step);
  }

  lemma KeepsCancelled(s: State, rid: nat)
    requires CoreInv(s)
    ensures Keeps(s, Cancel(s, rid))
  {
  }

  lemma KeepsCancel(s: State)
    requires CoreInv(s)
    ensures Keeps(s, StopKeepalive(s))
  {
    if s.keepalive.Calling? { KeepsCancelled(s, s.keepalive.rid); }
  }

  lemma KeepsFinish(s: State, end: TaskEnd)
    requires CoreInv(s) && s.reader.Reading?
    ensures Keeps(s, FinishReader(s, end))
  {
  }

  lemma KeepsFrame(s: State, frame: Frame)
    requires CoreInv(s) && s.reader.Reading?
    ensures Keeps(s, ReadFrame(s, frame))
  {
    if frame.Malformed? { KeepsFinish(s.(frames := s.frames + [frame]), Died); }
  }

  lemma KeepsReader(s: State, step: ReaderStep)
    requires ReaderEnabled(s, step) && CoreInv(s)
    ensures Keeps(s, ApplyReader(s, step))
  {
    match step
    case Read(frame) => KeepsFrame(s, frame);
    case SocketEnd => KeepsFinish(s, Normal);
    case StopNow => KeepsFinish(s, Stopped);
    case InterruptReader =>
  }

  lemma KeepsConsumer(s: State, step: ConsumerStep)
    requires ConsumerEnabled(s, step)
    ensures Keeps(s, ApplyConsumer(s, step))
  {
  }

  lemma KeepsKeepalive(s: State, step: KeepaliveStep)
    requires KeepaliveEnabled(s, step) && CoreInv(s)
    ensures Keeps(s, ApplyKeepalive(s, step))
  {
    KeepaliveStream(s, step);
    KeepsCancel(s);
  }

  lemma KeepsCloser(s: State, step: CloserStep)
    requires CloserEnabled(s, step) && CoreInv(s)
    ensures Keeps(s, ApplyCloser(s, step))
  {
    CloserStream(s, step);
    KeepsCancel(s);
  }

  lemma KeepsStep(s: State, step: Step)
    requires Enabled(s, step) && CoreInv(s)
    ensures Keeps(s, Apply(s, step))
  {
    match step
    case Sender(c) => KeepsCall(s, c);
    case ReaderTask(r) => KeepsReader(s, r);
    case KeepaliveTask(k) => KeepsKeepalive(s, k);
    case ConsumerTask(u) => KeepsConsumer(s, u);
    case CloserTask(z) => KeepsCloser(s, z);
  }

  /** Over any run, a future that has been completed keeps its result and a call that has
      ended stays ended the same way: nothing completes twice. */
  lemma {:induction false} CompletedOnce(s: State, steps: seq<Step>, t: State)
    requires Inv(s) && Runs(s, steps, t)
    ensures Keeps(s, t)
    decreases steps
  {
    if steps != [] {
      var u := Apply(s, steps[0]);
      StepInv(s, steps[0]);
      KeepsStep(s, steps[0]);
      CompletedOnce(u, steps[1..], t);
    }
  }

  /** A call that returns normally returns the first response bearing its own id that was
      read after it registered; ids start at 1. */
  lemma ReturnsOwnResponse(s: State, rid: nat)
    requires Reachable(s) && rid in s.calls && s.calls[rid].phase.Ended? && s.calls[rid].phase.end.Returned?
    ensures var resp := s.calls[rid].phase.end.resp;
            && resp.id == rid >= 1
            && FirstAnswer(s.frames, s.calls[rid].bornAt, rid, resp)
  {
    ReachableInv(s);
  }

  /** A response completes a future exactly when its id is in the table and still pending;
      duplicates, unknown ids and id 0 complete nobody. */
  lemma ResponseCompletesOnlyItsOwn(s: State, resp: WsResponse)
    requires Reachable(s) && s.reader == Reading(false)
    ensures var t := Apply(s, ReaderTask(Read(Response(resp))));
            && (forall r :: r in s.mux.futures && r != resp.id ==> r in t.mux.futures && t.mux.futures[r] == s.mux.futures[r])
            && (t.mux == s.mux <==> resp.id !in s.mux.pending || !FutureOf(s, resp.id).Pending?)
            && (resp.id == 0 ==> t.mux == s.mux)
  {
    ReachableInv(s);
  }

  // ------------------------------------------------------------ waiters

  /** Once the reader is over, an uncancelled waiting call can resume exactly when it
      registered before the reader finished; the keepalive call always can. */
  lemma WaiterWokenIffEarly(s: State, rid: nat)
    requires Reachable(s) && s.reader.ReaderOver?
    requires rid in s.calls && s.calls[rid].phase.Waiting? && FutureOf(s, rid) != Cancelled
    ensures CallEnabled(s, Resume(rid)) <==> !s.calls[rid].late
    ensures s.keepalive == Calling(rid) ==> CallEnabled(s, Resume(rid))
  {
    ReachableInv(s);
  }

  /** The keepalive task is never left on an unresolved future. */
  lemma KeepaliveNeverStuck(s: State)
    requires Reachable(s) && s.reader.ReaderOver? && s.keepalive.Calling?
    ensures s.keepalive.rid in s.mux.futures && !s.mux.futures[s.keepalive.rid].Pending?
  {
    ReachableInv(s);
  }

  /** A call waits on a future that only cancellation can end. */
  ghost predicate Stranded(s: State, rid: nat) {
    && s.reader.ReaderOver? && Live(s, rid) && s.calls[rid].late
    && s.calls[rid].phase.Waiting? && !s.calls[rid].cancel && FutureOf(s, rid).Pending?
  }

  lemma StrandedCall(s: State, step: CallStep, rid: nat)
    requires CoreInv(s) && Stranded(s, rid) && CallEnabled(s, step) && step != Interrupt(rid)
    ensures Stranded(ApplyCall(s, step), rid)
  {
    CallStream(s, step);
  }

  lemma StrandedStop(s: State, rid: nat)
    requires CoreInv(s) && Stranded(s, rid)
    ensures Stranded(StopKeepalive(s), rid)
  {
  }

  lemma StrandedKeepalive(s: State, step: KeepaliveStep, rid: nat)
    requires CoreInv(s) && Stranded(s, rid) && KeepaliveEnabled(s, step)
    ensures Stranded(ApplyKeepalive(s, step), rid)
  {
    if step.InterruptKeepalive? { StrandedStop(s, rid); }
  }

  lemma StrandedCloser(s: State, step: CloserStep, rid: nat)
    requires CoreInv(s) && Stranded(s, rid) && CloserEnabled(s, step)
    ensures Stranded(ApplyCloser(s, step), rid)
  {
    StrandedStop(s, rid);
  }

  lemma StrandedStep(s: State, step: Step, rid: nat)
    requires Inv(s) && Stranded(s, rid) && Enabled(s, step) && step != Sender(Interrupt(rid))
    ensures Stranded(Apply(s, step), rid)
  {
    match step
    case Sender(c) => StrandedCall(s, c, rid);
    case ReaderTask(r) =>
    case KeepaliveTask(k) => StrandedKeepalive(s, k, rid);
    case ConsumerTask(u) =>
    case CloserTask(z) => StrandedCloser(s, z, rid);
  }

  /** The flaw in full: a request sent after the reader ended waits for ever unless it is
      cancelled, whatever the other tasks do. */
  lemma {:induction false} StrandedForever(s: State, rid: nat, steps: seq<Step>, t: State)
    requires Inv(s) && Stranded(s, rid) && Runs(s, steps, t) && Sender(Interrupt(rid)) !in steps
    ensures Stranded(t, rid)
    decreases steps
  {
    if steps != [] {
      StrandedStep(s, steps[0], rid);
      StepInv(s, steps[0]);
      StrandedForever(Apply(s, steps[0]), rid, steps[1..], t);
    }
  }

  /** A malformed frame, then a request: the call is stranded on an open connection. */
  lemma StrandedExample()
    ensures exists s :: Reachable(s) && Stranded(s, 1) && s.reader == ReaderOver(Died)
  {
    var a, b, c := ReaderTask(Read(Malformed)), Sender(Start), Sender(SendOk(1));
    RunsThree(Init(false), a, b, c);
    var t := Apply(Apply(Apply(Init(false), a), b), c);
    assert Reachable(t);
    assert Stranded(t, 1);
  }

  /** No response will reach this call: the reader is over or about to be. */
  ghost predicate Unanswerable(s: State, rid: nat) {
    && s.reader != Reading(false) && rid in s.mux.futures && rid in s.calls && !s.mux.futures[rid].Done?
  }

  lemma UnanswerableStop(s: State, rid: nat)
    requires CoreInv(s) && Unanswerable(s, rid)
    ensures Unanswerable(StopKeepalive(s), rid)
  {
  }

  lemma UnanswerableCloser(s: State, rid: nat, step: CloserStep)
    requires CloserEnabled(s, step) && CoreInv(s) && Unanswerable(s, rid)
    ensures Unanswerable(ApplyCloser(s, step), rid)
  {
    UnanswerableStop(s, rid);
  }

  lemma UnanswerableStep(s: State, rid: nat, step: Step)
    requires Enabled(s, step) && CoreInv(s) && Unanswerable(s, rid)
    ensures Unanswerable(Apply(s, step), rid)
  {
    match step
    case Sender(c) => CallStream(s, c);
    case ReaderTask(r) =>
    case KeepaliveTask(k) => KeepaliveStream(s, k); UnanswerableStop(s, rid);
    case ConsumerTask(u) =>
    case CloserTask(z) => UnanswerableCloser(s, rid, z);
  }

  lemma {:induction false} NeverAnswered(s: State, rid: nat, steps: seq<Step>, t: State)
    requires Inv(s) && Unanswerable(s, rid) && Runs(s, steps, t)
    ensures rid in t.calls && !(t.calls[rid].phase.Ended? && t.calls[rid].phase.end.Returned?)
    decreases steps
  {
    if steps != [] {
      UnanswerableStep(s, rid, steps[0]);
      StepInv(s, steps[0]);
      NeverAnswered(Apply(s, steps[0]), rid, steps[1..], t);
    }
  }

  /** Some continuation from s makes the call return normally. */
  ghost predicate CanReturn(s: State, rid: nat) {
    exists steps, t :: Runs(s, steps, t) && rid in t.calls && t.calls[rid].phase.Ended? && t.calls[rid].phase.end.Returned?
  }

  lemma AnswerArrives(s: State)
    requires Inv(s) && s.reader == Reading(false)
    ensures CanReturn(Apply(s, Sender(Start)), s.mux.nextId)
  {
    var rid, u := s.mux.nextId, Apply(s, Sender(Start));
    var resp := WsResponse(rid, 200, "OK", [], []);
    var a, b, c := Sender(SendOk(rid)), ReaderTask(Read(Response(resp))), Sender(Resume(rid));
    RunsThree(u, a, b, c);
    assert Apply(Apply(Apply(u, a), b), c).calls[rid].phase == Ended(Returned(resp));
  }

  /** A call registering in s can return normally in some continuation exactly when the
      reader is still reading and not being cancelled. */
  lemma AnswerableIff(s: State)
    requires Reachable(s)
    ensures s.reader == Reading(false) <==> CanReturn(Apply(s, Sender(Start)), s.mux.nextId)
  {
    ReachableInv(s);
    var rid, u := s.mux.nextId, Apply(s, Sender(Start));
    StepInv(s, Sender(Start));
    if s.reader == Reading(false) {
      AnswerArrives(s);
    } else if CanReturn(u, rid) {
      var steps, t :| Runs(u, steps, t) && rid in t.calls && t.calls[rid].phase.Ended? && t.calls[rid].phase.end.Returned?;
      NeverAnswered(u, rid, steps, t);
    }
  }

  /** Nothing cancels the reader from outside: only close() does. */
  predicate Undisturbed(steps: seq<Step>) {
    ReaderTask(InterruptReader) !in steps
  }

  /** The closed flag says whether the reader is still reading and will go on. */
  predicate FlagTells(s: State) {
    s.mux.closed <==> s.reader != Reading(false)
  }

  lemma FlagTellsStep(s: State, step: Step)
    requires Enabled(s, step) && FlagTells(s) && step != ReaderTask(InterruptReader)
    ensures FlagTells(Apply(s, step))
  {
    match step
    case Sender(c) => CallStream(s, c);
    case ReaderTask(r) =>
    case KeepaliveTask(k) => KeepaliveStream(s, k);
    case ConsumerTask(u) =>
    case CloserTask(z) => FlagTellsCloser(s, z);
  }

  lemma FlagTellsCloser(s: State, step: CloserStep)
    requires CloserEnabled(s, step) && FlagTells(s)
    ensures FlagTells(ApplyCloser(s, step))
  {
  }

  lemma {:induction false} FlagTellsRun(s: State, steps: seq<Step>, t: State)
    requires Runs(s, steps, t) && FlagTells(s) && Undisturbed(steps)
    ensures FlagTells(t)
    decreases steps
  {
    if steps != [] {
      FlagTellsStep(s, steps[0]);
      FlagTellsRun(Apply(s, steps[0]), steps[1..], t);
    }
  }

  /** When nothing but close() cancels the reader, a call can return normally exactly when the
      closed flag, which the keepalive task tests and _send_request does not, was clear. */
  lemma AnswerableIffOpen(withKeepalive: bool, steps: seq<Step>, s: State)
    requires Runs(Init(withKeepalive), steps, s) && Undisturbed(steps)
    ensures !s.mux.closed <==> CanReturn(Apply(s, Sender(Start)), s.mux.nextId)
  {
    FlagTellsRun(Init(withKeepalive), steps, s);
    assert Reachable(s);
    AnswerableIff(s);
  }

  // ------------------------------------------------------------ pushes and acks

  /** requests() yields the REQUEST frames in the order read, each once; if it ends by
      itself it has yielded them all, and after the reader's end it never waits. */
  lemma YieldsRequestsInOrder(s: State)
    requires Reachable(s)
    ensures s.consumed <= Requests(s.frames)
    ensures s.consumer.Finished? ==> s.consumed == Requests(s.frames)
    ensures s.reader.ReaderOver? && s.consumer.Idle? ==> s.mux.queue != []
    ensures forall i :: 0 <= i < |s.mux.queue| - 1 ==> s.mux.queue[i].Push?
  {
    ReachableInv(s);
  }

  /** One turn of the receive loop. */
  function Turn(raised: bool, failed: bool): seq<Step> {
    [ConsumerTask(TakeItem), ConsumerTask(HandlerDone(raised)), ConsumerTask(AckDone(failed))]
  }

  /** A step of the receive loop that takes a request or leaves the stream alone. */
  lemma TakeRequest(s: State)
    requires Inv(s) && s.consumer.Idle? && |s.consumed| < |Requests(s.frames)|
    ensures s.mux.queue != [] && s.mux.queue[0].Push?
    ensures var t := Apply(s, ConsumerTask(TakeItem));
            Inv(t) && t.consumer.Handling? && t.reader == s.reader && t.frames == s.frames && |t.consumed| == |s.consumed| + 1
  {
    assert s.mux.queue[0] == Push(Requests(s.frames)[|s.consumed|]);
    StepInv(s, ConsumerTask(TakeItem));
  }

  lemma HandleAndAck(s: State, raised: bool, failed: bool)
    requires Inv(s) && s.consumer.Handling?
    ensures var b, c := ConsumerTask(HandlerDone(raised)), ConsumerTask(AckDone(failed));
            && Enabled(Apply(s, b), c)
            && var t := Apply(Apply(s, b), c);
               Inv(t) && t.consumer.Idle? && t.reader == s.reader && t.frames == s.frames && t.consumed == s.consumed
  {
    var b := ConsumerTask(HandlerDone(raised));
    StepInv(s, b);
    StepInv(Apply(s, b), ConsumerTask(AckDone(failed)));
  }

  lemma TakeTurn(s: State, raised: bool, failed: bool)
    requires Inv(s) && s.consumer.Idle? && |s.consumed| < |Requests(s.frames)|
    ensures exists t :: Runs(s, Turn(raised, failed), t) && Inv(t) && t.consumer.Idle? && t.reader == s.reader
                        && t.frames == s.frames && |t.consumed| == |s.consumed| + 1
  {
    var a := ConsumerTask(TakeItem);
    TakeRequest(s);
    HandleAndAck(Apply(s, a), raised, failed);
    RunsThree(s, a, ConsumerTask(HandlerDone(raised)), ConsumerTask(AckDone(failed)));
  }

  /** n turns from the k-th request on, with the given outcomes of handlers and acks, and then
      the taking of the sentinel. */
  function Drain(n: nat, k: nat, raised: nat -> bool, failed: nat -> bool): seq<Step> {
    if n == 0 then [ConsumerTask(TakeItem)] else Turn(raised(k), failed(k)) + Drain(n - 1, k + 1, raised, failed)
  }

  /** Taking these steps ends the receive loop with these requests consumed. */
  ghost predicate Drains(s: State, steps: seq<Step>, reqs: seq<WsRequest>) {
    exists t :: Runs(s, steps, t) && t.consumer.Finished? && t.consumed == reqs
  }

  lemma DrainsAfter(s: State, a: seq<Step>, u: State, b: seq<Step>, reqs: seq<WsRequest>)
    requires Runs(s, a, u) && Drains(u, b, reqs)
    ensures Drains(s, a + b, reqs)
  {
    var t :| Runs(u, b, t) && t.consumer.Finished? && t.consumed == reqs;
    RunsAppend(s, a, u, b, t);
  }

  lemma TakeSentinel(s: State)
    requires Inv(s) && s.reader.ReaderOver? && s.consumer.Idle? && |s.consumed| == |Requests(s.frames)|
    ensures Drains(s, [ConsumerTask(TakeItem)], Requests(s.frames))
  {
    var a := ConsumerTask(TakeItem);
    assert s.mux.queue == [Sentinel];
    var t := Apply(s, a);
    assert Runs(t, [], t);
    assert Runs(s, [a], t);
  }

  /** One turn, then the rest. */
  lemma DrainsByTurn(s: State, n: nat, raised: nat -> bool, failed: nat -> bool, u: State, reqs: seq<WsRequest>)
    requires n > 0 && Runs(s, Turn(raised(|s.consumed|), failed(|s.consumed|)), u) && |u.consumed| == |s.consumed| + 1
    requires Drains(u, Drain(n - 1, |u.consumed|, raised, failed), reqs)
    ensures Drains(s, Drain(n, |s.consumed|, raised, failed), reqs)
  {
    var k := |s.consumed|;
    DrainsAfter(s, Turn(raised(k), failed(k)), u, Drain(n - 1, k + 1, raised, failed), reqs);
  }

  /** After the reader's end the receive loop, left alone, runs to its own end having consumed
      every request, whichever handlers and acks raise. */
  lemma {:induction false} LoopDrains(s: State, raised: nat -> bool, failed: nat -> bool)
    requires Inv(s) && s.reader.ReaderOver? && s.consumer.Idle?
    ensures var n := |Requests(s.frames)| - |s.consumed|;
            n >= 0 && Drains(s, Drain(n, |s.consumed|, raised, failed), Requests(s.frames))
    decreases |Requests(s.frames)| - |s.consumed|
  {
    var n, k := |Requests(s.frames)| - |s.consumed|, |s.consumed|;
    if n == 0 {
      TakeSentinel(s);
    } else {
      TakeTurn(s, raised(k), failed(k));
      var u :| Runs(s, Turn(raised(k), failed(k)), u) && Inv(u) && u.consumer.Idle? && u.reader == s.reader
               && u.frames == s.frames && |u.consumed| == k + 1;
      LoopDrains(u, raised, failed);
      DrainsByTurn(s, n, raised, failed, u, Requests(s.frames));
    }
  }

  /** The ack attempts in a log. */
  function Acks(log: seq<Event>): seq<Event> {
    if log == [] then []
    else (if log[0].Acked? then [log[0]] else []) + Acks(log[1..])
  }

  lemma {:induction false} AcksOfPrefix(log: seq<Event>, consumed: seq<WsRequest>)
    requires 2 * |consumed| - 1 <= |log| <= 2 * |consumed|
    requires forall k :: 0 <= k < |consumed| ==>
               log[2 * k] == Started(consumed[k]) && (2 * k + 1 < |log| ==> log[2 * k + 1] == Acked(consumed[k].id, 200))
    ensures |Acks(log)| == |log| / 2
    ensures forall k :: 0 <= k < |log| / 2 ==> Acks(log)[k] == Acked(consumed[k].id, 200)
    decreases |log|
  {
    if |log| >= 2 {
      var rest, more := log[2..], consumed[1..];
      assert log[0] == log[2 * 0] == Started(consumed[0]) && log[1] == log[2 * 0 + 1] == Acked(consumed[0].id, 200);
      forall k | 0 <= k < |more|
        ensures rest[2 * k] == Started(more[k]) && (2 * k + 1 < |rest| ==> rest[2 * k + 1] == Acked(more[k].id, 200))
      {
        assert log[2 * (k + 1)] == Started(consumed[k + 1]);
        assert rest[2 * k] == log[2 * (k + 1)];
      }
      AcksOfPrefix(rest, more);
      assert log[1..][1..] == rest;
      assert Acks(log) == [log[1]] + Acks(rest);
    } else if |log| == 1 {
      assert log[0] == log[2 * 0] == Started(consumed[0]);
      assert Acks(log[1..]) == [];
    }
  }

  /** Over every run: one ack attempt with status 200 and the request's own id per consumed
      request, in arrival order, and request k + 1 is not started before the ack of k. Only
      the request being handled is still unacked. */
  lemma OneAckPerRequest(s: State)
    requires Reachable(s)
    ensures var n := |s.consumed| - (if s.consumer.Handling? then 1 else 0);
            && |Acks(s.log)| == n
            && (forall k :: 0 <= k < n ==> Acks(s.log)[k] == Acked(s.consumed[k].id, 200))
    ensures |s.log| == 2 * |s.consumed| - (if s.consumer.Handling? then 1 else 0)
    ensures forall k :: 0 <= k < |s.consumed| ==>
              s.log[2 * k] == Started(s.consumed[k]) && (2 * k + 1 < |s.log| ==> s.log[2 * k + 1] == Acked(s.consumed[k].id, 200))
  {
    ReachableInv(s);
    AcksOfPrefix(s.log, s.consumed);
  }

  // ------------------------------------------------------------ close

  /** A close() that is past its awaits raised exactly when the reader or the keepalive task
      died; otherwise it reached the socket, and no early call is left unresolved. */
  lemma CloseRaisesIffTaskDied(s: State, c: nat)
    requires Reachable(s) && c in s.closers && !s.closers[c].AwaitReader? && !s.closers[c].AwaitKeepalive?
    ensures s.closers[c].CloseRaised? <==> s.reader == ReaderOver(Died) || s.keepalive == KeepaliveOver(Died)
    ensures !s.closers[c].CloseRaised? ==>
              && s.reader.ReaderOver? && (s.keepalive.Off? || s.keepalive.KeepaliveOver?)
              && forall r :: Live(s, r) && !s.calls[r].late ==> r in s.mux.futures && !s.mux.futures[r].Pending?
  {
    ReachableInv(s);
  }

  /** A malformed frame, then close(): it raises, and never reaches the socket. */
  lemma CloseRaisesExample()
    ensures exists s :: Reachable(s) && s.closers == map[0 := CloseRaised] && s.reader == ReaderOver(Died)
  {
    var a, b, c := ReaderTask(Read(Malformed)), CloserTask(Begin(0)), CloserTask(Advance(0));
    RunsThree(Init(false), a, b, c);
    var t := Apply(Apply(Apply(Init(false), a), b), c);
    assert Reachable(t);
    assert t.closers == map[0 := CloseRaised];
  }

  /** A close() that waits is never deadlocked: it can go on, or the task it cancelled can
      take the step that ends it. */
  lemma CloseNeverDeadlocks(s: State, c: nat)
    requires Reachable(s) && c in s.closers && !s.closers[c].CloseReturned? && !s.closers[c].CloseRaised?
    ensures || CloserEnabled(s, Advance(c))
            || (ReaderEnabled(s, StopNow) && CloserEnabled(ApplyReader(s, StopNow), Advance(c)))
            || (KeepaliveEnabled(s, Run) && CloserEnabled(ApplyKeepalive(s, Run), Advance(c)))
            || (s.keepalive.Calling? &&
                var rid := s.keepalive.rid;
                || (CallEnabled(s, SendStop(rid)) && CloserEnabled(ApplyCall(s, SendStop(rid)), Advance(c)))
                || (CallEnabled(s, Resume(rid)) && CloserEnabled(ApplyCall(s, Resume(rid)), Advance(c))))
  {
    ReachableInv(s);
  }
}
