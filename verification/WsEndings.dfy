/** How calls and tasks end: which exception, for whom, and why. */
module WsEndings {
  import opened WsMux
  import opened WsProtocol
  import opened WsTheorems

  // ------------------------------------------------------------ why a call ends as it does

  /** A future is cancelled, or a call ends cancelled, only on a cancellation of that call; a
      future fails, or a call ends with "websocket closed", only once the reader is over. */
  ghost predicate EndInv(s: State) {
    forall r :: r in s.calls && r in s.mux.futures ==>
      && (s.mux.futures[r].Cancelled? ==> s.calls[r].cancel)
      && (s.mux.futures[r].Failed? ==> s.reader.ReaderOver?)
      && (s.calls[r].phase == Ended(CallCancelled) ==> s.calls[r].cancel)
      && (s.calls[r].phase == Ended(SocketGone) ==> s.mux.futures[r] == Failed)
  }

  lemma EndEnd(s: State, rid: nat, end: CallEnd)
    requires CoreInv(s) && EndInv(s) && rid in s.calls
    requires (end.CallCancelled? ==> s.calls[rid].cancel) && (end.SocketGone? ==> s.mux.futures[rid] == Failed)
    ensures EndInv(EndCall(s, rid, end))
  {
  }

  lemma EndCancel(s: State, rid: nat)
    requires CoreInv(s) && EndInv(s)
    ensures EndInv(Cancel(s, rid))
  {
  }

  lemma EndStart(s: State)
    requires CoreInv(s) && EndInv(s)
    ensures EndInv(StartCall(s))
  {
  }

  lemma EndFinish(s: State, end: TaskEnd)
    requires CoreInv(s) && EndInv(s)
    ensures EndInv(FinishReader(s, end))
  {
  }

  lemma EndDeliver(s: State, resp: WsResponse)
    requires CoreInv(s) && EndInv(s)
    ensures EndInv(s.(mux := Deliver(s.mux, resp)))
  {
  }

  lemma EndFrame(s: State, t: State)
    requires EndInv(s)
    requires t.mux.futures == s.mux.futures && t.calls == s.calls && t.reader.ReaderOver? == s.reader.ReaderOver?
    ensures EndInv(t)
  {
  }

  lemma EndCallStep(s: State, step: CallStep)
    requires CallEnabled(s, step) && CoreInv(s) && EndInv(s)
    ensures EndInv(ApplyCall(s, step))
  {
    match step
    case Start => EndStart(s);
    case SendOk(rid) =>
      if FutureOf(s, rid).Pending? { EndSuspend(s, rid); } else { EndEnd(s, rid, EndOf(FutureOf(s, rid))); }
    case SendFail(rid) => EndEnd(s, rid, SendRaised);
    case SendStop(rid) => EndEnd(s, rid, CallCancelled);
    case Resume(rid) => EndEnd(s, rid, if s.calls[rid].cancel then CallCancelled else EndOf(FutureOf(s, rid)));
    case Interrupt(rid) => EndCancel(s, rid);
  }

  lemma EndSuspend(s: State, rid: nat)
    requires EndInv(s) && rid in s.calls
    ensures EndInv(s.(calls := s.calls[rid := s.calls[rid].(phase := Waiting)]))
  {
  }

  lemma EndReader(s: State, step: ReaderStep)
    requires ReaderEnabled(s, step) && CoreInv(s) && EndInv(s)
    ensures EndInv(ApplyReader(s, step))
  {
    match step
    case SocketEnd => EndFinish(s, Normal);
    case StopNow => EndFinish(s, Stopped);
    case InterruptReader => EndFrame(s, StopReader(s));
    case Read(frame) =>
      var t := s.(frames := s.frames + [frame]);
      EndFrame(s, t);
      match frame
      case Malformed => EndFinish(t, Died);
      case Response(resp) => EndDeliver(s, resp); EndFrame(s.(mux := Deliver(s.mux, resp)), ReadFrame(s, frame));
      case _ => EndFrame(s, ReadFrame(s, frame));
  }

  lemma EndStop(s: State)
    requires CoreInv(s) && EndInv(s)
    ensures EndInv(StopKeepalive(s))
  {
    if s.keepalive.Calling? { EndCancel(s, s.keepalive.rid); } else { EndFrame(s, StopKeepalive(s)); }
  }

  lemma EndRunKeepalive(s: State)
    requires CoreInv(s) && EndInv(s)
    ensures EndInv(RunKeepalive(s))
  {
    if s.keepalive == Asleep(false) && !s.mux.closed {
      EndStart(s);
      EndFrame(StartCall(s), RunKeepalive(s));
    } else {
      EndFrame(s, RunKeepalive(s));
    }
  }

  lemma EndCloser(s: State, step: CloserStep)
    requires CloserEnabled(s, step) && CoreInv(s) && EndInv(s)
    ensures EndInv(ApplyCloser(s, step))
  {
    EndStop(s);
    var t := ApplyCloser(s, step);
    if t.calls == s.calls && t.mux.futures == s.mux.futures { EndFrame(s, t); } else { EndFrame(StopKeepalive(s), t); }
  }

  lemma EndStep(s: State, step: Step)
    requires Enabled(s, step) && CoreInv(s) && EndInv(s)
    ensures EndInv(Apply(s, step))
  {
    match step
    case Sender(c) => EndCallStep(s, c);
    case ReaderTask(r) => EndReader(s, r);
    case KeepaliveTask(_) => EndRunKeepalive(s); EndStop(s);
    case ConsumerTask(u) => EndFrame(s, ApplyConsumer(s, u));
    case CloserTask(z) => EndCloser(s, z);
  }

  lemma {:induction false} EndRun(s: State, steps: seq<Step>, t: State)
    requires Runs(s, steps, t) && Inv(s) && EndInv(s)
    ensures EndInv(t)
    decreases steps
  {
    if steps != [] {
      EndStep(s, steps[0]);
      StepInv(s, steps[0]);
      EndRun(Apply(s, steps[0]), steps[1..], t);
    }
  }

  lemma EndReachable(s: State)
    requires Reachable(s)
    ensures Inv(s) && EndInv(s)
  {
    ReachableInv(s);
    var withKeepalive, steps :| Runs(Init(withKeepalive), steps, s);
    InitInv(withKeepalive);
    EndRun(Init(withKeepalive), steps, s);
  }

  /** Nobody is cancelled who was not, and "websocket closed" is raised only for a future the
      reader's final block failed. */
  lemma EndsForAReason(s: State, rid: nat)
    requires Reachable(s) && rid in s.calls && s.calls[rid].phase.Ended?
    ensures s.calls[rid].phase.end.CallCancelled? ==> s.calls[rid].cancel
    ensures s.calls[rid].phase.end.SocketGone? ==> s.reader.ReaderOver? && rid in s.mux.futures && s.mux.futures[rid] == Failed
  {
    EndReachable(s);
  }

  /** The one step that resumes or finishes sending an early call once the reader is over. */
  function WakeUp(s: State, rid: nat): CallStep
    requires rid in s.calls
  {
    if s.calls[rid].phase.Waiting? then Resume(rid) else if s.calls[rid].cancel then SendStop(rid) else SendOk(rid)
  }

  /** No waiter is lost: once the reader is over, every live call that registered before has a
      completed future, and one step of its own ends it: uncancelled, with its response if that
      came and else with "websocket closed"; cancelled, as cancelled. */
  lemma NoWaiterLost(s: State, rid: nat)
    requires Reachable(s) && s.reader.ReaderOver? && Live(s, rid) && !s.calls[rid].late
    ensures CallEnabled(s, WakeUp(s, rid)) && rid in s.mux.futures && !s.mux.futures[rid].Pending?
    ensures var t := ApplyCall(s, WakeUp(s, rid));
            && rid in t.calls && rid !in t.mux.pending
            && (s.calls[rid].cancel ==> t.calls[rid].phase == Ended(CallCancelled))
            && (!s.calls[rid].cancel ==>
                  || (s.mux.futures[rid] == Failed && t.calls[rid].phase == Ended(SocketGone))
                  || (s.mux.futures[rid].Done? && t.calls[rid].phase == Ended(Returned(s.mux.futures[rid].resp))))
  {
    EndReachable(s);
  }

  /** A waiting call, whenever it can resume: the same three ways. */
  lemma ResumedCallEnds(s: State, rid: nat)
    requires Reachable(s) && CallEnabled(s, Resume(rid))
    ensures rid in s.mux.futures && rid in ApplyCall(s, Resume(rid)).calls
    ensures var end := ApplyCall(s, Resume(rid)).calls[rid].phase;
            if s.calls[rid].cancel then end == Ended(CallCancelled)
            else (s.mux.futures[rid] == Failed && end == Ended(SocketGone))
                 || (s.mux.futures[rid].Done? && end == Ended(Returned(s.mux.futures[rid].resp)))
  {
    EndReachable(s);
  }

  // ------------------------------------------------------------ the keepalive task

  /** The keepalive's own call woken by the reader's end: an uncancelled one ends the task by
      itself, a cancelled one as cancelled. */
  lemma SweptKeepaliveEnds(s: State)
    requires Reachable(s) && s.reader.ReaderOver? && s.keepalive.Calling?
    ensures Live(s, s.keepalive.rid) && CallEnabled(s, WakeUp(s, s.keepalive.rid))
    ensures var t := ApplyCall(s, WakeUp(s, s.keepalive.rid));
            t.keepalive == KeepaliveOver(if s.calls[s.keepalive.rid].cancel then Stopped else Normal)
  {
    EndReachable(s);
    NoWaiterLost(s, s.keepalive.rid);
  }

  /** While the socket is open a keepalive that got its response goes back to sleep; one whose
      send raised dies of it. */
  lemma KeepaliveAfterItsCall(s: State, rid: nat)
    requires Reachable(s) && s.keepalive == Calling(rid)
    ensures CallEnabled(s, SendFail(rid)) ==> ApplyCall(s, SendFail(rid)).keepalive == KeepaliveOver(Died)
    ensures CallEnabled(s, SendStop(rid)) ==> ApplyCall(s, SendStop(rid)).keepalive == KeepaliveOver(Stopped)
    ensures CallEnabled(s, Resume(rid)) && !s.calls[rid].cancel && FutureOf(s, rid).Done? ==>
              ApplyCall(s, Resume(rid)).keepalive == if s.mux.closed then KeepaliveOver(Normal) else Asleep(false)
  {
    ReachableInv(s);
    ItsCallEnds(s, rid);
    if CallEnabled(s, Resume(rid)) && !s.calls[rid].cancel && FutureOf(s, rid).Done? {
      assert ApplyCall(s, Resume(rid)) == EndCall(s, rid, Returned(FutureOf(s, rid).resp));
    }
  }

  /** What its own call's end makes of the keepalive task. */
  lemma ItsCallEnds(s: State, rid: nat)
    requires s.keepalive == Calling(rid) && rid in s.calls
    ensures EndCall(s, rid, SendRaised).keepalive == KeepaliveOver(Died)
    ensures EndCall(s, rid, CallCancelled).keepalive == KeepaliveOver(Stopped)
    ensures forall resp :: EndCall(s, rid, Returned(resp)).keepalive == if s.mux.closed then KeepaliveOver(Normal) else Asleep(false)
  {
  }

  /** The keepalive task's own steps. Asleep, uncancelled and on an open socket, it sends: it
      registers the next call; closed, it ends; cancelled, it ends as cancelled. */
  lemma KeepaliveSends(s: State)
    requires Reachable(s) && KeepaliveEnabled(s, Run)
    ensures var t := ApplyKeepalive(s, Run);
            && (s.keepalive.cancel ==> t == s.(keepalive := KeepaliveOver(Stopped)))
            && (!s.keepalive.cancel && s.mux.closed ==> t == s.(keepalive := KeepaliveOver(Normal)))
            && (!s.keepalive.cancel && !s.mux.closed && s.keepalive.Unstarted? ==> t == s.(keepalive := Asleep(false)))
            && (!s.keepalive.cancel && !s.mux.closed && s.keepalive.Asleep? ==>
                  && t.keepalive == Calling(s.mux.nextId) && s.mux.nextId !in s.calls
                  && s.mux.nextId in t.calls && t.calls[s.mux.nextId].phase.Sending?
                  && s.mux.nextId in t.mux.pending && FutureOf(t, s.mux.nextId).Pending? && t.mux.nextId == s.mux.nextId + 1)
  {
    ReachableInv(s);
  }

  /** Cancelling a call marks it, and completes its future at once if it waits on a pending one;
      nothing else changes. */
  lemma InterruptCancels(s: State, rid: nat)
    requires Reachable(s) && CallEnabled(s, Interrupt(rid))
    ensures rid in s.mux.futures
    ensures var t := ApplyCall(s, Interrupt(rid));
            && t.calls == s.calls[rid := s.calls[rid].(cancel := true)]
            && t == s.(calls := t.calls, mux := t.mux) && t.mux == s.mux.(futures := t.mux.futures)
            && t.mux.futures == if s.calls[rid].phase.Waiting? && s.mux.futures[rid].Pending? then s.mux.futures[rid := Cancelled] else s.mux.futures
  {
    ReachableInv(s);
  }

  /** Cancelling the keepalive task marks it, or cancels the call it waits on. */
  lemma InterruptKeepaliveCancels(s: State)
    requires Reachable(s) && KeepaliveEnabled(s, InterruptKeepalive)
    ensures var t := ApplyKeepalive(s, InterruptKeepalive);
            && (s.keepalive.Unstarted? ==> t == s.(keepalive := Unstarted(true)))
            && (s.keepalive.Asleep? ==> t == s.(keepalive := Asleep(true)))
            && (s.keepalive.Calling? ==> CallEnabled(s, Interrupt(s.keepalive.rid)) && t == ApplyCall(s, Interrupt(s.keepalive.rid)))
  {
    ReachableInv(s);
  }

  /** A keepalive whose send raises dies, and close() then raises: reachable. */
  lemma KeepaliveDiesExample()
    ensures exists s :: Reachable(s) && s.keepalive == KeepaliveOver(Died) && s.reader == Reading(false)
  {
    var a, b, c := KeepaliveTask(Run), KeepaliveTask(Run), Sender(SendFail(1));
    RunsThree(Init(true), a, b, c);
    var t := Apply(Apply(Apply(Init(true), a), b), c);
    assert Reachable(t);
    assert t.keepalive == KeepaliveOver(Died) && t.reader == Reading(false);
  }

  /** A call cancelled while it sends ends as cancelled: reachable. */
  lemma CancelledExample()
    ensures exists s :: Reachable(s) && 1 in s.calls && s.calls[1].phase == Ended(CallCancelled) && s.reader == Reading(false)
  {
    var a, b, c := Sender(Start), Sender(Interrupt(1)), Sender(SendStop(1));
    RunsThree(Init(false), a, b, c);
    var t := Apply(Apply(Apply(Init(false), a), b), c);
    assert Reachable(t);
    assert t.calls[1].phase == Ended(CallCancelled);
  }

  // ------------------------------------------------------------ the reader

  /** The reader is dead exactly when it read a malformed frame, which then was the last. */
  ghost predicate DeathInv(s: State) {
    && (s.reader == ReaderOver(Died) <==> exists i :: 0 <= i < |s.frames| && s.frames[i].Malformed?)
    && (forall i :: 0 <= i < |s.frames| - 1 ==> !s.frames[i].Malformed?)
  }

  lemma DeathStep(s: State, step: Step)
    requires Enabled(s, step) && DeathInv(s)
    ensures DeathInv(Apply(s, step))
  {
    match step
    case Sender(c) => CallStream(s, c);
    case ReaderTask(r) => DeathReader(s, r);
    case KeepaliveTask(k) => KeepaliveStream(s, k);
    case ConsumerTask(u) =>
    case CloserTask(z) => DeathCloser(s, z);
  }

  lemma DeathCloser(s: State, step: CloserStep)
    requires CloserEnabled(s, step) && DeathInv(s)
    ensures DeathInv(ApplyCloser(s, step))
  {
    CloserStream(s, step);
  }

  lemma DeathReader(s: State, step: ReaderStep)
    requires ReaderEnabled(s, step) && DeathInv(s)
    ensures DeathInv(ApplyReader(s, step))
  {
    if step.Read? {
      var t := ApplyReader(s, step);
      assert t.frames == s.frames + [step.frame] && t.frames[|s.frames|] == step.frame;
      assert forall i :: 0 <= i < |s.frames| ==> t.frames[i] == s.frames[i];
    }
  }

  lemma {:induction false} DeathRun(s: State, steps: seq<Step>, t: State)
    requires Runs(s, steps, t) && DeathInv(s)
    ensures DeathInv(t)
    decreases steps
  {
    if steps != [] {
      DeathStep(s, steps[0]);
      DeathRun(Apply(s, steps[0]), steps[1..], t);
    }
  }

  /** The reader dies exactly of a malformed frame, and reads nothing after it. */
  lemma ReaderDiesIffMalformed(s: State)
    requires Reachable(s)
    ensures s.reader == ReaderOver(Died) <==> exists i :: 0 <= i < |s.frames| && s.frames[i].Malformed?
    ensures forall i :: 0 <= i < |s.frames| - 1 ==> !s.frames[i].Malformed?
  {
    var withKeepalive, steps :| Runs(Init(withKeepalive), steps, s);
    DeathRun(Init(withKeepalive), steps, s);
  }

  /** A closed socket ends the reader normally, a cancellation as cancelled. */
  lemma ReaderEnds(s: State)
    requires Reachable(s)
    ensures ReaderEnabled(s, SocketEnd) ==> ApplyReader(s, SocketEnd).reader == ReaderOver(Normal)
    ensures ReaderEnabled(s, StopNow) ==> ApplyReader(s, StopNow).reader == ReaderOver(Stopped)
    ensures s.reader == Reading(false) ==> ReaderEnabled(s, SocketEnd) && forall f :: ReaderEnabled(s, Read(f))
    ensures s.reader == Reading(true) ==> ReaderEnabled(s, StopNow)
    ensures s.reader.Reading? ==> ReaderEnabled(s, InterruptReader) && ApplyReader(s, InterruptReader) == s.(reader := Reading(true))
  {
  }

  // ------------------------------------------------------------ closing

  /** A close() starts by waiting for the reader, and returns only by the step that closes the
      connection. */
  lemma CloseReturnsFromSocket(s: State, step: Step, c: nat)
    requires Enabled(s, step) && c in Apply(s, step).closers
    ensures c !in s.closers ==> Apply(s, step).closers[c] == AwaitReader
    ensures c in s.closers && Apply(s, step).closers[c].CloseReturned? && !s.closers[c].CloseReturned? ==>
              s.closers[c].ClosingSocket? && step == CloserTask(Advance(c))
  {
    match step
    case Sender(k) => CallStream(s, k);
    case ReaderTask(r) =>
    case KeepaliveTask(k) => KeepaliveStream(s, k);
    case ConsumerTask(u) =>
    case CloserTask(z) => CloserMoves(s, z, c);
  }

  lemma CloserMoves(s: State, step: CloserStep, c: nat)
    requires CloserEnabled(s, step) && c in ApplyCloser(s, step).closers
    ensures c !in s.closers ==> ApplyCloser(s, step).closers[c] == AwaitReader
    ensures c in s.closers && ApplyCloser(s, step).closers[c].CloseReturned? && !s.closers[c].CloseReturned? ==>
              s.closers[c].ClosingSocket? && step == Advance(c)
  {
  }

  /** How many awaits a close() still has before it. */
  function AwaitsLeft(c: Closer): nat {
    match c
    case AwaitReader => 3
    case AwaitKeepalive => 2
    case ClosingSocket => 1
    case CloseReturned => 0
    case CloseRaised => 0
  }

  /** Each step of a close() gets it further, and the last one, closing the connection, returns. */
  lemma CloseProgresses(s: State, c: nat)
    requires CloserEnabled(s, Advance(c))
    ensures var t := ApplyCloser(s, Advance(c));
            && c in t.closers && AwaitsLeft(t.closers[c]) < AwaitsLeft(s.closers[c])
            && (s.closers[c].ClosingSocket? ==> t.closers[c].CloseReturned?)
            && (forall d :: d in s.closers && d != c ==> d in t.closers && t.closers[d] == s.closers[d])
  {
  }

  // ------------------------------------------------------------ cancelling the receive loop

  /** A receive loop cancelled while it handles a request still attempts that request's ack and
      then stops; cancelled while it waits or acks it stops at once. */
  lemma CancelledLoopStops(s: State)
    requires Reachable(s) && ConsumerEnabled(s, InterruptConsumer)
    ensures var t := ApplyConsumer(s, InterruptConsumer);
            if s.consumer.Handling? then
              && t.log == s.log + [Acked(s.consumer.req.id, 200)] && t.consumer.Acking?
              && forall failed :: ApplyConsumer(t, AckDone(failed)) == t.(consumer := Abandoned)
            else t == s.(consumer := Abandoned)
  {
  }

  lemma AbandonedStep(s: State, step: Step)
    requires Enabled(s, step) && s.consumer.Abandoned?
    ensures var t := Apply(s, step); t.consumer.Abandoned? && t.consumed == s.consumed && t.log == s.log
  {
    match step
    case Sender(c) => CallStream(s, c);
    case ReaderTask(r) =>
    case KeepaliveTask(k) => KeepaliveStream(s, k);
    case ConsumerTask(u) =>
    case CloserTask(z) => CloserStream(s, z);
  }

  /** Once stopped it takes no request and sends no ack, whatever the other tasks do. */
  lemma {:induction false} AbandonedForever(s: State, steps: seq<Step>, t: State)
    requires Runs(s, steps, t) && s.consumer.Abandoned?
    ensures t.consumer.Abandoned? && t.consumed == s.consumed && t.log == s.log
    decreases steps
  {
    if steps != [] {
      AbandonedStep(s, steps[0]);
      AbandonedForever(Apply(s, steps[0]), steps[1..], t);
    }
  }
}
