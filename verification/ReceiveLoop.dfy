/** The receive loop run over a finite stream of pushes: handle, dispatch, ack, whatever raises. */
module ReceiveLoop {
  import opened Bytes
  import opened Messages
  import opened Handlers
  import WsMux
  import Receive

  function ClassOf(ev: Event): Class {
    match ev
    case TextMessage(_, _, _, _, _, _, _, _) => "TextMessage"
    case GroupTextMessage(_, _, _, _, _, _, _, _, _) => "GroupTextMessage"
    case Receipt(_, _, _, _) => "Receipt"
    case Typing(_, _, _, _, _) => "Typing"
    case SelfSent(_, _, _, _) => "SelfSent"
    case UnknownMessage(_, _, _, _, _, _) => "UnknownMessage"
    case DecryptionError(_, _, _, _) => "DecryptionError"
  }

  const EVENT: Class := "Event"

  /** The event's class, its base, and object. */
  function Mro(ev: Event): seq<Class> {
    [ClassOf(ev), EVENT, OBJECT]
  }

  /** For the n-th event dispatched: what the handlers and other tasks do to the registry until
      the next one is, and which of the handlers started raise. */
  datatype Reaction = Reaction(meanwhile: nat -> seq<Op>, raises: nat -> nat -> bool)

  /** Registrations, and handler starts so far. */
  type Progress = (seq<Registration>, seq<(Event, Handler)>)

  function Then(before: Progress, ev: Event, meanwhile: seq<Op>): Progress {
    (DoAll(before.0, meanwhile), before.1 + With(ev, Snapshot(before.0, Mro(ev))))
  }

  /** The registrations and the handler starts that events lead to from p, the first of them
      being number n. */
  function Starts(p: Progress, events: seq<Event>, react: Reaction, n: nat): Progress
    decreases |events|
  {
    if events == [] then p else Starts(Then(p, events[0], react.meanwhile(n)), events[1..], react, n + 1)
  }

  /** ev paired with each handler. */
  function With(ev: Event, hs: seq<Handler>): (r: seq<(Event, Handler)>)
    ensures |r| == |hs| && forall i :: 0 <= i < |hs| ==> r[i] == (ev, hs[i])
  {
    seq(|hs|, i requires 0 <= i < |hs| => (ev, hs[i]))
  }

  /** The store and the events after a list of pushes; a push whose handling raised gives none. */
  ghost function HandleAll<S>(c: Receive.Codecs, box: Receive.Inbox<S>, s: S, reqs: seq<WsMux.WsRequest>): (S, seq<Event>) {
    if reqs == [] then (s, [])
    else
      var (t, events) := HandleAll(c, box, s, reqs[..|reqs| - 1]);
      var (u, more) := Gives(c, box, t, reqs[|reqs| - 1]);
      (u, events + more)
  }

  /** The store and the events after one push. */
  ghost function Gives<S>(c: Receive.Codecs, box: Receive.Inbox<S>, s: S, req: WsMux.WsRequest): (S, seq<Event>) {
    var (t, out) := Receive.Handled(c, box, s, req);
    (t, Or(out, []))
  }

  lemma {:induction false} StartsAppend(p: Progress, a: seq<Event>, b: seq<Event>, react: Reaction, n: nat)
    ensures Starts(p, a + b, react, n) == Starts(Starts(p, a, react, n), b, react, n + |a|)
    decreases |a|
  {
    if a == [] {
      assert a + b == b;
    } else {
      assert (a + b)[0] == a[0] && (a + b)[1..] == a[1..] + b;
      StartsAppend(Then(p, a[0], react.meanwhile(n)), a[1..], b, react, n + 1);
    }
  }

  lemma StartsOne(p: Progress, events: seq<Event>, i: nat, react: Reaction, n: nat)
    requires i < |events|
    ensures Starts(p, events[i..], react, n + i) == Starts(Then(p, events[i], react.meanwhile(n + i)), events[i + 1..], react, n + (i + 1))
  {
    assert events[i..][1..] == events[i + 1..];
  }

  /** Dispatch the events of one push in order, the first of them being number n. */
  method DispatchAll(registry: HandlerRegistry, events: seq<Event>, react: Reaction, n: nat, before: seq<(Event, Handler)>)
    returns (starts: seq<(Event, Handler)>)
    requires registry.Valid()
    modifies registry
    ensures registry.Valid() && (registry.live, starts) == Starts((old(registry.live), before), events, react, n)
  {
    ghost var goal := Starts((registry.live, before), events, react, n);
    starts := before;
    assert events[0..] == events;
    for i := 0 to |events|
      invariant registry.Valid()
      invariant Starts((registry.live, starts), events[i..], react, n + i) == goal
    {
      var ev, ops := events[i], react.meanwhile(n + i);
      StartsOne((registry.live, starts), events, i, react, n);
      var hs, logged := registry.Dispatch(Mro(ev), ops, react.raises(n + i));
      starts := starts + With(ev, hs);
    }
    assert events[|events|..] == [];
  }

  /** The try block: handle one push and dispatch what it gives. */
  method HandleOne<S>(c: Receive.Codecs, box: Receive.Inbox<S>, s: S, registry: HandlerRegistry, req: WsMux.WsRequest,
                      react: Reaction, n: nat, before: seq<(Event, Handler)>)
    returns (t: S, events: seq<Event>, starts: seq<(Event, Handler)>)
    requires registry.Valid()
    modifies registry
    ensures registry.Valid() && (t, events) == Gives(c, box, s, req)
    ensures (registry.live, starts) == Starts((old(registry.live), before), events, react, n)
  {
    var out;
    t, out := Receive.HandleRequest(c, box, s, req);
    events := Or(out, []);
    starts := DispatchAll(registry, events, react, n, before);
  }

  lemma HandleAllSnoc<S>(c: Receive.Codecs, box: Receive.Inbox<S>, s: S, reqs: seq<WsMux.WsRequest>, i: nat)
    requires i < |reqs|
    ensures var (t, events) := HandleAll(c, box, s, reqs[..i]);
            var (u, more) := Gives(c, box, t, reqs[i]);
            HandleAll(c, box, s, reqs[..i + 1]) == (u, events + more)
  {
    assert reqs[..i + 1][..i] == reqs[..i];
  }

  /** One more push: its events come after the earlier ones, and so do the handlers they start. */
  lemma OneMore<S>(c: Receive.Codecs, box: Receive.Inbox<S>, s: S, reqs: seq<WsMux.WsRequest>, i: nat, t: S, events: seq<Event>,
                   u: S, more: seq<Event>, p: Progress, react: Reaction)
    requires i < |reqs| && HandleAll(c, box, s, reqs[..i]) == (t, events) && Gives(c, box, t, reqs[i]) == (u, more)
    ensures HandleAll(c, box, s, reqs[..i + 1]) == (u, events + more)
    ensures Starts(p, events + more, react, 0) == Starts(Starts(p, events, react, 0), more, react, |events|)
  {
    assert reqs[..i + 1][..i] == reqs[..i];
    StartsAppend(p, events, more, react, 0);
  }

  /** The loop: each push is handled, its event dispatched, and one ack with status 200
      attempted, also when handling raised. */
  method RunReceiveLoop<S>(c: Receive.Codecs, box: Receive.Inbox<S>, s: S, registry: HandlerRegistry, reqs: seq<WsMux.WsRequest>,
                           react: Reaction)
    returns (t: S, starts: seq<(Event, Handler)>, acks: seq<(nat, int)>)
    requires registry.Valid()
    modifies registry
    ensures registry.Valid()
    ensures t == HandleAll(c, box, s, reqs).0
    ensures (registry.live, starts) == Starts((old(registry.live), []), HandleAll(c, box, s, reqs).1, react, 0)
    ensures |acks| == |reqs| && forall i :: 0 <= i < |reqs| ==> acks[i] == (reqs[i].id, 200)
  {
    t, starts, acks := s, [], [];
    var n := 0;
    ghost var events := [];
    for i := 0 to |reqs|
      invariant registry.Valid() && (t, events) == HandleAll(c, box, s, reqs[..i]) && n == |events|
      invariant (registry.live, starts) == Starts((old(registry.live), []), events, react, 0)
      invariant |acks| == i && forall k :: 0 <= k < i ==> acks[k] == (reqs[k].id, 200)
    {
      ghost var before := t;
      var more;
      t, more, starts := HandleOne(c, box, t, registry, reqs[i], react, n, starts);
      OneMore(c, box, s, reqs, i, before, events, t, more, (old(registry.live), []), react);
      n := n + |more|;
      events := events + more;
      acks := acks + [(reqs[i].id, 200)];
    }
    assert reqs[..|reqs|] == reqs;
  }

  lemma SnapshotOfBase(live: seq<Registration>)
    ensures Snapshot(live, [EVENT, OBJECT]) == Of(live, EVENT)
  {
    assert [EVENT, OBJECT][..1] == [EVENT] && [EVENT][..0] == [];
    assert Snapshot(live, []) == [];
    assert Snapshot(live, [EVENT]) == [] + Of(live, EVENT);
  }

  lemma SnapshotOfEvent(live: seq<Registration>, ev: Event)
    ensures Snapshot(live, Mro(ev)) == Of(live, ClassOf(ev)) + Of(live, EVENT)
  {
    var base := [EVENT, OBJECT];
    assert [] + [ClassOf(ev)] + base == Mro(ev);
    SnapshotOfThree(live, [], ClassOf(ev), base);
    SnapshotOfBase(live);
    assert Snapshot(live, []) == [] && [] + Of(live, ClassOf(ev)) == Of(live, ClassOf(ev));
  }

  /** A handler of an event's class or of Event is started with it, once per registration, the
      class's handlers first. */
  lemma EventReachesItsHandlers(live: seq<Registration>, ev: Event, react: Reaction, n: nat)
    ensures var starts := Starts((live, []), [ev], react, n).1;
            var hs := Of(live, ClassOf(ev)) + Of(live, EVENT);
            |starts| == |hs| && forall i :: 0 <= i < |hs| ==> starts[i] == (ev, hs[i])
  {
    SnapshotOfEvent(live, ev);
    var hs := Snapshot(live, Mro(ev));
    assert [ev][1..] == [] && [] + With(ev, hs) == With(ev, hs);
  }
}
