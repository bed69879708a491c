/** Many messages to one device, received in order through the socket: each becomes its event. */
module Conversation {
  import opened Bytes
  import opened Messages
  import opened SignalStore
  import opened AttachmentsApi
  import opened Send
  import opened Compose
  import opened EndToEnd
  import Attachments
  import Receive
  import ReceiveLoop
  import StoreEffects
  import WsMux
  import WsProtocol
  import WsTheorems

  /** What both ends of a conversation have in common: the libraries, the recipient's service id
      and device, and the sender as the recipient sees it. */
  datatype Setting<!S(!new)> = Setting(
    r: Ratchet, crypto: Attachments.Crypto, c: Receive.Codecs, box: Receive.Inbox<S>, service: string, device: nat, from: Sender)
  {
    ghost predicate Lawful() { r.Lawful() && crypto.Lawful() && c.Lawful() }
    function At(): string { Address(service, device) }
  }

  /** One message: what is sent and when, the CDN and the sender's store just before, and the
      number of the push that brings it. */
  datatype Round = Round(before: State, dev: Bundle, m: Outgoing, blobs: Blobs, uploads: nat -> Upload, now: u64, serverTimestamp: u64, pushId: nat)

  /** The message can be built, encrypted for the device and listed. */
  ghost predicate Goes<S(!new)>(x: Setting<S>, t: Round)
    requires x.Lawful()
  {
    && t.dev.deviceId == x.device && (forall i :: t.uploads(i).draw.Valid()) && DistinctKeys(t.m.attachments, t.uploads)
    && var built := Built(x.crypto, x.c.content, t.blobs, t.m, t.uploads, t.now).1;
       built.Success? &&
       var sent := EncryptDevice(x.r, t.before, x.service, t.dev, built.value).1;
       sent.Success? && MessageFor(t.dev, sent.value).Success?
  }

  ghost function Padded<S(!new)>(x: Setting<S>, t: Round): seq<byte>
    requires x.Lawful() && Goes(x, t)
  {
    Built(x.crypto, x.c.content, t.blobs, t.m, t.uploads, t.now).1.value
  }

  /** The sender's store after the message, and its ciphertext. */
  ghost function Sent<S(!new)>(x: Setting<S>, t: Round): (State, Cipher)
    requires x.Lawful() && Goes(x, t)
  {
    var (after, c) := EncryptDevice(x.r, t.before, x.service, t.dev, Padded(x, t));
    (after, c.value)
  }

  /** The push that brings the message. */
  ghost function Request<S(!new)>(x: Setting<S>, t: Round): WsMux.WsRequest
    requires x.Lawful() && Goes(x, t)
  {
    Push(x.c, Relay(x.c.names, x.from, MessageFor(t.dev, Sent(x, t).1).value, t.now, t.serverTimestamp), t.pushId)
  }

  /** The session it leaves behind. */
  ghost function Left<S(!new)>(x: Setting<S>, t: Round): seq<byte>
    requires x.Lawful() && Goes(x, t)
  {
    SentFromStart(x, t);
    Sent(x, t).0.tables.sessions[x.At()]
  }

  ghost function Start<S(!new)>(x: Setting<S>, t: Round): Origin
    requires x.Lawful() && Goes(x, t)
  {
    OriginOf(x.r, t.before, x.service, t.dev, Padded(x, t))
  }

  /** The ratchet's law over n messages: what is encrypted from the session opens at the peer,
      and the two are then in step for n - 1 more. */
  ghost predicate InStep<S(!new)>(x: Setting<S>, session: seq<byte>, peer: S, n: nat)
    decreases n
  {
    n > 0 ==> forall known, p, entropy :: x.r.encrypt(session, known, p, entropy).Success? ==>
      var (entry, k) := x.r.encrypt(session, known, p, entropy).value;
      EnvelopeType(k.kind).Some? ==>
        var (u, out) := Opened(x.c, x.box, peer, x.from, k);
        out == Success(p) && InStep(x, entry.session, u, n - 1)
  }

  /** A device's message is made from its start session, and leaves the session that follows. */
  lemma SentFromStart<S(!new)>(x: Setting<S>, t: Round)
    requires x.Lawful() && Goes(x, t)
    ensures var o := Start(x, t);
            var out := x.r.encrypt(o.session, o.known, Padded(x, t), o.entropy);
            && out.Success? && out.value.1 == Sent(x, t).1
            && x.At() in Sent(x, t).0.tables.sessions && Sent(x, t).0.tables.sessions[x.At()] == out.value.0.session
  {
  }

  /** One message: it arrives as its event, and the ends stay in step. */
  lemma RoundArrives<S(!new)>(x: Setting<S>, t: Round, peer: S, n: nat)
    requires x.Lawful() && Goes(x, t) && n > 0 && InStep(x, Start(x, t).session, peer, n)
    ensures var (u, events) := ReceiveLoop.Gives(x.c, x.box, peer, Request(x, t));
            |events| == 1 && EventOf(x, t, events[0]) && InStep(x, Left(x, t), u, n - 1)
  {
    SentFromStart(x, t);
    var o, k, msg := Start(x, t), Sent(x, t).1, MessageFor(t.dev, Sent(x, t).1).value;
    assert x.r.encrypt(o.session, o.known, Padded(x, t), o.entropy).Success?;
    RelayedCipher(x.c, x.box, peer, x.from, msg, k, Padded(x, t), t.now, t.serverTimestamp);
    var e := Relay(x.c.names, x.from, msg, t.now, t.serverTimestamp);
    HandledPush(x.c, x.box, peer, e, t.pushId);
    ContentArrives(x.crypto, x.c, t.blobs, t.m, t.uploads, t.now, x.from, e);
  }

  /** ev is the event message t must become. */
  ghost predicate EventOf<S(!new)>(x: Setting<S>, t: Round, ev: Event)
    requires x.Lawful() && Goes(x, t)
  {
    Arrives(ev, t.m, x.from, t.now, t.serverTimestamp, x.crypto, Built(x.crypto, x.c.content, t.blobs, t.m, t.uploads, t.now).0)
  }

  /** Every message goes, and each starts from the session the one before left; the rest of the
      store may change in between. */
  ghost predicate Conversed<S(!new)>(x: Setting<S>, ts: seq<Round>) {
    && x.Lawful() && (forall i :: 0 <= i < |ts| ==> Goes(x, ts[i]))
    && (forall i :: 1 <= i < |ts| ==> Follows(x, ts[i - 1], ts[i]))
  }

  ghost predicate Follows<S(!new)>(x: Setting<S>, t: Round, next: Round)
    requires x.Lawful() && Goes(x, t)
  {
    Get(next.before.tables.sessions, x.At()) == Some(Left(x, t))
  }

  lemma FollowingStart<S(!new)>(x: Setting<S>, t: Round, next: Round)
    requires x.Lawful() && Goes(x, t) && Goes(x, next) && Follows(x, t, next)
    ensures Start(x, next).session == Left(x, t)
  {
    MissesIff(x.r, next.before, x.service, next.dev, Padded(x, next));
  }

  ghost function RequestsOf<S(!new)>(x: Setting<S>, ts: seq<Round>): (reqs: seq<WsMux.WsRequest>)
    requires Conversed(x, ts)
    ensures |reqs| == |ts| && forall i :: 0 <= i < |ts| ==> reqs[i] == Request(x, ts[i])
  {
    seq(|ts|, i requires 0 <= i < |ts| => Request(x, ts[i]))
  }

  // ------------------------------------------------------------ legs

  /** What a message looks like from outside: the push, the session it started from and the one
      it left, and what must come of it. */
  datatype Leg = Leg(req: WsMux.WsRequest, before: seq<byte>, after: seq<byte>, m: Outgoing, now: u64, serverTimestamp: u64, cdn: Blobs)

  ghost predicate Becomes<S(!new)>(x: Setting<S>, leg: Leg, ev: Event)
    requires x.Lawful()
  {
    Arrives(ev, leg.m, x.from, leg.now, leg.serverTimestamp, x.crypto, leg.cdn)
  }

  ghost predicate Done<S(!new)>(x: Setting<S>, leg: Leg, peer: S, n: nat)
    requires x.Lawful() && n > 0
  {
    var (u, events) := ReceiveLoop.Gives(x.c, x.box, peer, leg.req);
    |events| == 1 && Becomes(x, leg, events[0]) && InStep(x, leg.after, u, n - 1)
  }

  /** Each leg arrives at any peer in step, and starts where the one before ended. */
  ghost predicate Chain<S(!new)>(x: Setting<S>, legs: seq<Leg>)
    requires x.Lawful()
  {
    && (forall i, peer: S, n: nat :: 0 <= i < |legs| && n > 0 && InStep(x, legs[i].before, peer, n) ==> Done(x, legs[i], peer, n))
    && (forall i :: 1 <= i < |legs| ==> legs[i].before == legs[i - 1].after)
  }

  function Pushes(legs: seq<Leg>): (reqs: seq<WsMux.WsRequest>)
    ensures |reqs| == |legs| && forall i :: 0 <= i < |legs| ==> reqs[i] == legs[i].req
  {
    seq(|legs|, i requires 0 <= i < |legs| => legs[i].req)
  }

  /** After k pushes: k events have arrived, and the peer is in step for the rest. */
  ghost predicate Progressed<S(!new)>(x: Setting<S>, legs: seq<Leg>, k: nat, p: (S, seq<Event>))
    requires x.Lawful()
  {
    && k <= |legs| && |p.1| == k && (forall i :: 0 <= i < k ==> Becomes(x, legs[i], p.1[i]))
    && (k < |legs| ==> InStep(x, legs[k].before, p.0, |legs| - k))
  }

  lemma Progresses<S(!new)>(x: Setting<S>, legs: seq<Leg>, k: nat, p: (S, seq<Event>), q: (S, seq<Event>))
    requires x.Lawful() && Chain(x, legs) && k < |legs| && Progressed(x, legs, k, p)
    requires var (u, more) := ReceiveLoop.Gives(x.c, x.box, p.0, legs[k].req); q == (u, p.1 + more)
    ensures Progressed(x, legs, k + 1, q)
  {
    assert Done(x, legs[k], p.0, |legs| - k);
    var more := ReceiveLoop.Gives(x.c, x.box, p.0, legs[k].req).1;
    assert q.1[k] == more[0] && q.1[..k] == p.1;
    forall i | 0 <= i < k + 1 ensures Becomes(x, legs[i], q.1[i]) {
      if i < k { assert q.1[i] == p.1[i]; }
    }
    if k + 1 < |legs| { assert legs[k + 1].before == legs[k + 1 - 1].after; }
  }

  lemma {:induction false} LegsArrive<S(!new)>(x: Setting<S>, legs: seq<Leg>, k: nat, peer: S)
    requires x.Lawful() && Chain(x, legs) && k <= |legs| && Progressed(x, legs, 0, (peer, []))
    ensures Progressed(x, legs, k, ReceiveLoop.HandleAll(x.c, x.box, peer, Pushes(legs)[..k]))
    decreases k
  {
    if k > 0 {
      LegsArrive(x, legs, k - 1, peer);
      ReceiveLoop.HandleAllSnoc(x.c, x.box, peer, Pushes(legs), k - 1);
      Progresses(x, legs, k - 1, ReceiveLoop.HandleAll(x.c, x.box, peer, Pushes(legs)[..k - 1]),
                 ReceiveLoop.HandleAll(x.c, x.box, peer, Pushes(legs)[..k]));
    }
  }

  // ------------------------------------------------------------ the conversation

  ghost function LegOf<S(!new)>(x: Setting<S>, t: Round): Leg
    requires x.Lawful() && Goes(x, t)
  {
    Leg(Request(x, t), Start(x, t).session, Left(x, t), t.m, t.now, t.serverTimestamp,
        Built(x.crypto, x.c.content, t.blobs, t.m, t.uploads, t.now).0)
  }

  ghost function LegsOf<S(!new)>(x: Setting<S>, ts: seq<Round>): (legs: seq<Leg>)
    requires Conversed(x, ts)
    ensures |legs| == |ts| && forall i :: 0 <= i < |ts| ==> legs[i] == LegOf(x, ts[i])
  {
    seq(|ts|, i requires 0 <= i < |ts| => LegOf(x, ts[i]))
  }

  lemma LegDone<S(!new)>(x: Setting<S>, t: Round, peer: S, n: nat)
    requires x.Lawful() && Goes(x, t) && n > 0 && InStep(x, LegOf(x, t).before, peer, n)
    ensures Done(x, LegOf(x, t), peer, n)
  {
    RoundArrives(x, t, peer, n);
  }

  lemma LegsChain<S(!new)>(x: Setting<S>, ts: seq<Round>)
    requires Conversed(x, ts)
    ensures Chain(x, LegsOf(x, ts))
  {
    var legs := LegsOf(x, ts);
    forall i, peer: S, n: nat | 0 <= i < |legs| && n > 0 && InStep(x, legs[i].before, peer, n) ensures Done(x, legs[i], peer, n) {
      LegDone(x, ts[i], peer, n);
    }
    forall i | 1 <= i < |legs| ensures legs[i].before == legs[i - 1].after {
      FollowingStart(x, ts[i - 1], ts[i]);
    }
  }

  /** The events are those of the first messages, one each and in order. */
  ghost predicate FirstArrive<S(!new)>(x: Setting<S>, ts: seq<Round>, events: seq<Event>)
    requires Conversed(x, ts)
  {
    |events| <= |ts| && forall i :: 0 <= i < |events| ==> EventOf(x, ts[i], events[i])
  }

  /** The peer is in step for the whole conversation. */
  ghost predicate Prepared<S(!new)>(x: Setting<S>, ts: seq<Round>, peer: S)
    requires Conversed(x, ts)
  {
    ts != [] ==> InStep(x, Start(x, ts[0]).session, peer, |ts|)
  }

  /** A conversation: the first k of its pushes, handled in order, give the first k events in
      order, whatever else the sender's store went through in between. */
  lemma ConversationArrives<S(!new)>(x: Setting<S>, ts: seq<Round>, k: nat, peer: S)
    requires Conversed(x, ts) && k <= |ts| && Prepared(x, ts, peer)
    ensures var events := ReceiveLoop.HandleAll(x.c, x.box, peer, RequestsOf(x, ts)[..k]).1;
            |events| == k && FirstArrive(x, ts, events)
  {
    var legs := LegsOf(x, ts);
    LegsChain(x, ts);
    assert Pushes(legs) == RequestsOf(x, ts);
    LegsArrive(x, legs, k, peer);
    var events := ReceiveLoop.HandleAll(x.c, x.box, peer, RequestsOf(x, ts)[..k]).1;
    forall i | 0 <= i < k ensures EventOf(x, ts[i], events[i]) {
      assert Becomes(x, legs[i], events[i]);
    }
  }

  /** The conversation over the socket. In every reachable state, if the pushes read so far bring
      these messages, those handed to the receive loop have become the events of the first of
      them, one each and in order; all of them once the loop has ended by itself. */
  lemma ArrivesOverSocket<S(!new)>(x: Setting<S>, ts: seq<Round>, peer: S, s: WsProtocol.State)
    requires Conversed(x, ts) && Prepared(x, ts, peer)
    requires WsTheorems.Reachable(s) && WsProtocol.Requests(s.frames) == RequestsOf(x, ts)
    ensures var events := ReceiveLoop.HandleAll(x.c, x.box, peer, s.consumed).1;
            |events| == |s.consumed| && FirstArrive(x, ts, events) && (s.consumer.Finished? ==> |events| == |ts|)
  {
    WsTheorems.YieldsRequestsInOrder(s);
    assert s.consumed == RequestsOf(x, ts)[..|s.consumed|];
    ConversationArrives(x, ts, |s.consumed|, peer);
  }

  /** The law can be met: with the toy ratchet and a peer that reads its plaintexts the ends stay
      in step for any number of messages. */
  lemma {:induction false} ToyInStep<S(!new)>(x: Setting<S>, session: seq<byte>, peer: S, n: nat)
    requires x.r == StoreEffects.Toy()
    requires forall u: S, name, device, text :: x.box.decryptSignal(u, name, device, text) == (u, Success(text))
    ensures InStep(x, session, peer, n)
    decreases n
  {
    if n > 0 { ToyInStep(x, session + [0], peer, n - 1); }
  }
}
