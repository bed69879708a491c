/** Sender and receiver composed: what is sent is what arrives. */
module EndToEnd {
  import opened Bytes
  import opened Messages
  import opened AttachmentsApi
  import opened SignalStore
  import opened Send
  import opened Compose
  import WsMux
  import Receive
  import GroupSend
  import Attachments
  import Padding
  import Base64

  // ------------------------------------------------------------ where each message comes from

  /** The inputs of one call of the ratchet's encrypt. */
  datatype Origin = Origin(session: seq<byte>, known: Option<Key>, entropy: nat)

  /** The store a device is encrypted from: after its bundle, if it had no session. */
  function Ready(r: Ratchet, s: State, service: string, dev: Bundle, plaintext: seq<byte>): State
    requires r.Lawful()
  {
    if Misses(r, s, service, dev, plaintext) then Install(r, s, service, dev).0 else s
  }

  function OriginOf(r: Ratchet, s: State, service: string, dev: Bundle, plaintext: seq<byte>): Origin
    requires r.Lawful() && EncryptDevice(r, s, service, dev, plaintext).1.Success?
  {
    var t, a := Ready(r, s, service, dev, plaintext), Address(service, dev.deviceId);
    Origin(t.tables.sessions[a], Get(t.tables.known, a), t.entropy)
  }

  /** c is what the ratchet made of the plaintext from o. */
  ghost predicate Made(r: Ratchet, o: Origin, plaintext: seq<byte>, c: Cipher) {
    var out := r.encrypt(o.session, o.known, plaintext, o.entropy);
    out.Success? && out.value.1 == c
  }

  lemma DeviceOrigin(r: Ratchet, s: State, service: string, dev: Bundle, plaintext: seq<byte>)
    requires r.Lawful() && EncryptDevice(r, s, service, dev, plaintext).1.Success?
    ensures Made(r, OriginOf(r, s, service, dev, plaintext), plaintext, EncryptDevice(r, s, service, dev, plaintext).1.value)
  {
  }

  /** The origins of the messages of a successful run over the devices. */
  function Origins(r: Ratchet, s: State, service: string, skip: Option<int>, devs: seq<Bundle>, plaintext: seq<byte>): seq<Origin>
    requires r.Lawful() && EncryptAll(r, s, service, skip, devs, plaintext).1.Success?
    decreases |devs|
  {
    if devs == [] then []
    else if Some(devs[0].deviceId) == skip then Origins(r, s, service, skip, devs[1..], plaintext)
    else
      [OriginOf(r, s, service, devs[0], plaintext)]
      + Origins(r, EncryptDevice(r, s, service, devs[0], plaintext).0, service, skip, devs[1..], plaintext)
  }

  /** m carries the ciphertext made from o, under the matching envelope type. */
  ghost predicate Carries(r: Ratchet, m: OutMessage, o: Origin, plaintext: seq<byte>) {
    exists c :: Made(r, o, plaintext, c) && EnvelopeType(c.kind) == Some(m.kind) && m.content == Base64.Encode(c.text)
  }

  lemma DeviceCarries(r: Ratchet, s: State, service: string, dev: Bundle, plaintext: seq<byte>)
    requires r.Lawful() && EncryptDevice(r, s, service, dev, plaintext).1.Success?
    requires MessageFor(dev, EncryptDevice(r, s, service, dev, plaintext).1.value).Success?
    ensures Carries(r, MessageFor(dev, EncryptDevice(r, s, service, dev, plaintext).1.value).value,
                    OriginOf(r, s, service, dev, plaintext), plaintext)
  {
    DeviceOrigin(r, s, service, dev, plaintext);
  }

  ghost predicate AllCarry(r: Ratchet, ms: seq<OutMessage>, os: seq<Origin>, plaintext: seq<byte>) {
    |ms| == |os| && forall i :: 0 <= i < |ms| ==> Carries(r, ms[i], os[i], plaintext)
  }

  lemma CarryCons(r: Ratchet, m: OutMessage, o: Origin, ms: seq<OutMessage>, os: seq<Origin>, plaintext: seq<byte>)
    requires Carries(r, m, o, plaintext) && AllCarry(r, ms, os, plaintext)
    ensures AllCarry(r, [m] + ms, [o] + os, plaintext)
  {
  }

  lemma {:induction false} MessagesCarry(r: Ratchet, s: State, service: string, skip: Option<int>, devs: seq<Bundle>, plaintext: seq<byte>)
    requires r.Lawful() && EncryptAll(r, s, service, skip, devs, plaintext).1.Success?
    ensures AllCarry(r, EncryptAll(r, s, service, skip, devs, plaintext).1.value, Origins(r, s, service, skip, devs, plaintext), plaintext)
    decreases |devs|
  {
    if devs != [] {
      var dev, rest := devs[0], devs[1..];
      if Some(dev.deviceId) == skip {
        MessagesCarry(r, s, service, skip, rest, plaintext);
      } else {
        var (s1, c) := EncryptDevice(r, s, service, dev, plaintext);
        DeviceCarries(r, s, service, dev, plaintext);
        MessagesCarry(r, s1, service, skip, rest, plaintext);
        CarryCons(r, MessageFor(dev, c.value).value, OriginOf(r, s, service, dev, plaintext),
                  EncryptAll(r, s1, service, skip, rest, plaintext).1.value, Origins(r, s1, service, skip, rest, plaintext), plaintext);
      }
    }
  }

  // ------------------------------------------------------------ the relay and the peer

  /** Who sends, as the recipient sees it. */
  datatype Sender = Sender(id: ServiceId, device: u32)

  /** The server passes on the type and the decoded content, and names the sender. */
  function Relay(n: Names, from: Sender, m: OutMessage, clientTimestamp: u64, serverTimestamp: u64): Envelope {
    Envelope(m.kind, ServiceIdString(n, from.id), Some(from.device), clientTimestamp, serverTimestamp, Base64.Decode(m.content))
  }

  function Push(c: Receive.Codecs, e: Envelope, id: nat): WsMux.WsRequest {
    WsMux.WsRequest("PUT", "/api/v1/message", [], c.envelope.encode(e), id)
  }

  /** The ratchet's law between a sender's session and the store at its other end: what was
      encrypted from the session decrypts, by the operation of its type, to the plaintext. */
  ghost predicate Paired<S>(r: Ratchet, box: Receive.Inbox<S>, session: seq<byte>, peer: S, name: string, device: u32) {
    forall known, p, n, c :: Made(r, Origin(session, known, n), p, c) ==>
      && (c.kind == 2 ==> box.decryptSignal(peer, name, device, c.text).1 == Success(p))
      && (c.kind == 3 ==> box.decryptPreKey(peer, name, device, c.text).1 == Success(p))
  }

  /** What the peer's store makes of a ciphertext, by the operation of its type. */
  function Opened<S>(c: Receive.Codecs, box: Receive.Inbox<S>, peer: S, from: Sender, k: Cipher): (S, Result<seq<byte>, string>) {
    var name := ServiceIdString(c.names, from.id);
    if k.kind == 2 then box.decryptSignal(peer, name, from.device, k.text) else box.decryptPreKey(peer, name, from.device, k.text)
  }

  /** A message carrying a ciphertext, once relayed, is opened by the operation of its type and parsed. */
  lemma RelayedCipher<S>(c: Receive.Codecs, box: Receive.Inbox<S>, peer: S, from: Sender, m: OutMessage, k: Cipher,
                         plaintext: seq<byte>, clientTimestamp: u64, serverTimestamp: u64)
    requires c.Lawful() && EnvelopeType(k.kind) == Some(m.kind) && m.content == Base64.Encode(k.text)
    requires Opened(c, box, peer, from, k).1 == Success(plaintext)
    ensures var e := Relay(c.names, from, m, clientTimestamp, serverTimestamp);
            Receive.Dispatched(c, box, peer, e) ==
            (Opened(c, box, peer, from, k).0, Receive.FromPlaintext(c, plaintext, from.id, from.device, e))
  {
    Base64.DecodeEncode(k.text);
    ParsePrinted(c.names, from.id);
    assert Relay(c.names, from, m, clientTimestamp, serverTimestamp).content == Some(k.text);
  }

  /** A relayed message decrypts at its peer to the sender's plaintext, and is then parsed. */
  lemma RelayedMessage<S>(r: Ratchet, c: Receive.Codecs, box: Receive.Inbox<S>, peer: S, from: Sender, m: OutMessage, o: Origin,
                          plaintext: seq<byte>, clientTimestamp: u64, serverTimestamp: u64)
    requires c.Lawful() && Carries(r, m, o, plaintext)
    requires Paired(r, box, o.session, peer, ServiceIdString(c.names, from.id), from.device)
    ensures var e := Relay(c.names, from, m, clientTimestamp, serverTimestamp);
            Receive.Dispatched(c, box, peer, e).1 == Receive.FromPlaintext(c, plaintext, from.id, from.device, e)
  {
    var k :| Made(r, o, plaintext, k) && EnvelopeType(k.kind) == Some(m.kind) && m.content == Base64.Encode(k.text);
    assert Made(r, Origin(o.session, o.known, o.entropy), plaintext, k);
    RelayedCipher(c, box, peer, from, m, k, plaintext, clientTimestamp, serverTimestamp);
  }

  /** The event the message must become. */
  ghost predicate Arrives(ev: Event, m: Outgoing, from: Sender, now: u64, serverTimestamp: u64, crypto: Attachments.Crypto, blobs: Blobs)
    requires crypto.Lawful()
  {
    match m.group
    case None =>
      && ev.TextMessage? && ev.sender == from.id && ev.device == from.device && ev.timestamp == now
      && ev.serverTimestamp == serverTimestamp && ev.text == m.text && ev.expires == m.timer && !ev.viewOnce
      && |ev.attachments| == |m.attachments|
      && forall i :: 0 <= i < |m.attachments| ==> Recovers(crypto, blobs, m.attachments[i], ev.attachments[i])
    case Some(g) =>
      && ev.GroupTextMessage? && ev.sender == from.id && ev.device == from.device && ev.timestamp == now
      && ev.serverTimestamp == serverTimestamp && ev.text == m.text && ev.expires == m.timer
      && ev.masterKey == g.masterKey && ev.revision == g.revision
      && |ev.attachments| == |m.attachments|
      && forall i :: 0 <= i < |m.attachments| ==> Recovers(crypto, blobs, m.attachments[i], ev.attachments[i])
  }

  /** The content built for a message parses back, once stripped, to the event it must become. */
  lemma ContentArrives(crypto: Attachments.Crypto, c: Receive.Codecs, blobs: Blobs, m: Outgoing, uploads: nat -> Upload, now: u64,
                       from: Sender, e: Envelope)
    requires crypto.Lawful() && c.Lawful() && (forall i :: uploads(i).draw.Valid()) && DistinctKeys(m.attachments, uploads)
    requires Built(crypto, c.content, blobs, m, uploads, now).1.Success?
    ensures var (b, padded) := Built(crypto, c.content, blobs, m, uploads, now);
            var events := Receive.FromPlaintext(c, padded.value, from.id, from.device, e);
            events.Some? && |events.value| == 1 && Arrives(events.value[0], m, from, now, e.serverTimestamp, crypto, b)
  {
    var (b, padded) := Built(crypto, c.content, blobs, m, uploads, now);
    var ps := UploadAll(crypto, blobs, m.attachments, uploads).1.value;
    PointersRecover(crypto, blobs, m.attachments, uploads);
    var content := Data(MessageOf(m, now, ps));
    Padding.StripPad(c.content.encode(content));
    assert c.content.decode(c.content.encode(content)) == Some(content);
  }

  /** End to end, one recipient: for every text, timer, group and attachment list, each message
      of the PUT, relayed to the peer holding the other end of its session, is handled as
      exactly one event carrying what was sent, and its attachments download to the originals. */
  lemma SentIsReceived<S>(r: Ratchet, s: State, us: Us, service: string, answer: Answer,
                          crypto: Attachments.Crypto, c: Receive.Codecs, blobs: Blobs, m: Outgoing, uploads: nat -> Upload, now: u64,
                          i: nat, box: Receive.Inbox<S>, peer: S, from: Sender, serverTimestamp: u64, pushId: nat)
    requires r.Lawful() && crypto.Lawful() && c.Lawful()
    requires (forall k :: uploads(k).draw.Valid()) && DistinctKeys(m.attachments, uploads)
    requires Built(crypto, c.content, blobs, m, uploads, now).1.Success?
    requires var padded := Built(crypto, c.content, blobs, m, uploads, now).1.value;
             var d := Deliver(r, s, us, service, padded, now, answer).1;
             && d.puts != [] && i < |d.puts[0].messages|
             && Paired(r, box, DeliveryOrigins(r, s, us, service, padded, answer)[i].session, peer,
                       ServiceIdString(c.names, from.id), from.device)
    ensures var (b, padded) := Built(crypto, c.content, blobs, m, uploads, now);
            var msg := Deliver(r, s, us, service, padded.value, now, answer).1.puts[0].messages[i];
            var req := Push(c, Relay(c.names, from, msg, now, serverTimestamp), pushId);
            var events := Receive.Handled(c, box, peer, req).1;
            events.Some? && |events.value| == 1 && Arrives(events.value[0], m, from, now, serverTimestamp, crypto, b)
  {
    var padded := Built(crypto, c.content, blobs, m, uploads, now).1.value;
    var devs, skip := Parsed(answer.bundle.value).value, SkipDevice(us, service);
    MessagesCarry(r, s, service, skip, devs, padded);
    var msg, o := EncryptAll(r, s, service, skip, devs, padded).1.value[i], Origins(r, s, service, skip, devs, padded)[i];
    RelayedMessage(r, c, box, peer, from, msg, o, padded, now, serverTimestamp);
    var e := Relay(c.names, from, msg, now, serverTimestamp);
    ContentArrives(crypto, c, blobs, m, uploads, now, from, e);
    HandledPush(c, box, peer, e, pushId);
  }

  lemma HandledPush<S>(c: Receive.Codecs, box: Receive.Inbox<S>, peer: S, e: Envelope, id: nat)
    requires c.Lawful()
    ensures Receive.Handled(c, box, peer, Push(c, e, id)) == Receive.Dispatched(c, box, peer, e)
  {
    var path := "/api/v1/message";
    assert path[|path| - |"/api/v1/message"|..] == "/api/v1/message";
    assert !Receive.EndsWith(path, "/api/v1/queue/empty");
    assert c.envelope.decode(c.envelope.encode(e)) == Some(e);
  }

  /** The origins of the messages of a delivery that made its PUT. */
  ghost function DeliveryOrigins(r: Ratchet, s: State, us: Us, service: string, plaintext: seq<byte>, answer: Answer): (os: seq<Origin>)
    requires r.Lawful() && Deliver(r, s, us, service, plaintext, 0, answer).1.puts != []
    ensures |os| == |Deliver(r, s, us, service, plaintext, 0, answer).1.puts[0].messages|
  {
    var devs, skip := Parsed(answer.bundle.value).value, SkipDevice(us, service);
    MessagesCarry(r, s, service, skip, devs, plaintext);
    Origins(r, s, service, skip, devs, plaintext)
  }

  /** Delivery k of a group send is a delivery to target k from the store the earlier ones left. */
  lemma {:induction false} NthDelivery(r: Ratchet, s: State, us: Us, targets: seq<string>, plaintext: seq<byte>, timestamp: int,
                                       server: nat -> Answer, k: nat)
    requires r.Lawful() && k < |targets|
    ensures var ds := GroupSend.DeliverEach(r, s, us, targets, plaintext, timestamp, server).1;
            var before := GroupSend.DeliverEach(r, s, us, targets[..k], plaintext, timestamp, server).0;
            |ds| == |targets| && ds[k] == Deliver(r, before, us, targets[k], plaintext, timestamp, server(k)).1
    decreases |targets|
  {
    var n := |targets| - 1;
    if k < n {
      NthDelivery(r, s, us, targets[..n], plaintext, timestamp, server, k);
      assert targets[..n][..k] == targets[..k];
    } else if n > 0 {
      NthDelivery(r, s, us, targets[..n], plaintext, timestamp, server, n - 1);
    }
  }

  /** End to end, groups: whichever other members fail, every message that was PUT for member k
      arrives as one event carrying the group's key and revision and what was sent. */
  lemma GroupSentIsReceived<S>(r: Ratchet, s: State, us: Us, targets: seq<string>, server: nat -> Answer, k: nat,
                               crypto: Attachments.Crypto, c: Receive.Codecs, blobs: Blobs, m: Outgoing, uploads: nat -> Upload, now: u64,
                               i: nat, box: Receive.Inbox<S>, peer: S, from: Sender, serverTimestamp: u64, pushId: nat)
    requires r.Lawful() && crypto.Lawful() && c.Lawful() && k < |targets|
    requires (forall j :: uploads(j).draw.Valid()) && DistinctKeys(m.attachments, uploads)
    requires Built(crypto, c.content, blobs, m, uploads, now).1.Success?
    requires var padded := Built(crypto, c.content, blobs, m, uploads, now).1.value;
             var before := GroupSend.DeliverEach(r, s, us, targets[..k], padded, now, server).0;
             var d := Deliver(r, before, us, targets[k], padded, now, server(k)).1;
             && d.puts != [] && i < |d.puts[0].messages|
             && Paired(r, box, DeliveryOrigins(r, before, us, targets[k], padded, server(k))[i].session, peer,
                       ServiceIdString(c.names, from.id), from.device)
    ensures var (b, padded) := Built(crypto, c.content, blobs, m, uploads, now);
            var ds := GroupSend.DeliverEach(r, s, us, targets, padded.value, now, server).1;
            && |ds| == |targets| && ds[k].puts != [] && i < |ds[k].puts[0].messages|
            && var req := Push(c, Relay(c.names, from, ds[k].puts[0].messages[i], now, serverTimestamp), pushId);
               var events := Receive.Handled(c, box, peer, req).1;
               events.Some? && |events.value| == 1 && Arrives(events.value[0], m, from, now, serverTimestamp, crypto, b)
  {
    var padded := Built(crypto, c.content, blobs, m, uploads, now).1.value;
    var before := GroupSend.DeliverEach(r, s, us, targets[..k], padded, now, server).0;
    NthDelivery(r, s, us, targets, padded, now, server, k);
    SentIsReceived(r, before, us, targets[k], server(k), crypto, c, blobs, m, uploads, now, i, box, peer, from, serverTimestamp, pushId);
  }

  /** End to end, any listed member who is not us: whichever others fail, every message PUT for
      them arrives as one event carrying what was sent. */
  lemma GroupMemberReceives<S>(r: Ratchet, s: State, us: Us, members: seq<string>, server: nat -> Answer, j: nat,
                               crypto: Attachments.Crypto, c: Receive.Codecs, blobs: Blobs, m: Outgoing, uploads: nat -> Upload, now: u64,
                               i: nat, box: Receive.Inbox<S>, peer: S, from: Sender, serverTimestamp: u64, pushId: nat)
    requires r.Lawful() && crypto.Lawful() && c.Lawful() && j < |members|
    requires !(us.aci == Some(members[j]) && members[j] != "")
    requires (forall i :: uploads(i).draw.Valid()) && DistinctKeys(m.attachments, uploads)
    requires Built(crypto, c.content, blobs, m, uploads, now).1.Success?
    requires var padded := Built(crypto, c.content, blobs, m, uploads, now).1.value;
             var earlier := GroupSend.Targets(us, members[..j]);
             var before := GroupSend.DeliverEach(r, s, us, earlier, padded, now, server).0;
             var d := Deliver(r, before, us, members[j], padded, now, server(|earlier|)).1;
             && d.puts != [] && i < |d.puts[0].messages|
             && Paired(r, box, DeliveryOrigins(r, before, us, members[j], padded, server(|earlier|))[i].session, peer,
                       ServiceIdString(c.names, from.id), from.device)
    ensures var (b, padded) := Built(crypto, c.content, blobs, m, uploads, now);
            var k := |GroupSend.Targets(us, members[..j])|;
            var ds := GroupSend.DeliverEach(r, s, us, GroupSend.Targets(us, members), padded.value, now, server).1;
            && k < |ds| && ds[k].puts != [] && i < |ds[k].puts[0].messages|
            && var req := Push(c, Relay(c.names, from, ds[k].puts[0].messages[i], now, serverTimestamp), pushId);
               var events := Receive.Handled(c, box, peer, req).1;
               events.Some? && |events.value| == 1 && Arrives(events.value[0], m, from, now, serverTimestamp, crypto, b)
  {
    GroupSend.MemberIsTarget(us, members, j);
    GroupSentIsReceived(r, s, us, GroupSend.Targets(us, members), server, |GroupSend.Targets(us, members[..j])|, crypto, c, blobs, m, uploads, now,
                        i, box, peer, from, serverTimestamp, pushId);
  }
}
