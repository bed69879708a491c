/** From an inbound request to events: classify the envelope, decrypt, strip the padding, parse
    the content and describe it. */
module Receive {
  import opened Bytes
  import opened Messages
  import opened AttachmentsApi
  import opened WsMux
  import Padding

  /** The receiving store's operations, over a store of any type: each returns the store it
      leaves and the plaintext or the error text. */
  datatype Inbox<!S> = Inbox(
    decryptSignal: (S, string, u32, seq<byte>) -> (S, Result<seq<byte>, string>),
    decryptPreKey: (S, string, u32, seq<byte>) -> (S, Result<seq<byte>, string>),
    unseal: (S, seq<byte>, u64) -> (S, Result<(string, u32, seq<byte>), string>))

  datatype Codecs = Codecs(content: Codec<Content>, envelope: Codec<Envelope>, names: Names) {
    ghost predicate Lawful() { Inverts(content) && Inverts(envelope) && names.Lawful() }
  }

  function KindName(t: u32): string {
    if t == 0 then "delivery" else if t == 1 then "read" else if t == 2 then "viewed" else "unknown"
  }

  function Inbounds(ps: seq<Pointer>): (r: seq<InboundAttachment>)
    ensures |r| == |ps| && forall i :: 0 <= i < |ps| ==> r[i] == InboundFromPointer(ps[i])
  {
    seq(|ps|, i requires 0 <= i < |ps| => InboundFromPointer(ps[i]))
  }

  /** The event a data message becomes. */
  function DataEvent(dm: DataMessage, source: ServiceId, device: u32, e: Envelope): Event {
    if dm.groupV2.Some? then
      GroupTextMessage(source, device, Or(dm.groupV2.value.masterKey, []), Or(dm.groupV2.value.revision, 0), Or(dm.timestamp, 0),
                       e.serverTimestamp, Or(dm.body, ""), Or(dm.expireTimer, 0), Inbounds(dm.attachments))
    else
      TextMessage(source, device, Or(dm.timestamp, 0), e.serverTimestamp, Or(dm.body, ""), Or(dm.expireTimer, 0),
                  Or(dm.isViewOnce, false), Inbounds(dm.attachments))
  }

  /** None stands for the ValueError of a destination that is no service id. */
  function SentEvent(n: Names, sent: Sent): Option<Event> {
    var text := if sent.message.Some? then Some(Or(sent.message.value.body, "")) else None;
    if sent.destinationServiceId.None? then Some(SelfSent(None, sent.destinationE164, Or(sent.timestamp, 0), text))
    else
      match ParseServiceId(n, sent.destinationServiceId.value)
      case None => None
      case Some(id) => Some(SelfSent(Some(id), sent.destinationE164, Or(sent.timestamp, 0), text))
  }

  /** _events_from_content: one event for every content that parses, whatever its kind. */
  method EventsFromContent(c: Codecs, plaintext: seq<byte>, source: ServiceId, device: u32, e: Envelope)
    returns (r: Option<seq<Event>>)
    ensures r == if ContentEvent(c, plaintext, source, device, e).None? then None
                 else Some([ContentEvent(c, plaintext, source, device, e).value])
  {
    var parsed := c.content.decode(plaintext);
    if parsed.None? {
      return Some([DecryptionError(Some(source), Some(device), e.kind, "bad Content protobuf")]);
    }
    var content := parsed.value;
    var events: seq<Event> := [];
    if content.Data? {
      var dm := content.data;
      var attachments := Inbounds(dm.attachments);
      if dm.groupV2.Some? {
        events := events + [GroupTextMessage(source, device, Or(dm.groupV2.value.masterKey, []), Or(dm.groupV2.value.revision, 0),
                                             Or(dm.timestamp, 0), e.serverTimestamp, Or(dm.body, ""), Or(dm.expireTimer, 0), attachments)];
      } else {
        events := events + [TextMessage(source, device, Or(dm.timestamp, 0), e.serverTimestamp, Or(dm.body, ""),
                                        Or(dm.expireTimer, 0), Or(dm.isViewOnce, false), attachments)];
      }
    }
    if content.ReceiptContent? {
      events := events + [Receipt(source, device, KindName(Or(content.receiptType, 0)), content.timestamps)];
    }
    if content.TypingContent? {
      events := events + [Typing(source, device, Or(content.timestamp, 0), Or(content.action, 0) == 0, content.groupId)];
    }
    if content.Sync? && content.sent.Some? {
      var ev := SentEvent(c.names, content.sent.value);
      if ev.None? {
        return None;
      }
      events := events + [ev.value];
    }
    if events == [] {
      events := events + [UnknownMessage(Some(source), Some(device), e.clientTimestamp, e.serverTimestamp, plaintext, e.kind)];
    }
    assert events == [ContentEvent(c, plaintext, source, device, e).value];
    r := Some(events);
  }

  /** The one event of a decrypted, stripped plaintext, by the kind of its content. */
  function ContentEvent(c: Codecs, plaintext: seq<byte>, source: ServiceId, device: u32, e: Envelope): Option<Event> {
    match c.content.decode(plaintext)
    case None => Some(DecryptionError(Some(source), Some(device), e.kind, "bad Content protobuf"))
    case Some(Data(dm)) => Some(DataEvent(dm, source, device, e))
    case Some(ReceiptContent(t, ts)) => Some(Receipt(source, device, KindName(Or(t, 0)), ts))
    case Some(TypingContent(t, action, g)) => Some(Typing(source, device, Or(t, 0), Or(action, 0) == 0, g))
    case Some(Sync(Some(sent))) => SentEvent(c.names, sent)
    case Some(_) => Some(UnknownMessage(Some(source), Some(device), e.clientTimestamp, e.serverTimestamp, plaintext, e.kind))
  }

  ghost function FromPlaintext(c: Codecs, padded: seq<byte>, source: ServiceId, device: u32, e: Envelope): Option<seq<Event>> {
    var ev := ContentEvent(c, Padding.Stripped(padded), source, device, e);
    if ev.None? then None else Some([ev.value])
  }

  /** What one envelope does to the store, and the events it gives; None if parsing an
      identifier raised. */
  ghost function Dispatched<S>(c: Codecs, box: Inbox<S>, s: S, e: Envelope): (S, Option<seq<Event>>) {
    var source := if e.sourceServiceId == "" then None else ParseServiceId(c.names, e.sourceServiceId);
    if e.sourceServiceId != "" && source.None? then (s, None)
    else if e.kind == SERVER_DELIVERY_RECEIPT then
      (s, Some(if source.Some? && e.sourceDeviceId.Some?
               then [Receipt(source.value, e.sourceDeviceId.value, "delivery", if e.clientTimestamp != 0 then [e.clientTimestamp] else [])]
               else []))
    else if e.kind == UNIDENTIFIED_SENDER then
      match box.unseal(s, Or(e.content, []), e.serverTimestamp)
      case (t, Failure(text)) => (t, Some([DecryptionError(source, e.sourceDeviceId, e.kind, "sealed sender decrypt: " + text)]))
      case (t, Success((uuid, device, padded))) =>
        (match ParseServiceId(c.names, uuid)
         case None => (t, None)
         case Some(sender) => (t, FromPlaintext(c, padded, sender, device, e)))
    else if e.kind == DOUBLE_RATCHET || e.kind == PREKEY_MESSAGE then
      if source.None? || e.sourceDeviceId.None? then
        (s, Some([DecryptionError(source, e.sourceDeviceId, e.kind, "missing source identifiers")]))
      else
        var decrypt := if e.kind == DOUBLE_RATCHET then box.decryptSignal else box.decryptPreKey;
        match decrypt(s, ServiceIdString(c.names, source.value), e.sourceDeviceId.value, Or(e.content, []))
        case (t, Failure(text)) => (t, Some([DecryptionError(source, e.sourceDeviceId, e.kind, text)]))
        case (t, Success(padded)) => (t, FromPlaintext(c, padded, source.value, e.sourceDeviceId.value, e))
    else
      (s, Some([UnknownMessage(source, e.sourceDeviceId, e.clientTimestamp, e.serverTimestamp, Or(e.content, []), e.kind)]))
  }

  method DispatchEnvelope<S>(c: Codecs, box: Inbox<S>, s: S, e: Envelope) returns (t: S, r: Option<seq<Event>>)
    ensures (t, r) == Dispatched(c, box, s, e)
  {
    t := s;
    var source: Option<ServiceId> := None;
    if e.sourceServiceId != "" {
      source := ParseServiceId(c.names, e.sourceServiceId);
      if source.None? {
        return t, None;
      }
    }
    var events: seq<Event> := [];
    if e.kind == SERVER_DELIVERY_RECEIPT {
      if source.Some? && e.sourceDeviceId.Some? {
        var receipt := Receipt(source.value, e.sourceDeviceId.value, "delivery",
                               if e.clientTimestamp != 0 then [e.clientTimestamp] else []);
        events := events + [receipt];
        assert events == [receipt];
      }
      return t, Some(events);
    }
    if e.kind == UNIDENTIFIED_SENDER {
      var (u, out) := box.unseal(s, Or(e.content, []), e.serverTimestamp);
      match out
      case Failure(text) =>
        return u, Some([DecryptionError(source, e.sourceDeviceId, e.kind, "sealed sender decrypt: " + text)]);
      case Success((uuid, device, padded)) =>
        var sender := ParseServiceId(c.names, uuid);
        if sender.None? {
          return u, None;
        }
        var plaintext := Padding.StripPadding(padded);
        var more := EventsFromContent(c, plaintext, sender.value, device, e);
        return u, more;
    }
    if e.kind == DOUBLE_RATCHET || e.kind == PREKEY_MESSAGE {
      if source.None? || e.sourceDeviceId.None? {
        return t, Some([DecryptionError(source, e.sourceDeviceId, e.kind, "missing source identifiers")]);
      }
      var name, device := ServiceIdString(c.names, source.value), e.sourceDeviceId.value;
      var (u, out) := if e.kind == DOUBLE_RATCHET then box.decryptSignal(s, name, device, Or(e.content, []))
                      else box.decryptPreKey(s, name, device, Or(e.content, []));
      match out
      case Failure(text) =>
        return u, Some([DecryptionError(source, e.sourceDeviceId, e.kind, text)]);
      case Success(padded) =>
        var plaintext := Padding.StripPadding(padded);
        var more := EventsFromContent(c, plaintext, source.value, device, e);
        return u, more;
    }
    r := Some([UnknownMessage(source, e.sourceDeviceId, e.clientTimestamp, e.serverTimestamp, Or(e.content, []), e.kind)]);
  }

  predicate EndsWith(s: string, suffix: string) {
    |suffix| <= |s| && s[|s| - |suffix|..] == suffix
  }

  /** The events a push hands to the registry; None if handling it raised. */
  ghost function Handled<S>(c: Codecs, box: Inbox<S>, s: S, req: WsRequest): (S, Option<seq<Event>>) {
    if req.verb != "PUT" || EndsWith(req.path, "/api/v1/queue/empty") || !EndsWith(req.path, "/api/v1/message") then (s, Some([]))
    else
      match c.envelope.decode(req.body)
      case None => (s, None)
      case Some(e) => Dispatched(c, box, s, e)
  }

  method HandleRequest<S>(c: Codecs, box: Inbox<S>, s: S, req: WsRequest) returns (t: S, r: Option<seq<Event>>)
    ensures (t, r) == Handled(c, box, s, req)
  {
    if req.verb != "PUT" {
      return s, Some([]);
    }
    if EndsWith(req.path, "/api/v1/queue/empty") {
      return s, Some([]);
    }
    if !EndsWith(req.path, "/api/v1/message") {
      return s, Some([]);
    }
    var e := c.envelope.decode(req.body);
    if e.None? {
      return s, None;
    }
    t, r := DispatchEnvelope(c, box, s, e.value);
  }

  /** The padded plaintext an envelope decrypts to and the sender it is then ascribed to, by the
      operation of its type; None when there is nothing to decrypt or decryption fails. */
  ghost function Decrypted<S>(c: Codecs, box: Inbox<S>, s: S, e: Envelope): Option<(string, seq<byte>)> {
    if e.kind == UNIDENTIFIED_SENDER then
      match box.unseal(s, Or(e.content, []), e.serverTimestamp).1
      case Success((uuid, _, padded)) => Some((uuid, padded))
      case Failure(_) => None
    else if (e.kind == DOUBLE_RATCHET || e.kind == PREKEY_MESSAGE) && e.sourceServiceId != "" && e.sourceDeviceId.Some? then
      match ParseServiceId(c.names, e.sourceServiceId)
      case None => None
      case Some(source) =>
        var decrypt := if e.kind == DOUBLE_RATCHET then box.decryptSignal else box.decryptPreKey;
        match decrypt(s, ServiceIdString(c.names, source), e.sourceDeviceId.value, Or(e.content, [])).1
        case Success(padded) => Some((e.sourceServiceId, padded))
        case Failure(_) => None
    else None
  }

  /** A decrypted content tells of a message sent to a destination that is no service id. */
  ghost predicate BadDestination(c: Codecs, padded: seq<byte>) {
    var content := c.content.decode(Padding.Stripped(padded));
    && content.Some? && content.value.Sync? && content.value.sent.Some?
    && var dest := content.value.sent.value.destinationServiceId;
       dest.Some? && ParseServiceId(c.names, dest.value).None?
  }

  /** One of an envelope's identifiers does not parse: its source, the sender found under the
      seal, or the destination a linked device reports. */
  ghost predicate BadIdentifier<S>(c: Codecs, box: Inbox<S>, s: S, e: Envelope) {
    || (e.sourceServiceId != "" && ParseServiceId(c.names, e.sourceServiceId).None?)
    || (var d := Decrypted(c, box, s, e);
        d.Some? && (ParseServiceId(c.names, d.value.0).None? || BadDestination(c, d.value.1)))
  }

  /** Handling an envelope raises exactly when one of its identifiers does not parse; a failed
      decryption never does. */
  lemma RaisesIff<S>(c: Codecs, box: Inbox<S>, s: S, e: Envelope)
    ensures Dispatched(c, box, s, e).1.None? <==> BadIdentifier(c, box, s, e)
  {
  }

  /** Otherwise it gives exactly one event, unless it is a delivery receipt without a source. */
  lemma ExactlyOneEvent<S>(c: Codecs, box: Inbox<S>, s: S, e: Envelope)
    requires !BadIdentifier(c, box, s, e)
    ensures var events := Dispatched(c, box, s, e).1;
            && events.Some?
            && |events.value| == if e.kind == SERVER_DELIVERY_RECEIPT && (e.sourceServiceId == "" || e.sourceDeviceId.None?) then 0 else 1
  {
    RaisesIff(c, box, s, e);
  }
}
