/** What each envelope gives, told field by field: which event, from whom, and with what in it. */
module Arrivals {
  import opened Bytes
  import opened Messages
  import opened Receive
  import AttachmentsApi
  import Padding
  import WsMux
  import ReceiveLoop
  import Handlers

  // ------------------------------------------------------------ contents

  /** One attachment described per pointer, in order. */
  ghost predicate Describe(attachments: seq<InboundAttachment>, ps: seq<Pointer>) {
    |attachments| == |ps| && forall i :: 0 <= i < |ps| ==> attachments[i] == AttachmentsApi.InboundFromPointer(ps[i])
  }

  /** ev tells of a data message from this device. */
  ghost predicate TellsData(ev: Event, dm: DataMessage, source: ServiceId, device: u32, e: Envelope) {
    if dm.groupV2.None? then
      && ev.TextMessage? && ev.sender == source && ev.device == device
      && ev.timestamp == Or(dm.timestamp, 0) && ev.serverTimestamp == e.serverTimestamp
      && ev.text == Or(dm.body, "") && ev.expires == Or(dm.expireTimer, 0) && (ev.viewOnce <==> dm.isViewOnce == Some(true))
      && Describe(ev.attachments, dm.attachments)
    else
      && ev.GroupTextMessage? && ev.sender == source && ev.device == device
      && ev.masterKey == Or(dm.groupV2.value.masterKey, []) && ev.revision == Or(dm.groupV2.value.revision, 0)
      && ev.timestamp == Or(dm.timestamp, 0) && ev.serverTimestamp == e.serverTimestamp
      && ev.text == Or(dm.body, "") && ev.expires == Or(dm.expireTimer, 0)
      && Describe(ev.attachments, dm.attachments)
  }

  /** ev tells of a receipt; an absent type counts as the first. */
  ghost predicate TellsReceipt(ev: Event, kind: Option<u32>, timestamps: seq<u64>, source: ServiceId, device: u32) {
    && ev.Receipt? && ev.sender == source && ev.device == device && ev.referenced == timestamps
    && (ev.kind == "delivery" <==> kind.None? || kind == Some(0))
    && (ev.kind == "read" <==> kind == Some(1))
    && (ev.kind == "viewed" <==> kind == Some(2))
    && (ev.kind == "unknown" <==> kind.Some? && kind.value > 2)
  }

  /** ev tells of typing that starts, or stops for any other action than the first. */
  ghost predicate TellsTyping(ev: Event, timestamp: Option<u64>, action: Option<u32>, groupId: Option<seq<byte>>, source: ServiceId, device: u32) {
    && ev.Typing? && ev.sender == source && ev.device == device
    && ev.timestamp == Or(timestamp, 0) && ev.groupId == groupId && (ev.started <==> action.None? || action == Some(0))
  }

  /** ev tells of a message another of our devices sent. */
  ghost predicate TellsSent(n: Names, ev: Event, sent: Sent) {
    && ev.SelfSent? && ev.e164 == sent.destinationE164 && ev.timestamp == Or(sent.timestamp, 0)
    && (sent.destinationServiceId.None? ==> ev.destination.None?)
    && (sent.destinationServiceId.Some? ==> ev.destination.Some? && ev.destination == ParseServiceId(n, sent.destinationServiceId.value))
    && (ev.sentText.Some? <==> sent.message.Some?)
    && (sent.message.Some? ==> ev.sentText.value == Or(sent.message.value.body, ""))
  }

  ghost predicate Tells(c: Codecs, ev: Event, content: Content, source: ServiceId, device: u32, e: Envelope) {
    match content
    case Data(dm) => TellsData(ev, dm, source, device, e)
    case ReceiptContent(kind, timestamps) => TellsReceipt(ev, kind, timestamps, source, device)
    case TypingContent(timestamp, action, groupId) => TellsTyping(ev, timestamp, action, groupId, source, device)
    case Sync(Some(sent)) => TellsSent(c.names, ev, sent)
    case _ => ev == UnknownMessage(Some(source), Some(device), e.clientTimestamp, e.serverTimestamp, c.content.encode(content), e.kind)
  }

  /** The content reports no destination, or one that is a service id. */
  ghost predicate Addressable(n: Names, content: Content) {
    content.Sync? && content.sent.Some? && content.sent.value.destinationServiceId.Some? ==>
      ParseServiceId(n, content.sent.value.destinationServiceId.value).Some?
  }

  lemma SentTells(n: Names, sent: Sent)
    requires sent.destinationServiceId.Some? ==> ParseServiceId(n, sent.destinationServiceId.value).Some?
    ensures SentEvent(n, sent).Some? && TellsSent(n, SentEvent(n, sent).value, sent)
  {
  }

  /** The one event a list of events holds tells of the content. */
  ghost predicate OneTells(c: Codecs, events: Option<seq<Event>>, content: Content, source: ServiceId, device: u32, e: Envelope) {
    events.Some? && |events.value| == 1 && Tells(c, events.value[0], content, source, device, e)
  }

  /** A padded content, once decrypted, gives the one event that tells of it. */
  lemma ContentTells(c: Codecs, content: Content, source: ServiceId, device: u32, e: Envelope)
    requires c.Lawful() && Addressable(c.names, content)
    ensures OneTells(c, FromPlaintext(c, Padding.Pad(c.content.encode(content)), source, device, e), content, source, device, e)
  {
    Padding.StripPad(c.content.encode(content));
    assert c.content.decode(c.content.encode(content)) == Some(content);
    if content.Sync? && content.sent.Some? { SentTells(c.names, content.sent.value); }
  }

  /** One that is no content gives a decryption error from that device. */
  lemma BadContentTells(c: Codecs, padded: seq<byte>, source: ServiceId, device: u32, e: Envelope)
    requires c.content.decode(Padding.Stripped(padded)).None?
    ensures FromPlaintext(c, padded, source, device, e) == Some([DecryptionError(Some(source), Some(device), e.kind, "bad Content protobuf")])
  {
  }

  // ------------------------------------------------------------ envelopes

  /** The envelope names no source, or this one. */
  ghost predicate WellNamed(n: Names, e: Envelope, source: Option<ServiceId>) {
    if source.None? then e.sourceServiceId == "" else e.sourceServiceId != "" && ParseServiceId(n, e.sourceServiceId) == source
  }

  /** Sealed sender: the event is ascribed to the account and device under the seal, whatever
      source the envelope names. */
  lemma SealedArrives<S>(c: Codecs, box: Inbox<S>, s: S, e: Envelope, named: Option<ServiceId>, uuid: string, id: ServiceId, device: u32,
                         content: Content, t: S)
    requires c.Lawful() && Addressable(c.names, content) && e.kind == 6 && WellNamed(c.names, e, named)
    requires box.unseal(s, Or(e.content, []), e.serverTimestamp) == (t, Success((uuid, device, Padding.Pad(c.content.encode(content)))))
    requires ParseServiceId(c.names, uuid) == Some(id)
    ensures Dispatched(c, box, s, e).0 == t && OneTells(c, Dispatched(c, box, s, e).1, content, id, device, e)
  {
    ContentTells(c, content, id, device, e);
  }

  /** A seal that does not open: one error, with the envelope's own source and device. */
  lemma SealedFails<S>(c: Codecs, box: Inbox<S>, s: S, e: Envelope, named: Option<ServiceId>, text: string, t: S)
    requires c.Lawful() && e.kind == 6 && WellNamed(c.names, e, named)
    requires box.unseal(s, Or(e.content, []), e.serverTimestamp) == (t, Failure(text))
    ensures Dispatched(c, box, s, e) == (t, Some([DecryptionError(named, e.sourceDeviceId, 6, "sealed sender decrypt: " + text)]))
  {
  }

  /** The store operation for an unsealed envelope, 1 for an established session and 3 for a new one. */
  ghost predicate Decrypts<S>(c: Codecs, box: Inbox<S>, s: S, e: Envelope, id: ServiceId, device: u32, t: S, out: Result<seq<byte>, string>) {
    || (e.kind == 1 && box.decryptSignal(s, ServiceIdString(c.names, id), device, Or(e.content, [])) == (t, out))
    || (e.kind == 3 && box.decryptPreKey(s, ServiceIdString(c.names, id), device, Or(e.content, [])) == (t, out))
  }

  /** Unsealed: the event is ascribed to the envelope's source and device. */
  lemma DirectArrives<S>(c: Codecs, box: Inbox<S>, s: S, e: Envelope, id: ServiceId, device: u32, content: Content, t: S)
    requires c.Lawful() && Addressable(c.names, content) && WellNamed(c.names, e, Some(id)) && e.sourceDeviceId == Some(device)
    requires Decrypts(c, box, s, e, id, device, t, Success(Padding.Pad(c.content.encode(content))))
    ensures Dispatched(c, box, s, e).0 == t && OneTells(c, Dispatched(c, box, s, e).1, content, id, device, e)
  {
    ContentTells(c, content, id, device, e);
  }

  lemma DirectFails<S>(c: Codecs, box: Inbox<S>, s: S, e: Envelope, id: ServiceId, device: u32, text: string, t: S)
    requires c.Lawful() && WellNamed(c.names, e, Some(id)) && e.sourceDeviceId == Some(device)
    requires Decrypts(c, box, s, e, id, device, t, Failure(text))
    ensures Dispatched(c, box, s, e) == (t, Some([DecryptionError(Some(id), Some(device), e.kind, text)]))
  {
  }

  /** Without a source or a device nothing can be decrypted, and the store is left alone. */
  lemma NamelessFails<S>(c: Codecs, box: Inbox<S>, s: S, e: Envelope, named: Option<ServiceId>)
    requires c.Lawful() && (e.kind == 1 || e.kind == 3) && WellNamed(c.names, e, named) && (named.None? || e.sourceDeviceId.None?)
    ensures Dispatched(c, box, s, e) == (s, Some([DecryptionError(named, e.sourceDeviceId, e.kind, "missing source identifiers")]))
  {
  }

  /** A server's delivery receipt: from source and device, for the client's timestamp if it has one. */
  lemma DeliveryReceiptArrives<S>(c: Codecs, box: Inbox<S>, s: S, e: Envelope, named: Option<ServiceId>)
    requires c.Lawful() && e.kind == 5 && WellNamed(c.names, e, named)
    ensures named.Some? && e.sourceDeviceId.Some? && e.clientTimestamp != 0 ==>
              Dispatched(c, box, s, e) == (s, Some([Receipt(named.value, e.sourceDeviceId.value, "delivery", [e.clientTimestamp])]))
    ensures named.Some? && e.sourceDeviceId.Some? && e.clientTimestamp == 0 ==>
              Dispatched(c, box, s, e) == (s, Some([Receipt(named.value, e.sourceDeviceId.value, "delivery", [])]))
    ensures named.None? || e.sourceDeviceId.None? ==> Dispatched(c, box, s, e) == (s, Some([]))
  {
  }

  /** Any other type is passed on as it came. */
  lemma OtherTypesUnknown<S>(c: Codecs, box: Inbox<S>, s: S, e: Envelope, named: Option<ServiceId>)
    requires c.Lawful() && e.kind !in {1, 3, 5, 6} && WellNamed(c.names, e, named)
    ensures Dispatched(c, box, s, e) ==
            (s, Some([UnknownMessage(named, e.sourceDeviceId, e.clientTimestamp, e.serverTimestamp, Or(e.content, []), e.kind)]))
  {
  }

  // ------------------------------------------------------------ pushes

  lemma EndsWithIff(s: string, suffix: string)
    ensures EndsWith(s, suffix) <==> exists before :: s == before + suffix
  {
    if EndsWith(s, suffix) {
      assert s == s[..|s| - |suffix|] + suffix;
    }
    if before :| s == before + suffix {
      assert s[|before|..] == suffix;
    }
  }

  /** Only a PUT whose path ends in the message path carries an envelope; the others do nothing. */
  lemma OnlyMessagePutsCount<S>(c: Codecs, box: Inbox<S>, s: S, req: WsMux.WsRequest)
    ensures req.verb != "PUT" || (forall before :: req.path != before + "/api/v1/message") ==> Handled(c, box, s, req) == (s, Some([]))
    ensures req.verb == "PUT" && (exists before :: req.path == before + "/api/v1/message") ==>
              match c.envelope.decode(req.body)
              case None => Handled(c, box, s, req) == (s, None)
              case Some(e) => Handled(c, box, s, req) == Dispatched(c, box, s, e)
  {
    EndsWithIff(req.path, "/api/v1/message");
    var p := req.path;
    assert EndsWith(p, "/api/v1/message") ==> p[|p| - 1] == "/api/v1/message"[14];
    assert EndsWith(p, "/api/v1/queue/empty") ==> p[|p| - 1] == "/api/v1/queue/empty"[18];
  }

  // ------------------------------------------------------------ classes

  /** The class a handler registers for is the event's own. */
  lemma ClassNames(ev: Event)
    ensures ev.TextMessage? <==> ReceiveLoop.ClassOf(ev) == "TextMessage"
    ensures ev.GroupTextMessage? <==> ReceiveLoop.ClassOf(ev) == "GroupTextMessage"
    ensures ev.Receipt? <==> ReceiveLoop.ClassOf(ev) == "Receipt"
    ensures ev.Typing? <==> ReceiveLoop.ClassOf(ev) == "Typing"
    ensures ev.SelfSent? <==> ReceiveLoop.ClassOf(ev) == "SelfSent"
    ensures ev.UnknownMessage? <==> ReceiveLoop.ClassOf(ev) == "UnknownMessage"
    ensures ev.DecryptionError? <==> ReceiveLoop.ClassOf(ev) == "DecryptionError"
  {
    var names := ["TextMessage", "GroupTextMessage", "Receipt", "Typing", "SelfSent", "UnknownMessage", "DecryptionError"];
    assert forall i, j :: 0 <= i < j < 7 ==> names[i][0] != names[j][0] || |names[i]| != |names[j]|;
  }

  /** A text message starts the handlers of TextMessage and then those of Event. */
  lemma TextReachesItsHandlers(live: seq<Handlers.Registration>, ev: Event, react: ReceiveLoop.Reaction, n: nat)
    requires ev.TextMessage?
    ensures var starts := ReceiveLoop.Starts((live, []), [ev], react, n).1;
            var hs := Handlers.Of(live, "TextMessage") + Handlers.Of(live, "Event");
            |starts| == |hs| && forall i :: 0 <= i < |hs| ==> starts[i] == (ev, hs[i])
  {
    ReceiveLoop.EventReachesItsHandlers(live, ev, react, n);
  }
}
