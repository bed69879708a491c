/** The parsed protobuf messages, account identifiers and events the pipelines exchange. Optional
    protobuf fields keep their presence. */
module Messages {
  import opened Bytes

  /** An account (ACI) or phone-number (PNI) identifier. */
  datatype ServiceId = ServiceId(pni: bool, uuid: Uuid)

  /** The uuid library: its canonical printer, its parser and the shape test for bare uuids. */
  datatype Names = Names(print_: Uuid -> string, parse: string -> Option<Uuid>, bare: string -> bool) {
    ghost predicate Lawful() {
      forall u: Uuid :: parse(print_(u)) == Some(u) && bare(print_(u)) && !(PNI <= print_(u)) && !(ACI <= print_(u)) && print_(u) != ""
    }
  }

  const PNI := "PNI:"
  const ACI := "aci:"

  function ServiceIdString(n: Names, id: ServiceId): string {
    if id.pni then PNI + n.print_(id.uuid) else n.print_(id.uuid)
  }

  /** ServiceId.parse; None stands for the ValueError. */
  function ParseServiceId(n: Names, s: string): Option<ServiceId> {
    if PNI <= s then Tagged(true, n.parse(s[4..]))
    else if ACI <= s then Tagged(false, n.parse(s[4..]))
    else if n.bare(s) then Tagged(false, n.parse(s))
    else None
  }

  function Tagged(pni: bool, u: Option<Uuid>): Option<ServiceId> {
    if u.Some? then Some(ServiceId(pni, u.value)) else None
  }

  /** Parsing inverts the wire form. */
  lemma ParsePrinted(n: Names, id: ServiceId)
    requires n.Lawful()
    ensures ParseServiceId(n, ServiceIdString(n, id)) == Some(id) && ServiceIdString(n, id) != ""
  {
    var u := n.print_(id.uuid);
    assert n.parse(u) == Some(id.uuid);
    assert (PNI + u)[4..] == u && PNI <= PNI + u;
  }

  /** The accepted forms: "PNI:" for phone numbers, "aci:" or a bare uuid for accounts; anything
      else is refused. */
  lemma ParseForms(n: Names, s: string)
    ensures ParseServiceId(n, "PNI:" + s) == if n.parse(s).Some? then Some(ServiceId(true, n.parse(s).value)) else None
    ensures ParseServiceId(n, "aci:" + s) == if n.parse(s).Some? then Some(ServiceId(false, n.parse(s).value)) else None
    ensures !("PNI:" <= s) && !("aci:" <= s) ==>
              ParseServiceId(n, s) == if n.bare(s) && n.parse(s).Some? then Some(ServiceId(false, n.parse(s).value)) else None
  {
    assert ("PNI:" + s)[4..] == s && "PNI:" <= "PNI:" + s;
    assert ("aci:" + s)[4..] == s && "aci:" <= "aci:" + s && ("aci:" + s)[0] == 'a';
  }

  // ------------------------------------------------------------ protobuf

  datatype Pointer = Pointer(
    cdnKey: Option<string>, cdnNumber: Option<u32>, contentType: Option<string>,
    key: Option<seq<byte>>, digest: Option<seq<byte>>, size: Option<u32>,
    fileName: Option<string>, caption: Option<string>, width: Option<u32>, height: Option<u32>)

  const EMPTY_POINTER := Pointer(None, None, None, None, None, None, None, None, None, None)

  datatype GroupContext = GroupContext(masterKey: Option<seq<byte>>, revision: Option<u32>)

  datatype DataMessage = DataMessage(
    body: Option<string>, timestamp: Option<u64>, expireTimer: Option<u32>, isViewOnce: Option<bool>,
    groupV2: Option<GroupContext>, attachments: seq<Pointer>)

  datatype Sent = Sent(destinationServiceId: Option<string>, destinationE164: Option<string>, timestamp: Option<u64>, message: Option<DataMessage>)

  /** A Content holds at most one of its message kinds. */
  datatype Content =
    | Data(data: DataMessage)
    | Sync(sent: Option<Sent>)
    | ReceiptContent(receiptType: Option<u32>, timestamps: seq<u64>)
    | TypingContent(timestamp: Option<u64>, action: Option<u32>, groupId: Option<seq<byte>>)
    | OtherContent

  const DOUBLE_RATCHET: u32 := 1
  const PREKEY_MESSAGE: u32 := 3
  const SERVER_DELIVERY_RECEIPT: u32 := 5
  const UNIDENTIFIED_SENDER: u32 := 6

  datatype Envelope = Envelope(
    kind: u32, sourceServiceId: string, sourceDeviceId: Option<u32>,
    clientTimestamp: u64, serverTimestamp: u64, content: Option<seq<byte>>)

  /** A protobuf getter: the value, or the type's default when absent. */
  function Or<T>(o: Option<T>, default: T): T {
    if o.Some? then o.value else default
  }

  // ------------------------------------------------------------ events

  datatype InboundAttachment = InboundAttachment(
    cdnKey: string, cdnNumber: u32, key: seq<byte>, digest: seq<byte>, size: u32, contentType: string,
    fileName: Option<string>, caption: Option<string>, width: u32, height: u32)

  datatype Event =
    | TextMessage(sender: ServiceId, device: u32, timestamp: u64, serverTimestamp: u64, text: string, expires: u32,
                  viewOnce: bool, attachments: seq<InboundAttachment>)
    | GroupTextMessage(sender: ServiceId, device: u32, masterKey: seq<byte>, revision: u32, timestamp: u64,
                       serverTimestamp: u64, text: string, expires: u32, attachments: seq<InboundAttachment>)
    | Receipt(sender: ServiceId, device: u32, kind: string, referenced: seq<u64>)
    | Typing(sender: ServiceId, device: u32, timestamp: u64, started: bool, groupId: Option<seq<byte>>)
    | SelfSent(destination: Option<ServiceId>, e164: Option<string>, timestamp: u64, sentText: Option<string>)
    | UnknownMessage(source: Option<ServiceId>, sourceDevice: Option<u32>, timestamp: u64, serverTimestamp: u64, raw: seq<byte>, envelopeType: u32)
    | DecryptionError(source: Option<ServiceId>, sourceDevice: Option<u32>, envelopeType: u32, error: string)
}
