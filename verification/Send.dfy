/** Delivery: fetch the recipient's bundles, encrypt for each device, installing a bundle where
    there is no session, and PUT the whole list once; groups repeat this member by member. */
module Send {
  import opened Bytes
  import opened SignalStore
  import Base64

  datatype SendError = FetchFailed | BadBundle | NoKyberKey | StoreError(error: SignalStore.Error) | BadCipherType | PutFailed

  // ------------------------------------------------------------ prekey bundles

  datatype KeyJson = KeyJson(keyId: int, publicKey: string, signature: string)

  datatype OneTimeJson = OneTimeJson(keyId: int, publicKey: string)

  datatype DeviceJson = DeviceJson(
    deviceId: int, registrationId: int, signedPreKey: KeyJson,
    pqPreKey: Option<KeyJson>, kyberPreKey: Option<KeyJson>, preKey: Option<OneTimeJson>)

  datatype BundleJson = BundleJson(identityKey: string, devices: Option<seq<DeviceJson>>)

  /** The local b64 helper: restore the padding, then decode. */
  function B64(s: string): Option<seq<byte>> {
    Base64.Decode(Base64.Restore(s))
  }

  function ParseDevice(identityKey: Key, d: DeviceJson): Result<Bundle, SendError> {
    var pq := if d.pqPreKey.Some? then d.pqPreKey else d.kyberPreKey;
    if pq.None? then Failure(NoKyberKey)
    else
      var (spk, pqk) := (d.signedPreKey, pq.value);
      match (B64(spk.publicKey), B64(spk.signature), B64(pqk.publicKey), B64(pqk.signature))
      case (Some(a), Some(b), Some(c), Some(e)) =>
        if d.preKey.None? then
          Success(Bundle(d.deviceId, d.registrationId, identityKey, spk.keyId, a, b, pqk.keyId, c, e, None))
        else if B64(d.preKey.value.publicKey).None? then Failure(BadBundle)
        else
          Success(Bundle(d.deviceId, d.registrationId, identityKey, spk.keyId, a, b, pqk.keyId, c, e,
                         Some((d.preKey.value.keyId, B64(d.preKey.value.publicKey).value))))
      case _ => Failure(BadBundle)
  }

  function ParseDevices(identityKey: Key, ds: seq<DeviceJson>): Result<seq<Bundle>, SendError> {
    if ds == [] then Success([])
    else
      match ParseDevices(identityKey, ds[..|ds| - 1])
      case Failure(e) => Failure(e)
      case Success(init) =>
        match ParseDevice(identityKey, ds[|ds| - 1])
        case Failure(e) => Failure(e)
        case Success(b) => Success(init + [b])
  }

  lemma {:induction false} ParseFailureSticks(identityKey: Key, ds: seq<DeviceJson>, n: nat)
    requires n <= |ds| && ParseDevices(identityKey, ds[..n]).Failure?
    ensures ParseDevices(identityKey, ds) == ParseDevices(identityKey, ds[..n])
    decreases |ds| - n
  {
    if n < |ds| {
      assert ds[..n + 1][..n] == ds[..n];
      ParseFailureSticks(identityKey, ds, n + 1);
    } else {
      assert ds[..n] == ds;
    }
  }

  /** A missing device list is an empty one. */
  function DevicesOf(j: BundleJson): seq<DeviceJson> {
    if j.devices.Some? then j.devices.value else []
  }

  /** The devices of a bundle in the order listed, or the first error. */
  function Parsed(j: BundleJson): Result<seq<Bundle>, SendError> {
    match B64(j.identityKey)
    case None => Failure(BadBundle)
    case Some(identity) => ParseDevices(identity, DevicesOf(j))
  }

  /** b was parsed from d under this identity key. */
  predicate ParsedFrom(b: Bundle, d: DeviceJson, identityKey: Key) {
    b.deviceId == d.deviceId && b.registrationId == d.registrationId && b.identityKey == identityKey
  }

  lemma {:induction false} ParsesEach(identityKey: Key, ds: seq<DeviceJson>)
    requires ParseDevices(identityKey, ds).Success?
    ensures var bs := ParseDevices(identityKey, ds).value;
            |bs| == |ds| && forall i :: 0 <= i < |ds| ==> ParsedFrom(bs[i], ds[i], identityKey)
    decreases |ds|
  {
    if ds != [] { ParsesEach(identityKey, ds[..|ds| - 1]); }
  }

  /** A bundle that parses names every listed device once, in order, under the one identity key. */
  lemma ParsedNamesEveryDevice(j: BundleJson)
    requires Parsed(j).Success?
    ensures var (bs, ds) := (Parsed(j).value, DevicesOf(j));
            && B64(j.identityKey).Some? && |bs| == |ds| && (if j.devices.None? then bs == [] else ds == j.devices.value)
            && forall i :: 0 <= i < |ds| ==> ParsedFrom(bs[i], ds[i], B64(j.identityKey).value)
  {
    ParsesEach(B64(j.identityKey).value, DevicesOf(j));
  }

  /** signed_pre_key_entity and kyber_pre_key_entity, as keys are uploaded. */
  function KeyEntity(keyId: int, publicKey: seq<byte>, signature: seq<byte>): KeyJson {
    KeyJson(keyId, Base64.Unpadded(publicKey), Base64.Unpadded(signature))
  }

  /** A device as a server lists it from its uploaded keys, the Kyber key under either name. */
  function Listed(b: Bundle, newName: bool): DeviceJson {
    var kyber := Some(KeyEntity(b.kyberPreKeyId, b.kyberPreKeyPublic, b.kyberPreKeySignature));
    DeviceJson(b.deviceId, b.registrationId,
               KeyEntity(b.signedPreKeyId, b.signedPreKeyPublic, b.signedPreKeySignature),
               if newName then kyber else None, if newName then None else kyber,
               if b.oneTimePreKey.None? then None
               else Some(OneTimeJson(b.oneTimePreKey.value.0, Base64.Unpadded(b.oneTimePreKey.value.1))))
  }

  lemma B64Inverts(x: seq<byte>)
    ensures B64(Base64.Unpadded(x)) == Some(x)
  {
    Base64.DecodeUnpadded(x);
  }

  /** d lists b: under the new name of its Kyber key, whatever stands under the old one, or under
      the old name alone. */
  predicate Lists(d: DeviceJson, b: Bundle) {
    d.(kyberPreKey := None) == Listed(b, true) || d == Listed(b, false)
  }

  /** A key entity decodes to its key and signature. */
  lemma EntityDecodes(keyId: int, publicKey: seq<byte>, signature: seq<byte>)
    ensures var k := KeyEntity(keyId, publicKey, signature);
            k.keyId == keyId && B64(k.publicKey) == Some(publicKey) && B64(k.signature) == Some(signature)
  {
    B64Inverts(publicKey);
    B64Inverts(signature);
  }

  /** What a device parses to, once its fields are known to decode. */
  lemma ParsesFields(identityKey: Key, d: DeviceJson, pq: KeyJson, b: Bundle)
    requires d.deviceId == b.deviceId && d.registrationId == b.registrationId && identityKey == b.identityKey
    requires (d.pqPreKey == Some(pq) || (d.pqPreKey.None? && d.kyberPreKey == Some(pq)))
    requires d.signedPreKey.keyId == b.signedPreKeyId && pq.keyId == b.kyberPreKeyId
    requires B64(d.signedPreKey.publicKey) == Some(b.signedPreKeyPublic) && B64(d.signedPreKey.signature) == Some(b.signedPreKeySignature)
    requires B64(pq.publicKey) == Some(b.kyberPreKeyPublic) && B64(pq.signature) == Some(b.kyberPreKeySignature)
    requires d.preKey.None? <==> b.oneTimePreKey.None?
    requires d.preKey.Some? ==> d.preKey.value.keyId == b.oneTimePreKey.value.0 && B64(d.preKey.value.publicKey) == Some(b.oneTimePreKey.value.1)
    ensures ParseDevice(identityKey, d) == Success(b)
  {
  }

  lemma ParsesListed(b: Bundle, d: DeviceJson)
    requires Lists(d, b)
    ensures ParseDevice(b.identityKey, d) == Success(b)
  {
    EntityDecodes(b.signedPreKeyId, b.signedPreKeyPublic, b.signedPreKeySignature);
    EntityDecodes(b.kyberPreKeyId, b.kyberPreKeyPublic, b.kyberPreKeySignature);
    if b.oneTimePreKey.Some? { B64Inverts(b.oneTimePreKey.value.1); }
    ParsesFields(b.identityKey, d, KeyEntity(b.kyberPreKeyId, b.kyberPreKeyPublic, b.kyberPreKeySignature), b);
  }

  ghost predicate ParsesTo(identityKey: Key, d: DeviceJson, b: Bundle) {
    ParseDevice(identityKey, d) == Success(b)
  }

  lemma {:induction false} ParsesAll(identityKey: Key, bs: seq<Bundle>, ds: seq<DeviceJson>)
    requires |ds| == |bs| && forall i :: 0 <= i < |bs| ==> ParsesTo(identityKey, ds[i], bs[i])
    ensures ParseDevices(identityKey, ds) == Success(bs)
    decreases |bs|
  {
    if bs != [] {
      var n := |bs| - 1;
      ParsesAll(identityKey, bs[..n], ds[..n]);
      assert ParsesTo(identityKey, ds[n], bs[n]);
      assert bs[..n] + [bs[n]] == bs;
    }
  }

  /** Keys survive upload, listing and parsing: every bundle comes back field by field. */
  lemma ParsesUploadedKeys(identityKey: Key, bs: seq<Bundle>, ds: seq<DeviceJson>)
    requires |ds| == |bs|
    requires forall i :: 0 <= i < |bs| ==> bs[i].identityKey == identityKey && Lists(ds[i], bs[i])
    ensures Parsed(BundleJson(Base64.Unpadded(identityKey), Some(ds))) == Success(bs)
  {
    B64Inverts(identityKey);
    forall i | 0 <= i < |bs| ensures ParsesTo(identityKey, ds[i], bs[i]) { ParsesListed(bs[i], ds[i]); }
    ParsesAll(identityKey, bs, ds);
  }

  /** Each device parses exactly when it has a Kyber key and all its fields decode. */
  lemma ParsesIff(identityKey: Key, d: DeviceJson)
    ensures ParseDevice(identityKey, d) == Failure(NoKyberKey) <==> d.pqPreKey.None? && d.kyberPreKey.None?
    ensures ParseDevice(identityKey, d).Success? <==>
              && B64(d.signedPreKey.publicKey).Some? && B64(d.signedPreKey.signature).Some?
              && (d.preKey.Some? ==> B64(d.preKey.value.publicKey).Some?)
              && (d.pqPreKey.Some? ==> B64(d.pqPreKey.value.publicKey).Some? && B64(d.pqPreKey.value.signature).Some?)
              && (d.pqPreKey.None? ==> d.kyberPreKey.Some? && B64(d.kyberPreKey.value.publicKey).Some? && B64(d.kyberPreKey.value.signature).Some?)
  {
  }

  /** The error of a bundle is that of its first device that does not parse. */
  lemma FirstBadDevice(identityKey: Key, ds: seq<DeviceJson>, n: nat)
    requires n < |ds| && ParseDevices(identityKey, ds[..n]).Success? && ParseDevice(identityKey, ds[n]).Failure?
    ensures ParseDevices(identityKey, ds) == Failure(ParseDevice(identityKey, ds[n]).error)
  {
    assert ds[..n + 1][..n] == ds[..n];
    ParseFailureSticks(identityKey, ds, n + 1);
  }

  method ParsePreKeyBundle(j: BundleJson) returns (r: Result<seq<Bundle>, SendError>)
    ensures r == Parsed(j)
  {
    var identity := B64(j.identityKey);
    if identity.None? {
      return Failure(BadBundle);
    }
    var ds := DevicesOf(j);
    var devices: seq<Bundle> := [];
    for i := 0 to |ds|
      invariant ParseDevices(identity.value, ds[..i]) == Success(devices)
    {
      assert ds[..i + 1][..i] == ds[..i];
      var d := ParseDevice(identity.value, ds[i]);
      match d
      case Failure(e) =>
        ParseFailureSticks(identity.value, ds, i + 1);
        return Failure(e);
      case Success(b) =>
        devices := devices + [b];
    }
    assert ds[..|ds|] == ds;
    r := Success(devices);
  }

  // ------------------------------------------------------------ one recipient

  datatype OutMessage = OutMessage(kind: u32, device: int, registrationId: int, content: string)

  /** The body of the PUT; online, urgent and story are constant. */
  datatype PutBody = PutBody(service: string, messages: seq<OutMessage>, timestamp: int)

  /** libsignal's Whisper and PreKey types as envelope types. */
  function EnvelopeType(kind: nat): Option<u32> {
    if kind == 2 then Some(1) else if kind == 3 then Some(3) else None
  }

  /** Encrypt for one device, installing its bundle and retrying if there is no session. */
  function EncryptDevice(r: Ratchet, s: State, service: string, dev: Bundle, plaintext: seq<byte>): (State, Result<Cipher, SendError>)
    requires r.Lawful()
  {
    match Encrypt(r, s, service, dev.deviceId, plaintext)
    case (s1, Success(c)) => (s1, Success(c))
    case (s1, Failure(e)) =>
      if !(e.RuntimeFailure? && Mentions(e.text, NOT_FOUND)) then (s1, Failure(StoreError(e)))
      else
        match Install(r, s1, service, dev)
        case (s2, Failure(e2)) => (s2, Failure(StoreError(e2)))
        case (s2, Success(_)) =>
          match Encrypt(r, s2, service, dev.deviceId, plaintext)
          case (s3, Success(c)) => (s3, Success(c))
          case (s3, Failure(e3)) => (s3, Failure(StoreError(e3)))
  }

  function MessageFor(dev: Bundle, c: Cipher): Result<OutMessage, SendError> {
    match EnvelopeType(c.kind)
    case None => Failure(BadCipherType)
    case Some(kind) => Success(OutMessage(kind, dev.deviceId, dev.registrationId, Base64.Encode(c.text)))
  }

  function Cons(m: OutMessage, r: Result<seq<OutMessage>, SendError>): Result<seq<OutMessage>, SendError> {
    if r.Success? then Success([m] + r.value) else r
  }

  /** All devices in order, stopping at the first error. */
  function EncryptAll(r: Ratchet, s: State, service: string, skip: Option<int>, devs: seq<Bundle>, plaintext: seq<byte>)
    : (State, Result<seq<OutMessage>, SendError>)
    requires r.Lawful()
    decreases |devs|
  {
    if devs == [] then (s, Success([]))
    else if Some(devs[0].deviceId) == skip then EncryptAll(r, s, service, skip, devs[1..], plaintext)
    else
      match EncryptDevice(r, s, service, devs[0], plaintext)
      case (s1, Failure(e)) => (s1, Failure(e))
      case (s1, Success(c)) =>
        match MessageFor(devs[0], c)
        case Failure(e) => (s1, Failure(e))
        case Success(m) =>
          var (s2, rest) := EncryptAll(r, s1, service, skip, devs[1..], plaintext);
          (s2, Cons(m, rest))
  }

  /** What the server answers to the GET and the PUT of one delivery. */
  datatype Answer = Answer(bundle: Option<BundleJson>, putOk: bool)

  /** What one delivery leaves: the PUTs it made and the exception it raised, if any. */
  datatype Delivery = Delivery(puts: seq<PutBody>, raised: Option<SendError>)

  datatype Us = Us(aci: Option<string>, device: Option<int>)

  function SkipDevice(us: Us, service: string): Option<int> {
    if Truthy(us.aci) && service == us.aci.value then us.device else None
  }

  function Deliver(r: Ratchet, s: State, us: Us, service: string, plaintext: seq<byte>, timestamp: int, answer: Answer)
    : (State, Delivery)
    requires r.Lawful()
  {
    if answer.bundle.None? then (s, Delivery([], Some(FetchFailed)))
    else
      match Parsed(answer.bundle.value)
      case Failure(e) => (s, Delivery([], Some(e)))
      case Success(devs) =>
        match EncryptAll(r, s, service, SkipDevice(us, service), devs, plaintext)
        case (s1, Failure(e)) => (s1, Delivery([], Some(e)))
        case (s1, Success(messages)) =>
          (s1, Delivery([PutBody(service, messages, timestamp)], if answer.putOk then None else Some(PutFailed)))
  }

  /** The HTTP client, as the log of PUT calls made on it. */
  class Http {
    var puts: seq<PutBody>

    constructor ()
      ensures puts == []
    {
      puts := [];
    }

    method Put(body: PutBody, ok: bool) returns (r: bool)
      modifies this
      ensures puts == old(puts) + [body] && r == ok
    {
      puts := puts + [body];
      r := ok;
    }
  }

  method EncryptWithRetry(r: Ratchet, store: Store, service: string, dev: Bundle, plaintext: seq<byte>)
    returns (res: Result<Cipher, SendError>)
    requires r.Lawful()
    modifies store
    ensures (store.Abs(), res) == EncryptDevice(r, old(store.Abs()), service, dev, plaintext)
  {
    var first := store.EncryptTo(r, service, dev.deviceId, plaintext);
    match first
    case Success(c) => return Success(c);
    case Failure(e) =>
      if !(e.RuntimeFailure? && Mentions(e.text, NOT_FOUND)) {
        return Failure(StoreError(e));
      }
      var installed := store.ProcessPreKeyBundle(r, service, dev);
      if installed.Failure? {
        return Failure(StoreError(installed.error));
      }
      var again := store.EncryptTo(r, service, dev.deviceId, plaintext);
      match again
      case Success(c) => return Success(c);
      case Failure(e3) => return Failure(StoreError(e3));
  }

  ghost function Extend(messages: seq<OutMessage>, p: (State, Result<seq<OutMessage>, SendError>)): (State, Result<seq<OutMessage>, SendError>) {
    (p.0, if p.1.Success? then Success(messages + p.1.value) else p.1)
  }

  /** The loop over devices. */
  method EncryptForDevices(r: Ratchet, store: Store, service: string, skip: Option<int>, devs: seq<Bundle>, plaintext: seq<byte>)
    returns (res: Result<seq<OutMessage>, SendError>)
    requires r.Lawful()
    modifies store
    ensures (store.Abs(), res) == EncryptAll(r, old(store.Abs()), service, skip, devs, plaintext)
  {
    var messages := [];
    ExtendNil(devs, EncryptAll(r, store.Abs(), service, skip, devs, plaintext));
    for i := 0 to |devs|
      invariant Extend(messages, EncryptAll(r, store.Abs(), service, skip, devs[i..], plaintext))
             == EncryptAll(r, old(store.Abs()), service, skip, devs, plaintext)
    {
      assert devs[i..][1..] == devs[i + 1..];
      if Some(devs[i].deviceId) == skip {
        continue;
      }
      var c := EncryptWithRetry(r, store, service, devs[i], plaintext);
      if c.Failure? {
        return Failure(c.error);
      }
      var m := MessageFor(devs[i], c.value);
      if m.Failure? {
        return Failure(m.error);
      }
      ExtendCons(messages, m.value, EncryptAll(r, store.Abs(), service, skip, devs[i + 1..], plaintext));
      messages := messages + [m.value];
    }
    ExtendNil(messages, EncryptAll(r, store.Abs(), service, skip, [], plaintext));
    res := Success(messages);
  }

  lemma ExtendNil<T>(s: seq<T>, p: (State, Result<seq<OutMessage>, SendError>))
    ensures s[0..] == s && s[|s|..] == [] && s + [] == s && Extend([], p) == p
  {
    if p.1.Success? { assert [] + p.1.value == p.1.value; }
  }

  lemma ExtendCons(messages: seq<OutMessage>, m: OutMessage, p: (State, Result<seq<OutMessage>, SendError>))
    ensures Extend(messages, (p.0, Cons(m, p.1))) == Extend(messages + [m], p)
  {
    if p.1.Success? { assert messages + ([m] + p.1.value) == messages + [m] + p.1.value; }
  }

  method DeliverToOne(r: Ratchet, http: Http, store: Store, us: Us, service: string, plaintext: seq<byte>, timestamp: int, answer: Answer)
    returns (raised: Option<SendError>)
    requires r.Lawful()
    modifies http, store
    ensures var (s, d) := Deliver(r, old(store.Abs()), us, service, plaintext, timestamp, answer);
            store.Abs() == s && http.puts == old(http.puts) + d.puts && raised == d.raised
  {
    if answer.bundle.None? {
      return Some(FetchFailed);
    }
    var devs := ParsePreKeyBundle(answer.bundle.value);
    if devs.Failure? {
      return Some(devs.error);
    }
    var messages := EncryptForDevices(r, store, service, SkipDevice(us, service), devs.value, plaintext);
    if messages.Failure? {
      return Some(messages.error);
    }
    var ok := http.Put(PutBody(service, messages.value, timestamp), answer.putOk);
    raised := if ok then None else Some(PutFailed);
  }

  // ------------------------------------------------------------ what a delivery guarantees

  /** The devices that get a message. */
  function Kept(devs: seq<Bundle>, skip: Option<int>): seq<Bundle> {
    if devs == [] then []
    else if Some(devs[0].deviceId) == skip then Kept(devs[1..], skip)
    else [devs[0]] + Kept(devs[1..], skip)
  }

  /** m is addressed to dev. */
  predicate Addressed(m: OutMessage, dev: Bundle) {
    m.device == dev.deviceId && m.registrationId == dev.registrationId && m.kind in {1, 3}
  }

  predicate AllAddressed(ms: seq<OutMessage>, devs: seq<Bundle>) {
    |ms| == |devs| && forall i :: 0 <= i < |ms| ==> Addressed(ms[i], devs[i])
  }

  lemma AddressedCons(m: OutMessage, dev: Bundle, ms: seq<OutMessage>, devs: seq<Bundle>)
    requires Addressed(m, dev) && AllAddressed(ms, devs)
    ensures AllAddressed([m] + ms, [dev] + devs)
  {
  }

  /** One message per kept device, in order, with its device and registration ids. */
  lemma {:induction false} OneMessagePerDevice(r: Ratchet, s: State, service: string, skip: Option<int>, devs: seq<Bundle>, plaintext: seq<byte>)
    requires r.Lawful() && EncryptAll(r, s, service, skip, devs, plaintext).1.Success?
    ensures AllAddressed(EncryptAll(r, s, service, skip, devs, plaintext).1.value, Kept(devs, skip))
    decreases |devs|
  {
    if devs != [] {
      if Some(devs[0].deviceId) == skip {
        OneMessagePerDevice(r, s, service, skip, devs[1..], plaintext);
      } else {
        var (s1, c) := EncryptDevice(r, s, service, devs[0], plaintext);
        OneMessagePerDevice(r, s1, service, skip, devs[1..], plaintext);
        AddressedCons(MessageFor(devs[0], c.value).value, devs[0],
                      EncryptAll(r, s1, service, skip, devs[1..], plaintext).1.value, Kept(devs[1..], skip));
      }
    }
  }

  /** All or nothing on the wire: a delivery that returns made one PUT naming every device of
      the bundle but our own on a self-send; one that raised before the PUT made none. */
  lemma DeliverAllOrNothing(r: Ratchet, s: State, us: Us, service: string, plaintext: seq<byte>, timestamp: int, answer: Answer)
    requires r.Lawful()
    ensures var d := Deliver(r, s, us, service, plaintext, timestamp, answer).1;
            && (d.puts == [] <==> d.raised.Some? && d.raised.value != PutFailed)
            && (d.puts != [] ==> (d.raised.None? <==> answer.putOk))
            && (d.puts != [] ==>
                  && |d.puts| == 1 && d.puts[0].service == service && d.puts[0].timestamp == timestamp
                  && answer.bundle.Some? && Parsed(answer.bundle.value).Success?
                  && var kept := Kept(Parsed(answer.bundle.value).value, SkipDevice(us, service));
                     var ms := d.puts[0].messages;
                     AllAddressed(ms, kept))
  {
    NeverPutFailed(r, s, us, service, plaintext, answer);
    if answer.bundle.Some? && Parsed(answer.bundle.value).Success? {
      var devs, skip := Parsed(answer.bundle.value).value, SkipDevice(us, service);
      if EncryptAll(r, s, service, skip, devs, plaintext).1.Success? {
        OneMessagePerDevice(r, s, service, skip, devs, plaintext);
      }
    }
  }

  // ------------------------------------------------------------ who gets a message

  /** Where the kept devices stand in the list. */
  function Positions(devs: seq<Bundle>, skip: Option<int>): seq<nat> {
    if devs == [] then []
    else
      var n := |devs| - 1;
      Positions(devs[..n], skip) + (if Some(devs[n].deviceId) == skip then [] else [n])
  }

  lemma {:induction false} KeptSnoc(devs: seq<Bundle>, dev: Bundle, skip: Option<int>)
    ensures Kept(devs + [dev], skip) == Kept(devs, skip) + (if Some(dev.deviceId) == skip then [] else [dev])
    decreases |devs|
  {
    if devs == [] {
      assert devs + [dev] == [dev] && [dev][1..] == [];
    } else {
      assert (devs + [dev])[0] == devs[0] && (devs + [dev])[1..] == devs[1..] + [dev];
      KeptSnoc(devs[1..], dev, skip);
    }
  }

  /** kept are the devices at these positions, in order, and these are the positions of all that
      are not to be skipped. */
  ghost predicate Picks(at: seq<nat>, devs: seq<Bundle>, kept: seq<Bundle>, skip: Option<int>) {
    && Ascending(at, |devs|) && |at| == |kept| && (forall i :: 0 <= i < |at| ==> kept[i] == devs[at[i]])
    && (forall j :: 0 <= j < |devs| ==> (j in at <==> Some(devs[j].deviceId) != skip))
  }

  lemma PicksAlso(at: seq<nat>, devs: seq<Bundle>, kept: seq<Bundle>, dev: Bundle, skip: Option<int>)
    requires Picks(at, devs, kept, skip) && Some(dev.deviceId) != skip
    ensures Picks(at + [|devs|], devs + [dev], kept + [dev], skip)
  {
    var all, more := at + [|devs|], devs + [dev];
    forall j | 0 <= j < |more| ensures j in all <==> Some(more[j].deviceId) != skip {
      assert j in all <==> j in at || j == |devs|;
    }
  }

  lemma PicksNot(at: seq<nat>, devs: seq<Bundle>, kept: seq<Bundle>, dev: Bundle, skip: Option<int>)
    requires Picks(at, devs, kept, skip) && Some(dev.deviceId) == skip
    ensures Picks(at, devs + [dev], kept, skip)
  {
    assert |devs| !in at;
  }

  lemma {:induction false} KeptAtPositions(devs: seq<Bundle>, skip: Option<int>)
    ensures Picks(Positions(devs, skip), devs, Kept(devs, skip), skip)
    decreases |devs|
  {
    if devs != [] {
      var init, dev := devs[..|devs| - 1], devs[|devs| - 1];
      KeptAtPositions(init, skip);
      KeptSnoc(init, dev, skip);
      assert init + [dev] == devs;
      if Some(dev.deviceId) == skip {
        PicksNot(Positions(init, skip), init, Kept(init, skip), dev, skip);
      } else {
        PicksAlso(Positions(init, skip), init, Kept(init, skip), dev, skip);
      }
    }
  }

  /** This device is our own, and the message is one to ourselves. */
  ghost predicate OurOwnDevice(us: Us, service: string, device: int) {
    us.aci == Some(service) && service != "" && us.device == Some(device)
  }

  /** The messages are for the devices at these positions, in order, which are all but our own. */
  ghost predicate ReachesAllBut(us: Us, service: string, at: seq<nat>, devs: seq<Bundle>, ms: seq<OutMessage>) {
    && Ascending(at, |devs|) && |at| == |ms|
    && (forall i :: 0 <= i < |ms| ==> ms[i].device == devs[at[i]].deviceId && ms[i].registrationId == devs[at[i]].registrationId)
    && (forall j :: 0 <= j < |devs| ==> (j in at <==> !OurOwnDevice(us, service, devs[j].deviceId)))
  }

  lemma SkipsOurOwn(us: Us, service: string, device: int)
    ensures Some(device) == SkipDevice(us, service) <==> OurOwnDevice(us, service, device)
  {
  }

  lemma AddressedReach(us: Us, service: string, devs: seq<Bundle>, ms: seq<OutMessage>)
    requires AllAddressed(ms, Kept(devs, SkipDevice(us, service)))
    ensures ReachesAllBut(us, service, Positions(devs, SkipDevice(us, service)), devs, ms)
  {
    KeptAtPositions(devs, SkipDevice(us, service));
    forall j | 0 <= j < |devs| { SkipsOurOwn(us, service, devs[j].deviceId); }
  }

  /** A PUT has one message for each listed device, in the bundle's order, except for our own
      device on a message to ourselves, which has none. */
  lemma MessagesForDevices(r: Ratchet, s: State, us: Us, service: string, plaintext: seq<byte>, timestamp: int, answer: Answer)
    requires r.Lawful() && Deliver(r, s, us, service, plaintext, timestamp, answer).1.puts != []
    ensures answer.bundle.Some? && Parsed(answer.bundle.value).Success?
    ensures var ms, devs := Deliver(r, s, us, service, plaintext, timestamp, answer).1.puts[0].messages, Parsed(answer.bundle.value).value;
            exists at :: ReachesAllBut(us, service, at, devs, ms)
  {
    DeliverAllOrNothing(r, s, us, service, plaintext, timestamp, answer);
    AddressedReach(us, service, Parsed(answer.bundle.value).value,
                   Deliver(r, s, us, service, plaintext, timestamp, answer).1.puts[0].messages);
  }

  /** To anyone but ourselves, or when we do not know our account or device: a message for every
      device, at the same index. */
  lemma EveryDeviceOfOthers(r: Ratchet, s: State, us: Us, service: string, plaintext: seq<byte>, timestamp: int, answer: Answer)
    requires r.Lawful() && Deliver(r, s, us, service, plaintext, timestamp, answer).1.puts != []
    requires us.aci != Some(service) || service == "" || us.device.None?
    ensures answer.bundle.Some? && Parsed(answer.bundle.value).Success?
    ensures var ms, devs := Deliver(r, s, us, service, plaintext, timestamp, answer).1.puts[0].messages, Parsed(answer.bundle.value).value;
            |ms| == |devs| && forall i :: 0 <= i < |ms| ==> ms[i].device == devs[i].deviceId && ms[i].registrationId == devs[i].registrationId
  {
    DeliverAllOrNothing(r, s, us, service, plaintext, timestamp, answer);
    KeptAll(Parsed(answer.bundle.value).value);
    assert SkipDevice(us, service) == None;
  }

  lemma {:induction false} KeptAll(devs: seq<Bundle>)
    ensures Kept(devs, None) == devs
    decreases |devs|
  {
    if devs != [] { KeptAll(devs[1..]); }
  }

  lemma NeverPutFailed(r: Ratchet, s: State, us: Us, service: string, plaintext: seq<byte>, answer: Answer)
    requires r.Lawful()
    ensures answer.bundle.Some? && Parsed(answer.bundle.value).Failure? ==> Parsed(answer.bundle.value).error != PutFailed
    ensures answer.bundle.Some? && Parsed(answer.bundle.value).Success? ==>
              var res := EncryptAll(r, s, service, SkipDevice(us, service), Parsed(answer.bundle.value).value, plaintext).1;
              res.Failure? ==> res.error != PutFailed
  {
    if answer.bundle.Some? {
      var j := answer.bundle.value;
      if B64(j.identityKey).Some? {
        ParseNeverPutFailed(B64(j.identityKey).value, DevicesOf(j));
      }
      if Parsed(j).Success? {
        EncryptNeverPutFailed(r, s, service, SkipDevice(us, service), Parsed(j).value, plaintext);
      }
    }
  }

  lemma {:induction false} ParseNeverPutFailed(identityKey: Key, ds: seq<DeviceJson>)
    ensures ParseDevices(identityKey, ds).Failure? ==> ParseDevices(identityKey, ds).error != PutFailed
    decreases |ds|
  {
    if ds != [] { ParseNeverPutFailed(identityKey, ds[..|ds| - 1]); }
  }

  lemma {:induction false} EncryptNeverPutFailed(r: Ratchet, s: State, service: string, skip: Option<int>, devs: seq<Bundle>, plaintext: seq<byte>)
    requires r.Lawful()
    ensures var res := EncryptAll(r, s, service, skip, devs, plaintext).1; res.Failure? ==> res.error != PutFailed
    decreases |devs|
  {
    if devs != [] {
      EncryptNeverPutFailed(r, s, service, skip, devs[1..], plaintext);
      EncryptNeverPutFailed(r, EncryptDevice(r, s, service, devs[0], plaintext).0, service, skip, devs[1..], plaintext);
    }
  }

  /** s and t agree everywhere but on the sessions and known identities of the given addresses,
      and no session is lost. */
  ghost predicate Touches(s: State, t: State, addresses: set<string>) {
    && t.tables.(sessions := s.tables.sessions, known := s.tables.known) == s.tables
    && (forall a :: a !in addresses ==> Get(t.tables.sessions, a) == Get(s.tables.sessions, a)
                                        && Get(t.tables.known, a) == Get(s.tables.known, a))
    && (forall a :: a in s.tables.sessions ==> a in t.tables.sessions)
  }

  /** The addresses a device can be reached at: one, or none if its id is not positive. */
  function AddressesOf(service: string, device: int): set<string> {
    if device > 0 then {Address(service, device)} else {}
  }

  lemma EncryptTouches(r: Ratchet, s: State, service: string, device: int, plaintext: seq<byte>)
    requires r.Lawful()
    ensures var (t, c) := Encrypt(r, s, service, device, plaintext);
            && Touches(s, t, AddressesOf(service, device))
            && (c.Success? ==> device > 0 && Address(service, device) in t.tables.sessions)
  {
  }

  lemma InstallTouches(r: Ratchet, s: State, service: string, dev: Bundle)
    requires r.Lawful()
    ensures Touches(s, Install(r, s, service, dev).0, AddressesOf(service, dev.deviceId))
  {
  }

  lemma TouchesThen(s: State, t: State, u: State, addresses: set<string>)
    requires Touches(s, t, addresses) && Touches(t, u, addresses)
    ensures Touches(s, u, addresses)
  {
  }

  lemma DeviceTouches(r: Ratchet, s: State, service: string, dev: Bundle, plaintext: seq<byte>)
    requires r.Lawful()
    ensures var (t, c) := EncryptDevice(r, s, service, dev, plaintext);
            && Touches(s, t, AddressesOf(service, dev.deviceId))
            && (c.Success? ==> dev.deviceId > 0 && Address(service, dev.deviceId) in t.tables.sessions)
  {
    var addresses := AddressesOf(service, dev.deviceId);
    var s1 := Encrypt(r, s, service, dev.deviceId, plaintext).0;
    var s2 := Install(r, s1, service, dev).0;
    EncryptTouches(r, s, service, dev.deviceId, plaintext);
    InstallTouches(r, s1, service, dev);
    EncryptTouches(r, s2, service, dev.deviceId, plaintext);
    TouchesThen(s, s1, s2, addresses);
    TouchesThen(s, s2, Encrypt(r, s2, service, dev.deviceId, plaintext).0, addresses);
  }

  function Addresses(service: string, devs: seq<Bundle>): set<string> {
    set d | d in devs && d.deviceId > 0 :: Address(service, d.deviceId)
  }

  /** Whatever happens, only the sessions of the recipient's listed devices change, none is
      lost, and the other tables are untouched; after success each messaged device has one. */
  lemma {:induction false} EncryptAllTouches(r: Ratchet, s: State, service: string, skip: Option<int>, devs: seq<Bundle>, plaintext: seq<byte>)
    requires r.Lawful()
    ensures var (t, res) := EncryptAll(r, s, service, skip, devs, plaintext);
            && Touches(s, t, Addresses(service, Kept(devs, skip)))
            && (res.Success? ==> forall d :: d in Kept(devs, skip) ==> d.deviceId > 0 && Address(service, d.deviceId) in t.tables.sessions)
    decreases |devs|
  {
    if devs != [] {
      var (rest, dev) := (devs[1..], devs[0]);
      if Some(dev.deviceId) == skip {
        EncryptAllTouches(r, s, service, skip, rest, plaintext);
      } else {
        DeviceTouches(r, s, service, dev, plaintext);
        var s1 := EncryptDevice(r, s, service, dev, plaintext).0;
        EncryptAllTouches(r, s1, service, skip, rest, plaintext);
        assert forall d :: d in Kept(rest, skip) ==> d in Kept(devs, skip);
        assert dev in Kept(devs, skip);
      }
    }
  }

  /** A device that already has a session is encrypted to as it stands: its bundle is not used. */
  lemma ExistingSessionKept(r: Ratchet, s: State, service: string, dev: Bundle, plaintext: seq<byte>)
    requires r.Lawful() && (r.validDevice(dev.deviceId) ==> Address(service, dev.deviceId) in s.tables.sessions)
    ensures var (t, c) := EncryptDevice(r, s, service, dev, plaintext);
            var (t', c') := Encrypt(r, s, service, dev.deviceId, plaintext);
            t == t' && c.Success? == c'.Success? && (c.Success? ==> c.value == c'.value)
  {
  }

  /** Encrypting would report a missing session. */
  predicate Misses(r: Ratchet, s: State, service: string, dev: Bundle, plaintext: seq<byte>)
    requires r.Lawful()
  {
    var first := Encrypt(r, s, service, dev.deviceId, plaintext).1;
    first.Failure? && first.error.RuntimeFailure? && Mentions(first.error.text, NOT_FOUND)
  }

  lemma MissesIff(r: Ratchet, s: State, service: string, dev: Bundle, plaintext: seq<byte>)
    requires r.Lawful()
    ensures Misses(r, s, service, dev, plaintext) <==>
              r.validDevice(dev.deviceId) && Address(service, dev.deviceId) !in s.tables.sessions
  {
  }

  /** The retry: the bundle's own error if it cannot be installed, and otherwise the outcome of
      encrypting once more. */
  lemma RetriesOnce(r: Ratchet, s: State, service: string, dev: Bundle, plaintext: seq<byte>)
    requires r.Lawful() && r.validDevice(dev.deviceId) && Address(service, dev.deviceId) !in s.tables.sessions
    ensures var (t, c) := EncryptDevice(r, s, service, dev, plaintext);
            var (u, installed) := Install(r, s, service, dev);
            && (installed.Failure? ==> t == u && c == Failure(StoreError(installed.error)))
            && (installed.Success? ==>
                  var (v, again) := Encrypt(r, u, service, dev.deviceId, plaintext);
                  t == v && (again.Success? ==> c == Success(again.value)) && (again.Failure? ==> c == Failure(StoreError(again.error))))
  {
    MissesIff(r, s, service, dev, plaintext);
  }

  /** The bundles a delivery processes, each with the sessions there were. */
  ghost function Installed(r: Ratchet, s: State, service: string, skip: Option<int>, devs: seq<Bundle>, plaintext: seq<byte>)
    : seq<(set<string>, Bundle)>
    requires r.Lawful()
    decreases |devs|
  {
    if devs == [] then []
    else if Some(devs[0].deviceId) == skip then Installed(r, s, service, skip, devs[1..], plaintext)
    else
      var (s1, c) := EncryptDevice(r, s, service, devs[0], plaintext);
      var rest := if c.Failure? || MessageFor(devs[0], c.value).Failure? then []
                  else Installed(r, s1, service, skip, devs[1..], plaintext);
      if Misses(r, s, service, devs[0], plaintext) then [(s.tables.sessions.Keys, devs[0])] + rest else rest
  }

  ghost predicate FreshInstalls(log: seq<(set<string>, Bundle)>, service: string, before: set<string>) {
    && (forall i :: 0 <= i < |log| ==>
          && log[i].1.deviceId > 0 && before <= log[i].0
          && Address(service, log[i].1.deviceId) !in log[i].0)
    && (forall i, j :: 0 <= i < j < |log| ==> log[i].1.deviceId != log[j].1.deviceId)
  }

  lemma FreshCons(first: (set<string>, Bundle), log: seq<(set<string>, Bundle)>, service: string, before: set<string>, after: set<string>)
    requires FreshInstalls(log, service, after) && before <= after
    requires first.0 == before && first.1.deviceId > 0
    requires Address(service, first.1.deviceId) !in before && Address(service, first.1.deviceId) in after
    ensures FreshInstalls([first] + log, service, before)
  {
    forall i | 0 <= i < |log| ensures log[i].1.deviceId != first.1.deviceId {
      assert Address(service, log[i].1.deviceId) !in after;
    }
  }

  /** A bundle is processed only where there is no session, so an existing session is never
      replaced by one, and no device's bundle is processed twice. */
  lemma {:induction false} InstallsOnlyWithoutSession(r: Ratchet, s: State, service: string, skip: Option<int>, devs: seq<Bundle>, plaintext: seq<byte>)
    requires r.Lawful()
    ensures FreshInstalls(Installed(r, s, service, skip, devs, plaintext), service, s.tables.sessions.Keys)
    decreases |devs|
  {
    if devs != [] {
      var dev := devs[0];
      if Some(dev.deviceId) == skip {
        InstallsOnlyWithoutSession(r, s, service, skip, devs[1..], plaintext);
      } else {
        var (s1, c) := EncryptDevice(r, s, service, dev, plaintext);
        MissesIff(r, s, service, dev, plaintext);
        DeviceTouches(r, s, service, dev, plaintext);
        assert s.tables.sessions.Keys <= s1.tables.sessions.Keys;
        if c.Success? && MessageFor(dev, c.value).Success? {
          InstallsOnlyWithoutSession(r, s1, service, skip, devs[1..], plaintext);
          if Misses(r, s, service, dev, plaintext) {
            FreshCons((s.tables.sessions.Keys, dev), Installed(r, s1, service, skip, devs[1..], plaintext), service,
                      s.tables.sessions.Keys, s1.tables.sessions.Keys);
          }
        }
      }
    }
  }
}
