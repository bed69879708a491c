/** What deliveries leave in the store: where a failing one stops, exactly when it changes
    nothing, and that identity keys, once known, stay. */
module StoreEffects {
  import opened Bytes
  import opened SignalStore
  import opened Send
  import GroupSend
  import Base64

  // ------------------------------------------------------------ where a delivery stops

  /** Encrypting for device n from state s fails, or its ciphertext is of no known type. */
  predicate FailsAt(r: Ratchet, s: State, service: string, dev: Bundle, plaintext: seq<byte>)
    requires r.Lawful()
  {
    var c := EncryptDevice(r, s, service, dev, plaintext).1;
    c.Failure? || MessageFor(dev, c.value).Failure?
  }

  /** The devices before n went through, device n is not skipped and fails, and the store is
      what its failure left. */
  ghost predicate StopsAt(r: Ratchet, s: State, service: string, skip: Option<int>, devs: seq<Bundle>, plaintext: seq<byte>, n: nat)
    requires r.Lawful() && n < |devs|
  {
    var (s1, before) := EncryptAll(r, s, service, skip, devs[..n], plaintext);
    && before.Success? && Some(devs[n].deviceId) != skip && FailsAt(r, s1, service, devs[n], plaintext)
    && EncryptAll(r, s, service, skip, devs, plaintext).0 == EncryptDevice(r, s1, service, devs[n], plaintext).0
  }

  lemma StopsLater(r: Ratchet, s: State, service: string, skip: Option<int>, devs: seq<Bundle>, plaintext: seq<byte>, s1: State, n: nat)
    requires r.Lawful() && n + 1 < |devs|
    requires if Some(devs[0].deviceId) == skip then s1 == s
             else !FailsAt(r, s, service, devs[0], plaintext) && s1 == EncryptDevice(r, s, service, devs[0], plaintext).0
    requires StopsAt(r, s1, service, skip, devs[1..], plaintext, n)
    ensures StopsAt(r, s, service, skip, devs, plaintext, n + 1)
  {
    assert devs[..n + 1][0] == devs[0] && devs[..n + 1][1..] == devs[1..][..n];
  }

  lemma {:induction false} StoppingFails(r: Ratchet, s: State, service: string, skip: Option<int>, devs: seq<Bundle>, plaintext: seq<byte>, n: nat)
    requires r.Lawful() && n < |devs| && StopsAt(r, s, service, skip, devs, plaintext, n)
    ensures EncryptAll(r, s, service, skip, devs, plaintext).1.Failure?
    decreases n
  {
    if n == 0 {
      assert devs[..0] == [];
    } else {
      var s1 := if Some(devs[0].deviceId) == skip then s else EncryptDevice(r, s, service, devs[0], plaintext).0;
      assert devs[..n][0] == devs[0] && devs[..n][1..] == devs[1..][..n - 1];
      StoppingFails(r, s1, service, skip, devs[1..], plaintext, n - 1);
    }
  }

  /** A run over the devices fails exactly when it stops at one of them. */
  lemma FailsIffStops(r: Ratchet, s: State, service: string, skip: Option<int>, devs: seq<Bundle>, plaintext: seq<byte>)
    requires r.Lawful()
    ensures EncryptAll(r, s, service, skip, devs, plaintext).1.Failure? <==>
            exists n :: 0 <= n < |devs| && StopsAt(r, s, service, skip, devs, plaintext, n)
  {
    if EncryptAll(r, s, service, skip, devs, plaintext).1.Failure? {
      StopsAtFirstError(r, s, service, skip, devs, plaintext);
    } else if n :| 0 <= n < |devs| && StopsAt(r, s, service, skip, devs, plaintext, n) {
      StoppingFails(r, s, service, skip, devs, plaintext, n);
    }
  }

  lemma {:induction false} StopsAtFirstError(r: Ratchet, s: State, service: string, skip: Option<int>, devs: seq<Bundle>, plaintext: seq<byte>)
    requires r.Lawful() && EncryptAll(r, s, service, skip, devs, plaintext).1.Failure?
    ensures exists n :: 0 <= n < |devs| && StopsAt(r, s, service, skip, devs, plaintext, n)
    decreases |devs|
  {
    var skipped := Some(devs[0].deviceId) == skip;
    if !skipped && FailsAt(r, s, service, devs[0], plaintext) {
      assert devs[..0] == [];
      assert StopsAt(r, s, service, skip, devs, plaintext, 0);
    } else {
      var s1 := if skipped then s else EncryptDevice(r, s, service, devs[0], plaintext).0;
      StopsAtFirstError(r, s1, service, skip, devs[1..], plaintext);
      var n :| 0 <= n < |devs| - 1 && StopsAt(r, s1, service, skip, devs[1..], plaintext, n);
      StopsLater(r, s, service, skip, devs, plaintext, s1, n);
    }
  }

  // ------------------------------------------------------------ when the tables are left alone

  /** Every operation that succeeds moves the record strictly forward, by some measure. */
  ghost predicate Forward(r: Ratchet, rank: seq<byte> -> nat) {
    && (forall s, k, p, n :: r.encrypt(s, k, p, n).Success? ==> rank(r.encrypt(s, k, p, n).value.0.session) > rank(s))
    && (forall s, k, b, n :: r.process(Some(s), k, b, n).Success? ==> rank(r.process(Some(s), k, b, n).value.session) > rank(s))
  }

  /** The device is encrypted for, or at least its bundle is installed. */
  predicate Advances(r: Ratchet, s: State, service: string, dev: Bundle, plaintext: seq<byte>)
    requires r.Lawful()
  {
    if Misses(r, s, service, dev, plaintext) then Install(r, s, service, dev).1.Success?
    else Encrypt(r, s, service, dev.deviceId, plaintext).1.Success?
  }

  /** No session is lost or moved back. */
  ghost predicate NotBehind(rank: seq<byte> -> nat, s: State, t: State) {
    forall a :: a in s.tables.sessions ==> a in t.tables.sessions && rank(t.tables.sessions[a]) >= rank(s.tables.sessions[a])
  }

  /** The session at a is new or has moved forward. */
  predicate Moved(rank: seq<byte> -> nat, s: State, t: State, a: string) {
    a in t.tables.sessions && (a in s.tables.sessions ==> rank(t.tables.sessions[a]) > rank(s.tables.sessions[a]))
  }

  lemma EncryptMoves(r: Ratchet, rank: seq<byte> -> nat, s: State, service: string, device: int, plaintext: seq<byte>)
    requires r.Lawful() && Forward(r, rank)
    ensures var (t, c) := Encrypt(r, s, service, device, plaintext);
            && NotBehind(rank, s, t)
            && (c.Failure? ==> t.tables == s.tables)
            && (c.Success? ==> device > 0 && Moved(rank, s, t, Address(service, device)))
  {
  }

  lemma InstallMoves(r: Ratchet, rank: seq<byte> -> nat, s: State, service: string, dev: Bundle)
    requires r.Lawful() && Forward(r, rank)
    ensures var (t, c) := Install(r, s, service, dev);
            && NotBehind(rank, s, t)
            && (c.Failure? ==> t.tables == s.tables)
            && (c.Success? ==> dev.deviceId > 0 && Moved(rank, s, t, Address(service, dev.deviceId)))
  {
  }

  /** One device leaves the tables alone, and fails, exactly when it does not advance. */
  lemma DeviceMoves(r: Ratchet, rank: seq<byte> -> nat, s: State, service: string, dev: Bundle, plaintext: seq<byte>)
    requires r.Lawful() && Forward(r, rank)
    ensures var (t, c) := EncryptDevice(r, s, service, dev, plaintext);
            && NotBehind(rank, s, t)
            && (!Advances(r, s, service, dev, plaintext) ==> t.tables == s.tables && c.Failure?)
            && (Advances(r, s, service, dev, plaintext) ==> dev.deviceId > 0 && Moved(rank, s, t, Address(service, dev.deviceId)))
  {
    EncryptMoves(r, rank, s, service, dev.deviceId, plaintext);
    InstallMoves(r, rank, s, service, dev);
    EncryptMoves(r, rank, Install(r, s, service, dev).0, service, dev.deviceId, plaintext);
  }

  lemma {:induction false} AllNotBehind(r: Ratchet, rank: seq<byte> -> nat, s: State, service: string, skip: Option<int>,
                                        devs: seq<Bundle>, plaintext: seq<byte>)
    requires r.Lawful() && Forward(r, rank)
    ensures NotBehind(rank, s, EncryptAll(r, s, service, skip, devs, plaintext).0)
    decreases |devs|
  {
    if devs != [] {
      if Some(devs[0].deviceId) == skip {
        AllNotBehind(r, rank, s, service, skip, devs[1..], plaintext);
      } else {
        DeviceMoves(r, rank, s, service, devs[0], plaintext);
        AllNotBehind(r, rank, EncryptDevice(r, s, service, devs[0], plaintext).0, service, skip, devs[1..], plaintext);
      }
    }
  }

  /** Encrypting for the devices leaves the tables as they were exactly when there is no device
      to encrypt for or the first one does not advance. */
  lemma {:induction false} TablesKeptIff(r: Ratchet, rank: seq<byte> -> nat, s: State, service: string, skip: Option<int>,
                                         devs: seq<Bundle>, plaintext: seq<byte>)
    requires r.Lawful() && Forward(r, rank)
    ensures var kept := Kept(devs, skip);
            EncryptAll(r, s, service, skip, devs, plaintext).0.tables == s.tables <==>
            kept == [] || !Advances(r, s, service, kept[0], plaintext)
    decreases |devs|
  {
    if devs != [] {
      var dev := devs[0];
      if Some(dev.deviceId) == skip {
        TablesKeptIff(r, rank, s, service, skip, devs[1..], plaintext);
      } else {
        DeviceMoves(r, rank, s, service, dev, plaintext);
        var s1 := EncryptDevice(r, s, service, dev, plaintext).0;
        AllNotBehind(r, rank, s1, service, skip, devs[1..], plaintext);
        if Advances(r, s, service, dev, plaintext) {
          var a := Address(service, dev.deviceId);
          var t := EncryptAll(r, s, service, skip, devs, plaintext).0;
          assert Moved(rank, s, s1, a) && NotBehind(rank, s1, t);
          assert Moved(rank, s, t, a);
        }
      }
    }
  }

  /** A delivery, failing or not, leaves the tables as they were exactly when its bundle could
      not be fetched or parsed, lists no device but our own, or its first device has neither a
      usable session nor a bundle that can be installed. */
  lemma DeliveryKeepsStoreIff(r: Ratchet, rank: seq<byte> -> nat, s: State, us: Us, service: string, plaintext: seq<byte>,
                              timestamp: int, answer: Answer)
    requires r.Lawful() && Forward(r, rank)
    ensures Deliver(r, s, us, service, plaintext, timestamp, answer).0.tables == s.tables <==>
            answer.bundle.None? || Parsed(answer.bundle.value).Failure? ||
            (var kept := Kept(Parsed(answer.bundle.value).value, SkipDevice(us, service));
             kept == [] || !Advances(r, s, service, kept[0], plaintext))
  {
    if answer.bundle.Some? && Parsed(answer.bundle.value).Success? {
      TablesKeptIff(r, rank, s, service, SkipDevice(us, service), Parsed(answer.bundle.value).value, plaintext);
    }
  }

  // ------------------------------------------------------------ a delivery that fails half way

  /** A toy ratchet: a record is its own step count in unary, and ciphertexts are plaintexts. */
  function Toy(): Ratchet {
    Ratchet((d: int) => d == 1, ToyEncrypt, ToyProcess)
  }

  function ToyEncrypt(session: seq<byte>, known: Option<Key>, plaintext: seq<byte>, entropy: nat): Result<(Entry, Cipher), string> {
    Success((Entry(session + [0], if known.Some? then known.value else []), Cipher(2, plaintext)))
  }

  function ToyProcess(session: Option<seq<byte>>, known: Option<Key>, b: Bundle, entropy: nat): Result<Entry, string> {
    if !Trusts(known, b.identityKey) then Failure("untrusted")
    else Success(Entry(if session.Some? then session.value + [0] else [0], b.identityKey))
  }

  lemma ToyIsLawful()
    ensures Toy().Lawful() && Forward(Toy(), s => |s|)
  {
  }

  function ToyBundle(device: int): Bundle {
    Bundle(device, 7, [], 1, [], [], 1, [], [], None)
  }

  function ToyState(session: seq<byte>, entropy: nat, known: map<string, Key>): State {
    State(Tables([], 0, known, map[], map[], map[], map[Address("a", 1) := session], map[]), entropy)
  }

  lemma HalfwayFirst()
    requires Toy().Lawful()
    ensures EncryptDevice(Toy(), ToyState([], 0, map[]), "a", ToyBundle(1), [1])
         == (ToyState([0], 1, map[Address("a", 1) := []]), Success(Cipher(2, [1])))
  {
    var s, e := ToyState([], 0, map[]), Entry([0], []);
    assert s.tables.sessions[Address("a", 1)] + [0] == [0];
    assert Draw(Put(s, Address("a", 1), e)) == ToyState([0], 1, map[Address("a", 1) := []]);
  }

  lemma HalfwayRun()
    requires Toy().Lawful()
    ensures var devs := [ToyBundle(1), ToyBundle(0)];
            EncryptAll(Toy(), ToyState([], 0, map[]), "a", None, devs, [1])
            == (ToyState([0], 1, map[Address("a", 1) := []]), Failure(StoreError(ValueFailure)))
  {
    var devs, t := [ToyBundle(1), ToyBundle(0)], ToyState([0], 1, map[Address("a", 1) := []]);
    HalfwayFirst();
    assert EncryptDevice(Toy(), t, "a", devs[1], [1]) == (t, Failure(StoreError(ValueFailure)));
    assert devs[1..] == [devs[1]];
  }

  lemma HalfwayDelivery(us: Us, answer: Answer)
    requires Toy().Lawful() && us.aci.None? && answer.bundle.Some?
    requires Parsed(answer.bundle.value) == Success([ToyBundle(1), ToyBundle(0)])
    ensures Deliver(Toy(), ToyState([], 0, map[]), us, "a", [1], 0, answer)
         == (ToyState([0], 1, map[Address("a", 1) := []]), Delivery([], Some(StoreError(ValueFailure))))
  {
    HalfwayRun();
  }

  /** A session for the first device and an invalid second one: the delivery makes no PUT, yet
      the first device's session has advanced. */
  lemma HalfwayExample()
    ensures exists s, us, answer ::
              && Toy().Lawful()
              && var (t, d) := Deliver(Toy(), s, us, "a", [1], 0, answer);
                 d.puts == [] && d.raised.Some? && t.tables.sessions != s.tables.sessions
  {
    ToyIsLawful();
    var s, us, answer := ToyState([], 0, map[]), Us(None, None), ToyAnswer();
    ToyAnswerParses();
    HalfwayDelivery(us, answer);
    ToySessionsDiffer(s, ToyState([0], 1, map[Address("a", 1) := []]));
    assert Deliver(Toy(), s, us, "a", [1], 0, answer).1.puts == [];
  }

  function ToyAnswer(): Answer {
    Answer(Some(BundleJson(Base64.Unpadded([]), Some([Listed(ToyBundle(1), true), Listed(ToyBundle(0), true)]))), true)
  }

  lemma ToyAnswerParses()
    ensures Parsed(ToyAnswer().bundle.value) == Success([ToyBundle(1), ToyBundle(0)])
  {
    ParsesUploadedKeys([], [ToyBundle(1), ToyBundle(0)], [Listed(ToyBundle(1), true), Listed(ToyBundle(0), true)]);
  }

  lemma ToySessionsDiffer(s: State, t: State)
    requires s == ToyState([], 0, map[]) && t == ToyState([0], 1, map[Address("a", 1) := []])
    ensures s.tables.sessions != t.tables.sessions
  {
    assert s.tables.sessions[Address("a", 1)] != t.tables.sessions[Address("a", 1)];
  }

  // ------------------------------------------------------------ identities

  /** Every identity known in s is known in t with the same key. */
  ghost predicate KeepsIdentities(s: State, t: State) {
    forall a :: a in s.tables.known ==> a in t.tables.known && t.tables.known[a] == s.tables.known[a]
  }

  lemma DeviceKeepsIdentities(r: Ratchet, s: State, service: string, dev: Bundle, plaintext: seq<byte>)
    requires r.Lawful()
    ensures KeepsIdentities(s, EncryptDevice(r, s, service, dev, plaintext).0)
  {
    EncryptKeepsIdentities(r, s, service, dev.deviceId, plaintext);
    InstallKeepsIdentities(r, s, service, dev);
    EncryptKeepsIdentities(r, Install(r, s, service, dev).0, service, dev.deviceId, plaintext);
  }

  lemma EncryptKeepsIdentities(r: Ratchet, s: State, service: string, device: int, plaintext: seq<byte>)
    requires r.Lawful()
    ensures KeepsIdentities(s, Encrypt(r, s, service, device, plaintext).0)
  {
  }

  lemma InstallKeepsIdentities(r: Ratchet, s: State, service: string, dev: Bundle)
    requires r.Lawful()
    ensures KeepsIdentities(s, Install(r, s, service, dev).0)
  {
  }

  lemma {:induction false} AllKeepIdentities(r: Ratchet, s: State, service: string, skip: Option<int>, devs: seq<Bundle>, plaintext: seq<byte>)
    requires r.Lawful()
    ensures KeepsIdentities(s, EncryptAll(r, s, service, skip, devs, plaintext).0)
    decreases |devs|
  {
    if devs != [] {
      if Some(devs[0].deviceId) == skip {
        AllKeepIdentities(r, s, service, skip, devs[1..], plaintext);
      } else {
        DeviceKeepsIdentities(r, s, service, devs[0], plaintext);
        AllKeepIdentities(r, EncryptDevice(r, s, service, devs[0], plaintext).0, service, skip, devs[1..], plaintext);
      }
    }
  }

  /** No group send ever replaces an identity key: what was trusted on first use stays. */
  lemma {:induction false} IdentitiesStay(r: Ratchet, s: State, us: Us, targets: seq<string>, plaintext: seq<byte>, timestamp: int,
                                          server: nat -> Answer)
    requires r.Lawful()
    ensures KeepsIdentities(s, GroupSend.DeliverEach(r, s, us, targets, plaintext, timestamp, server).0)
    decreases |targets|
  {
    if targets != [] {
      var n := |targets| - 1;
      IdentitiesStay(r, s, us, targets[..n], plaintext, timestamp, server);
      var s1 := GroupSend.DeliverEach(r, s, us, targets[..n], plaintext, timestamp, server).0;
      var answer := server(n);
      if answer.bundle.Some? && Parsed(answer.bundle.value).Success? {
        AllKeepIdentities(r, s1, targets[n], SkipDevice(us, targets[n]), Parsed(answer.bundle.value).value, plaintext);
      }
    }
  }

  /** dev has neither a session nor a known identity. */
  predicate Unseen(s: State, service: string, dev: Bundle) {
    dev.deviceId > 0 && Address(service, dev.deviceId) !in s.tables.sessions && Address(service, dev.deviceId) !in s.tables.known
  }

  predicate Knows(s: State, service: string, dev: Bundle) {
    dev.deviceId > 0 && Get(s.tables.known, Address(service, dev.deviceId)) == Some(dev.identityKey)
  }

  /** Installing a bundle makes its identity key the known one. */
  lemma InstallKnows(r: Ratchet, s: State, service: string, dev: Bundle)
    requires r.Lawful() && Install(r, s, service, dev).1.Success?
    ensures Knows(Install(r, s, service, dev).0, service, dev)
  {
  }

  lemma FirstEncryptKnows(r: Ratchet, s: State, service: string, dev: Bundle, plaintext: seq<byte>)
    requires r.Lawful() && Unseen(s, service, dev) && EncryptDevice(r, s, service, dev, plaintext).1.Success?
    ensures Knows(EncryptDevice(r, s, service, dev, plaintext).0, service, dev)
  {
    MissesIff(r, s, service, dev, plaintext);
    InstallKnows(r, s, service, dev);
    EncryptKeepsIdentities(r, Install(r, s, service, dev).0, service, dev.deviceId, plaintext);
  }

  lemma UnseenStays(r: Ratchet, s: State, service: string, other: Bundle, dev: Bundle, plaintext: seq<byte>)
    requires r.Lawful() && Unseen(s, service, dev) && other.deviceId != dev.deviceId
    ensures Unseen(EncryptDevice(r, s, service, other, plaintext).0, service, dev)
  {
    DeviceTouches(r, s, service, other, plaintext);
    var a := Address(service, dev.deviceId);
    if other.deviceId > 0 && Address(service, other.deviceId) == a {
      AddressInjective(service, dev.deviceId, service, other.deviceId);
    }
    var t := EncryptDevice(r, s, service, other, plaintext).0;
    assert Get(t.tables.sessions, a) == Get(s.tables.sessions, a) && Get(t.tables.known, a) == Get(s.tables.known, a);
  }

  /** Trust on first use: the first message to a device makes the key its bundle came with the
      known one. */
  lemma {:induction false} FirstUseTrustsBundle(r: Ratchet, s: State, service: string, skip: Option<int>, devs: seq<Bundle>,
                                                plaintext: seq<byte>, dev: Bundle)
    requires r.Lawful() && dev in Kept(devs, skip) && Unseen(s, service, dev)
    requires forall d :: d in devs ==> d.identityKey == dev.identityKey
    requires EncryptAll(r, s, service, skip, devs, plaintext).1.Success?
    ensures Knows(EncryptAll(r, s, service, skip, devs, plaintext).0, service, dev)
    decreases |devs|
  {
    var rest, first := devs[1..], devs[0];
    if Some(first.deviceId) == skip {
      FirstUseTrustsBundle(r, s, service, skip, rest, plaintext, dev);
    } else {
      var s1 := EncryptDevice(r, s, service, first, plaintext).0;
      if first.deviceId == dev.deviceId {
        FirstEncryptKnows(r, s, service, first, plaintext);
        AllKeepIdentities(r, s1, service, skip, rest, plaintext);
      } else {
        assert Kept(devs, skip) == [first] + Kept(rest, skip);
        UnseenStays(r, s, service, first, dev, plaintext);
        FirstUseTrustsBundle(r, s1, service, skip, rest, plaintext, dev);
      }
    }
  }

  /** After a delivery that made its PUT, every messaged device new to the store is known by the
      bundle's identity key. */
  lemma DeliveryTrustsBundle(r: Ratchet, s: State, us: Us, service: string, plaintext: seq<byte>, timestamp: int, answer: Answer, dev: Bundle)
    requires r.Lawful() && Deliver(r, s, us, service, plaintext, timestamp, answer).1.puts != []
    requires answer.bundle.Some? && Parsed(answer.bundle.value).Success? && dev in Parsed(answer.bundle.value).value
    requires !OurOwnDevice(us, service, dev.deviceId) && Unseen(s, service, dev)
    ensures var a, t := Address(service, dev.deviceId), Deliver(r, s, us, service, plaintext, timestamp, answer).0;
            Get(t.tables.known, a) == B64(answer.bundle.value.identityKey)
  {
    var devs, skip := Parsed(answer.bundle.value).value, SkipDevice(us, service);
    ParsedNamesEveryDevice(answer.bundle.value);
    SkipsOurOwn(us, service, dev.deviceId);
    NotSkippedIsKept(devs, skip, dev);
    FirstUseTrustsBundle(r, s, service, skip, devs, plaintext, dev);
  }

  lemma {:induction false} NotSkippedIsKept(devs: seq<Bundle>, skip: Option<int>, dev: Bundle)
    requires dev in devs && Some(dev.deviceId) != skip
    ensures dev in Kept(devs, skip)
    decreases |devs|
  {
    if devs[0] != dev { NotSkippedIsKept(devs[1..], skip, dev); }
  }

  /** dev has no session, and the bundle's identity key is not the one known for it. */
  predicate KeyChanged(r: Ratchet, s: State, service: string, dev: Bundle) {
    && r.validDevice(dev.deviceId) && dev.deviceId > 0
    && var a := Address(service, dev.deviceId);
       a !in s.tables.sessions && a in s.tables.known && s.tables.known[a] != dev.identityKey
  }

  lemma ChangedKeyFails(r: Ratchet, s: State, service: string, dev: Bundle, plaintext: seq<byte>)
    requires r.Lawful() && KeyChanged(r, s, service, dev)
    ensures EncryptDevice(r, s, service, dev, plaintext).1.Failure?
  {
    MissesIff(r, s, service, dev, plaintext);
    assert Install(r, s, service, dev).1.Failure?;
  }

  /** Another device of the same bundle either has the same address, and fails, or leaves this one alone. */
  lemma ChangedKeyStays(r: Ratchet, s: State, service: string, other: Bundle, dev: Bundle, plaintext: seq<byte>)
    requires r.Lawful() && KeyChanged(r, s, service, dev) && other.identityKey == dev.identityKey
    requires EncryptDevice(r, s, service, other, plaintext).1.Success?
    ensures KeyChanged(r, EncryptDevice(r, s, service, other, plaintext).0, service, dev)
  {
    DeviceTouches(r, s, service, other, plaintext);
    var a, b := Address(service, dev.deviceId), Address(service, other.deviceId);
    if a == b {
      AddressInjective(service, dev.deviceId, service, other.deviceId);
      ChangedKeyFails(r, s, service, other, plaintext);
    } else {
      var t := EncryptDevice(r, s, service, other, plaintext).0;
      assert Get(t.tables.sessions, a) == Get(s.tables.sessions, a) && Get(t.tables.known, a) == Get(s.tables.known, a);
    }
  }

  lemma {:induction false} ChangedKeyStopsAll(r: Ratchet, s: State, service: string, skip: Option<int>, devs: seq<Bundle>,
                                              plaintext: seq<byte>, dev: Bundle)
    requires r.Lawful() && KeyChanged(r, s, service, dev) && dev in Kept(devs, skip)
    requires forall d :: d in devs ==> d.identityKey == dev.identityKey
    ensures EncryptAll(r, s, service, skip, devs, plaintext).1.Failure?
    decreases |devs|
  {
    var rest := devs[1..];
    if Some(devs[0].deviceId) == skip {
      ChangedKeyStopsAll(r, s, service, skip, rest, plaintext, dev);
    } else if devs[0] == dev {
      ChangedKeyFails(r, s, service, dev, plaintext);
    } else {
      assert Kept(devs, skip) == [devs[0]] + Kept(rest, skip);
      var (s1, c) := EncryptDevice(r, s, service, devs[0], plaintext);
      if c.Success? {
        ChangedKeyStays(r, s, service, devs[0], dev, plaintext);
        ChangedKeyStopsAll(r, s1, service, skip, rest, plaintext, dev);
      }
    }
  }

  /** A changed identity key stops the delivery: if any device to be messaged has no session and
      is known under another key than the bundle's, nothing is PUT. */
  lemma KeyChangeBlocksDelivery(r: Ratchet, s: State, us: Us, service: string, plaintext: seq<byte>, timestamp: int, answer: Answer, dev: Bundle)
    requires r.Lawful() && answer.bundle.Some? && Parsed(answer.bundle.value).Success?
    requires dev in Kept(Parsed(answer.bundle.value).value, SkipDevice(us, service)) && KeyChanged(r, s, service, dev)
    ensures var d := Deliver(r, s, us, service, plaintext, timestamp, answer).1; d.puts == [] && d.raised.Some?
  {
    var devs, skip := Parsed(answer.bundle.value).value, SkipDevice(us, service);
    ParsedNamesEveryDevice(answer.bundle.value);
    KeptAreListed(devs, skip, dev);
    ChangedKeyStopsAll(r, s, service, skip, devs, plaintext, dev);
  }

  lemma {:induction false} KeptAreListed(devs: seq<Bundle>, skip: Option<int>, dev: Bundle)
    requires dev in Kept(devs, skip)
    ensures dev in devs
    decreases |devs|
  {
    if Some(devs[0].deviceId) == skip {
      KeptAreListed(devs[1..], skip, dev);
    } else if devs[0] != dev {
      assert Kept(devs, skip) == [devs[0]] + Kept(devs[1..], skip);
      KeptAreListed(devs[1..], skip, dev);
    }
  }
}
