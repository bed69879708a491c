/** The libsignal-backed protocol store: its tables, the operations the client calls on it,
    and trust on first use. The Double Ratchet itself is a library. */
module SignalStore {
  import opened Bytes

  type Key = seq<byte>

  // ------------------------------------------------------------ addresses

  function Digit(d: nat): char
    requires d < 10
  {
    ('0' as int + d) as char
  }

  function Decimal(n: nat): (s: string)
    ensures s != "" && '.' !in s
  {
    if n < 10 then [Digit(n)] else Decimal(n / 10) + [Digit(n % 10)]
  }

  /** ProtocolAddress::to_string. */
  function Address(name: string, device: nat): string {
    name + "." + Decimal(device)
  }

  lemma {:induction false} DecimalInjective(m: nat, n: nat)
    requires Decimal(m) == Decimal(n)
    ensures m == n
  {
    var s, t := Decimal(m), Decimal(n);
    assert s[|s| - 1] == Digit(m % 10) && t[|t| - 1] == Digit(n % 10);
    assert m % 10 == n % 10;
    if m >= 10 && n >= 10 {
      assert s[..|s| - 1] == Decimal(m / 10) && t[..|t| - 1] == Decimal(n / 10);
      DecimalInjective(m / 10, n / 10);
    } else {
      assert |s| == 1 <==> m < 10;
      assert |t| == 1 <==> n < 10;
    }
  }

  lemma LastDotSplits(a: string, b: string, c: string, d: string)
    requires '.' !in b && '.' !in d && a + "." + b == c + "." + d
    ensures a == c && b == d
  {
    var s, t := a + "." + b, c + "." + d;
    assert s[|a|] == '.' && t[|c|] == '.';
    assert forall i :: |a| < i < |s| ==> s[i] == b[i - |a| - 1] && b[i - |a| - 1] in b;
    assert forall i :: |c| < i < |t| ==> t[i] == d[i - |c| - 1] && d[i - |c| - 1] in d;
    assert |a| == |c|;
    assert a == s[..|a|] && c == t[..|c|];
    assert b == s[|a| + 1..] && d == t[|c| + 1..];
  }

  /** Tables keyed by address strings never confuse two devices, whatever the names. */
  lemma AddressInjective(name: string, device: nat, name': string, device': nat)
    requires Address(name, device) == Address(name', device')
    ensures name == name' && device == device'
  {
    LastDotSplits(name, Decimal(device), name', Decimal(device'));
    DecimalInjective(device, device');
  }

  // ------------------------------------------------------------ tables

  datatype Tables = Tables(
    identity: Key,
    registrationId: u32,
    known: map<string, Key>,
    preKeys: map<u32, seq<byte>>,
    signedPreKeys: map<u32, seq<byte>>,
    kyberPreKeys: map<u32, seq<byte>>,
    sessions: map<string, seq<byte>>,
    senderKeys: map<(string, Uuid), seq<byte>>)

  function Get<V>(m: map<string, V>, k: string): Option<V> {
    if k in m then Some(m[k]) else None
  }

  // ------------------------------------------------------------ trust on first use

  datatype IdentityChange = NewOrUnchanged | ReplacedExisting

  datatype Save = Save(address: string, key: Key)

  /** The last key saved for an address in a history. */
  function LastSaved(history: seq<Save>, address: string): Option<Key> {
    if history == [] then None
    else if history[|history| - 1].address == address then Some(history[|history| - 1].key)
    else LastSaved(history[..|history| - 1], address)
  }

  /** Trust on first use: any key at first sight, and then only that one. */
  predicate Trusts(known: Option<Key>, key: Key) {
    known.None? || known.value == key
  }

  class IdentityPart {
    var known: map<string, Key>
    ghost var history: seq<Save>

    ghost predicate Valid()
      reads this
    {
      forall a :: Get(known, a) == LastSaved(history, a)
    }

    constructor ()
      ensures Valid() && history == []
    {
      known, history := map[], [];
    }

    method SaveIdentity(address: string, key: Key) returns (change: IdentityChange)
      requires Valid()
      modifies this
      ensures Valid() && history == old(history) + [Save(address, key)]
      ensures known == old(known)[address := key]
      ensures change.ReplacedExisting? <==>
                LastSaved(old(history), address).Some? && LastSaved(old(history), address).value != key
    {
      assert Get(known, address) == LastSaved(history, address);
      if address !in known {
        change := NewOrUnchanged;
      } else if known[address] == key {
        change := NewOrUnchanged;
      } else {
        change := ReplacedExisting;
      }
      known := known[address := key];
      assert (history + [Save(address, key)])[..|history|] == history;
      history := history + [Save(address, key)];
    }

    method IsTrustedIdentity(address: string, key: Key) returns (trusted: bool)
      requires Valid()
      ensures trusted <==> Trusts(LastSaved(history, address), key)
    {
      assert Get(known, address) == LastSaved(history, address);
      trusted := address !in known || known[address] == key;
    }
  }

  /** LastSaved is the key of the save that no later save for the same address follows. */
  lemma {:induction false} LastSavedIs(history: seq<Save>, i: nat)
    requires i < |history| && forall j :: i < j < |history| ==> history[j].address != history[i].address
    ensures LastSaved(history, history[i].address) == Some(history[i].key)
    decreases |history|
  {
    var n := |history| - 1;
    if i < n { LastSavedIs(history[..n], i); }
  }

  /** It is None exactly for addresses never saved. */
  lemma {:induction false} NeverSaved(history: seq<Save>, address: string)
    ensures LastSaved(history, address).None? <==> forall i :: 0 <= i < |history| ==> history[i].address != address
    decreases |history|
  {
    if history != [] {
      var n := |history| - 1;
      NeverSaved(history[..n], address);
      assert forall i :: 0 <= i < n ==> history[..n][i] == history[i];
    }
  }

  // ------------------------------------------------------------ sessions

  datatype Bundle = Bundle(
    deviceId: int,
    registrationId: int,
    identityKey: Key,
    signedPreKeyId: int,
    signedPreKeyPublic: seq<byte>,
    signedPreKeySignature: seq<byte>,
    kyberPreKeyId: int,
    kyberPreKeyPublic: seq<byte>,
    kyberPreKeySignature: seq<byte>,
    oneTimePreKey: Option<(int, seq<byte>)>)

  /** What the library leaves for one address: its session record and its known identity. */
  datatype Entry = Entry(session: seq<byte>, known: Key)

  datatype Cipher = Cipher(kind: nat, text: seq<byte>)

  /** Errors as Python sees them: a RuntimeError with the library's text, or a ValueError. */
  datatype Error = RuntimeFailure(text: string) | ValueFailure

  /** The ratchet library, seen through the one address each call works on. entropy stands for
      the randomness and time a call draws. */
  datatype Ratchet = Ratchet(
    validDevice: int -> bool,
    encrypt: (seq<byte>, Option<Key>, seq<byte>, nat) -> Result<(Entry, Cipher), string>,
    process: (Option<seq<byte>>, Option<Key>, Bundle, nat) -> Result<Entry, string>)
  {
    /** Addresses exist for positive device ids only, encryption reports a missing session only
        when there is none, and both operations go ahead only with an identity key the store
        trusts, which they save. */
    ghost predicate Lawful() {
      && (forall d :: validDevice(d) ==> d > 0)
      && (forall s, k, p, n :: encrypt(s, k, p, n).Failure? ==> !Mentions(encrypt(s, k, p, n).error, NOT_FOUND))
      && (forall s, k, p, n :: encrypt(s, k, p, n).Success? ==> Trusts(k, encrypt(s, k, p, n).value.0.known))
      && (forall s, k, b, n :: process(s, k, b, n).Success? ==>
            process(s, k, b, n).value.known == b.identityKey && Trusts(k, b.identityKey))
    }
  }

  const NOT_FOUND := "not found"

  predicate FoundAt(hay: string, i: nat, needle: string) {
    i + |needle| <= |hay| && hay[i..i + |needle|] == needle
  }

  /** Python's `needle in hay`. */
  predicate Mentions(hay: string, needle: string) {
    exists i :: 0 <= i <= |hay| && FoundAt(hay, i, needle)
  }

  function SessionMissing(address: string): (s: string)
    ensures Mentions(s, NOT_FOUND)
  {
    var s := "session with " + address + " " + NOT_FOUND;
    assert FoundAt(s, |s| - |NOT_FOUND|, NOT_FOUND);
    s
  }

  datatype State = State(tables: Tables, entropy: nat)

  function Put(s: State, address: string, e: Entry): State {
    s.(tables := s.tables.(sessions := s.tables.sessions[address := e.session], known := s.tables.known[address := e.known]))
  }

  function Draw(s: State): State {
    s.(entropy := s.entropy + 1)
  }

  function Encrypt(r: Ratchet, s: State, service: string, device: int, plaintext: seq<byte>): (State, Result<Cipher, Error>)
    requires r.Lawful()
  {
    if !r.validDevice(device) then (s, Failure(ValueFailure))
    else
      var address := Address(service, device);
      if address !in s.tables.sessions then (s, Failure(RuntimeFailure(SessionMissing(address))))
      else
        match r.encrypt(s.tables.sessions[address], Get(s.tables.known, address), plaintext, s.entropy)
        case Failure(text) => (Draw(s), Failure(RuntimeFailure(text)))
        case Success((entry, cipher)) => (Draw(Put(s, address, entry)), Success(cipher))
  }

  function Install(r: Ratchet, s: State, service: string, bundle: Bundle): (State, Result<(), Error>)
    requires r.Lawful()
  {
    if !r.validDevice(bundle.deviceId) then (s, Failure(ValueFailure))
    else
      var address := Address(service, bundle.deviceId);
      match r.process(Get(s.tables.sessions, address), Get(s.tables.known, address), bundle, s.entropy)
      case Failure(text) => (Draw(s), Failure(RuntimeFailure(text)))
      case Success(entry) => (Draw(Put(s, address, entry)), Success(()))
  }

  /** An address without a session: the error says "not found", and the store is left alone. */
  lemma MissingSession(r: Ratchet, s: State, service: string, device: int, plaintext: seq<byte>)
    requires r.Lawful() && r.validDevice(device) && Address(service, device) !in s.tables.sessions
    ensures var (t, out) := Encrypt(r, s, service, device, plaintext);
            && t == s && out.Failure? && out.error.RuntimeFailure?
            && exists before, after :: out.error.text == before + "not found" + after
  {
    var address := Address(service, device);
    assert SessionMissing(address) == ("session with " + address + " ") + "not found" + "";
  }

  class Store {
    const identity: Key
    const registrationId: u32
    var known: map<string, Key>
    var preKeys: map<u32, seq<byte>>
    var signedPreKeys: map<u32, seq<byte>>
    var kyberPreKeys: map<u32, seq<byte>>
    var sessions: map<string, seq<byte>>
    var senderKeys: map<(string, Uuid), seq<byte>>
    var entropy: nat

    function Abs(): State
      reads this
    {
      State(Tables(identity, registrationId, known, preKeys, signedPreKeys, kyberPreKeys, sessions, senderKeys), entropy)
    }

    constructor (t: Tables, entropy: nat)
      ensures Abs() == State(t, entropy)
    {
      identity, registrationId, known := t.identity, t.registrationId, t.known;
      preKeys, signedPreKeys, kyberPreKeys := t.preKeys, t.signedPreKeys, t.kyberPreKeys;
      sessions, senderKeys := t.sessions, t.senderKeys;
      this.entropy := entropy;
    }

    method EncryptTo(r: Ratchet, service: string, device: int, plaintext: seq<byte>) returns (res: Result<Cipher, Error>)
      requires r.Lawful()
      modifies this
      ensures (Abs(), res) == Encrypt(r, old(Abs()), service, device, plaintext)
    {
      if !r.validDevice(device) {
        return Failure(ValueFailure);
      }
      var address := Address(service, device);
      if address !in sessions {
        return Failure(RuntimeFailure(SessionMissing(address)));
      }
      var out := r.encrypt(sessions[address], Get(known, address), plaintext, entropy);
      entropy := entropy + 1;
      match out
      case Failure(text) => res := Failure(RuntimeFailure(text));
      case Success((entry, cipher)) =>
        sessions := sessions[address := entry.session];
        known := known[address := entry.known];
        res := Success(cipher);
    }

    method ProcessPreKeyBundle(r: Ratchet, service: string, bundle: Bundle) returns (res: Result<(), Error>)
      requires r.Lawful()
      modifies this
      ensures (Abs(), res) == Install(r, old(Abs()), service, bundle)
    {
      if !r.validDevice(bundle.deviceId) {
        return Failure(ValueFailure);
      }
      var address := Address(service, bundle.deviceId);
      var out := r.process(Get(sessions, address), Get(known, address), bundle, entropy);
      entropy := entropy + 1;
      match out
      case Failure(text) => res := Failure(RuntimeFailure(text));
      case Success(entry) =>
        sessions := sessions[address := entry.session];
        known := known[address := entry.known];
        res := Success(());
    }
  }
}
