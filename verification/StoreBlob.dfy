/** Serialising the protocol store: hash maps become lists in whatever order they iterate, and
    loading rebuilds the same tables. */
module StoreBlob {
  import opened Bytes
  import opened SignalStore

  /** s lists the entries of m, each once, in some order. */
  ghost predicate Lists<K, V>(s: seq<(K, V)>, m: map<K, V>) {
    && (forall i, j :: 0 <= i < j < |s| ==> s[i].0 != s[j].0)
    && (forall i :: 0 <= i < |s| ==> s[i].0 in m && m[s[i].0] == s[i].1)
    && (forall k :: k in m ==> exists i :: 0 <= i < |s| && s[i].0 == k)
  }

  /** Collecting pairs into a map: later pairs win. */
  function Collect<K, V>(s: seq<(K, V)>): map<K, V> {
    if s == [] then map[] else Collect(s[..|s| - 1])[s[|s| - 1].0 := s[|s| - 1].1]
  }

  lemma ListsButLast<K, V>(s: seq<(K, V)>, m: map<K, V>)
    requires Lists(s, m) && s != []
    ensures Lists(s[..|s| - 1], m - {s[|s| - 1].0})
  {
    var init, last := s[..|s| - 1], s[|s| - 1];
    var rest := m - {last.0};
    forall i | 0 <= i < |init| ensures init[i].0 in rest && rest[init[i].0] == init[i].1 {
      assert init[i] == s[i] && s[i].0 != last.0;
    }
    forall k | k in rest ensures exists i :: 0 <= i < |init| && init[i].0 == k {
      var i :| 0 <= i < |s| && s[i].0 == k;
      assert init[i].0 == k;
    }
  }

  /** Every listing of a map collects back to the map. */
  lemma {:induction false} CollectListing<K, V>(s: seq<(K, V)>, m: map<K, V>)
    requires Lists(s, m)
    ensures Collect(s) == m
    decreases |s|
  {
    if s == [] {
      assert m.Keys == {};
    } else {
      var last := s[|s| - 1];
      ListsButLast(s, m);
      CollectListing(s[..|s| - 1], m - {last.0});
      assert (m - {last.0})[last.0 := last.1] == m;
    }
  }

  // ------------------------------------------------------------ uuids

  function Pow256(n: nat): nat {
    if n == 0 then 1 else 256 * Pow256(n - 1)
  }

  function BigEndian(x: nat, n: nat): (r: seq<byte>)
    ensures |r| == n
  {
    if n == 0 then [] else BigEndian(x / 256, n - 1) + [x % 256]
  }

  function FromBigEndian(b: seq<byte>): nat {
    if b == [] then 0 else FromBigEndian(b[..|b| - 1]) * 256 + b[|b| - 1]
  }

  lemma {:induction false} BigEndianInverse(x: nat, n: nat)
    requires x < Pow256(n)
    ensures FromBigEndian(BigEndian(x, n)) == x
  {
    if n > 0 {
      BigEndianInverse(x / 256, n - 1);
      assert BigEndian(x, n)[..n - 1] == BigEndian(x / 256, n - 1);
    }
  }

  function UuidBytes(u: Uuid): seq<byte> {
    BigEndian(u, 16)
  }

  function UuidOf(b: seq<byte>): Uuid {
    FromBigEndian(b) % 0x1_0000_0000_0000_0000_0000_0000_0000_0000
  }

  lemma UuidRoundTrip(u: Uuid)
    ensures UuidOf(UuidBytes(u)) == u
  {
    assert Pow256(8) == 0x1_0000_0000_0000_0000;
    assert Pow256(16) == 0x1_0000_0000_0000_0000_0000_0000_0000_0000;
    BigEndianInverse(u, 16);
  }

  // ------------------------------------------------------------ the blob

  datatype Blob = Blob(
    identity: seq<byte>,
    registrationId: u32,
    known: seq<(string, Key)>,
    preKeys: seq<(u32, seq<byte>)>,
    signedPreKeys: seq<(u32, seq<byte>)>,
    kyberPreKeys: seq<(u32, seq<byte>)>,
    sessions: seq<(string, seq<byte>)>,
    senderKeys: seq<((string, seq<byte>), seq<byte>)>)

  /** The orders in which the six hash maps happen to iterate. */
  datatype Orders = Orders(
    known: seq<(string, Key)>,
    preKeys: seq<(u32, seq<byte>)>,
    signedPreKeys: seq<(u32, seq<byte>)>,
    kyberPreKeys: seq<(u32, seq<byte>)>,
    sessions: seq<(string, seq<byte>)>,
    senderKeys: seq<((string, Uuid), seq<byte>)>)

  ghost predicate OrdersOf(o: Orders, t: Tables) {
    && Lists(o.known, t.known) && Lists(o.preKeys, t.preKeys) && Lists(o.signedPreKeys, t.signedPreKeys)
    && Lists(o.kyberPreKeys, t.kyberPreKeys) && Lists(o.sessions, t.sessions) && Lists(o.senderKeys, t.senderKeys)
  }

  /** The library's codecs for the blob (bincode) and for an identity key pair. */
  datatype Codecs = Codecs(blob: Codec<Blob>, identity: Codec<Key>) {
    ghost predicate Lawful() { Inverts(blob) && Inverts(identity) }
  }

  function ByBytes(p: ((string, Uuid), seq<byte>)): ((string, seq<byte>), seq<byte>) {
    ((p.0.0, UuidBytes(p.0.1)), p.1)
  }

  function ByUuid(p: ((string, seq<byte>), seq<byte>)): ((string, Uuid), seq<byte>) {
    ((p.0.0, UuidOf(p.0.1)), p.1)
  }

  function Map<A, B>(f: A -> B, s: seq<A>): (r: seq<B>)
    ensures |r| == |s| && forall i :: 0 <= i < |s| ==> r[i] == f(s[i])
  {
    seq(|s|, i requires 0 <= i < |s| => f(s[i]))
  }

  function ToBlob(c: Codecs, t: Tables, o: Orders): seq<byte> {
    c.blob.encode(Blob(c.identity.encode(t.identity), t.registrationId,
                       o.known, o.preKeys, o.signedPreKeys, o.kyberPreKeys, o.sessions, Map(ByBytes, o.senderKeys)))
  }

  /** None stands for the InvalidState error of a blob or key pair that does not decode. */
  function FromBlob(c: Codecs, data: seq<byte>): Option<Tables> {
    match c.blob.decode(data)
    case None => None
    case Some(b) =>
      match c.identity.decode(b.identity)
      case None => None
      case Some(identity) =>
        Some(Tables(identity, b.registrationId, Collect(b.known), Collect(b.preKeys), Collect(b.signedPreKeys),
                    Collect(b.kyberPreKeys), Collect(b.sessions), Collect(Map(ByUuid, b.senderKeys))))
  }

  /** Whatever order the maps iterate in, loading a saved store gives back every table. */
  lemma BlobRoundTrip(c: Codecs, t: Tables, o: Orders)
    requires c.Lawful() && OrdersOf(o, t)
    ensures FromBlob(c, ToBlob(c, t, o)) == Some(t)
  {
    CollectListing(o.known, t.known);
    CollectListing(o.preKeys, t.preKeys);
    CollectListing(o.signedPreKeys, t.signedPreKeys);
    CollectListing(o.kyberPreKeys, t.kyberPreKeys);
    CollectListing(o.sessions, t.sessions);
    CollectListing(o.senderKeys, t.senderKeys);
    forall p: ((string, Uuid), seq<byte>) ensures ByUuid(ByBytes(p)) == p { UuidRoundTrip(p.0.1); }
    assert Map(ByUuid, Map(ByBytes, o.senderKeys)) == o.senderKeys;
  }
}
