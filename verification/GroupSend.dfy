/** Group fan-out: the same plaintext to every member but us, one delivery after another, each
    failure contained. */
module GroupSend {
  import opened Bytes
  import opened SignalStore
  import opened Send

  predicate IsUs(us: Us, member: string) {
    Truthy(us.aci) && member == us.aci.value
  }

  /** The members attempted: all but us, in order. */
  function Targets(us: Us, members: seq<string>): seq<string> {
    if members == [] then []
    else
      var init, last := members[..|members| - 1], members[|members| - 1];
      if IsUs(us, last) then Targets(us, init) else Targets(us, init) + [last]
  }

  /** The sequential fold of individual deliveries: the store each leaves and what each did.
      Delivery i is answered by server(i). */
  function DeliverEach(r: Ratchet, s: State, us: Us, targets: seq<string>, plaintext: seq<byte>, timestamp: int, server: nat -> Answer)
    : (State, seq<Delivery>)
    requires r.Lawful()
  {
    if targets == [] then (s, [])
    else
      var n := |targets| - 1;
      var (s1, ds) := DeliverEach(r, s, us, targets[..n], plaintext, timestamp, server);
      var (s2, d) := Deliver(r, s1, us, targets[n], plaintext, timestamp, server(n));
      (s2, ds + [d])
  }

  function PutsOf(ds: seq<Delivery>): seq<PutBody> {
    if ds == [] then [] else PutsOf(ds[..|ds| - 1]) + ds[|ds| - 1].puts
  }

  lemma DeliverEachSnoc(r: Ratchet, s: State, us: Us, targets: seq<string>, m: string, plaintext: seq<byte>, timestamp: int, server: nat -> Answer)
    requires r.Lawful()
    ensures var (s1, ds) := DeliverEach(r, s, us, targets, plaintext, timestamp, server);
            var (s2, d) := Deliver(r, s1, us, m, plaintext, timestamp, server(|targets|));
            && DeliverEach(r, s, us, targets + [m], plaintext, timestamp, server) == (s2, ds + [d])
            && PutsOf(ds + [d]) == PutsOf(ds) + d.puts
  {
    assert (targets + [m])[..|targets|] == targets;
    var (s1, ds) := DeliverEach(r, s, us, targets, plaintext, timestamp, server);
    var (s2, d) := Deliver(r, s1, us, m, plaintext, timestamp, server(|targets|));
    assert (ds + [d])[..|ds|] == ds;
  }

  lemma TargetsSnoc(us: Us, members: seq<string>, i: nat)
    requires i < |members|
    ensures Targets(us, members[..i + 1]) == Targets(us, members[..i]) + (if IsUs(us, members[i]) then [] else [members[i]])
  {
    assert members[..i + 1][..i] == members[..i];
  }

  /** Where a group send stands after some members: whom it attempted, how each attempt ended,
      and that store and PUTs are those of the fold. */
  ghost predicate Stands(r: Ratchet, start: State, us: Us, members: seq<string>, plaintext: seq<byte>, timestamp: int, server: nat -> Answer,
                         s: State, puts: seq<PutBody>, attempted: seq<string>, failed: seq<Option<SendError>>)
    requires r.Lawful()
  {
    && attempted == Targets(us, members) && |failed| == |attempted|
    && var (t, ds) := DeliverEach(r, start, us, attempted, plaintext, timestamp, server);
       s == t && puts == PutsOf(ds) && |ds| == |attempted| && forall i :: 0 <= i < |ds| ==> failed[i] == ds[i].raised
  }

  lemma StandsAfter(r: Ratchet, start: State, us: Us, members: seq<string>, i: nat, plaintext: seq<byte>, timestamp: int, server: nat -> Answer,
                    s: State, puts: seq<PutBody>, attempted: seq<string>, failed: seq<Option<SendError>>, t: State, d: Delivery)
    requires r.Lawful() && i < |members| && !IsUs(us, members[i])
    requires Stands(r, start, us, members[..i], plaintext, timestamp, server, s, puts, attempted, failed)
    requires Deliver(r, s, us, members[i], plaintext, timestamp, server(|attempted|)) == (t, d)
    ensures Stands(r, start, us, members[..i + 1], plaintext, timestamp, server, t, puts + d.puts, attempted + [members[i]], failed + [d.raised])
  {
    TargetsSnoc(us, members, i);
    DeliverEachSnoc(r, start, us, attempted, members[i], plaintext, timestamp, server);
  }

  /** One member that is not us. */
  method SendToMember(r: Ratchet, http: Http, store: Store, us: Us, ghost start: State, ghost earlier: seq<PutBody>, members: seq<string>, i: nat,
                      plaintext: seq<byte>, timestamp: int, server: nat -> Answer,
                      attempted: seq<string>, failed: seq<Option<SendError>>)
    returns (raised: Option<SendError>)
    requires r.Lawful() && i < |members| && !IsUs(us, members[i]) && earlier <= http.puts
    requires Stands(r, start, us, members[..i], plaintext, timestamp, server, store.Abs(), http.puts[|earlier|..], attempted, failed)
    modifies http, store
    ensures earlier <= http.puts
    ensures Stands(r, start, us, members[..i + 1], plaintext, timestamp, server, store.Abs(), http.puts[|earlier|..],
                   attempted + [members[i]], failed + [raised])
  {
    ghost var s, puts := store.Abs(), http.puts;
    ghost var (t, d) := Deliver(r, s, us, members[i], plaintext, timestamp, server(|attempted|));
    raised := DeliverToOne(r, http, store, us, members[i], plaintext, timestamp, server(|attempted|));
    StandsAfter(r, start, us, members, i, plaintext, timestamp, server, s, puts[|earlier|..], attempted, failed, t, d);
    assert http.puts[|earlier|..] == puts[|earlier|..] + d.puts;
  }

  /** The loop over members. It always completes: no member's failure leaves it early. */
  method SendToMembers(r: Ratchet, http: Http, store: Store, us: Us, members: seq<string>, plaintext: seq<byte>, timestamp: int,
                       server: nat -> Answer)
    returns (attempted: seq<string>, failed: seq<Option<SendError>>)
    requires r.Lawful()
    modifies http, store
    ensures old(http.puts) <= http.puts
    ensures Stands(r, old(store.Abs()), us, members, plaintext, timestamp, server, store.Abs(), http.puts[|old(http.puts)|..], attempted, failed)
  {
    attempted, failed := [], [];
    ghost var start, earlier := store.Abs(), http.puts;
    for i := 0 to |members|
      invariant earlier <= http.puts
      invariant Stands(r, start, us, members[..i], plaintext, timestamp, server, store.Abs(), http.puts[|earlier|..], attempted, failed)
    {
      if IsUs(us, members[i]) {
        TargetsSnoc(us, members, i);
        continue;
      }
      var raised := SendToMember(r, http, store, us, start, earlier, members, i, plaintext, timestamp, server, attempted, failed);
      attempted, failed := attempted + [members[i]], failed + [raised];
    }
    assert members[..|members|] == members;
  }

  /** Each member is attempted as often as listed, and we never. */
  lemma {:induction false} EachOtherMemberOnce(us: Us, members: seq<string>, m: string)
    ensures multiset(Targets(us, members))[m] == if us.aci == Some(m) && m != "" then 0 else multiset(members)[m]
    decreases |members|
  {
    if members != [] {
      var init, last := members[..|members| - 1], members[|members| - 1];
      EachOtherMemberOnce(us, init, m);
      assert members == init + [last];
    }
  }

  /** Without an account of our own everybody is attempted. */
  lemma {:induction false} EverybodyWithoutUs(us: Us, members: seq<string>)
    requires us.aci.None? || us.aci.value == ""
    ensures Targets(us, members) == members
    decreases |members|
  {
    if members != [] { EverybodyWithoutUs(us, members[..|members| - 1]); }
  }

  /** A member who is not us is attempted after the targets among those listed before. */
  lemma {:induction false} MemberIsTarget(us: Us, members: seq<string>, j: nat)
    requires j < |members| && !(us.aci == Some(members[j]) && members[j] != "")
    ensures var k := |Targets(us, members[..j])|;
            k < |Targets(us, members)| && Targets(us, members)[k] == members[j] && Targets(us, members)[..k] == Targets(us, members[..j])
    decreases |members|
  {
    var n := |members| - 1;
    if j < n {
      MemberIsTarget(us, members[..n], j);
      assert members[..n][..j] == members[..j];
    }
  }

  /** Targets keep the members' order. */
  lemma {:induction false} TargetsInOrder(us: Us, a: seq<string>, b: seq<string>)
    ensures Targets(us, a + b) == Targets(us, a) + Targets(us, b)
    decreases |b|
  {
    if b == [] {
      assert a + b == a;
    } else {
      assert (a + b)[..|a + b| - 1] == a + b[..|b| - 1];
      TargetsInOrder(us, a, b[..|b| - 1]);
    }
  }

  /** A delivery makes one PUT, to its target and with the timestamp, or none; it makes none
      exactly when it raised before the PUT. */
  ghost predicate WellFormed(d: Delivery, target: string, timestamp: int) {
    && (d.puts == [] <==> d.raised.Some? && d.raised.value != PutFailed)
    && (d.puts != [] ==> |d.puts| == 1 && d.puts[0].service == target && d.puts[0].timestamp == timestamp)
  }

  /** Every delivery of a group send carries the same timestamp to its own target, makes at
      most one PUT, and none when it fails before it. */
  lemma {:induction false} DeliveriesWellFormed(r: Ratchet, s: State, us: Us, targets: seq<string>, plaintext: seq<byte>, timestamp: int,
                                                server: nat -> Answer)
    requires r.Lawful()
    ensures var ds := DeliverEach(r, s, us, targets, plaintext, timestamp, server).1;
            && |ds| == |targets|
            && forall i :: 0 <= i < |ds| ==> WellFormed(ds[i], targets[i], timestamp)
    decreases |targets|
  {
    if targets != [] {
      var n := |targets| - 1;
      DeliveriesWellFormed(r, s, us, targets[..n], plaintext, timestamp, server);
      var s1 := DeliverEach(r, s, us, targets[..n], plaintext, timestamp, server).0;
      DeliverAllOrNothing(r, s1, us, targets[n], plaintext, timestamp, server(n));
    }
  }

  /** The store changes only at addresses of the targets' devices, and loses no session. */
  ghost predicate OnlyAt(s: State, t: State, services: seq<string>) {
    && t.tables.(sessions := s.tables.sessions, known := s.tables.known) == s.tables
    && (forall a :: a in s.tables.sessions ==> a in t.tables.sessions)
    && (forall name, d: nat :: name !in services ==>
          && Get(t.tables.sessions, Address(name, d)) == Get(s.tables.sessions, Address(name, d))
          && Get(t.tables.known, Address(name, d)) == Get(s.tables.known, Address(name, d)))
  }

  lemma DeliverOnlyAt(r: Ratchet, s: State, us: Us, service: string, plaintext: seq<byte>, timestamp: int, answer: Answer)
    requires r.Lawful()
    ensures OnlyAt(s, Deliver(r, s, us, service, plaintext, timestamp, answer).0, [service])
  {
    if answer.bundle.Some? && Parsed(answer.bundle.value).Success? {
      var devs, skip := Parsed(answer.bundle.value).value, SkipDevice(us, service);
      EncryptAllTouches(r, s, service, skip, devs, plaintext);
      forall name, d: nat | name !in [service] ensures Address(name, d) !in Addresses(service, Kept(devs, skip)) {
        if Address(name, d) in Addresses(service, Kept(devs, skip)) {
          var dev :| dev in Kept(devs, skip) && dev.deviceId > 0 && Address(service, dev.deviceId) == Address(name, d);
          AddressInjective(service, dev.deviceId, name, d);
        }
      }
    }
  }

  /** Members are isolated in the store: a group send touches no other account's sessions or
      identities, whichever deliveries fail. */
  lemma {:induction false} GroupOnlyAtTargets(r: Ratchet, s: State, us: Us, targets: seq<string>, plaintext: seq<byte>, timestamp: int,
                                              server: nat -> Answer)
    requires r.Lawful()
    ensures OnlyAt(s, DeliverEach(r, s, us, targets, plaintext, timestamp, server).0, targets)
    decreases |targets|
  {
    if targets != [] {
      var n := |targets| - 1;
      GroupOnlyAtTargets(r, s, us, targets[..n], plaintext, timestamp, server);
      var s1 := DeliverEach(r, s, us, targets[..n], plaintext, timestamp, server).0;
      DeliverOnlyAt(r, s1, us, targets[n], plaintext, timestamp, server(n));
      assert forall name :: name !in targets ==> name !in targets[..n] && name !in [targets[n]];
    }
  }
}
