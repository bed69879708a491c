/** The handler registry: lists of handlers per event class, refining one flat list of live
    registrations. Classes are named, handlers are identities. */
module Handlers {
  import opened Bytes

  type Class = string
  type Handler = nat
  type Registration = (Class, Handler)

  const OBJECT: Class := "object"

  /** The handlers registered for one class, in registration order. */
  function Of(live: seq<Registration>, c: Class): seq<Handler> {
    if live == [] then []
    else if live[0].0 == c then [live[0].1] + Of(live[1..], c)
    else Of(live[1..], c)
  }

  /** Python's list.remove, with the ValueError of a missing element suppressed. */
  function RemoveFirst<T(==)>(s: seq<T>, x: T): seq<T> {
    if s == [] then [] else if s[0] == x then s[1..] else [s[0]] + RemoveFirst(s[1..], x)
  }

  /** What a task may do to the registry. */
  datatype Op = Add(c: Class, h: Handler) | Drop(c: Class, h: Handler)

  function Do(live: seq<Registration>, op: Op): seq<Registration> {
    match op
    case Add(c, h) => live + [(c, h)]
    case Drop(c, h) => RemoveFirst(live, (c, h))
  }

  function DoAll(live: seq<Registration>, ops: seq<Op>): seq<Registration> {
    if ops == [] then live else Do(DoAll(live, ops[..|ops| - 1]), ops[|ops| - 1])
  }

  /** The handlers one event starts: those of its class, then of each base but object. */
  function Snapshot(live: seq<Registration>, mro: seq<Class>): seq<Handler> {
    if mro == [] then []
    else Snapshot(live, mro[..|mro| - 1]) + (if mro[|mro| - 1] == OBJECT then [] else Of(live, mro[|mro| - 1]))
  }

  /** The handlers that raised, raises telling the positions. */
  function Raising(hs: seq<Handler>, raises: nat -> bool): seq<Handler> {
    if hs == [] then []
    else Raising(hs[..|hs| - 1], raises) + (if raises(|hs| - 1) then [hs[|hs| - 1]] else [])
  }

  lemma {:induction false} OfAppend(live: seq<Registration>, r: Registration, c: Class)
    ensures Of(live + [r], c) == Of(live, c) + (if r.0 == c then [r.1] else [])
  {
    if live == [] {
      assert live + [r] == [r] && [r][1..] == [];
    } else {
      OfAppend(live[1..], r, c);
      assert (live + [r])[1..] == live[1..] + [r];
    }
  }

  /** Removing the first matching registration removes the first match from its class's list
      and leaves every other list alone. */
  lemma {:induction false} OfRemove(live: seq<Registration>, c: Class, h: Handler, d: Class)
    ensures Of(RemoveFirst(live, (c, h)), d) == if d == c then RemoveFirst(Of(live, c), h) else Of(live, d)
  {
    if live != [] {
      var rest := live[1..];
      if live[0] != (c, h) {
        OfRemove(rest, c, h, d);
        var kept := [live[0]] + RemoveFirst(rest, (c, h));
        assert kept[1..] == RemoveFirst(rest, (c, h));
        if live[0].0 == c {
          assert ([live[0].1] + Of(rest, c))[1..] == Of(rest, c);
        }
      } else {
        assert ([h] + Of(rest, c))[1..] == Of(rest, c);
      }
    }
  }

  /** Removal takes out the first occurrence and nothing else. */
  lemma {:induction false} RemovesFirst<T>(a: seq<T>, x: T, b: seq<T>)
    requires x !in a
    ensures RemoveFirst(a + [x] + b, x) == a + b
  {
    var s := a + [x] + b;
    if a == [] {
      assert s[0] == x && s[1..] == b && a + b == b;
    } else {
      assert s[0] == a[0] && s[1..] == a[1..] + [x] + b;
      RemovesFirst(a[1..], x, b);
      assert [a[0]] + (a[1..] + b) == a + b;
    }
  }

  lemma {:induction false} RemovesNothing<T>(s: seq<T>, x: T)
    requires x !in s
    ensures RemoveFirst(s, x) == s
  {
    if s != [] { RemovesNothing(s[1..], x); }
  }

  /** The raising positions below n. */
  function RaisedAt(n: nat, raises: nat -> bool): seq<nat> {
    if n == 0 then [] else RaisedAt(n - 1, raises) + (if raises(n - 1) then [n - 1] else [])
  }

  lemma {:induction false} RaisedAtExactly(n: nat, raises: nat -> bool)
    ensures Ascending(RaisedAt(n, raises), n) && forall j: nat :: j < n ==> (j in RaisedAt(n, raises) <==> raises(j))
  {
    if n > 0 {
      RaisedAtExactly(n - 1, raises);
      assert n - 1 !in RaisedAt(n - 1, raises);
    }
  }

  /** The exceptions logged are those of the handlers at the raising positions, in order. */
  lemma {:induction false} LogsEachRaise(hs: seq<Handler>, raises: nat -> bool)
    ensures var at, logged := RaisedAt(|hs|, raises), Raising(hs, raises);
            && Ascending(at, |hs|) && (forall j: nat :: j < |hs| ==> (j in at <==> raises(j)))
            && |at| == |logged| && (forall i :: 0 <= i < |at| ==> logged[i] == hs[at[i]])
    decreases |hs|
  {
    RaisedAtExactly(|hs|, raises);
    if hs != [] {
      RaisedAtExactly(|hs| - 1, raises);
      LogsEachRaise(hs[..|hs| - 1], raises);
    }
  }

  class HandlerRegistry {
    var byType: map<Class, seq<Handler>>
    ghost var live: seq<Registration>

    ghost predicate Valid()
      reads this
    {
      forall c :: Of(live, c) == if c in byType then byType[c] else []
    }

    constructor ()
      ensures Valid() && live == []
    {
      byType, live := map[], [];
    }

    method Register(c: Class, h: Handler)
      requires Valid()
      modifies this
      ensures Valid() && live == old(live) + [(c, h)]
    {
      forall d { OfAppend(live, (c, h), d); }
      byType := byType[c := (if c in byType then byType[c] else []) + [h]];
      live := live + [(c, h)];
    }

    method Unregister(c: Class, h: Handler)
      requires Valid()
      modifies this
      ensures Valid() && live == RemoveFirst(old(live), (c, h))
    {
      forall d { OfRemove(live, c, h, d); }
      if c in byType {
        byType := byType[c := RemoveFirst(byType[c], h)];
      }
      live := RemoveFirst(live, (c, h));
    }

    method Perform(op: Op)
      requires Valid()
      modifies this
      ensures Valid() && live == Do(old(live), op)
    {
      match op
      case Add(c, h) => Register(c, h);
      case Drop(c, h) => Unregister(c, h);
    }

    method PerformAll(ops: seq<Op>)
      requires Valid()
      modifies this
      ensures Valid() && live == DoAll(old(live), ops)
    {
      for i := 0 to |ops|
        invariant Valid() && live == DoAll(old(live), ops[..i])
      {
        Perform(ops[i]);
        assert ops[..i + 1][..i] == ops[..i];
      }
      assert ops[..|ops|] == ops;
    }

    /** The first loop of dispatch: extend a local list class by class. */
    method Collect(mro: seq<Class>) returns (handlers: seq<Handler>)
      requires Valid()
      ensures handlers == Snapshot(live, mro)
    {
      handlers := [];
      for i := 0 to |mro|
        invariant handlers == Snapshot(live, mro[..i])
      {
        assert mro[..i + 1][..i] == mro[..i];
        if mro[i] != OBJECT {
          assert Of(live, mro[i]) == if mro[i] in byType then byType[mro[i]] else [];
          handlers := handlers + (if mro[i] in byType then byType[mro[i]] else []);
        }
      }
      assert mro[..|mro|] == mro;
    }

    /** The last loop of dispatch: what was raised is logged and stops nobody. */
    static method Log(handlers: seq<Handler>, raises: nat -> bool) returns (logged: seq<Handler>)
      ensures logged == Raising(handlers, raises)
    {
      logged := [];
      for i := 0 to |handlers|
        invariant logged == Raising(handlers[..i], raises)
      {
        assert handlers[..i + 1][..i] == handlers[..i];
        if raises(i) {
          logged := logged + [handlers[i]];
        }
      }
      assert handlers[..|handlers|] == handlers;
    }

    /** Collects the handlers first and only then starts them. meanwhile is everything the
        handlers and other tasks then do to the registry until the next event is dispatched, in
        whatever order their awaits let it happen; none of it changes which handlers this event
        starts. */
    method Dispatch(mro: seq<Class>, meanwhile: seq<Op>, raises: nat -> bool) returns (started: seq<Handler>, logged: seq<Handler>)
      requires Valid()
      modifies this
      ensures Valid()
      ensures started == Snapshot(old(live), mro)
      ensures logged == Raising(started, raises)
      ensures live == DoAll(old(live), meanwhile)
    {
      started := Collect(mro);
      PerformAll(meanwhile);
      logged := Log(started, raises);
    }
  }

  /** How many live registrations of h an event with these classes matches. */
  function Matches(live: seq<Registration>, mro: seq<Class>, h: Handler): nat {
    if live == [] then 0
    else (if live[0].1 == h && live[0].0 != OBJECT && live[0].0 in mro then 1 else 0) + Matches(live[1..], mro, h)
  }

  function MatchesOne(live: seq<Registration>, c: Class, h: Handler): nat {
    if live == [] then 0 else (if live[0] == (c, h) then 1 else 0) + MatchesOne(live[1..], c, h)
  }

  lemma {:induction false} OfCounts(live: seq<Registration>, c: Class, h: Handler)
    ensures multiset(Of(live, c))[h] == MatchesOne(live, c, h)
  {
    if live != [] { OfCounts(live[1..], c, h); }
  }

  lemma {:induction false} MatchesSplit(live: seq<Registration>, mro: seq<Class>, c: Class, h: Handler)
    requires c !in mro
    ensures Matches(live, mro + [c], h) == Matches(live, mro, h) + (if c == OBJECT then 0 else MatchesOne(live, c, h))
  {
    if live != [] { MatchesSplit(live[1..], mro, c, h); }
  }

  lemma {:induction false} NoClasses(live: seq<Registration>, h: Handler)
    ensures Matches(live, [], h) == 0
  {
    if live != [] { NoClasses(live[1..], h); }
  }

  /** Each handler is started once per live registration under a class the event has. */
  lemma {:induction false} StartedOncePerRegistration(live: seq<Registration>, mro: seq<Class>, h: Handler)
    requires forall i, j :: 0 <= i < j < |mro| ==> mro[i] != mro[j]
    ensures multiset(Snapshot(live, mro))[h] == Matches(live, mro, h)
    decreases |mro|
  {
    if mro == [] {
      NoClasses(live, h);
    } else {
      var init, c := mro[..|mro| - 1], mro[|mro| - 1];
      StartedOncePerRegistration(live, init, h);
      OfCounts(live, c, h);
      MatchesSplit(live, init, c, h);
      assert init + [c] == mro;
    }
  }

  lemma {:induction false} OtherClassesUnaffected(live: seq<Registration>, c: Class, h: Handler, mro: seq<Class>)
    requires c !in mro
    ensures Snapshot(live + [(c, h)], mro) == Snapshot(live, mro)
    decreases |mro|
  {
    if mro != [] {
      OfAppend(live, (c, h), mro[|mro| - 1]);
      OtherClassesUnaffected(live, c, h, mro[..|mro| - 1]);
    }
  }

  lemma {:induction false} SnapshotAppend(live: seq<Registration>, a: seq<Class>, b: seq<Class>)
    ensures Snapshot(live, a + b) == Snapshot(live, a) + Snapshot(live, b)
    decreases |b|
  {
    if b == [] {
      assert a + b == a;
    } else {
      assert (a + b)[..|a + b| - 1] == a + b[..|b| - 1];
      SnapshotAppend(live, a, b[..|b| - 1]);
    }
  }

  lemma SnapshotOfThree(live: seq<Registration>, before: seq<Class>, c: Class, after: seq<Class>)
    requires c != OBJECT
    ensures Snapshot(live, before + [c] + after) == Snapshot(live, before) + Of(live, c) + Snapshot(live, after)
  {
    SnapshotAppend(live, before + [c], after);
    assert (before + [c])[..|before|] == before;
  }

  /** Class order first, registration order within a class: a new registration starts last
      among its class's handlers, after those of the classes before and before those after. */
  lemma NewHandlerStartsAtEndOfItsClass(live: seq<Registration>, c: Class, h: Handler, before: seq<Class>, after: seq<Class>)
    requires c != OBJECT && c !in before && c !in after
    ensures Snapshot(live, before + [c] + after) == Snapshot(live, before) + Of(live, c) + Snapshot(live, after)
    ensures Snapshot(live + [(c, h)], before + [c] + after)
         == Snapshot(live, before) + (Of(live, c) + [h]) + Snapshot(live, after)
  {
    OfAppend(live, (c, h), c);
    OtherClassesUnaffected(live, c, h, before);
    OtherClassesUnaffected(live, c, h, after);
    SnapshotOfThree(live, before, c, after);
    SnapshotOfThree(live + [(c, h)], before, c, after);
  }
}
