/** Waiting for the primary to scan: connect, listen for two pushes, reconnect until the deadline.
    Time is a clock in milliseconds; what the network and the callback do is given per attempt. */
module Provisioning {
  import opened Bytes
  import LinkUrl

  const ATTEMPT_TIMEOUT := 120 * 1000

  datatype Envelope = Envelope(publicKey: seq<byte>, body: seq<byte>)

  /** A push: how long after the previous one it is handled, its body, and whether acking it raises. */
  datatype Push = Push(after: nat, body: seq<byte>, ackRaises: bool)

  /** One connection as the environment provides it. The iterator ends endsAfter the last push,
      if the socket closes at all. */
  datatype Attempt = Attempt(
    connectTime: nat, connectRaises: bool,
    pushes: seq<Push>, endsAfter: Option<nat>, urlRaises: bool,
    closeTime: nat, closeRaises: bool)

  /** The protobuf parsers, which may reject a body. */
  datatype Parsers = Parsers(address: seq<byte> -> Option<seq<byte>>, envelope: seq<byte> -> Option<Envelope>)

  /** What one linking session fixes: parsers, the temporary public key, whether a callback was given. */
  datatype Setup = Setup(parse: Parsers, tempKey: seq<byte>, hasCallback: bool)

  datatype Read = Got(uuid: seq<byte>, envelope: Envelope) | Expired | TimedOut | ReadRaised

  datatype Outcome = Linked(uuid: seq<byte>, envelope: Envelope) | DeadlinePassed | Raised

  datatype Event =
    | Dialed(attempt: nat, at: int)
    | Listening(attempt: nat, cap: int)
    | UrlShown(attempt: nat, url: string)
    | Closed(attempt: nat)

  function Min(a: int, b: int): (m: int)
    ensures m <= a && m <= b && (m == a || m == b)
  {
    if a < b then a else b
  }

  /** When push i of a connection is handled, measured from the start of listening. */
  function ArrivesAt(a: Attempt, i: nat): nat
    requires i < |a.pushes|
  {
    if i == 0 then a.pushes[0].after else ArrivesAt(a, i - 1) + a.pushes[i].after
  }

  /** The first push is acked, carries an address, and its URL reaches the callback in time. */
  predicate ShowsUrl(s: Setup, a: Attempt, cap: int) {
    |a.pushes| >= 1 && ArrivesAt(a, 0) <= cap && !a.pushes[0].ackRaises && s.parse.address(a.pushes[0].body).Some?
  }

  /** The second push is acked and carries an envelope in time. */
  predicate GetsEnvelope(s: Setup, a: Attempt, cap: int) {
    && ShowsUrl(s, a, cap) && !(s.hasCallback && a.urlRaises)
    && |a.pushes| >= 2 && ArrivesAt(a, 1) <= cap && !a.pushes[1].ackRaises && s.parse.envelope(a.pushes[1].body).Some?
  }

  function UrlOf(s: Setup, a: Attempt): string
    requires |a.pushes| >= 1 && s.parse.address(a.pushes[0].body).Some?
  {
    LinkUrl.Build(s.parse.address(a.pushes[0].body).value, s.tempKey)
  }

  /** The rest of a listen from push i on, t into it: how it ends and when. */
  function ReadFrom(s: Setup, a: Attempt, cap: int, i: nat, t: nat, uuid: Option<seq<byte>>): (Read, int)
    requires i <= |a.pushes|
    decreases |a.pushes| - i
  {
    if i == |a.pushes| then
      if a.endsAfter.Some? && t + a.endsAfter.value <= cap then (Expired, t + a.endsAfter.value) else (TimedOut, cap)
    else
      var p := a.pushes[i];
      var u := t + p.after;
      if u > cap then (TimedOut, cap)
      else if p.ackRaises then (ReadRaised, u)
      else if uuid.None? then
        var addr := s.parse.address(p.body);
        if addr.None? || (s.hasCallback && a.urlRaises) then (ReadRaised, u) else ReadFrom(s, a, cap, i + 1, u, addr)
      else
        match s.parse.envelope(p.body)
        case None => (ReadRaised, u)
        case Some(e) => (Got(uuid.value, e), u)
  }

  /** One connection's listening under wait_for: an envelope comes back exactly when the first
      two pushes make one in time, and both halves come from this connection. */
  method ReadEnvelope(s: Setup, a: Attempt, cap: int) returns (r: Read, elapsed: nat, urls: seq<string>)
    requires cap > 0
    ensures elapsed <= cap
    ensures urls == if ShowsUrl(s, a, cap) && s.hasCallback then [UrlOf(s, a)] else []
    ensures r.Got? <==> GetsEnvelope(s, a, cap)
    ensures r.Got? ==> s.parse.address(a.pushes[0].body) == Some(r.uuid) && s.parse.envelope(a.pushes[1].body) == Some(r.envelope)
    ensures (r, elapsed as int) == ReadFrom(s, a, cap, 0, 0, None)
  {
    var sessionUuid: Option<seq<byte>> := None;
    elapsed, urls := 0, [];
    var i := 0;
    while i < |a.pushes|
      invariant i <= |a.pushes| && i <= 1 && elapsed <= cap
      invariant i == 0 ==> sessionUuid == None && elapsed == 0 && urls == []
      invariant i == 1 ==> ShowsUrl(s, a, cap) && !(s.hasCallback && a.urlRaises) && elapsed == ArrivesAt(a, 0)
      invariant i == 1 ==> sessionUuid == s.parse.address(a.pushes[0].body)
      invariant ReadFrom(s, a, cap, i, elapsed, sessionUuid) == ReadFrom(s, a, cap, 0, 0, None)
      invariant i == 1 ==> urls == if s.hasCallback then [UrlOf(s, a)] else []
    {
      var push := a.pushes[i];
      if elapsed + push.after > cap {
        return TimedOut, cap, urls;
      }
      elapsed := elapsed + push.after;
      if push.ackRaises {
        return ReadRaised, elapsed, urls;
      }
      if sessionUuid.None? {
        var addr := s.parse.address(push.body);
        if addr.None? {
          return ReadRaised, elapsed, urls;
        }
        sessionUuid := addr;
        var url := LinkUrl.Build(addr.value, s.tempKey);
        if s.hasCallback {
          urls := urls + [url];
          if a.urlRaises {
            return ReadRaised, elapsed, urls;
          }
        }
      } else {
        var envelope := s.parse.envelope(push.body);
        if envelope.None? {
          return ReadRaised, elapsed, urls;
        }
        return Got(sessionUuid.value, envelope.value), elapsed, urls;
      }
      i := i + 1;
    }
    if a.endsAfter.Some? && elapsed + a.endsAfter.value <= cap {
      return Expired, elapsed + a.endsAfter.value, urls;
    }
    return TimedOut, cap, urls;
  }

  // ------------------------------------------------------------ traces

  /** The connection left open by a trace. */
  function OpenAfter(trace: seq<Event>): Option<nat> {
    if trace == [] then None
    else match trace[|trace| - 1] {
      case Closed(_) => None
      case Dialed(_, _) => None
      case Listening(k, _) => Some(k)
      case UrlShown(_, _) => OpenAfter(trace[..|trace| - 1])
    }
  }

  function Dials(trace: seq<Event>): nat {
    if trace == [] then 0 else Dials(trace[..|trace| - 1]) + (if trace[|trace| - 1].Dialed? then 1 else 0)
  }

  /** Events in an order the loop allows: attempts are numbered, nothing is dialed while a
      connection is open, and only the open connection listens, shows its URL and is closed. */
  predicate Legal(trace: seq<Event>) {
    trace == [] ||
    (var init := trace[..|trace| - 1];
     Legal(init) &&
     match trace[|trace| - 1] {
       case Dialed(k, _) => OpenAfter(init).None? && k == Dials(init)
       case Listening(k, _) => init != [] && init[|init| - 1].Dialed? && init[|init| - 1].attempt == k
       case UrlShown(k, _) => OpenAfter(init) == Some(k)
       case Closed(k) => OpenAfter(init) == Some(k)
     })
  }

  /** How often a connection is closed. */
  function Closes(trace: seq<Event>, k: nat): nat {
    if trace == [] then 0
    else Closes(trace[..|trace| - 1], k) + (if trace[|trace| - 1] == Closed(k) then 1 else 0)
  }

  function Opens(trace: seq<Event>, k: nat): nat {
    if trace == [] then 0
    else
      var last := trace[|trace| - 1];
      Opens(trace[..|trace| - 1], k) + (if last.Listening? && last.attempt == k then 1 else 0)
  }

  /** In a legal trace each connection has been closed as often as opened, except the one that
      is open; and no connection is opened twice. */
  lemma {:induction false} ClosedOnceEach(trace: seq<Event>, k: nat)
    requires Legal(trace)
    ensures Opens(trace, k) == Closes(trace, k) + (if OpenAfter(trace) == Some(k) then 1 else 0)
    ensures Opens(trace, k) <= 1
    ensures Opens(trace, k) == 1 ==> k < Dials(trace)
    ensures trace != [] && trace[|trace| - 1].Dialed? ==> trace[|trace| - 1].attempt == Dials(trace) - 1 && Opens(trace, Dials(trace) - 1) == 0
    decreases |trace|
  {
    if trace != [] {
      var init := trace[..|trace| - 1];
      ClosedOnceEach(init, k);
      if Dials(init) > 0 { ClosedOnceEach(init, Dials(init) - 1); }
      ClosedOnceEach(init, Dials(init));
    }
  }

  /** When the next attempt is dialed, every connection opened before has been closed exactly once. */
  lemma AllClosedBeforeNextDial(trace: seq<Event>, k: nat)
    requires Legal(trace) && trace != [] && trace[|trace| - 1].Dialed?
    ensures Closes(trace, k) == Opens(trace, k) <= 1
  {
    ClosedOnceEach(trace, k);
  }

  // ------------------------------------------------------------ the loop

  /** No dial starts at or after the deadline, and each listen is capped by the time left when
      it was dialed and by the attempt timeout. */
  ghost predicate InTime(trace: seq<Event>, deadline: int) {
    && (forall i :: 0 <= i < |trace| && trace[i].Dialed? ==> trace[i].at < deadline)
    && (forall i :: 1 <= i < |trace| && trace[i].Listening? && trace[i - 1].Dialed? ==>
          trace[i].cap == Min(deadline - trace[i - 1].at, ATTEMPT_TIMEOUT))
  }

  function Shown(k: nat, urls: seq<string>): seq<Event> {
    if urls == [] then [] else Shown(k, urls[..|urls| - 1]) + [UrlShown(k, urls[|urls| - 1])]
  }

  lemma {:induction false} ShownLegal(trace: seq<Event>, k: nat, urls: seq<string>, deadline: int)
    requires Legal(trace) && OpenAfter(trace) == Some(k) && InTime(trace, deadline)
    ensures var t := trace + Shown(k, urls);
            Legal(t) && OpenAfter(t) == Some(k) && InTime(t, deadline) && Dials(t) == Dials(trace)
    decreases |urls|
  {
    if urls == [] {
      assert trace + [] == trace;
    } else {
      var init := urls[..|urls| - 1];
      ShownLegal(trace, k, init, deadline);
      var t := trace + Shown(k, init);
      var e := UrlShown(k, urls[|urls| - 1]);
      assert trace + Shown(k, urls) == t + [e];
      assert (t + [e])[..|t|] == t;
    }
  }

  /** The outcome of the loop from attempt k, dialed at the given time, and when it ends: each
      attempt that expires or times out, and closes cleanly, is followed by another while time
      is left. */
  function Session(s: Setup, env: nat -> Attempt, k: nat, now: int, deadline: int): (Outcome, int)
    requires forall j :: env(j).connectTime >= 1
    decreases deadline - now
  {
    if deadline <= now then (DeadlinePassed, now)
    else
      var (read, after) := Turn(s, env(k), now, deadline);
      match read
      case Got(uuid, envelope) => (Linked(uuid, envelope), after)
      case ReadRaised => (Raised, after)
      case _ => Session(s, env, k + 1, after, deadline)
  }

  /** One attempt: how its listen ended, with any exception of connecting or closing, and the time after it. */
  function Turn(s: Setup, a: Attempt, now: int, deadline: int): (r: (Read, int))
    requires now < deadline && a.connectTime >= 1
    ensures r.1 > now
  {
    if a.connectRaises then (ReadRaised, now + a.connectTime)
    else
      var cap := Min(deadline - now, ATTEMPT_TIMEOUT);
      ReadTakesTime(s, a, cap, 0, 0, None);
      var (read, elapsed) := ReadFrom(s, a, cap, 0, 0, None);
      (if a.closeRaises then ReadRaised else read, now + a.connectTime + elapsed + a.closeTime)
  }

  lemma {:induction false} ReadTakesTime(s: Setup, a: Attempt, cap: int, i: nat, t: nat, uuid: Option<seq<byte>>)
    requires i <= |a.pushes| && t <= cap
    ensures t <= ReadFrom(s, a, cap, i, t, uuid).1 <= cap
    decreases |a.pushes| - i
  {
    if i < |a.pushes| && t + a.pushes[i].after <= cap {
      ReadTakesTime(s, a, cap, i + 1, t + a.pushes[i].after, s.parse.address(a.pushes[i].body));
    }
  }

  // ------------------------------------------------------------ how a listen ends

  /** The first push arrives in time and raises: acking it, parsing it or showing its URL. */
  ghost predicate FirstRaises(s: Setup, a: Attempt, cap: int) {
    && |a.pushes| >= 1 && ArrivesAt(a, 0) <= cap
    && (a.pushes[0].ackRaises || s.parse.address(a.pushes[0].body).None? || (s.hasCallback && a.urlRaises))
  }

  /** The first push goes well. */
  ghost predicate FirstGoesWell(s: Setup, a: Attempt, cap: int) {
    ShowsUrl(s, a, cap) && !(s.hasCallback && a.urlRaises)
  }

  /** The second push arrives in time and raises: acking it or parsing it. */
  ghost predicate SecondRaises(s: Setup, a: Attempt, cap: int) {
    && FirstGoesWell(s, a, cap) && |a.pushes| >= 2 && ArrivesAt(a, 1) <= cap
    && (a.pushes[1].ackRaises || s.parse.envelope(a.pushes[1].body).None?)
  }

  /** The socket closes in time, before a second push. */
  ghost predicate ClosesEarly(s: Setup, a: Attempt, cap: int) {
    && a.endsAfter.Some?
    && ((|a.pushes| == 0 && a.endsAfter.value <= cap) ||
        (|a.pushes| == 1 && FirstGoesWell(s, a, cap) && ArrivesAt(a, 0) + a.endsAfter.value <= cap))
  }

  /** The four ways a listen ends, and when. */
  lemma ListenEnds(s: Setup, a: Attempt, cap: nat)
    ensures var (read, t) := ReadFrom(s, a, cap, 0, 0, None);
            && (read.Got? <==> GetsEnvelope(s, a, cap))
            && (read.ReadRaised? <==> FirstRaises(s, a, cap) || SecondRaises(s, a, cap))
            && (read.Expired? <==> ClosesEarly(s, a, cap))
            && (GetsEnvelope(s, a, cap) || SecondRaises(s, a, cap) ==> t == ArrivesAt(a, 1))
            && (FirstRaises(s, a, cap) ==> t == ArrivesAt(a, 0))
            && (ClosesEarly(s, a, cap) ==> t == a.endsAfter.value + (if |a.pushes| == 0 then 0 else ArrivesAt(a, 0)))
            && (read.TimedOut? ==> t == cap)
  {
    if FirstGoesWell(s, a, cap) {
      var addr := s.parse.address(a.pushes[0].body);
      assert ReadFrom(s, a, cap, 0, 0, None) == ReadFrom(s, a, cap, 1, ArrivesAt(a, 0), addr);
      if |a.pushes| >= 2 { assert ArrivesAt(a, 1) == ArrivesAt(a, 0) + a.pushes[1].after; }
    }
  }

  // ------------------------------------------------------------ how a session ends

  /** The attempt dialed at this time connects, its listen runs out, and it closes cleanly. */
  ghost predicate ComesBackEmpty(s: Setup, a: Attempt, now: int, deadline: int) {
    && !a.connectRaises && !a.closeRaises
    && var cap := Min(deadline - now, ATTEMPT_TIMEOUT);
       !GetsEnvelope(s, a, cap) && !FirstRaises(s, a, cap) && !SecondRaises(s, a, cap)
  }

  ghost predicate Succeeds(s: Setup, a: Attempt, now: int, deadline: int) {
    !a.connectRaises && !a.closeRaises && GetsEnvelope(s, a, Min(deadline - now, ATTEMPT_TIMEOUT))
  }

  /** Connecting, listening or closing raises. */
  ghost predicate Breaks(s: Setup, a: Attempt, now: int, deadline: int) {
    var cap := Min(deadline - now, ATTEMPT_TIMEOUT);
    a.connectRaises || a.closeRaises || FirstRaises(s, a, cap) || SecondRaises(s, a, cap)
  }

  /** When the attempt is over. */
  ghost function OverAt(s: Setup, a: Attempt, now: int, deadline: int): int {
    if a.connectRaises then now + a.connectTime
    else now + a.connectTime + ReadFrom(s, a, Min(deadline - now, ATTEMPT_TIMEOUT), 0, 0, None).1 + a.closeTime
  }

  /** A turn of the loop by what the attempt does. */
  lemma TurnEnds(s: Setup, a: Attempt, now: int, deadline: int)
    requires now < deadline && a.connectTime >= 1
    ensures var (read, after) := Turn(s, a, now, deadline);
            && after == OverAt(s, a, now, deadline) > now
            && (read.Got? <==> Succeeds(s, a, now, deadline))
            && (read.ReadRaised? <==> Breaks(s, a, now, deadline))
            && (read.Expired? || read.TimedOut? <==> ComesBackEmpty(s, a, now, deadline))
            && (read.Got? ==> s.parse.address(a.pushes[0].body) == Some(read.uuid) && s.parse.envelope(a.pushes[1].body) == Some(read.envelope))
  {
    var cap := Min(deadline - now, ATTEMPT_TIMEOUT);
    ListenEnds(s, a, cap);
    if GetsEnvelope(s, a, cap) {
      assert ReadFrom(s, a, cap, 0, 0, None) == ReadFrom(s, a, cap, 1, ArrivesAt(a, 0), s.parse.address(a.pushes[0].body));
    }
  }

  /** n attempts in a row came back empty, the next one being dialed at the given time. */
  ghost predicate Retries(s: Setup, env: nat -> Attempt, k: nat, now: int, deadline: int, n: nat, at: int)
    requires forall j :: env(j).connectTime >= 1
    decreases n
  {
    if n == 0 then at == now
    else
      && now < deadline && ComesBackEmpty(s, env(k), now, deadline)
      && Retries(s, env, k + 1, OverAt(s, env(k), now, deadline), deadline, n - 1, at)
  }

  /** The n-th attempt from k on is dialed in time, after n that came back empty. */
  ghost predicate Reaches(s: Setup, env: nat -> Attempt, k: nat, now: int, deadline: int, n: nat, at: int)
    requires forall j :: env(j).connectTime >= 1
  {
    Retries(s, env, k, now, deadline, n, at) && at < deadline
  }

  ghost predicate FirstSuccess(s: Setup, env: nat -> Attempt, k: nat, now: int, deadline: int, n: nat, at: int)
    requires forall j :: env(j).connectTime >= 1
  {
    Reaches(s, env, k, now, deadline, n, at) && Succeeds(s, env(k + n), at, deadline)
  }

  ghost predicate FirstBreak(s: Setup, env: nat -> Attempt, k: nat, now: int, deadline: int, n: nat, at: int)
    requires forall j :: env(j).connectTime >= 1
  {
    Reaches(s, env, k, now, deadline, n, at) && Breaks(s, env(k + n), at, deadline)
  }

  /** A session links exactly when some attempt dialed in time, after ones that came back empty,
      succeeds and closes cleanly. */
  lemma {:induction false} LinkedIffFirstSuccess(s: Setup, env: nat -> Attempt, k: nat, now: int, deadline: int)
    requires forall j :: env(j).connectTime >= 1
    ensures Session(s, env, k, now, deadline).0.Linked? <==>
            exists n: nat, at: int :: FirstSuccess(s, env, k, now, deadline, n, at)
    decreases deadline - now
  {
    if now < deadline {
      TurnEnds(s, env(k), now, deadline);
      if Succeeds(s, env(k), now, deadline) {
        assert FirstSuccess(s, env, k, now, deadline, 0, now);
      } else if ComesBackEmpty(s, env(k), now, deadline) {
        var next, after := k + 1, OverAt(s, env(k), now, deadline);
        LinkedIffFirstSuccess(s, env, next, after, deadline);
        if n: nat, at: int :| FirstSuccess(s, env, next, after, deadline, n, at) {
          assert k + (n + 1) == next + n;
          assert FirstSuccess(s, env, k, now, deadline, n + 1, at);
        }
        if n: nat, at: int :| FirstSuccess(s, env, k, now, deadline, n, at) {
          assert n > 0 && next + (n - 1) == k + n;
          assert FirstSuccess(s, env, next, after, deadline, n - 1, at);
        }
      }
    }
  }

  /** A session raises exactly when some attempt dialed in time, after ones that came back empty,
      fails to connect, raises while listening or fails to close. */
  lemma {:induction false} RaisedIffFirstBreak(s: Setup, env: nat -> Attempt, k: nat, now: int, deadline: int)
    requires forall j :: env(j).connectTime >= 1
    ensures Session(s, env, k, now, deadline).0.Raised? <==>
            exists n: nat, at: int :: FirstBreak(s, env, k, now, deadline, n, at)
    decreases deadline - now
  {
    if now < deadline {
      TurnEnds(s, env(k), now, deadline);
      if Breaks(s, env(k), now, deadline) {
        assert FirstBreak(s, env, k, now, deadline, 0, now);
      } else if ComesBackEmpty(s, env(k), now, deadline) {
        var next, after := k + 1, OverAt(s, env(k), now, deadline);
        RaisedIffFirstBreak(s, env, next, after, deadline);
        if n: nat, at: int :| FirstBreak(s, env, next, after, deadline, n, at) {
          assert k + (n + 1) == next + n;
          assert FirstBreak(s, env, k, now, deadline, n + 1, at);
        }
        if n: nat, at: int :| FirstBreak(s, env, k, now, deadline, n, at) {
          assert n > 0 && next + (n - 1) == k + n;
          assert FirstBreak(s, env, next, after, deadline, n - 1, at);
        }
      }
    }
  }

  // ------------------------------------------------------------ overrunning the deadline

  ghost predicate EndsLate(s: Setup, env: nat -> Attempt, k: nat, now: int, deadline: int, n: nat, at: int)
    requires forall j :: env(j).connectTime >= 1
  {
    Reaches(s, env, k, now, deadline, n, at) && OverAt(s, env(k + n), at, deadline) > deadline
  }

  /** A session ends after its deadline exactly when it was started late or some attempt made ends late. */
  lemma {:induction false} SessionLateIff(s: Setup, env: nat -> Attempt, k: nat, now: int, deadline: int)
    requires forall j :: env(j).connectTime >= 1
    ensures Session(s, env, k, now, deadline).1 > deadline <==>
            now > deadline || exists n: nat, at: int :: EndsLate(s, env, k, now, deadline, n, at)
    decreases deadline - now
  {
    if now < deadline {
      TurnEnds(s, env(k), now, deadline);
      var after := OverAt(s, env(k), now, deadline);
      if after > deadline {
        assert EndsLate(s, env, k, now, deadline, 0, now);
      } else if ComesBackEmpty(s, env(k), now, deadline) {
        var next := k + 1;
        SessionLateIff(s, env, next, after, deadline);
        if n: nat, at: int :| EndsLate(s, env, next, after, deadline, n, at) {
          assert k + (n + 1) == next + n;
          assert EndsLate(s, env, k, now, deadline, n + 1, at);
        }
        if n: nat, at: int :| EndsLate(s, env, k, now, deadline, n, at) {
          assert n > 0 && next + (n - 1) == k + n;
          assert EndsLate(s, env, next, after, deadline, n - 1, at);
        }
      }
    }
  }

  /** What listening may not use up: the time left beyond the attempt timeout. */
  function Slack(now: int, deadline: int): int {
    (deadline - now) - Min(deadline - now, ATTEMPT_TIMEOUT)
  }

  /** An attempt overruns only if connecting and closing take longer than the slack, and then it
      does whenever its listen times out; one that fails to connect overruns by that alone. */
  lemma OverrunsIff(s: Setup, a: Attempt, now: int, deadline: int)
    requires now < deadline && a.connectTime >= 1
    ensures a.connectRaises ==> (Turn(s, a, now, deadline).1 > deadline <==> a.connectTime > deadline - now)
    ensures !a.connectRaises && Turn(s, a, now, deadline).1 > deadline ==> a.connectTime + a.closeTime > Slack(now, deadline)
    ensures !a.connectRaises && ReadFrom(s, a, Min(deadline - now, ATTEMPT_TIMEOUT), 0, 0, None).0.TimedOut? ==>
              (Turn(s, a, now, deadline).1 > deadline <==> a.connectTime + a.closeTime > Slack(now, deadline))
    ensures Turn(s, a, now, deadline).1 <= deadline + a.connectTime + a.closeTime
  {
    var cap := Min(deadline - now, ATTEMPT_TIMEOUT);
    ReadTakesTime(s, a, cap, 0, 0, None);
    ListenEnds(s, a, cap);
  }

  /** What the loop needs of a turn. */
  lemma TurnAllows(s: Setup, a: Attempt, now: int, deadline: int)
    requires now < deadline && a.connectTime >= 1
    ensures var (read, after) := Turn(s, a, now, deadline);
            && now < after <= deadline + a.connectTime + a.closeTime
            && (a.connectRaises || a.closeRaises ==> read.ReadRaised?)
  {
    OverrunsIff(s, a, now, deadline);
    TurnEnds(s, a, now, deadline);
  }

  /** With no more than the attempt timeout left there is no slack: timing out always overruns. */
  lemma LastAttemptOverruns(s: Setup, a: Attempt, now: int, deadline: int)
    requires now < deadline <= now + 120000 && a.connectTime >= 1 && !a.connectRaises
    requires ReadFrom(s, a, Min(deadline - now, ATTEMPT_TIMEOUT), 0, 0, None).0.TimedOut?
    ensures Turn(s, a, now, deadline).1 > deadline
  {
    OverrunsIff(s, a, now, deadline);
  }

  /** Nobody scans: with a second allowed, a connection opened in 40 ms and closed in 2 ends the
      wait 42 ms late. */
  lemma LateExample(s: Setup)
    ensures var env := (k: nat) => Attempt(40, false, [], None, false, 2, false);
            Session(s, env, 0, 0, 1000) == (DeadlinePassed, 1042)
  {
    var env := (k: nat) => Attempt(40, false, [], None, false, 2, false);
    assert ReadFrom(s, env(0), 1000, 0, 0, None) == (TimedOut, 1000);
    assert Turn(s, env(0), 0, 1000) == (TimedOut, 1042);
    assert Session(s, env, 1, 1042, 1000) == (DeadlinePassed, 1042);
  }

  lemma DialLegal(trace: seq<Event>, at: int, deadline: int)
    requires Legal(trace) && OpenAfter(trace).None? && InTime(trace, deadline) && at < deadline
    ensures var d := trace + [Dialed(Dials(trace), at)];
            Legal(d) && OpenAfter(d).None? && InTime(d, deadline) && Dials(d) == Dials(trace) + 1
  {
    var d := trace + [Dialed(Dials(trace), at)];
    assert d[..|trace|] == trace;
  }

  lemma ListenLegal(trace: seq<Event>, k: nat, at: int, deadline: int)
    requires Legal(trace) && InTime(trace, deadline) && trace != [] && trace[|trace| - 1] == Dialed(k, at)
    ensures var l := trace + [Listening(k, Min(deadline - at, ATTEMPT_TIMEOUT))];
            Legal(l) && OpenAfter(l) == Some(k) && InTime(l, deadline) && Dials(l) == Dials(trace)
  {
    var l := trace + [Listening(k, Min(deadline - at, ATTEMPT_TIMEOUT))];
    assert l[..|trace|] == trace;
  }

  lemma CloseLegal(trace: seq<Event>, k: nat, deadline: int)
    requires Legal(trace) && OpenAfter(trace) == Some(k) && InTime(trace, deadline)
    ensures var t := trace + [Closed(k)];
            Legal(t) && OpenAfter(t).None? && InTime(t, deadline) && Dials(t) == Dials(trace)
  {
    assert (trace + [Closed(k)])[..|trace|] == trace;
  }

  ghost predicate NoUrls(trace: seq<Event>) {
    forall i :: 0 <= i < |trace| ==> !trace[i].UrlShown?
  }

  /** A successful attempt ends the trace: its own URL, if wanted, and then its close. */
  ghost predicate EndsLinked(s: Setup, a: Attempt, k: nat, trace: seq<Event>, uuid: seq<byte>, envelope: Envelope) {
    && |a.pushes| >= 2
    && s.parse.address(a.pushes[0].body) == Some(uuid)
    && s.parse.envelope(a.pushes[1].body) == Some(envelope)
    && |trace| >= 2 && trace[|trace| - 1] == Closed(k)
    && (s.hasCallback ==> trace[|trace| - 2] == UrlShown(k, LinkUrl.Build(uuid, s.tempKey)))
  }

  /** Dialing the next attempt. */
  method Dial(at: int, deadline: int, trace: seq<Event>) returns (k: nat, trace': seq<Event>)
    requires Legal(trace) && OpenAfter(trace).None? && InTime(trace, deadline) && at < deadline
    ensures Legal(trace') && OpenAfter(trace').None? && InTime(trace', deadline)
    ensures k == Dials(trace) && Dials(trace') == k + 1
    ensures trace' != [] && trace'[|trace'| - 1] == Dialed(k, at)
    ensures NoUrls(trace) ==> NoUrls(trace')
  {
    DialLegal(trace, at, deadline);
    k := Dials(trace);
    trace' := trace + [Dialed(k, at)];
  }

  /** The try block and its finally: listen on the connection just dialed, then close whatever happened. */
  method ListenAndClose(s: Setup, a: Attempt, k: nat, at: int, deadline: int, trace: seq<Event>)
    returns (read: Read, elapsed: nat, trace': seq<Event>)
    requires at < deadline && Legal(trace) && InTime(trace, deadline) && trace != [] && trace[|trace| - 1] == Dialed(k, at)
    ensures Legal(trace') && OpenAfter(trace').None? && InTime(trace', deadline) && Dials(trace') == Dials(trace)
    ensures !s.hasCallback && NoUrls(trace) ==> NoUrls(trace')
    ensures read.Got? ==> EndsLinked(s, a, k, trace', read.uuid, read.envelope)
    ensures var spec := ReadFrom(s, a, Min(deadline - at, ATTEMPT_TIMEOUT), 0, 0, None);
            elapsed == spec.1 && read == if a.closeRaises then ReadRaised else spec.0
  {
    var urls, cap := [], Min(deadline - at, ATTEMPT_TIMEOUT);
    ListenLegal(trace, k, at, deadline);
    ghost var listening := trace + [Listening(k, cap)];
    read, elapsed, urls := ReadEnvelope(s, a, cap);
    ShownLegal(listening, k, urls, deadline);
    ghost var shown := listening + Shown(k, urls);
    assert urls != [] ==> Shown(k, urls) == [UrlShown(k, urls[0])];
    CloseLegal(shown, k, deadline);
    trace' := trace + [Listening(k, cap)] + Shown(k, urls) + [Closed(k)];
    if a.closeRaises {
      read := ReadRaised;
    }
  }

  /** One turn of the loop, from a positive budget. */
  method TryOnce(s: Setup, a: Attempt, now: int, deadline: int, trace: seq<Event>)
    returns (read: Read, after: int, trace': seq<Event>)
    requires now < deadline && a.connectTime >= 1
    requires Legal(trace) && OpenAfter(trace).None? && InTime(trace, deadline)
    ensures Legal(trace') && OpenAfter(trace').None? && InTime(trace', deadline)
    ensures Dials(trace') == Dials(trace) + 1
    ensures !s.hasCallback && NoUrls(trace) ==> NoUrls(trace')
    ensures read.Got? ==> EndsLinked(s, a, Dials(trace), trace', read.uuid, read.envelope)
    ensures (read, after) == Turn(s, a, now, deadline)
  {
    var k;
    k, trace' := Dial(now, deadline, trace);
    if a.connectRaises {
      return ReadRaised, now + a.connectTime, trace';
    }
    var elapsed;
    read, elapsed, trace' := ListenAndClose(s, a, k, now, deadline, trace');
    after := now + a.connectTime + elapsed + a.closeTime;
  }

  /** The reconnect loop. It ends because every attempt advances the clock; it may end late, but
      only by the last attempt's connecting and closing. */
  method WaitForEnvelope(s: Setup, env: nat -> Attempt, start: int, deadline: int)
    returns (r: Outcome, attempts: nat, ended: int, trace: seq<Event>)
    requires forall k :: env(k).connectTime >= 1
    ensures Legal(trace) && OpenAfter(trace).None? && InTime(trace, deadline)
    ensures attempts == Dials(trace) && (r.DeadlinePassed? || attempts >= 1)
    ensures r.Linked? ==> EndsLinked(s, env(attempts - 1), attempts - 1, trace, r.uuid, r.envelope)
    ensures !s.hasCallback ==> NoUrls(trace)
    ensures (r, ended) == Session(s, env, 0, start, deadline)
    ensures attempts == 0 ==> ended == start
    ensures attempts > 0 ==> start < ended <= deadline + env(attempts - 1).connectTime + env(attempts - 1).closeTime
    ensures r.DeadlinePassed? ==> ended >= deadline
    ensures attempts > 0 && (env(attempts - 1).connectRaises || env(attempts - 1).closeRaises) ==> r.Raised?
  {
    attempts, trace := 0, [];
    var now := start;
    while true
      invariant Legal(trace) && OpenAfter(trace).None? && InTime(trace, deadline) && attempts == Dials(trace)
      invariant !s.hasCallback ==> NoUrls(trace)
      invariant Session(s, env, attempts, now, deadline) == Session(s, env, 0, start, deadline)
      invariant attempts == 0 ==> now == start
      invariant attempts > 0 ==> !env(attempts - 1).connectRaises && !env(attempts - 1).closeRaises
      invariant attempts > 0 ==> start < now <= deadline + env(attempts - 1).connectTime + env(attempts - 1).closeTime
      decreases deadline - now
    {
      if deadline - now <= 0 {
        return DeadlinePassed, attempts, now, trace;
      }
      TurnAllows(s, env(attempts), now, deadline);
      var read;
      read, now, trace := TryOnce(s, env(attempts), now, deadline, trace);
      attempts := attempts + 1;
      match read
      case Got(uuid, envelope) => return Linked(uuid, envelope), attempts, now, trace;
      case ReadRaised => return Raised, attempts, now, trace;
      case _ =>
    }
  }
}
