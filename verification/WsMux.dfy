/** The shared state of one WebSocket: the table of awaited responses, the queue of pushes
    and the closed flag, as a value with one function per atomic update, and as the class
    whose methods perform those updates in place. */
module WsMux {
  import opened Bytes

  datatype WsRequest = WsRequest(verb: string, path: string, headers: seq<string>, body: seq<byte>, id: nat)

  datatype WsResponse = WsResponse(id: nat, status: int, message: string, headers: seq<string>, body: seq<byte>)

  /** One item read from the socket. Text frames and messages of neither type are ignored;
      Malformed stands for binary data the protobuf parser rejects. */
  datatype Frame = Text | Unknown | Malformed | Request(req: WsRequest) | Response(resp: WsResponse)

  datatype FutureState = Pending | Done(resp: WsResponse) | Failed | Cancelled

  datatype Item = Push(req: WsRequest) | Sentinel

  /** futures: every future ever created, by request id. pending: the ids in the response table. */
  datatype Mux = Mux(nextId: nat, futures: map<nat, FutureState>, pending: set<nat>,
                     queue: seq<Item>, closed: bool)

  const FRESH := Mux(1, map[], {}, [], false)

  function Register(m: Mux): Mux {
    m.(nextId := m.nextId + 1, futures := m.futures[m.nextId := Pending], pending := m.pending + {m.nextId})
  }

  function Forget(m: Mux, rid: nat): Mux {
    m.(pending := m.pending - {rid})
  }

  function Deliver(m: Mux, resp: WsResponse): Mux {
    if resp.id in m.pending && resp.id in m.futures && m.futures[resp.id].Pending?
    then m.(futures := m.futures[resp.id := Done(resp)]) else m
  }

  function CancelFuture(m: Mux, rid: nat): Mux {
    if rid in m.futures && m.futures[rid].Pending?
    then m.(futures := m.futures[rid := Cancelled]) else m
  }

  function Enqueue(m: Mux, req: WsRequest): Mux {
    m.(queue := m.queue + [Push(req)])
  }

  function FailAll(futures: map<nat, FutureState>, ids: set<nat>): (r: map<nat, FutureState>)
    ensures r.Keys == futures.Keys
  {
    map k | k in futures :: if k in ids && futures[k].Pending? then Failed else futures[k]
  }

  /** The reader's final block. */
  function Shutdown(m: Mux): Mux {
    m.(futures := FailAll(m.futures, m.pending), pending := {}, closed := true, queue := m.queue + [Sentinel])
  }

  function FeedOne(m: Mux, frame: Frame): Mux {
    match frame
    case Request(req) => Enqueue(m, req)
    case Response(resp) => Deliver(m, resp)
    case _ => m
  }

  /** The effect of handling frames in order. */
  function Feed(m: Mux, frames: seq<Frame>): Mux {
    if frames == [] then m else FeedOne(Feed(m, frames[..|frames| - 1]), frames[|frames| - 1])
  }

  /** A future holds its state until it is completed, and then keeps it. */
  class Future {
    var state: FutureState

    constructor ()
      ensures state == Pending
    {
      state := Pending;
    }
  }

  class BaseWs {
    var nextId: nat
    var pending: map<nat, Future>
    var queue: seq<Item>
    var closed: bool
    ghost var made: map<nat, Future>  // every future ever created, by request id

    ghost predicate Valid()
      reads this
    {
      && (forall r :: r in made ==> 1 <= r < nextId)
      && (forall r :: r in pending ==> r in made && made[r] == pending[r])
      && (forall r, q :: r in made && q in made && r != q ==> made[r] != made[q])
      && 1 <= nextId
    }

    ghost function Abs(): Mux
      reads this, made.Values
    {
      Mux(nextId, map r | r in made :: made[r].state, pending.Keys, queue, closed)
    }

    constructor ()
      ensures Valid() && Abs() == FRESH && made == map[]
    {
      nextId, pending, queue, closed, made := 1, map[], [], false, map[];
    }

    /** The stretch of _send_request before its first await. */
    method BeginRequest() returns (rid: nat, fut: Future)
      requires Valid()
      modifies this
      ensures Valid() && fresh(fut) && made == old(made)[rid := fut]
      ensures rid == old(nextId) && Abs() == Register(old(Abs()))
    {
      rid := nextId;
      nextId := nextId + 1;
      fut := new Future();
      assert forall r :: r in made ==> made[r] != fut && made[r].state == old(made[r].state);
      pending := pending[rid := fut];
      made := made[rid := fut];
      assert Abs().futures == old(Abs()).futures[rid := Pending];
    }

    /** The finally block of _send_request. */
    method EndRequest(rid: nat)
      requires Valid()
      modifies this
      ensures Valid() && made == old(made)
      ensures Abs() == Forget(old(Abs()), rid)
    {
      pending := pending - {rid};
    }

    /** One turn of the reader's loop on a RESPONSE frame. */
    method OnResponse(resp: WsResponse)
      requires Valid()
      modifies this, made.Values
      ensures Valid() && made == old(made)
      ensures Abs() == Deliver(old(Abs()), resp)
    {
      if resp.id in pending {
        var fut := pending[resp.id];
        if fut.state == Pending {
          fut.state := Done(resp);
        }
      }
    }

    /** One turn of the reader's loop on a REQUEST frame; the queue is unbounded, so put never waits. */
    method OnRequest(req: WsRequest)
      requires Valid()
      modifies this
      ensures Valid() && made == old(made)
      ensures Abs() == Enqueue(old(Abs()), req)
    {
      queue := queue + [Push(req)];
    }

    /** Cancelling a task that waits on a future cancels the future unless it is already done. */
    method CancelWaiter(ghost rid: nat, fut: Future)
      requires Valid() && rid in made && made[rid] == fut
      modifies fut
      ensures Valid() && made == old(made)
      ensures Abs() == CancelFuture(old(Abs()), rid)
    {
      if fut.state == Pending {
        fut.state := Cancelled;
      }
    }

    /** The loop of the reader's finally block over the waiting futures. */
    static method FailWaiters(waiting: set<Future>)
      modifies waiting
      ensures forall f :: f in waiting ==> f.state == if old(f.state).Pending? then Failed else old(f.state)
    {
      var todo := waiting;
      while todo != {}
        invariant todo <= waiting
        invariant forall f :: f in todo ==> f.state == old(f.state)
        invariant forall f :: f in waiting && f !in todo ==>
                    f.state == if old(f.state).Pending? then Failed else old(f.state)
        decreases todo
      {
        var fut :| fut in todo;
        if fut.state == Pending {
          fut.state := Failed;
        }
        todo := todo - {fut};
      }
    }

    method FailPending()
      requires Valid()
      modifies pending.Values
      ensures Valid() && Abs() == old(Abs()).(futures := FailAll(old(Abs()).futures, pending.Keys))
    {
      FailWaiters(pending.Values);
      assert forall r :: r in made && r !in pending ==> made[r] !in pending.Values;
    }

    /** The reader's finally block: fail every waiter, empty the table, set closed, queue the sentinel. */
    method FinishReader()
      requires Valid()
      modifies this, pending.Values
      ensures Valid() && made == old(made)
      ensures Abs() == Shutdown(old(Abs()))
    {
      FailPending();
      pending := map[];
      closed := true;
      queue := queue + [Sentinel];
    }

    /** One turn of the reader's loop. */
    method OnFrame(frame: Frame)
      requires Valid()
      modifies this, made.Values
      ensures Valid() && made == old(made)
      ensures Abs() == FeedOne(old(Abs()), frame)
    {
      match frame
      case Request(req) => OnRequest(req);
      case Response(resp) => OnResponse(resp);
      case _ =>
    }

    /** The reader with nothing interleaved: it handles frames up to the end of the socket or
        the first malformed frame, and always runs its finally block. */
    method ReadLoop(frames: seq<Frame>) returns (handled: nat)
      requires Valid()
      modifies this, made.Values
      ensures Valid() && made == old(made) && handled <= |frames|
      ensures forall i :: 0 <= i < handled ==> !frames[i].Malformed?
      ensures handled < |frames| ==> frames[handled].Malformed?
      ensures Abs() == Shutdown(Feed(old(Abs()), frames[..handled]))
    {
      handled := 0;
      while handled < |frames| && !frames[handled].Malformed?
        invariant handled <= |frames| && Valid() && made == old(made)
        invariant forall i :: 0 <= i < handled ==> !frames[i].Malformed?
        invariant Abs() == Feed(old(Abs()), frames[..handled])
      {
        OnFrame(frames[handled]);
        assert frames[..handled + 1][..handled] == frames[..handled];
        handled := handled + 1;
      }
      FinishReader();
    }

    /** close() sets the closed flag before it touches any task. */
    method BeginClose()
      requires Valid()
      modifies this
      ensures Valid() && made == old(made)
      ensures Abs() == old(Abs()).(closed := true)
    {
      closed := true;
    }

    /** The queue side of requests(): take the head. */
    method Next() returns (item: Item)
      requires Valid() && queue != []
      modifies this
      ensures Valid() && made == old(made) && item == old(queue)[0]
      ensures Abs() == old(Abs()).(queue := old(queue)[1..])
    {
      item := queue[0];
      queue := queue[1..];
    }
  }
}
