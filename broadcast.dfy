/**
 * The server-sent-events hub: the registry of connected subscribers, their
 * heartbeat timers, fan-out of ingested payloads, and the health count.
 * Node runs one handler at a time, so each handler and each timer tick is
 * one atomic operation on the hub's state.
 */
module Broadcast {
  import opened JsValue
  import IngestBody

  /** Heartbeat period in milliseconds. */
  const HEARTBEAT_MS: nat := 15000

  /**
   * One unit written to a subscriber stream: a heartbeat `event:ping` with
   * `data:<timestamp>`, or a default message with `data: <JSON of payload>`,
   * each closed by a blank line.
   */
  datatype Frame = Ping(timestamp: int) | Message(payload: JsVal)

  /**
   * The `hb` slot of a client: null before `setInterval` is assigned,
   * a live interval, or an interval passed to `clearInterval`.
   */
  datatype TimerSlot = Unset | Running | Cleared

  /** A subscriber, `{res, hb}`: its response stream and its heartbeat slot. */
  class Client {
    /** Everything `res.write` has put on this subscriber's stream, in order. */
    var sink: seq<Frame>
    var hb: TimerSlot

    constructor ()
      ensures sink == [] && hb == Unset
    {
      sink := [];
      hb := Unset;
    }
  }

  /** The module-level `clients` set and the handlers that use it. */
  class Hub {
    var clients: set<Client>
    /** Every client ever subscribed, connected or not. */
    ghost var known: set<Client>
    /** Number of `/events` requests handled. */
    ghost var subscribes: nat
    /** Number of close events that removed a registered client. */
    ghost var closes: nat

    /**
     * A client is registered exactly when its heartbeat runs; a client
     * that has left has its interval cleared; the count of registered
     * clients is subscribes minus effective closes.
     */
    ghost predicate Valid()
      reads this, known
    {
      && clients <= known
      && (forall c :: c in known ==> c.hb == if c in clients then Running else Cleared)
      && |clients| + closes == subscribes
    }

    constructor ()
      ensures Valid()
      ensures clients == {} && known == {} && subscribes == 0 && closes == 0
    {
      clients := {};
      known := {};
      subscribes := 0;
      closes := 0;
    }

    /**
     * `GET /events`: a fresh client is registered and its heartbeat started.
     * Only the hub and the new client are written, so no existing client's
     * stream or timer changes.
     */
    method Subscribe() returns (c: Client)
      requires Valid()
      modifies this
      ensures Valid()
      ensures fresh(c)
      ensures clients == old(clients) + {c} && known == old(known) + {c}
      ensures |clients| == |old(clients)| + 1
      ensures c.sink == [] && c.hb == Running
      ensures subscribes == old(subscribes) + 1 && closes == old(closes)
    {
      c := new Client();
      clients, known, subscribes := clients + {c}, known + {c}, subscribes + 1;
      c.hb := Running;
      forall d | d in known
        ensures d.hb == if d in clients then Running else Cleared
      {
        if d != c {
          assert d in old(known);
        }
      }
    }

    /**
     * The request's `close` event: the interval is cleared and the client
     * deleted. A second close of the same client changes nothing further.
     */
    method Close(c: Client)
      requires Valid() && c in known
      modifies this, c
      ensures Valid()
      ensures clients == old(clients) - {c} && known == old(known)
      ensures c.hb == Cleared && c.sink == old(c.sink)
      ensures |clients| == |old(clients)| - (if c in old(clients) then 1 else 0)
      ensures closes == old(closes) + (if c in old(clients) then 1 else 0)
      ensures subscribes == old(subscribes)
      ensures c !in old(clients) ==> clients == old(clients) && c.hb == old(c.hb)
    {
      c.hb := Cleared;
      if c in clients {
        closes := closes + 1;
      }
      clients := clients - {c};
    }

    /**
     * One firing of a client's heartbeat interval at time `now`: a ping is
     * appended to that client's stream only. A cleared interval never fires,
     * so a tick after close writes nothing.
     */
    method Heartbeat(c: Client, now: int)
      requires Valid() && c in known
      modifies c
      ensures Valid()
      ensures c.hb == old(c.hb)
      ensures c.sink == if old(c.hb) == Running then old(c.sink) + [Ping(now)] else old(c.sink)
    {
      if c.hb == Running {
        c.sink := c.sink + [Ping(now)];
      }
    }

    /**
     * `POST /ingest`: the normalized body is written as one message to every
     * registered client's stream, and the count of those clients returned.
     * Membership, timers and the streams of departed clients do not change.
     */
    method Ingest(body: JsVal) returns (deliveredTo: nat)
      requires Valid()
      modifies clients
      ensures Valid()
      ensures deliveredTo == |clients|
      ensures forall c :: c in clients ==>
        c.sink == old(c.sink) + [Message(IngestBody.Normalize(body))] && c.hb == old(c.hb)
      ensures forall c :: c in known && c !in clients ==> c.sink == old(c.sink)
    {
      var payload := IngestBody.Normalize(body);
      var pending := clients;
      while pending != {}
        invariant pending <= clients
        invariant forall c :: c in clients ==> c.hb == old(c.hb)
        invariant forall c :: c in clients && c !in pending ==> c.sink == old(c.sink) + [Message(payload)]
        invariant forall c :: c in pending ==> c.sink == old(c.sink)
        decreases pending
      {
        var c :| c in pending;
        c.sink := c.sink + [Message(payload)];
        pending := pending - {c};
      }
      deliveredTo := |clients|;
    }

    /**
     * `GET /health`: the number of registered clients, which is the number
     * of subscribes less the number of effective closes.
     */
    method Health() returns (count: nat)
      requires Valid()
      ensures count == |clients|
      ensures count == subscribes - closes
    {
      count := |clients|;
    }
  }

  /**
   * The end-to-end example of the hub: a subscriber receives one message,
   * the health count is 1 while it is connected and 0 after it leaves.
   */
  method HelloExample() {
    var hub := new Hub();
    var c1 := hub.Subscribe();
    var hello := Obj(map["text" := Str("hello")]);
    IngestBody.TextObjectPassesThrough("hello");
    var n := hub.Ingest(hello);
    assert n == 1 && c1.sink == [Message(hello)];
    var up := hub.Health();
    assert up == 1;
    hub.Close(c1);
    var down := hub.Health();
    assert down == 0;
  }

  /**
   * Two subscribers: a heartbeat reaches only its own client; after the
   * first has closed (twice), a message reaches only the second, and the
   * first's interval no longer writes.
   */
  method TwoSubscribersExample(now: int) {
    var hub := new Hub();
    var c1 := hub.Subscribe();
    var c2 := hub.Subscribe();
    hub.Heartbeat(c1, now);
    assert c1.sink == [Ping(now)] && c2.sink == [];
    hub.Close(c1);
    hub.Close(c1);
    IngestBody.FalsyBodyGivesEmptyText(Undefined);
    var n := hub.Ingest(Undefined);
    assert n == 1 && c2.sink == [Message(IngestBody.TextPayload(""))];
    hub.Heartbeat(c1, now + HEARTBEAT_MS);
    assert c1.sink == [Ping(now)];
  }
}
