// POST /orders/<so>/ship and /void-ship of api/routes/dockd.py: the two handlers
// as one committed transaction each, on a sentinel table and the orders.

module Dockd {
  import opened Wrappers

  datatype Status = Open | Picked | Packed | Shipped | Other

  /** One item_fulfillments row: SHIPPED while live, VOIDED otherwise. */
  datatype Fulfillment = Fulfillment(live: bool, preShip: Status)
  datatype Order = Order(warehouse: nat, status: Status, fulfillments: seq<Fulfillment>)

  datatype Endpoint = Ship | Void

  /** The body without its key; it stands for its own SHA-256. */
  datatype Request = Request(
    token: nat, key: string, endpoint: Endpoint, so: string, body: string,
    scope: set<nat>, operatorKnown: bool)

  datatype Error =
    | KeyReused | UnknownOperator | NotFound | AlreadyShipped | NotShippable | LineUnderPicked
    | NotShipped | LockTimeout

  datatype Response = Response(status: Status)
  datatype Reply = Fresh(r: Response) | Replay(r: Response) | Failed(error: Error)

  /** A dockd_idempotency row; `created` is its transaction's start time. */
  datatype Sentinel = Sentinel(endpoint: Endpoint, so: string, body: string, response: Option<Response>, created: int)

  type SentinelKey = (nat, string)

  function KeyOf(r: Request): SentinelKey {
    (r.token, r.key)
  }

  /** What a committed sentinel answers: endpoint and body decide, the order number does not. */
  function ReplayOf(row: Sentinel, r: Request): Reply
    requires row.response.Some?
  {
    if row.endpoint != r.endpoint || row.body != r.body then Failed(KeyReused) else Replay(row.response.value)
  }

  // ---------- The order's state machine ----------

  function Live(fs: seq<Fulfillment>): nat {
    if fs == [] then 0 else Live(fs[..|fs| - 1]) + (if fs[|fs| - 1].live then 1 else 0)
  }

  /** The latest SHIPPED fulfillment. */
  function LastLive(fs: seq<Fulfillment>): (i: Option<nat>)
    ensures i.Some? ==> i.value < |fs| && fs[i.value].live
    ensures i.None? <==> Live(fs) == 0
  {
    if fs == [] then None
    else if fs[|fs| - 1].live then Some(|fs| - 1)
    else LastLive(fs[..|fs| - 1])
  }

  /** Status gate and write of one endpoint on a locked order; `packing` is the packing-required setting. */
  function Act(o: Order, e: Endpoint, packing: bool, underPicked: bool): (Option<Order>, Error) {
    match e
    case Ship =>
      if o.status == Shipped then (None, AlreadyShipped)
      else if !(o.status == Packed || (o.status == Picked && !packing)) then (None, NotShippable)
      else if underPicked then (None, LineUnderPicked)
      else (Some(o.(status := Shipped, fulfillments := o.fulfillments + [Fulfillment(true, o.status)])), LineUnderPicked)
    case Void =>
      if o.status != Shipped then (None, NotShipped)
      else
        var i := LastLive(o.fulfillments);
        if i.None? then (None, NotShipped)
        else
          var f := o.fulfillments[i.value];
          (Some(o.(status := f.preShip, fulfillments := o.fulfillments[i.value := f.(live := false)])), NotShipped)
  }

  datatype Db = Db(sentinels: map<SentinelKey, Sentinel>, orders: map<string, Order>)

  predicate Reachable(orders: map<string, Order>, r: Request) {
    r.so in orders && orders[r.so].warehouse in r.scope
  }

  predicate Answered(db: Db) {
    forall k :: k in db.sentinels ==> db.sentinels[k].response.Some?
  }

  /** The answers given before the order is looked at: replay, unknown operator, not found. */
  function Opening(db: Db, r: Request): Option<Reply>
    requires Answered(db)
  {
    if KeyOf(r) in db.sentinels then Some(ReplayOf(db.sentinels[KeyOf(r)], r))
    else if !r.operatorKnown then Some(Failed(UnknownOperator))
    else if !Reachable(db.orders, r) then Some(Failed(NotFound))
    else None
  }

  /** The whole handler with nothing else running. */
  function Handle(db: Db, r: Request, packing: bool, underPicked: bool, now: int): (Db, Reply)
    requires Answered(db)
  {
    if Opening(db, r).Some? then (db, Opening(db, r).value)
    else
      match Act(db.orders[r.so], r.endpoint, packing, underPicked)
      case (None, error) => (db, Failed(error))
      case (Some(o), _) =>
        var response := Response(o.status);
        (Db(db.sentinels[KeyOf(r) := Sentinel(r.endpoint, r.so, r.body, Some(response), now)],
            db.orders[r.so := o]),
         Fresh(response))
  }

  // ---------- The handlers as the source writes them ----------

  class Server {
    var sentinels: map<SentinelKey, Sentinel>
    var orders: map<string, Order>

    function State(): Db
      reads this
    {
      Db(sentinels, orders)
    }

    /** No committed sentinel lacks its response. */
    predicate Valid()
      reads this
    {
      Answered(State())
    }

    method Rollback(saved: Db)
      modifies this
      ensures State() == saved
    {
      sentinels, orders := saved.sentinels, saved.orders;
    }

    /** The shared opening: warm replay, operator, sentinel insert, order lock. */
    method Claim(r: Request, now: int) returns (early: Option<Reply>)
      requires Valid()
      modifies this
      ensures early == Opening(old(State()), r)
      ensures early.Some? ==> State() == old(State())
      ensures early.None? ==>
        && KeyOf(r) !in old(sentinels) && r.operatorKnown && Reachable(old(orders), r)
        && orders == old(orders) && sentinels == old(sentinels)[KeyOf(r) := Sentinel(r.endpoint, r.so, r.body, None, now)]
    {
      if KeyOf(r) in sentinels {
        return Some(ReplayOf(sentinels[KeyOf(r)], r));
      }
      if !r.operatorKnown {
        return Some(Failed(UnknownOperator));
      }
      var saved := State();
      sentinels := sentinels[KeyOf(r) := Sentinel(r.endpoint, r.so, r.body, None, now)];
      if !Reachable(orders, r) {
        Rollback(saved);
        return Some(Failed(NotFound));
      }
      return None;
    }

    method ShipOrder(r: Request, packing: bool, underPicked: bool, now: int) returns (reply: Reply)
      requires Valid() && r.endpoint == Ship
      modifies this
      ensures Valid() && (State(), reply) == Handle(old(State()), r, packing, underPicked, now)
    {
      var saved := State();
      var early := Claim(r, now);
      if early.Some? { return early.value; }
      var o := orders[r.so];
      if o.status == Shipped {
        Rollback(saved);
        return Failed(AlreadyShipped);
      }
      var allowed := if packing then {Packed} else {Picked, Packed};
      if o.status !in allowed {
        Rollback(saved);
        return Failed(NotShippable);
      }
      if underPicked {
        Rollback(saved);
        return Failed(LineUnderPicked);
      }
      orders := orders[r.so := o.(fulfillments := o.fulfillments + [Fulfillment(true, o.status)])];
      orders := orders[r.so := orders[r.so].(status := Shipped)];
      assert orders == saved.orders[r.so := orders[r.so]];
      reply := CacheResponse(r, Response(Shipped));
      assert sentinels == saved.sentinels[KeyOf(r) := sentinels[KeyOf(r)]];
    }

    method VoidShip(r: Request, now: int) returns (reply: Reply)
      requires Valid() && r.endpoint == Void
      modifies this
      ensures Valid() && (State(), reply) == Handle(old(State()), r, false, false, now)
    {
      var saved := State();
      var early := Claim(r, now);
      if early.Some? { return early.value; }
      var o := orders[r.so];
      if o.status != Shipped {
        Rollback(saved);
        return Failed(NotShipped);
      }
      var i := LastLive(o.fulfillments);
      if i.None? {
        Rollback(saved);
        return Failed(NotShipped);
      }
      var f := o.fulfillments[i.value];
      orders := orders[r.so := o.(status := f.preShip)];
      orders := orders[r.so := orders[r.so].(fulfillments := o.fulfillments[i.value := f.(live := false)])];
      assert orders == saved.orders[r.so := orders[r.so]];
      reply := CacheResponse(r, Response(f.preShip));
      assert sentinels == saved.sentinels[KeyOf(r) := sentinels[KeyOf(r)]];
    }

    /** Step 5 and the commit. */
    method CacheResponse(r: Request, response: Response) returns (reply: Reply)
      requires KeyOf(r) in sentinels
      modifies this`sentinels
      ensures reply == Fresh(response)
      ensures sentinels == old(sentinels)[KeyOf(r) := old(sentinels)[KeyOf(r)].(response := Some(response))]
    {
      sentinels := sentinels[KeyOf(r) := sentinels[KeyOf(r)].(response := Some(response))];
      return Fresh(response);
    }
  }

  /** The guarantee is per (token, key): the same key and body on another order replays the first order's answer. */
  lemma ReplayIgnoresTheOrder(db: Db, r: Request, packing: bool, underPicked: bool, now: int, other: string, later: int)
    requires Answered(db)
    requires Handle(db, r, packing, underPicked, now).1.Fresh?
    ensures var (db', reply) := Handle(db, r, packing, underPicked, now);
      && Answered(db')
      && Handle(db', r.(so := other), packing, underPicked, later) == (db', Replay(reply.r))
  {
  }
}
