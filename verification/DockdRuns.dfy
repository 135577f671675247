// Ships, voids, retries and aborts interleaved statement by statement, with other
// handlers moving unshipped orders along and the 72-hour sentinel cleanup running.

module DockdRuns {
  import opened Wrappers
  import opened Dockd

  const RETENTION: int := 72 * 3600

  datatype Pc =
    | Start
    | Cleared
    | Claimed
    | Locked
    | Acted(o: Order, packing: bool)
    | Cached(o: Order, packing: bool)
    | Lost
    | Done(reply: Reply)

  /** `began` is the transaction's start, `claimed` the time its sentinel insert went through. */
  datatype Txn = Txn(req: Request, pc: Pc, began: int, claimed: int)

  /** A committed ship or void. */
  datatype Effect = Effect(key: SentinelKey, endpoint: Endpoint, so: string, body: string, before: Status, after: Status, began: int, claimed: int)

  datatype World = World(db: Db, txns: map<nat, Txn>, log: seq<Effect>, now: int)

  datatype Action =
    | Arrive(t: nat, req: Request)
    | WarmRead(t: nat)
    | Claim(t: nat)
    | Reread(t: nat)
    | Lock(t: nat)
    | ActOn(t: nat, packing: bool, underPicked: bool)
    | Cache(t: nat)
    | Commit(t: nat)
    | Abort(t: nat)
    | Progress(so: string, status: Status)
    | Prune(k: SentinelKey)
    | Tick(d: nat)

  predicate HoldsKey(x: Txn, k: SentinelKey) {
    KeyOf(x.req) == k && (x.pc.Claimed? || x.pc.Locked? || x.pc.Acted? || x.pc.Cached?)
  }

  predicate HoldsOrder(x: Txn, so: string) {
    x.req.so == so && (x.pc.Locked? || x.pc.Acted? || x.pc.Cached?)
  }

  ghost predicate KeyFree(w: World, t: nat, k: SentinelKey) {
    forall u :: u in w.txns && u != t ==> !HoldsKey(w.txns[u], k)
  }

  ghost predicate OrderFree(w: World, t: nat, so: string) {
    forall u :: u in w.txns && u != t ==> !HoldsOrder(w.txns[u], so)
  }

  function At(w: World, t: nat, pc: Pc): World
    requires t in w.txns
  {
    w.(txns := w.txns[t := w.txns[t].(pc := pc)])
  }

  /** The answer of a committed row; None lets the handler go on. */
  function RowAnswer(row: Sentinel, r: Request): Option<Reply> {
    if row.endpoint != r.endpoint || row.body != r.body then Some(Failed(KeyReused))
    else if row.response.None? then None
    else Some(Replay(row.response.value))
  }

  function WarmPc(db: Db, r: Request): Pc {
    var hit := if KeyOf(r) in db.sentinels then RowAnswer(db.sentinels[KeyOf(r)], r) else None;
    if hit.Some? then Done(hit.value) else if !r.operatorKnown then Done(Failed(UnknownOperator)) else Cleared
  }

  function RereadPc(db: Db, r: Request): Pc {
    var hit := if KeyOf(r) in db.sentinels then RowAnswer(db.sentinels[KeyOf(r)], r) else None;
    Done(if hit.Some? then hit.value else Failed(LockTimeout))
  }

  ghost predicate Next(w: World, a: Action, w': World) {
    match a
    case Arrive(t, req) => t !in w.txns && w' == w.(txns := w.txns[t := Txn(req, Start, w.now, w.now)])
    case WarmRead(t) => t in w.txns && w.txns[t].pc == Start && w' == At(w, t, WarmPc(w.db, w.txns[t].req))
    case Claim(t) =>
      && t in w.txns && w.txns[t].pc == Cleared && KeyFree(w, t, KeyOf(w.txns[t].req))
      && w' == if KeyOf(w.txns[t].req) in w.db.sentinels then At(w, t, Lost)
               else w.(txns := w.txns[t := w.txns[t].(pc := Claimed, claimed := w.now)])
    case Reread(t) => t in w.txns && w.txns[t].pc == Lost && w' == At(w, t, RereadPc(w.db, w.txns[t].req))
    case Lock(t) =>
      && t in w.txns && w.txns[t].pc == Claimed
      && (var r := w.txns[t].req;
          if !Dockd.Reachable(w.db.orders, r) then w' == At(w, t, Done(Failed(NotFound)))
          else OrderFree(w, t, r.so) && w' == At(w, t, Locked))
    case ActOn(t, packing, underPicked) =>
      && t in w.txns && w.txns[t].pc == Locked && w.txns[t].req.so in w.db.orders
      && (var r := w.txns[t].req;
          var (o, error) := Act(w.db.orders[r.so], r.endpoint, packing, underPicked);
          w' == At(w, t, if o.Some? then Acted(o.value, packing) else Done(Failed(error))))
    case Cache(t) => t in w.txns && w.txns[t].pc.Acted? && w' == At(w, t, Cached(w.txns[t].pc.o, w.txns[t].pc.packing))
    case Commit(t) =>
      && t in w.txns && w.txns[t].pc.Cached? && w.txns[t].req.so in w.db.orders
      && w' == Committed(w, t)
    case Abort(t) => t in w.txns && !w.txns[t].pc.Done? && w' == At(w, t, Done(Failed(LockTimeout)))
    case Progress(so, status) =>
      && so in w.db.orders && w.db.orders[so].status != Shipped && status != Shipped
      && (forall u :: u in w.txns ==> !HoldsOrder(w.txns[u], so))
      && w' == w.(db := w.db.(orders := w.db.orders[so := w.db.orders[so].(status := status)]))
    case Prune(k) =>
      && k in w.db.sentinels && w.db.sentinels[k].created < w.now - RETENTION
      && w' == w.(db := w.db.(sentinels := w.db.sentinels - {k}))
    case Tick(d) => w' == w.(now := w.now + d)
  }

  function Committed(w: World, t: nat): World
    requires t in w.txns && w.txns[t].pc.Cached? && w.txns[t].req.so in w.db.orders
  {
    var x := w.txns[t];
    var r := x.req;
    var response := Response(x.pc.o.status);
    At(w, t, Done(Fresh(response))).(
      db := Db(w.db.sentinels[KeyOf(r) := Sentinel(r.endpoint, r.so, r.body, Some(response), x.began)],
               w.db.orders[r.so := x.pc.o]),
      log := w.log + [Effect(KeyOf(r), r.endpoint, r.so, r.body, w.db.orders[r.so].status, x.pc.o.status, x.began, x.claimed)])
  }

  // ---------- Invariant: locks and transactions ----------

  /** Two transactions hold one sentinel key or one order row. */
  predicate Clash(x: Txn, y: Txn) {
    || (HoldsKey(x, KeyOf(y.req)) && HoldsKey(y, KeyOf(x.req)))
    || (HoldsOrder(x, y.req.so) && HoldsOrder(y, x.req.so))
  }

  ghost predicate LocksExclusive(w: World) {
    forall t, u :: t in w.txns && u in w.txns && t != u ==> !Clash(w.txns[t], w.txns[u])
  }

  predicate Succeeded(x: Txn) {
    x.pc.Done? && (x.pc.reply.Fresh? || x.pc.reply.Replay?)
  }

  /** `response` reports a committed effect of the request's own key and endpoint. */
  ghost predicate HasEffect(log: seq<Effect>, r: Request, response: Response) {
    exists e :: e in log && e.key == KeyOf(r) && e.endpoint == r.endpoint && response == Response(e.after)
  }

  ghost predicate TxnOk(w: World, x: Txn) {
    && x.began <= x.claimed <= w.now
    && (x.pc.Cleared? ==> x.req.operatorKnown)
    && (HoldsKey(x, KeyOf(x.req)) ==>
          && KeyOf(x.req) !in w.db.sentinels && x.req.operatorKnown
          && forall i :: 0 <= i < |w.log| && w.log[i].key == KeyOf(x.req) ==> w.log[i].began + RETENTION < x.claimed)
    && (HoldsOrder(x, x.req.so) ==> Dockd.Reachable(w.db.orders, x.req))
    && (x.pc.Acted? || x.pc.Cached? ==> Act(w.db.orders[x.req.so], x.req.endpoint, x.pc.packing, false).0 == Some(x.pc.o))
    && (Succeeded(x) ==> HasEffect(w.log, x.req, x.pc.reply.r))
  }

  ghost predicate AllOk(w: World) {
    forall t :: t in w.txns ==> TxnOk(w, w.txns[t])
  }

  // ---------- Invariant: sentinels ----------

  /** Entry `i` is the latest effect of its key. */
  ghost predicate LatestOfKey(log: seq<Effect>, i: nat) {
    i < |log| && forall j :: i < j < |log| ==> log[j].key != log[i].key
  }

  predicate Records(row: Sentinel, k: SentinelKey, e: Effect) {
    e.key == k && row == Sentinel(e.endpoint, e.so, e.body, Some(Response(e.after)), e.began)
  }

  /** A committed sentinel holds the response of its key's latest effect. */
  ghost predicate SentinelOk(log: seq<Effect>, k: SentinelKey, row: Sentinel) {
    exists i: nat :: LatestOfKey(log, i) && Records(row, k, log[i])
  }

  /** The key of a past effect still has its row, or 72 hours have gone by. */
  ghost predicate KeysGuarded(w: World) {
    forall i :: 0 <= i < |w.log| ==> w.log[i].key in w.db.sentinels || w.log[i].began + RETENTION < w.now
  }

  /** Two effects of one key are more than 72 hours apart. */
  ghost predicate KeysSpaced(log: seq<Effect>) {
    forall i, j :: 0 <= i < j < |log| && log[i].key == log[j].key ==> log[i].began + RETENTION < log[j].claimed
  }

  // ---------- Invariant: orders ----------

  function Last(log: seq<Effect>, so: string): Option<Effect> {
    if log == [] then None
    else if log[|log| - 1].so == so then Some(log[|log| - 1])
    else Last(log[..|log| - 1], so)
  }

  /** How an effect continues its order's history: alternately, and a void restores what the ship found. */
  predicate Follows(last: Option<Effect>, e: Effect) {
    match e.endpoint
    case Ship => (last.None? || last.value.endpoint == Void) && e.before != Shipped && e.after == Shipped
    case Void => last.Some? && last.value.endpoint == Ship && e.before == Shipped && e.after == last.value.before
  }

  predicate Alternates(log: seq<Effect>) {
    log == [] || (var n := |log| - 1; Alternates(log[..n]) && Follows(Last(log[..n], log[n].so), log[n]))
  }

  /** Exactly one SHIPPED fulfillment, remembering the status it replaced. */
  predicate OneLive(fs: seq<Fulfillment>, before: Status) {
    Live(fs) == 1 && LastLive(fs).Some? && fs[LastLive(fs).value].preShip == before
  }

  predicate OrderOk(o: Order, last: Option<Effect>, born: bool) {
    match last
    case None => Live(o.fulfillments) == 0 && (o.status == Shipped ==> born)
    case Some(e) =>
      if e.endpoint == Void then o.status != Shipped && Live(o.fulfillments) == 0
      else o.status == Shipped && e.before != Shipped && OneLive(o.fulfillments, e.before)
  }

  /** `born` are the orders that were SHIPPED at the start, without a fulfillment (counter sales). */
  ghost predicate Inv(born: set<string>, w: World) {
    && LocksExclusive(w) && AllOk(w)
    && (forall k :: k in w.db.sentinels ==> SentinelOk(w.log, k, w.db.sentinels[k]))
    && KeysGuarded(w) && KeysSpaced(w.log)
    && (forall i :: 0 <= i < |w.log| ==> w.log[i].claimed <= w.now)
    && Alternates(w.log)
    && (forall so :: so in w.db.orders ==> OrderOk(w.db.orders[so], Last(w.log, so), so in born))
  }

  ghost predicate Initial(born: set<string>, w: World) {
    && w.txns == map[] && w.log == [] && w.db.sentinels == map[]
    && (forall so :: so in w.db.orders ==> Live(w.db.orders[so].fulfillments) == 0)
    && (forall so :: so in born <==> so in w.db.orders && w.db.orders[so].status == Shipped)
  }

  // ---------- Fulfillment lists ----------

  lemma {:induction false} LiveAfterVoid(fs: seq<Fulfillment>, i: nat)
    requires i < |fs| && fs[i].live
    ensures Live(fs[i := fs[i].(live := false)]) == Live(fs) - 1
  {
    var last := |fs| - 1;
    var voided := fs[i := fs[i].(live := false)];
    if i == last {
      assert voided[..last] == fs[..last];
    } else {
      LiveAfterVoid(fs[..last], i);
      assert voided[..last] == fs[..last][i := fs[i].(live := false)];
    }
  }

  lemma OneLiveAfterShip(fs: seq<Fulfillment>, before: Status)
    requires Live(fs) == 0
    ensures OneLive(fs + [Fulfillment(true, before)], before)
  {
    var more := fs + [Fulfillment(true, before)];
    assert more[..|fs|] == fs && more[|fs|] == Fulfillment(true, before);
    assert Live(more) == 1 && LastLive(more) == Some(|fs|);
  }

  /** A ship of one order, against the order's history. */
  lemma ShipFollowsHistory(o: Order, packing: bool, last: Option<Effect>, born: bool)
    requires OrderOk(o, last, born) && Act(o, Ship, packing, false).0.Some?
    ensures var o' := Act(o, Ship, packing, false).0.value;
      (last.None? || last.value.endpoint == Void) && o.status != Shipped && o'.status == Shipped && OneLive(o'.fulfillments, o.status)
  {
    assert Live(o.fulfillments) == 0;
    OneLiveAfterShip(o.fulfillments, o.status);
  }

  lemma VoidFollowsHistory(o: Order, packing: bool, last: Option<Effect>, born: bool)
    requires OrderOk(o, last, born) && Act(o, Void, packing, false).0.Some?
    ensures var o' := Act(o, Void, packing, false).0.value;
      && last.Some? && last.value.endpoint == Ship && o.status == Shipped
      && o'.status == last.value.before && o'.status != Shipped && Live(o'.fulfillments) == 0
  {
    LiveAfterVoid(o.fulfillments, LastLive(o.fulfillments).value);
  }

  // ---------- Every step keeps the invariant ----------

  /** One transaction moves; it takes only free locks. */
  lemma LocalStep(born: set<string>, w: World, t: nat, x: Txn)
    requires Inv(born, w) && TxnOk(w, x)
    requires forall u :: u in w.txns && u != t ==> !Clash(x, w.txns[u])
    ensures Inv(born, w.(txns := w.txns[t := x]))
  {
    var w' := w.(txns := w.txns[t := x]);
    forall u | u in w'.txns ensures TxnOk(w', w'.txns[u]) {
      if u != t { assert TxnOk(w, w.txns[u]); }
    }
  }

  lemma HeldIsFree(born: set<string>, w: World, t: nat)
    requires Inv(born, w) && t in w.txns
    ensures TxnOk(w, w.txns[t])
    ensures forall u :: u in w.txns && u != t ==> !Clash(w.txns[t], w.txns[u])
  {
  }

  /** A replayed answer is the answer of the key's latest effect. */
  lemma ReplayHasEffect(born: set<string>, w: World, r: Request)
    requires Inv(born, w) && KeyOf(r) in w.db.sentinels
    ensures var hit := RowAnswer(w.db.sentinels[KeyOf(r)], r);
      hit.Some? && !hit.value.Fresh? && (hit.value.Replay? ==> HasEffect(w.log, r, hit.value.r))
  {
    var row := w.db.sentinels[KeyOf(r)];
    assert SentinelOk(w.log, KeyOf(r), row);
    var i: nat :| LatestOfKey(w.log, i) && Records(row, KeyOf(r), w.log[i]);
    assert w.log[i] in w.log;
  }

  lemma ReadIsSound(born: set<string>, w: World, a: Action, w': World)
    requires Inv(born, w) && Next(w, a, w') && (a.WarmRead? || a.Reread?)
    ensures TxnOk(w, w'.txns[a.t])
  {
    var x := w.txns[a.t];
    assert TxnOk(w, x);
    if KeyOf(x.req) in w.db.sentinels {
      ReplayHasEffect(born, w, x.req);
    }
  }

  lemma ReadStep(born: set<string>, w: World, a: Action, w': World)
    requires Inv(born, w) && Next(w, a, w') && (a.WarmRead? || a.Reread?)
    ensures Inv(born, w')
  {
    ReadIsSound(born, w, a, w');
    LocalStep(born, w, a.t, w'.txns[a.t]);
  }

  lemma ClaimStep(born: set<string>, w: World, t: nat, w': World)
    requires Inv(born, w) && Next(w, Claim(t), w')
    ensures Inv(born, w')
  {
    var x := w.txns[t];
    assert TxnOk(w, x);
    if KeyOf(x.req) !in w.db.sentinels {
      assert forall i :: 0 <= i < |w.log| && w.log[i].key == KeyOf(x.req) ==> w.log[i].began + RETENTION < w.now;
    }
    LocalStep(born, w, t, w'.txns[t]);
  }

  lemma HandlerStep(born: set<string>, w: World, a: Action, w': World)
    requires Inv(born, w) && Next(w, a, w') && (a.Lock? || a.ActOn? || a.Cache? || a.Abort?)
    ensures Inv(born, w')
  {
    HeldIsFree(born, w, a.t);
    var x := w.txns[a.t];
    var y := w'.txns[a.t];
    assert y.req == x.req;
    StepIsSound(w, a, w');
    LocalStep(born, w, a.t, y);
  }

  lemma StepIsSound(w: World, a: Action, w': World)
    requires Next(w, a, w') && (a.Lock? || a.ActOn? || a.Cache? || a.Abort?) && TxnOk(w, w.txns[a.t])
    ensures TxnOk(w, w'.txns[a.t])
    ensures forall y :: Clash(w'.txns[a.t], y) ==> Clash(w.txns[a.t], y) || (a.Lock? && y.req.so == w.txns[a.t].req.so && HoldsOrder(y, y.req.so))
  {
    var x := w.txns[a.t];
    if !a.Abort? { assert HoldsKey(x, KeyOf(x.req)); }
    if a.ActOn? || a.Cache? { assert HoldsOrder(x, x.req.so); }
  }

  /** The commit is the whole handler, applied to the tables as they stand. */
  lemma CommitIsHandle(born: set<string>, w: World, t: nat, w': World)
    requires Inv(born, w) && Next(w, Commit(t), w')
    ensures Answered(w.db)
    ensures Handle(w.db, w.txns[t].req, w.txns[t].pc.packing, false, w.txns[t].began) == (w'.db, w'.txns[t].pc.reply)
    ensures w'.txns[t].pc.reply.Fresh?
  {
    forall k | k in w.db.sentinels ensures w.db.sentinels[k].response.Some? {
      assert SentinelOk(w.log, k, w.db.sentinels[k]);
    }
    HeldIsFree(born, w, t);
    assert HoldsKey(w.txns[t], KeyOf(w.txns[t].req)) && HoldsOrder(w.txns[t], w.txns[t].req.so);
  }

  lemma CommitKeepsTxns(born: set<string>, w: World, t: nat, w': World)
    requires Inv(born, w) && Next(w, Commit(t), w')
    ensures LocksExclusive(w') && AllOk(w')
  {
    HeldIsFree(born, w, t);
    var x := w.txns[t];
    assert HoldsKey(x, KeyOf(x.req)) && HoldsOrder(x, x.req.so);
    forall u | u in w'.txns ensures TxnOk(w', w'.txns[u]) {
      if u == t {
        assert w'.log[|w.log|] in w'.log;
      } else {
        OtherSurvivesCommit(born, w, t, w', u);
      }
    }
  }

  lemma OtherSurvivesCommit(born: set<string>, w: World, t: nat, w': World, u: nat)
    requires Inv(born, w) && Next(w, Commit(t), w') && u in w.txns && u != t
    ensures TxnOk(w', w.txns[u])
  {
    var x, y := w.txns[t], w.txns[u];
    assert TxnOk(w, y) && TxnOk(w, x);
    assert HoldsKey(x, KeyOf(x.req)) && HoldsOrder(x, x.req.so);
    assert !HoldsKey(y, KeyOf(x.req)) && !HoldsOrder(y, x.req.so);
    assert w'.log[..|w.log|] == w.log;
  }

  lemma CommitKeepsSentinel(born: set<string>, w: World, t: nat, w': World, k: SentinelKey)
    requires Inv(born, w) && Next(w, Commit(t), w') && k in w'.db.sentinels
    ensures SentinelOk(w'.log, k, w'.db.sentinels[k])
  {
    if k == KeyOf(w.txns[t].req) {
      assert LatestOfKey(w'.log, |w.log|) && Records(w'.db.sentinels[k], k, w'.log[|w.log|]);
    } else {
      assert SentinelOk(w.log, k, w.db.sentinels[k]);
      var i: nat :| LatestOfKey(w.log, i) && Records(w.db.sentinels[k], k, w.log[i]);
      assert LatestOfKey(w'.log, i) && Records(w.db.sentinels[k], k, w'.log[i]);
    }
  }

  lemma CommitKeepsSentinels(born: set<string>, w: World, t: nat, w': World)
    requires Inv(born, w) && Next(w, Commit(t), w')
    ensures forall k :: k in w'.db.sentinels ==> SentinelOk(w'.log, k, w'.db.sentinels[k])
    ensures KeysGuarded(w') && KeysSpaced(w'.log) && forall i :: 0 <= i < |w'.log| ==> w'.log[i].claimed <= w'.now
  {
    HeldIsFree(born, w, t);
    assert HoldsKey(w.txns[t], KeyOf(w.txns[t].req));
    forall k | k in w'.db.sentinels ensures SentinelOk(w'.log, k, w'.db.sentinels[k]) {
      CommitKeepsSentinel(born, w, t, w', k);
    }
  }

  lemma CommitKeepsOrders(born: set<string>, w: World, t: nat, w': World)
    requires Inv(born, w) && Next(w, Commit(t), w')
    ensures Alternates(w'.log)
    ensures forall so :: so in w'.db.orders ==> OrderOk(w'.db.orders[so], Last(w'.log, so), so in born)
  {
    HeldIsFree(born, w, t);
    var x := w.txns[t];
    var so := x.req.so;
    assert HoldsOrder(x, so);
    if x.req.endpoint == Ship {
      ShipFollowsHistory(w.db.orders[so], x.pc.packing, Last(w.log, so), so in born);
    } else {
      VoidFollowsHistory(w.db.orders[so], x.pc.packing, Last(w.log, so), so in born);
    }
    assert w'.log[..|w.log|] == w.log;
    forall so' | so' in w'.db.orders ensures OrderOk(w'.db.orders[so'], Last(w'.log, so'), so' in born) {
      if so' != so { assert Last(w'.log, so') == Last(w.log, so'); }
    }
  }

  lemma NextKeepsInv(born: set<string>, w: World, a: Action, w': World)
    requires Inv(born, w) && Next(w, a, w')
    ensures Inv(born, w')
  {
    match a
    case Commit(t) => {
      CommitKeepsTxns(born, w, t, w');
      CommitKeepsSentinels(born, w, t, w');
      CommitKeepsOrders(born, w, t, w');
    }
    case Arrive(t, req) => ArriveKeepsInv(born, w, t, req, w');
    case Progress(so, status) => ProgressKeepsInv(born, w, so, status, w');
    case Prune(k) => PruneKeepsInv(born, w, k, w');
    case Tick(d) => TickKeepsInv(born, w, d, w');
    case WarmRead(_) => ReadStep(born, w, a, w');
    case Reread(_) => ReadStep(born, w, a, w');
    case Claim(t) => ClaimStep(born, w, t, w');
    case _ => HandlerStep(born, w, a, w');
  }

  lemma ArriveKeepsInv(born: set<string>, w: World, t: nat, req: Request, w': World)
    requires Inv(born, w) && Next(w, Arrive(t, req), w')
    ensures Inv(born, w')
  {
    LocalStep(born, w, t, Txn(req, Start, w.now, w.now));
  }

  lemma ProgressKeepsInv(born: set<string>, w: World, so: string, status: Status, w': World)
    requires Inv(born, w) && Next(w, Progress(so, status), w')
    ensures Inv(born, w')
  {
    forall u | u in w'.txns ensures TxnOk(w', w'.txns[u]) {
      assert TxnOk(w, w.txns[u]) && !HoldsOrder(w.txns[u], so);
    }
  }

  lemma TickKeepsInv(born: set<string>, w: World, d: nat, w': World)
    requires Inv(born, w) && Next(w, Tick(d), w')
    ensures Inv(born, w')
  {
    forall u | u in w'.txns ensures TxnOk(w', w'.txns[u]) {
      assert TxnOk(w, w.txns[u]);
    }
  }

  /** A pruned key's last effect is past the retention. */
  lemma PrunedIsOld(born: set<string>, w: World, k: SentinelKey)
    requires Inv(born, w) && k in w.db.sentinels && w.db.sentinels[k].created < w.now - RETENTION
    ensures forall j :: 0 <= j < |w.log| && w.log[j].key == k ==> w.log[j].began + RETENTION < w.now
  {
    assert SentinelOk(w.log, k, w.db.sentinels[k]);
    var i: nat :| LatestOfKey(w.log, i) && Records(w.db.sentinels[k], k, w.log[i]);
    forall j | 0 <= j < |w.log| && w.log[j].key == k ensures w.log[j].began + RETENTION < w.now {
      if j < i {
        assert w.log[j].began + RETENTION < w.log[i].claimed;
      }
    }
  }

  lemma PruneKeepsInv(born: set<string>, w: World, k: SentinelKey, w': World)
    requires Inv(born, w) && Next(w, Prune(k), w')
    ensures Inv(born, w')
  {
    PrunedIsOld(born, w, k);
    forall u | u in w'.txns ensures TxnOk(w', w'.txns[u]) {
      assert TxnOk(w, w.txns[u]);
    }
  }

  // ---------- Whole runs ----------

  ghost predicate Behaviour(born: set<string>, ws: seq<World>, acts: seq<Action>) {
    && |ws| == |acts| + 1 && Initial(born, ws[0])
    && forall i :: 0 <= i < |acts| ==> Next(ws[i], acts[i], ws[i + 1])
  }

  lemma {:induction false} BehaviourKeepsInv(born: set<string>, ws: seq<World>, acts: seq<Action>, i: nat)
    requires Behaviour(born, ws, acts) && i < |ws|
    ensures Inv(born, ws[i])
  {
    if i > 0 {
      BehaviourKeepsInv(born, ws, acts, i - 1);
      NextKeepsInv(born, ws[i - 1], acts[i - 1], ws[i]);
    }
  }

  /**
   * In every interleaving two effects of one (token, key) are more than the retention
   * apart, every committed sentinel holds the response of its key's latest effect, and
   * every 200 reports a committed effect of its own key.
   */
  lemma AnswersReportEffects(born: set<string>, ws: seq<World>, acts: seq<Action>, n: nat)
    requires Behaviour(born, ws, acts) && n < |ws|
    ensures KeysSpaced(ws[n].log)
    ensures forall k :: k in ws[n].db.sentinels ==> SentinelOk(ws[n].log, k, ws[n].db.sentinels[k])
    ensures forall t :: t in ws[n].txns && Succeeded(ws[n].txns[t]) ==>
      HasEffect(ws[n].log, ws[n].txns[t].req, ws[n].txns[t].pc.reply.r)
  {
    BehaviourKeepsInv(born, ws, acts, n);
    forall t | t in ws[n].txns ensures TxnOk(ws[n], ws[n].txns[t]) {
    }
  }

  /** Every commit is one whole handler run on the committed tables: the interleaving is serializable. */
  lemma CommitsAreHandlers(born: set<string>, ws: seq<World>, acts: seq<Action>, n: nat)
    requires Behaviour(born, ws, acts) && n < |acts| && acts[n].Commit?
    ensures Answered(ws[n].db)
    ensures acts[n].t in ws[n].txns && ws[n].txns[acts[n].t].pc.Cached?
    ensures acts[n].t in ws[n + 1].txns && Succeeded(ws[n + 1].txns[acts[n].t])
    ensures var x := ws[n].txns[acts[n].t];
      Handle(ws[n].db, x.req, x.pc.packing, false, x.began) == (ws[n + 1].db, ws[n + 1].txns[acts[n].t].pc.reply)
  {
    BehaviourKeepsInv(born, ws, acts, n);
    CommitIsHandle(born, ws[n], acts[n].t, ws[n + 1]);
  }

  /**
   * Committed ships and voids of every order strictly alternate, each void restores
   * the status its ship found, and the order's rows follow: exactly one SHIPPED
   * fulfillment while the last effect is a ship, none otherwise. The one kind of
   * SHIPPED order without a fulfillment is one that was SHIPPED from the start.
   */
  lemma OrdersFollowTheirHistory(born: set<string>, ws: seq<World>, acts: seq<Action>, n: nat, so: string)
    requires Behaviour(born, ws, acts) && n < |ws|
    ensures Alternates(ws[n].log)
    ensures so in ws[n].db.orders ==>
      var o := ws[n].db.orders[so]; var last := Last(ws[n].log, so);
      && (last.Some? && last.value.endpoint == Ship <==> o.status == Shipped && Live(o.fulfillments) == 1)
      && (o.status == Shipped && Live(o.fulfillments) != 1 ==> last.None? && so in born && Live(o.fulfillments) == 0)
      && (o.status != Shipped ==> Live(o.fulfillments) == 0)
  {
    BehaviourKeepsInv(born, ws, acts, n);
  }
}
