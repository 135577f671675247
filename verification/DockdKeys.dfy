// How often a dockd idempotency key takes effect: once, until its sentinel is pruned.

module DockdKeys {
  import opened Wrappers
  import opened Dockd
  import opened DockdRuns

  // ---------- A second effect needs a prune in between ----------

  lemma {:induction false} LogGrows(born: set<string>, ws: seq<World>, acts: seq<Action>, q: nat, n: nat)
    requires Behaviour(born, ws, acts) && q <= n < |ws|
    ensures ws[q].log <= ws[n].log
  {
    if q < n {
      LogGrows(born, ws, acts, q, n - 1);
      assert Next(ws[n - 1], acts[n - 1], ws[n]);
    }
  }

  /** The cleanup deleted the key's row at step `q`, when the log had more than `i` and at most `j` effects. */
  ghost predicate PrunedAt(ws: seq<World>, acts: seq<Action>, q: nat, k: SentinelKey, i: nat, j: nat) {
    q < |acts| && q < |ws| && acts[q] == Prune(k) && i < |ws[q].log| <= j
  }

  /** Only the cleanup takes a sentinel away again. */
  lemma {:induction false} GoneMeansPruned(born: set<string>, ws: seq<World>, acts: seq<Action>, n: nat, i: nat)
    requires Behaviour(born, ws, acts) && n < |ws| && i < |ws[n].log| && ws[n].log[i].key !in ws[n].db.sentinels
    ensures exists q: nat :: q < n && PrunedAt(ws, acts, q, ws[n].log[i].key, i, |ws[n].log|)
  {
    if n > 0 {
      var k := ws[n].log[i].key;
      assert Next(ws[n - 1], acts[n - 1], ws[n]);
      if i < |ws[n - 1].log| && k !in ws[n - 1].db.sentinels {
        GoneMeansPruned(born, ws, acts, n - 1, i);
        var q: nat :| q < n - 1 && PrunedAt(ws, acts, q, k, i, |ws[n - 1].log|);
        assert PrunedAt(ws, acts, q, k, i, |ws[n].log|);
      } else {
        assert PrunedAt(ws, acts, n - 1, k, i, |ws[n].log|);
      }
    }
  }

  /** A key that commits had no sentinel when it did. */
  lemma CommitterHadNoRow(born: set<string>, ws: seq<World>, acts: seq<Action>, n: nat)
    requires Behaviour(born, ws, acts) && n < |acts| && |ws[n].log| < |ws[n + 1].log|
    ensures |ws[n + 1].log| == |ws[n].log| + 1 && ws[n].log <= ws[n + 1].log
    ensures ws[n + 1].log[|ws[n].log|].key !in ws[n].db.sentinels
  {
    BehaviourKeepsInv(born, ws, acts, n);
    assert Next(ws[n], acts[n], ws[n + 1]);
    assert acts[n].Commit?;
    var x := ws[n].txns[acts[n].t];
    assert TxnOk(ws[n], x) && HoldsKey(x, KeyOf(x.req));
  }

  /** Two effects of one key: its sentinel was pruned after the first and before the second. */
  lemma {:induction false} SecondEffectNeedsPrune(born: set<string>, ws: seq<World>, acts: seq<Action>, n: nat, i: nat, j: nat)
    requires Behaviour(born, ws, acts) && n < |ws| && i < j < |ws[n].log| && ws[n].log[i].key == ws[n].log[j].key
    ensures exists q: nat :: q < n && PrunedAt(ws, acts, q, ws[n].log[i].key, i, j)
  {
    if n > 0 {
      LogGrows(born, ws, acts, n - 1, n);
      if j < |ws[n - 1].log| {
        SecondEffectNeedsPrune(born, ws, acts, n - 1, i, j);
      } else {
        CommitterHadNoRow(born, ws, acts, n - 1);
        GoneMeansPruned(born, ws, acts, n - 1, i);
      }
    }
  }

  ghost predicate NeverPruned(acts: seq<Action>, n: nat, k: SentinelKey) {
    forall q :: 0 <= q < n && q < |acts| ==> acts[q] != Prune(k)
  }

  ghost predicate AtMostOnce(log: seq<Effect>, k: SentinelKey) {
    forall i, j :: 0 <= i < j < |log| && log[i].key == k ==> log[j].key != k
  }

  /** In every interleaving without a cleanup of the key, however long it runs, the key takes effect at most once. */
  lemma KeysTakeEffectOnce(born: set<string>, ws: seq<World>, acts: seq<Action>, n: nat, k: SentinelKey)
    requires Behaviour(born, ws, acts) && n < |ws| && NeverPruned(acts, n, k)
    ensures AtMostOnce(ws[n].log, k)
  {
    forall i, j | 0 <= i < j < |ws[n].log| && ws[n].log[i].key == k ensures ws[n].log[j].key != k {
      if ws[n].log[j].key == k {
        SecondEffectNeedsPrune(born, ws, acts, n, i, j);
      }
    }
  }

  /** What the committed effect tells a request that comes with its key. */
  function StoredAnswer(e: Effect, r: Request): Reply {
    if e.endpoint != r.endpoint || e.body != r.body then Failed(KeyReused) else Replay(Response(e.after))
  }

  /**
   * Until its sentinel is pruned an effect answers every request with its key, at the
   * warm read and after a lost insert alike: the stored response, or a refusal of
   * another endpoint or body.
   */
  lemma RetryBeforePruneReplays(born: set<string>, ws: seq<World>, acts: seq<Action>, n: nat, i: nat, r: Request)
    requires Behaviour(born, ws, acts) && n < |ws| && i < |ws[n].log| && KeyOf(r) == ws[n].log[i].key
    requires forall q: nat :: q < n ==> !PrunedAt(ws, acts, q, KeyOf(r), i, |ws[n].log|)
    ensures WarmPc(ws[n].db, r) == Done(StoredAnswer(ws[n].log[i], r)) == RereadPc(ws[n].db, r)
  {
    var w := ws[n];
    var k := KeyOf(r);
    BehaviourKeepsInv(born, ws, acts, n);
    if k !in w.db.sentinels {
      GoneMeansPruned(born, ws, acts, n, i);
    }
    assert SentinelOk(w.log, k, w.db.sentinels[k]);
    var m: nat :| LatestOfKey(w.log, m) && Records(w.db.sentinels[k], k, w.log[m]);
    if i < m {
      SecondEffectNeedsPrune(born, ws, acts, n, i, m);
      var q: nat :| q < n && PrunedAt(ws, acts, q, k, i, m);
      assert PrunedAt(ws, acts, q, k, i, |w.log|);
    }
  }

  // ---------- And a prune does bring a second effect ----------

  ghost predicate Quiet(w: World) {
    forall u :: u in w.txns ==> w.txns[u].pc.Done?
  }

  /** The handler's write, if the request gets that far. */
  ghost predicate Accepts(db: Db, r: Request, packing: bool) {
    KeyOf(r) !in db.sentinels && r.operatorKnown && Reachable(db.orders, r) && Act(db.orders[r.so], r.endpoint, packing, false).0.Some?
  }

  /** The world after one accepted request ran with nothing else going on. */
  function After(w: World, t: nat, r: Request, packing: bool): World
    requires Accepts(w.db, r, packing)
  {
    var o := Act(w.db.orders[r.so], r.endpoint, packing, false).0.value;
    var response := Response(o.status);
    w.(txns := w.txns[t := Txn(r, Done(Fresh(response)), w.now, w.now)],
       db := Db(w.db.sentinels[KeyOf(r) := Sentinel(r.endpoint, r.so, r.body, Some(response), w.now)], w.db.orders[r.so := o]),
       log := w.log + [Effect(KeyOf(r), r.endpoint, r.so, r.body, w.db.orders[r.so].status, o.status, w.now, w.now)])
  }

  /** The cleanup touches no key but these. */
  ghost predicate PrunesOnly(acts: seq<Action>, keys: set<SentinelKey>) {
    forall i :: 0 <= i < |acts| && acts[i].Prune? ==> acts[i].k in keys
  }

  lemma Extend(born: set<string>, ws: seq<World>, acts: seq<Action>, a: Action, w': World)
    requires Behaviour(born, ws, acts) && Next(ws[|ws| - 1], a, w')
    ensures Behaviour(born, ws + [w'], acts + [a])
  {
    var vs, bs := ws + [w'], acts + [a];
    forall i | 0 <= i < |bs| ensures Next(vs[i], bs[i], vs[i + 1]) {
      if i < |acts| { assert Next(ws[i], acts[i], ws[i + 1]); }
    }
  }

  /** The same world with request `t` at `pc`. */
  function With(w: World, t: nat, r: Request, pc: Pc): World {
    w.(txns := w.txns[t := Txn(r, pc, w.now, w.now)])
  }

  lemma Moves(w: World, t: nat, r: Request, a: Pc, b: Pc)
    ensures At(With(w, t, r, a), t, b) == With(w, t, r, b)
  {
    assert w.txns[t := Txn(r, a, w.now, w.now)][t := Txn(r, b, w.now, w.now)] == w.txns[t := Txn(r, b, w.now, w.now)];
  }

  /** Arrive, warm read and sentinel insert. */
  lemma RunsToClaim(born: set<string>, ws: seq<World>, acts: seq<Action>, t: nat, r: Request, packing: bool, keys: set<SentinelKey>)
      returns (vs: seq<World>, bs: seq<Action>)
    requires Behaviour(born, ws, acts) && PrunesOnly(acts, keys)
    requires var w := ws[|ws| - 1]; Quiet(w) && t !in w.txns && Accepts(w.db, r, packing)
    ensures Behaviour(born, vs, bs) && PrunesOnly(bs, keys) && vs[0] == ws[0] && vs[|vs| - 1] == With(ws[|ws| - 1], t, r, Claimed)
  {
    var w := ws[|ws| - 1];
    vs, bs := ws, acts;
    Extend(born, vs, bs, Arrive(t, r), With(w, t, r, Start));
    vs, bs := vs + [With(w, t, r, Start)], bs + [Arrive(t, r)];
    Moves(w, t, r, Start, Cleared);
    Extend(born, vs, bs, WarmRead(t), With(w, t, r, Cleared));
    vs, bs := vs + [With(w, t, r, Cleared)], bs + [WarmRead(t)];
    Moves(w, t, r, Cleared, Claimed);
    assert Next(With(w, t, r, Cleared), Action.Claim(t), With(w, t, r, Claimed));
    Extend(born, vs, bs, Action.Claim(t), With(w, t, r, Claimed));
    vs, bs := vs + [With(w, t, r, Claimed)], bs + [Action.Claim(t)];
  }

  /** Order lock, status gate and write, cached response. */
  lemma RunsToCached(born: set<string>, ws: seq<World>, acts: seq<Action>, w: World, t: nat, r: Request, packing: bool,
                     keys: set<SentinelKey>)
      returns (vs: seq<World>, bs: seq<Action>)
    requires Behaviour(born, ws, acts) && PrunesOnly(acts, keys) && ws[|ws| - 1] == With(w, t, r, Claimed)
    requires Quiet(w) && t !in w.txns && Accepts(w.db, r, packing)
    ensures Behaviour(born, vs, bs) && PrunesOnly(bs, keys) && vs[0] == ws[0]
    ensures vs[|vs| - 1] == With(w, t, r, Cached(Act(w.db.orders[r.so], r.endpoint, packing, false).0.value, packing))
  {
    var o := Act(w.db.orders[r.so], r.endpoint, packing, false).0.value;
    vs, bs := ws, acts;
    Moves(w, t, r, Claimed, Locked);
    Extend(born, vs, bs, Lock(t), With(w, t, r, Locked));
    vs, bs := vs + [With(w, t, r, Locked)], bs + [Lock(t)];
    Moves(w, t, r, Locked, Acted(o, packing));
    Extend(born, vs, bs, ActOn(t, packing, false), With(w, t, r, Acted(o, packing)));
    vs, bs := vs + [With(w, t, r, Acted(o, packing))], bs + [ActOn(t, packing, false)];
    Moves(w, t, r, Acted(o, packing), Cached(o, packing));
    Extend(born, vs, bs, Cache(t), With(w, t, r, Cached(o, packing)));
    vs, bs := vs + [With(w, t, r, Cached(o, packing))], bs + [Cache(t)];
  }

  /** One accepted request from its arrival to its commit, added to a run with nobody at work. */
  lemma WholeRequest(born: set<string>, ws: seq<World>, acts: seq<Action>, t: nat, r: Request, packing: bool, keys: set<SentinelKey>)
      returns (vs: seq<World>, bs: seq<Action>)
    requires Behaviour(born, ws, acts) && PrunesOnly(acts, keys)
    requires var w := ws[|ws| - 1]; Quiet(w) && t !in w.txns && Accepts(w.db, r, packing)
    ensures Behaviour(born, vs, bs) && PrunesOnly(bs, keys) && vs[0] == ws[0] && vs[|vs| - 1] == After(ws[|ws| - 1], t, r, packing)
  {
    var w := ws[|ws| - 1];
    vs, bs := RunsToClaim(born, ws, acts, t, r, packing, keys);
    vs, bs := RunsToCached(born, vs, bs, w, t, r, packing, keys);
    var o := Act(w.db.orders[r.so], r.endpoint, packing, false).0.value;
    Moves(w, t, r, Cached(o, packing), Done(Fresh(Response(o.status))));
    assert Next(With(w, t, r, Cached(o, packing)), Commit(t), After(w, t, r, packing));
    Extend(born, vs, bs, Commit(t), After(w, t, r, packing));
    vs, bs := vs + [After(w, t, r, packing)], bs + [Commit(t)];
  }

  /** The world after the retention has passed and the cleanup has run. */
  function Forgotten(w: World, k: SentinelKey): World {
    w.(now := w.now + RETENTION + 1, db := w.db.(sentinels := w.db.sentinels - {k}))
  }

  /** Past the retention the cleanup frees a key. */
  lemma PruneLater(born: set<string>, ws: seq<World>, acts: seq<Action>, k: SentinelKey, keys: set<SentinelKey>)
      returns (vs: seq<World>, bs: seq<Action>)
    requires Behaviour(born, ws, acts) && PrunesOnly(acts, keys) && k in keys
    requires var w := ws[|ws| - 1]; k in w.db.sentinels && w.db.sentinels[k].created <= w.now
    ensures Behaviour(born, vs, bs) && PrunesOnly(bs, keys) && vs[0] == ws[0] && vs[|vs| - 1] == Forgotten(ws[|ws| - 1], k)
  {
    var w := ws[|ws| - 1];
    var later := w.(now := w.now + RETENTION + 1);
    Extend(born, ws, acts, Tick(RETENTION + 1), later);
    Extend(born, ws + [later], acts + [Tick(RETENTION + 1)], Prune(k), Forgotten(w, k));
    vs, bs := ws + [later] + [Forgotten(w, k)], acts + [Tick(RETENTION + 1)] + [Prune(k)];
  }

  /** A void of the order under another key. */
  ghost predicate Voids(v: Request, r: Request, orders: map<string, Order>) {
    v.endpoint == Void && v.operatorKnown && v.so == r.so && Reachable(orders, v) && KeyOf(v) != KeyOf(r)
  }

  /** A void of a first shipment gives the status back, and with it the next ship its gate. */
  lemma VoidRestores(o: Order, packing: bool)
    requires Live(o.fulfillments) == 0 && Act(o, Ship, packing, false).0.Some?
    ensures var shipped := Act(o, Ship, packing, false).0.value;
      Act(shipped, Void, packing, false).0.Some? && Act(shipped, Void, packing, false).0.value.status == o.status
  {
    OneLiveAfterShip(o.fulfillments, o.status);
  }

  lemma VoidIsAccepted(born: set<string>, start: World, r: Request, v: Request, packing: bool)
    requires Initial(born, start) && r.endpoint == Ship && Accepts(start.db, r, packing) && Voids(v, r, start.db.orders)
    ensures var w := Forgotten(After(start, 0, r, packing), KeyOf(r));
      Accepts(w.db, v, packing) && w.db.sentinels == map[] && w.txns.Keys == {0} && Quiet(w)
  {
    VoidRestores(start.db.orders[r.so], packing);
  }

  /** After the void of its shipment the order takes the ship again, if the key is free. */
  lemma ShipIsAcceptedAgain(w: World, o: Order, r: Request, v: Request, packing: bool)
    requires r.endpoint == Ship && v.endpoint == Void && r.operatorKnown && v.so == r.so && KeyOf(v) != KeyOf(r)
    requires Accepts(w.db, v, packing) && KeyOf(r) !in w.db.sentinels && o.warehouse in r.scope
    requires Live(o.fulfillments) == 0 && Act(o, Ship, packing, false).0 == Some(w.db.orders[r.so])
    ensures Accepts(After(w, 1, v, packing).db, r, packing)
  {
    VoidRestores(o, packing);
    var db' := After(w, 1, v, packing).db;
    assert db'.orders[r.so] == Act(w.db.orders[r.so], Void, packing, false).0.value;
    assert db'.sentinels.Keys == w.db.sentinels.Keys + {KeyOf(v)};
  }

  /**
   * Every shippable order can be shipped twice under one key: ship, wait out the
   * retention, let the cleanup run, void under another key, ship again.
   */
  lemma PrunedKeyShipsAgain(born: set<string>, start: World, r: Request, v: Request, packing: bool)
      returns (ws: seq<World>, acts: seq<Action>)
    requires Initial(born, start) && r.endpoint == Ship && Accepts(start.db, r, packing) && Voids(v, r, start.db.orders)
    ensures Behaviour(born, ws, acts) && PrunesOnly(acts, {KeyOf(r)}) && ws[0] == start
    ensures var log := ws[|ws| - 1].log;
      |log| == 3 && log[0].key == log[2].key == KeyOf(r) && log[0].endpoint == log[2].endpoint == Ship && log[1].endpoint == Void
  {
    VoidIsAccepted(born, start, r, v, packing);
    var pruned := Forgotten(After(start, 0, r, packing), KeyOf(r));
    ShipIsAcceptedAgain(pruned, start.db.orders[r.so], r, v, packing);
    ws, acts := WholeRequest(born, [start], [], 0, r, packing, {KeyOf(r)});
    ws, acts := PruneLater(born, ws, acts, KeyOf(r), {KeyOf(r)});
    ws, acts := WholeRequest(born, ws, acts, 1, v, packing, {KeyOf(r)});
    assert Quiet(After(pruned, 1, v, packing));
    ws, acts := WholeRequest(born, ws, acts, 2, r, packing, {KeyOf(r)});
  }

  /** At the end of the run the key has taken effect at most once. */
  ghost predicate EndsOnce(ws: seq<World>, k: SentinelKey)
    requires ws != []
  {
    AtMostOnce(ws[|ws| - 1].log, k)
  }

  /**
   * For a key that can ship some order which another key can void: it takes effect at
   * most once in every run exactly when the cleanup is kept from the key.
   */
  lemma OnceExactlyUnlessPruned(born: set<string>, start: World, r: Request, v: Request, packing: bool, keys: set<SentinelKey>)
    requires Initial(born, start) && r.endpoint == Ship && Accepts(start.db, r, packing) && Voids(v, r, start.db.orders)
    ensures (forall ws: seq<World>, acts: seq<Action> :: Behaviour(born, ws, acts) && ws[0] == start && PrunesOnly(acts, keys) ==> EndsOnce(ws, KeyOf(r)))
      <==> KeyOf(r) !in keys
  {
    var k := KeyOf(r);
    if k in keys {
      var ws, acts := PrunedKeyShipsAgain(born, start, r, v, packing);
      assert PrunesOnly(acts, keys);
      assert !EndsOnce(ws, k);
    } else {
      forall ws: seq<World>, acts: seq<Action> | Behaviour(born, ws, acts) && ws[0] == start && PrunesOnly(acts, keys) ensures EndsOnce(ws, k) {
        KeysTakeEffectOnce(born, ws, acts, |ws| - 1, k);
      }
    }
  }
}
