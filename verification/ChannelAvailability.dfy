// Sellable availability of one channel: the reconciliation sweep of
// api/services/channel_availability_service.py, and the publisher of
// api/services/connector_publisher/publish.py that drains the rows it bumps.

module ChannelAvailability {

  /** One inventory row joined to its bin; `sellable` when the bin is Pickable or PickableStaging. */
  datatype Stock = Stock(item: nat, warehouse: nat, sellable: bool, onHand: int, reserved: int)
  datatype Item = Item(sku: string, category: string, active: bool)

  /** An empty dimension restricts nothing; an item is in scope by sku or by category. */
  datatype Scope = Scope(skus: set<string>, categories: set<string>, warehouses: set<nat>)

  /** One channel_availability row: `current` is bumped with the number, `published` is the last version delivered. */
  datatype Row = Row(qty: int, current: int, published: int, attempts: nat, dlq: bool)

  type Table = map<nat, Row>

  predicate Publishes(i: Item, scope: Scope) {
    i.active && ((scope.skus == {} && scope.categories == {}) || i.sku in scope.skus || i.category in scope.categories)
  }

  function Sellable(s: Stock, scope: Scope): int {
    if s.sellable && (scope.warehouses == {} || s.warehouse in scope.warehouses) && s.onHand > s.reserved
    then s.onHand - s.reserved else 0
  }

  function Available(stock: seq<Stock>, scope: Scope, item: nat): int {
    if stock == [] then 0
    else Available(stock[1..], scope, item) + (if stock[0].item == item then Sellable(stock[0], scope) else 0)
  }

  datatype Live = Live(stock: seq<Stock>, items: map<nat, Item>, scope: Scope)

  /** The items a sweep looks at; `only` restricts it. */
  function Targets(live: Live, only: Sweep): set<nat> {
    set i | i in live.items && Publishes(live.items[i], live.scope) && (only.Full? || i in only.ids)
  }

  datatype Sweep = Full | Restricted(ids: set<nat>)

  predicate Stale(live: Live, table: Table, i: nat) {
    i !in table || table[i].qty != Available(live.stock, live.scope, i)
  }

  function Changed(live: Live, table: Table, only: Sweep): set<nat> {
    set i | i in Targets(live, only) && Stale(live, table, i)
  }

  /** Every item the channel publishes has a row with the live number. */
  ghost predicate Agrees(live: Live, table: Table) {
    forall i :: i in Targets(live, Full) ==> !Stale(live, table, i)
  }

  // ---------- The sweep ----------

  /** Rows outside `changed` are untouched; rows inside carry the live number and a fresh version. */
  ghost predicate RowsSwept(live: Live, table: Table, seed: int, changed: set<nat>, table': Table, seed': int) {
    && table'.Keys == table.Keys + changed
    && (forall i :: i in table && i !in changed ==> table'[i] == table[i])
    && (forall i :: i in changed ==> Bumped(live, table, seed, i, table'[i]) && table'[i].current <= seed')
  }

  ghost predicate DistinctVersions(table: Table, ids: set<nat>)
    requires ids <= table.Keys
  {
    forall i, j :: i in ids && j in ids && i != j ==> table[i].current != table[j].current
  }

  /** What the upsert of `changed` does. */
  ghost predicate Swept(live: Live, table: Table, seed: int, changed: set<nat>, table': Table, seed': int) {
    && RowsSwept(live, table, seed, changed, table', seed') && DistinctVersions(table', changed)
    && seed <= seed' && (changed == {} ==> seed' == seed)
  }

  ghost predicate Bumped(live: Live, table: Table, seed: int, i: nat, row: Row) {
    && row.qty == Available(live.stock, live.scope, i) && seed < row.current
    && row.published == (if i in table then table[i].published else 0)
    && row.attempts == 0 && !row.dlq
  }

  /** One more row upserted. */
  lemma SweptOneMore(
    live: Live, table: Table, seed: int, done: set<nat>, was: Table, drawn: int, i: nat, now: Table, last: int)
    requires Swept(live, table, seed, done, was, drawn) && i !in done
    requires i in now && now == was[i := now[i]] && now[i].current == last
    requires Bumped(live, table, seed, i, now[i]) && drawn < last
    ensures Swept(live, table, seed, done + {i}, now, last)
  {
    assert RowsSwept(live, table, seed, done + {i}, now, last);
    assert DistinctVersions(now, done + {i});
  }

  class Channel {
    var table: Table
    /** Last value drawn from channel_availability_version_seq. */
    var seed: int

    method NextVersion() returns (v: int)
      modifies this`seed
      ensures v == seed == old(seed) + 1
    {
      seed := seed + 1;
      return seed;
    }

    /** INSERT .. ON CONFLICT DO UPDATE of one row: both branches draw a version, the update draws a second one. */
    method Upsert(live: Live, i: nat, ghost before: Table, ghost start: int, ghost done: set<nat>)
      requires Swept(live, before, start, done, table, seed) && i !in done
      modifies this
      ensures Swept(live, before, start, done + {i}, table, seed)
      ensures seed == old(seed) + (if i in old(table) then 2 else 1)
    {
      ghost var was := table;
      var v := NextVersion();
      var qty := Available(live.stock, live.scope, i);
      if i in table {
        v := NextVersion();
        table := table[i := table[i].(qty := qty, current := v, attempts := 0, dlq := false)];
      } else {
        table := table[i := Row(qty, v, 0, 0, false)];
      }
      SweptOneMore(live, before, start, done, was, old(seed), i, table, seed);
    }

    /** Upserts the given rows, in any order. */
    method UpsertAll(live: Live, changed: set<nat>)
      modifies this
      ensures Swept(live, old(table), old(seed), changed, table, seed)
    {
      ghost var before, start := table, seed;
      var todo := changed;
      ghost var done: set<nat> := {};
      while todo != {}
        invariant done == changed - todo && todo <= changed
        invariant Swept(live, before, start, done, table, seed)
        decreases todo
      {
        var i :| i in todo;
        Upsert(live, i, before, start, done);
        todo, done := todo - {i}, done + {i};
      }
      assert done == changed;
    }

    /** The sweep; returns the number of rows bumped. */
    method Recompute(live: Live, only: Sweep) returns (bumped: nat)
      modifies this
      ensures Swept(live, old(table), old(seed), Changed(live, old(table), only), table, seed)
      ensures bumped == |Changed(live, old(table), only)|
    {
      var changed := Changed(live, table, only);
      UpsertAll(live, changed);
      return |changed|;
    }
  }

  /** A full sweep makes the table agree with live stock; the rows it bumps are exactly those whose number moved. */
  lemma FullSweepAgrees(live: Live, table: Table, seed: int, table': Table, seed': int)
    requires Swept(live, table, seed, Changed(live, table, Full), table', seed')
    ensures Agrees(live, table')
    ensures forall i :: i in table' ==> (i !in table || table'[i].current != table[i].current ==> i in Changed(live, table, Full))
  {
  }

  /** A sweep repeated at once bumps nothing, draws no version and changes no row, and neither does any restricted one. */
  lemma SecondSweepIsIdle(live: Live, table: Table, seed: int, only: Sweep, again: Sweep, mid: Table, seed': int, table': Table, seed'': int)
    requires Swept(live, table, seed, Changed(live, table, only), mid, seed')
    requires Targets(live, again) <= Targets(live, only)
    requires Swept(live, mid, seed', Changed(live, mid, again), table', seed'')
    ensures Changed(live, mid, again) == {} && table' == mid && seed'' == seed'
  {
    NothingStaleLeft(live, table, seed, only, mid, seed');
    assert Changed(live, mid, again) == {};
  }

  lemma NothingStaleLeft(live: Live, table: Table, seed: int, only: Sweep, mid: Table, seed': int)
    requires Swept(live, table, seed, Changed(live, table, only), mid, seed')
    ensures forall i :: i in Targets(live, only) ==> !Stale(live, mid, i)
  {
    forall i | i in Targets(live, only) ensures !Stale(live, mid, i) {
      if Stale(live, table, i) { assert i in Changed(live, table, only); }
    }
  }

  /** Item `i` has the same rows before and after, wherever they lie in the table. */
  function RowsOf(stock: seq<Stock>, item: nat): seq<Stock> {
    if stock == [] then []
    else (if stock[0].item == item then [stock[0]] else []) + RowsOf(stock[1..], item)
  }

  lemma {:induction false} AvailableFromRows(stock: seq<Stock>, scope: Scope, item: nat)
    ensures Available(stock, scope, item) == Available(RowsOf(stock, item), scope, item)
  {
    if stock != [] {
      AvailableFromRows(stock[1..], scope, item);
      var own := if stock[0].item == item then [stock[0]] else [];
      var rows := own + RowsOf(stock[1..], item);
      assert RowsOf(stock, item) == rows;
      if stock[0].item == item {
        assert rows[0] == stock[0] && rows[1..] == RowsOf(stock[1..], item);
      } else {
        assert rows == RowsOf(stock[1..], item);
      }
    }
  }

  /**
   * If the table agreed and stock has since moved only at `moved`, the sweep restricted to
   * `moved` bumps the same rows as a full sweep, and the table agrees again.
   */
  lemma RestrictedSweepIsEnough(
    live: Live, stock: seq<Stock>, table: Table, moved: set<nat>, seed: int, table': Table, seed': int)
    requires Agrees(live, table)
    requires forall i :: i !in moved ==> RowsOf(stock, i) == RowsOf(live.stock, i)
    requires var now := live.(stock := stock); Swept(now, table, seed, Changed(now, table, Restricted(moved)), table', seed')
    ensures var now := live.(stock := stock);
      Changed(now, table, Restricted(moved)) == Changed(now, table, Full) && Agrees(now, table')
  {
    var now := live.(stock := stock);
    assert Targets(now, Full) == Targets(live, Full);
    forall i | i in Changed(now, table, Full) ensures i in moved {
      if i !in moved {
        AvailableFromRows(stock, live.scope, i);
        AvailableFromRows(live.stock, live.scope, i);
      }
    }
    assert Changed(now, table, Restricted(moved)) == Changed(now, table, Full);
    FullSweepAgrees(now, table, seed, table', seed');
  }

  /** In general: a restricted sweep reaches agreement exactly when nothing stale lies outside its items. */
  lemma RestrictedSweepExactly(live: Live, table: Table, ids: set<nat>, seed: int, table': Table, seed': int)
    requires Swept(live, table, seed, Changed(live, table, Restricted(ids)), table', seed')
    ensures Agrees(live, table') <==> Changed(live, table, Full) <= ids
  {
    if Changed(live, table, Full) <= ids {
      assert Changed(live, table, Full) == Changed(live, table, Restricted(ids));
      FullSweepAgrees(live, table, seed, table', seed');
    } else {
      var i :| i in Changed(live, table, Full) && i !in ids;
      assert Stale(live, table', i);
    }
  }

  // ---------- Overlapping sweeps ----------

  /** Both snapshots give the item one number. */
  ghost predicate SameNumber(older: Live, newer: Live, i: nat) {
    Available(older.stock, older.scope, i) == Available(newer.stock, newer.scope, i)
  }

  /**
   * A sweep is one statement: it reads stock and rows at its start and upserts later. When
   * a sweep with an older snapshot writes after a full sweep with a newer one, the table
   * agrees with the newer stock exactly when no published item the older one upserts moved
   * between the snapshots.
   */
  lemma OlderSweepLast(older: Live, newer: Live, table: Table, stale: set<nat>,
                       seed: int, mid: Table, seed': int, end: Table, seed'': int)
    requires Swept(newer, table, seed, Changed(newer, table, Full), mid, seed') && Swept(older, mid, seed', stale, end, seed'')
    ensures Agrees(newer, end) <==> forall i :: i in stale && i in Targets(newer, Full) ==> SameNumber(older, newer, i)
  {
    NothingStaleLeft(newer, table, seed, Full, mid, seed');
    forall i | i in Targets(newer, Full) ensures !Stale(newer, end, i) <==> i !in stale || SameNumber(older, newer, i) {
      assert !Stale(newer, mid, i);
      if i in stale { assert Bumped(older, mid, seed', i, end[i]); }
    }
  }

  /**
   * When the newer sweep writes last, agreement is lost exactly at items the older one
   * upserts and the newer one, whose snapshot of the rows is from before, takes to be right.
   */
  lemma NewerSweepLast(older: Live, newer: Live, table: Table, only: Sweep,
                       seed: int, mid: Table, seed': int, end: Table, seed'': int)
    requires Swept(older, table, seed, Changed(older, table, only), mid, seed')
    requires Swept(newer, mid, seed', Changed(newer, table, Full), end, seed'')
    ensures Agrees(newer, end) <==> forall i :: i in Changed(older, table, only) && i in Targets(newer, Full) ==> i in Changed(newer, table, Full)
  {
    var a, b := Changed(older, table, only), Changed(newer, table, Full);
    forall i | i in Targets(newer, Full) ensures !Stale(newer, end, i) <==> i !in a || i in b {
      if i in b {
        assert Bumped(newer, mid, seed', i, end[i]);
      } else if i in a {
        assert Bumped(older, table, seed, i, mid[i]) && end[i] == mid[i];
      }
    }
  }

  // ---------- Sweeps and the publisher interleaved ----------

  /** What a sweep's statement computed from its snapshot. */
  datatype Snapshot = Snapshot(live: Live, changed: set<nat>)

  /** One row of a claimed batch, as the claiming SELECT saw it. */
  datatype Claim = Claim(qty: int, version: int, attempts: nat)

  /**
   * `sweeps` are the sweeps under way; `batch` is the batch in flight, `posted` whether its
   * POST was answered with success; `sink` what the far side holds.
   */
  datatype World = World(
    live: Live, table: Table, seed: int, sweeps: map<nat, Snapshot>, batch: map<nat, Claim>, posted: bool, sink: map<nat, int>)

  datatype Action =
    | StockMoves(live: Live)
    | OtherChannel(draws: nat)
    | SweepReads(s: nat, only: Sweep)
    | SweepWrites(s: nat, table: Table, seed: int)
    | ClaimBatch(ids: set<nat>)
    | Post(delivered: bool, success: bool)
    | MarkPublished
    | MarkFailed
    | Crash

  /** current_version > last_version. */
  predicate Dirty(row: Row) {
    row.current > row.published
  }

  const MAX_ATTEMPTS: nat := 5

  function Delivered(sink: map<nat, int>, batch: map<nat, Claim>): map<nat, int> {
    sink + map i | i in batch :: batch[i].qty
  }

  function Published(table: Table, batch: map<nat, Claim>): Table {
    map i | i in table ::
      if i in batch then table[i].(published := batch[i].version, attempts := 0, dlq := false) else table[i]
  }

  function AfterFailure(table: Table, batch: map<nat, Claim>): Table {
    map i | i in table ::
      if i in batch then table[i].(attempts := batch[i].attempts + 1, dlq := batch[i].attempts + 1 >= MAX_ATTEMPTS) else table[i]
  }

  ghost predicate Next(w: World, a: Action, w': World) {
    match a
    case StockMoves(live) => w' == w.(live := live)
    case OtherChannel(draws) => w' == w.(seed := w.seed + draws)
    case SweepReads(s, only) => s !in w.sweeps && w' == w.(sweeps := w.sweeps[s := Snapshot(w.live, Changed(w.live, w.table, only))])
    case SweepWrites(s, table, seed) =>
      && s in w.sweeps && Swept(w.sweeps[s].live, w.table, w.seed, w.sweeps[s].changed, table, seed)
      && w' == w.(table := table, seed := seed, sweeps := w.sweeps - {s})
    case ClaimBatch(ids) =>
      && w.batch == map[] && (forall i :: i in ids ==> i in w.table && Dirty(w.table[i]) && !w.table[i].dlq)
      && w' == w.(posted := false, batch := map i | i in ids :: Claim(w.table[i].qty, w.table[i].current, w.table[i].attempts))
    case Post(delivered, success) =>
      && !w.posted && (success ==> delivered)
      && w' == w.(posted := success, sink := if delivered then Delivered(w.sink, w.batch) else w.sink)
    case MarkPublished => w.posted && w' == w.(table := Published(w.table, w.batch), batch := map[], posted := false)
    case MarkFailed => !w.posted && w' == w.(table := AfterFailure(w.table, w.batch), batch := map[])
    case Crash => w' == w.(batch := map[], posted := false)
  }

  /** A clean row's number is what the sink holds; versions name one number each. */
  ghost predicate RowOk(w: World, i: nat)
    requires i in w.table
  {
    var row := w.table[i];
    && 1 <= row.current <= w.seed && row.published <= row.current
    && (i in w.batch ==>
          && row.published < w.batch[i].version <= row.current
          && (w.batch[i].version == row.current ==> w.batch[i].qty == row.qty)
          && (w.posted ==> i in w.sink && w.sink[i] == w.batch[i].qty))
    && (!Dirty(row) ==> i in w.sink && w.sink[i] == row.qty)
  }

  ghost predicate Inv(w: World) {
    0 <= w.seed && w.batch.Keys <= w.table.Keys && forall i :: i in w.table ==> RowOk(w, i)
  }

  /** A step never drops a row or lowers a version, and a number only moves with a fresh, unpublished version. */
  ghost predicate Rises(w: World, w': World) {
    && w.table.Keys <= w'.table.Keys && w.seed <= w'.seed
    && (forall i :: i in w.table ==> w.table[i].current <= w'.table[i].current)
    && (forall i :: i in w.table && w'.table[i].qty != w.table[i].qty ==> w.seed < w'.table[i].current && Dirty(w'.table[i]))
  }

  lemma SweepKeepsInv(w: World, s: nat, table: Table, seed: int, w': World)
    requires Inv(w) && Next(w, SweepWrites(s, table, seed), w')
    ensures Inv(w') && Rises(w, w')
  {
    var snap := w.sweeps[s];
    forall i | i in w'.table ensures RowOk(w', i) && (i in w.table ==> w.table[i].current <= w'.table[i].current) {
      if i in w.table { assert RowOk(w, i); }
      if i in snap.changed { assert Bumped(snap.live, w.table, w.seed, i, table[i]); }
    }
  }

  lemma NextKeepsInv(w: World, a: Action, w': World)
    requires Inv(w) && Next(w, a, w')
    ensures Inv(w') && Rises(w, w')
  {
    if a.SweepWrites? {
      SweepKeepsInv(w, a.s, a.table, a.seed, w');
    } else {
      forall i | i in w'.table ensures RowOk(w', i) {
        if i in w.table { assert RowOk(w, i); }
      }
    }
  }

  ghost predicate Behaviour(ws: seq<World>, acts: seq<Action>) {
    && |ws| == |acts| + 1 && ws[0].table == map[] && ws[0].batch == map[] && 0 <= ws[0].seed
    && forall i :: 0 <= i < |acts| ==> Next(ws[i], acts[i], ws[i + 1])
  }

  lemma {:induction false} BehaviourKeepsInv(ws: seq<World>, acts: seq<Action>, n: nat)
    requires Behaviour(ws, acts) && n < |ws|
    ensures Inv(ws[n])
  {
    if n > 0 {
      BehaviourKeepsInv(ws, acts, n - 1);
      NextKeepsInv(ws[n - 1], acts[n - 1], ws[n]);
    }
  }

  /**
   * No change is ever silently dropped: in every interleaving of sweeps, which may overlap,
   * with a publisher whose posts fail, get lost or succeed, a row whose number the sink
   * does not hold is dirty, so it can be claimed for publishing unless it is dead-lettered.
   */
  lemma NothingIsDropped(ws: seq<World>, acts: seq<Action>, n: nat, i: nat)
    requires Behaviour(ws, acts) && n < |ws| && i in ws[n].table
    requires i !in ws[n].sink || ws[n].sink[i] != ws[n].table[i].qty
    ensures Dirty(ws[n].table[i])
  {
    BehaviourKeepsInv(ws, acts, n);
    assert RowOk(ws[n], i);
  }

  /** A row's version never falls, and rises beyond every version drawn before whenever its number moves. */
  lemma {:induction false} VersionsRiseWithTheNumber(ws: seq<World>, acts: seq<Action>, m: nat, n: nat, i: nat)
    requires Behaviour(ws, acts) && m <= n < |ws| && i in ws[m].table
    ensures i in ws[n].table && ws[m].seed <= ws[n].seed && ws[m].table[i].current <= ws[n].table[i].current
    ensures ws[n].table[i].qty != ws[m].table[i].qty ==> ws[m].table[i].current < ws[n].table[i].current
  {
    if m < n {
      VersionsRiseWithTheNumber(ws, acts, m, n - 1, i);
      BehaviourKeepsInv(ws, acts, n - 1);
      NextKeepsInv(ws[n - 1], acts[n - 1], ws[n]);
      assert RowOk(ws[n - 1], i);
    }
  }
}
