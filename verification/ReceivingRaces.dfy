// Racing cancels. A cancel reads each receipt without locking it and writes under
// row locks that it keeps to its commit, so another cancel can reverse the same
// receipt in between. It then reads the order's lines, again without a lock, for the
// order status it writes. Reads are steps of their own; the writes of one cancel
// appear together at its commit.

module ReceivingRaces {
  import opened Wrappers
  import opened Receiving
  import opened ReceivingLedger

  /** A receipt as a cancel read it. */
  datatype Read = Read(id: nat, r: Receipt)

  /** `status` holds the order statuses to write, once the cancel has read the lines. */
  datatype Txn = Txn(
    scope: Scope, po: nat, ids: seq<nat>, next: nat, seen: seq<Read>, status: Option<map<nat, PoStatus>>, done: bool)
  datatype World = World(db: Db, txns: map<nat, Txn>)

  datatype Action =
    | Begin(t: nat, scope: Scope, po: nat, ids: seq<nat>)
    | Look(t: nat)
    | Settle(t: nat)
    | Commit(t: nat)
    | Book(scope: Scope, po: nat, entries: seq<Entry>, allowOver: bool)

  function Reverse(db: Db, x: Read): Db {
    db.(inventory := ReverseStock(db.inventory, x.r), pos := ReverseLine(db.pos, x.r), receipts := db.receipts - {x.id})
  }

  function ReverseSeen(db: Db, seen: seq<Read>): Db {
    if seen == [] then db else Reverse(ReverseSeen(db, seen[..|seen| - 1]), seen[|seen| - 1])
  }

  /** The cancel rewrites the status of this order. */
  predicate Concerns(x: Txn, p: nat) {
    p == x.po || exists i :: 0 <= i < |x.seen| && x.seen[i].r.po == Some(p)
  }

  /** The statuses the cancel works out: it sees its own reversals on top of what is committed. */
  function Statuses(db: Db, x: Txn): map<nat, PoStatus> {
    var d := ReverseSeen(db, x.seen);
    map p | p in d.pos && Concerns(x, p) :: PoStatusOf(d.pos[p].lines)
  }

  function WithStatuses(pos: map<nat, Po>, status: map<nat, PoStatus>): map<nat, Po> {
    map p | p in pos :: if p in status then pos[p].(status := status[p]) else pos[p]
  }

  function Finished(db: Db, x: Txn): Db
    requires x.status.Some?
  {
    var d := ReverseSeen(db, x.seen);
    d.(pos := WithStatuses(d.pos, x.status.value))
  }

  predicate HasRead(seen: seq<Read>, id: nat) {
    exists i :: 0 <= i < |seen| && seen[i].id == id
  }

  /** The scoped SELECT of one receipt; the cancel's own deletions are gone for it. */
  function Looked(db: Db, x: Txn): Txn
    requires x.next < |x.ids|
  {
    var id := x.ids[x.next];
    x.(next := x.next + 1,
       seen := if Reversible(db, x.scope, id) && !HasRead(x.seen, id) then x.seen + [Read(id, db.receipts[id])] else x.seen)
  }

  /** Both reversals write one shelf row or one order line. */
  predicate SharesRow(r: Receipt, q: Receipt) {
    r.item == q.item && (r.bin == q.bin || (r.po.Some? && r.po == q.po))
  }

  predicate Clash(xs: seq<Read>, ys: seq<Read>) {
    exists i, j :: 0 <= i < |xs| && 0 <= j < |ys| && SharesRow(xs[i].r, ys[j].r)
  }

  /** Past its writes, with the row locks they took. */
  predicate HoldsRows(x: Txn) {
    x.status.Some? && !x.done
  }

  /** The receive writes a line or a shelf row of these reversals. */
  predicate Meets(seen: seq<Read>, po: nat, entries: seq<Entry>) {
    exists i, j :: 0 <= i < |seen| && 0 <= j < |entries| && seen[i].r.item == entries[j].item
      && (seen[i].r.bin == entries[j].bin || seen[i].r.po == Some(po))
  }

  ghost predicate Next(w: World, a: Action, w': World) {
    match a
    case Begin(t, scope, po, ids) =>
      && t !in w.txns && ids != [] && !Mismatched(w.db, scope, po, ids)
      && w' == w.(txns := w.txns[t := Txn(scope, po, ids, 0, [], None, false)])
    case Look(t) =>
      && t in w.txns && !w.txns[t].done && w.txns[t].status.None? && w.txns[t].next < |w.txns[t].ids|
      && w' == w.(txns := w.txns[t := Looked(w.db, w.txns[t])])
    case Settle(t) =>
      && t in w.txns && !w.txns[t].done && w.txns[t].status.None? && w.txns[t].next == |w.txns[t].ids|
      && (forall u :: u in w.txns && u != t && HoldsRows(w.txns[u]) ==> !Clash(w.txns[t].seen, w.txns[u].seen))
      && w' == w.(txns := w.txns[t := w.txns[t].(status := Some(Statuses(w.db, w.txns[t])))])
    case Commit(t) =>
      && t in w.txns && HoldsRows(w.txns[t])
      && w' == World(Finished(w.db, w.txns[t]), w.txns[t := w.txns[t].(done := true)])
    case Book(scope, po, entries, allowOver) =>
      && ValidEntries(entries)
      && (forall u :: u in w.txns && HoldsRows(w.txns[u]) ==> !Meets(w.txns[u].seen, po, entries))
      && w' == w.(db := Step(w.db, DoReceive(scope, po, entries, allowOver)))
  }

  ghost predicate Behaviour(ws: seq<World>, acts: seq<Action>) {
    && |ws| == |acts| + 1 && ws[0].txns == map[] && Consistent(ws[0].db)
    && forall i :: 0 <= i < |acts| ==> Next(ws[i], acts[i], ws[i + 1])
  }

  // ---------- What reads know ----------

  /** Receipts never change and ids are never used again. */
  ghost predicate ReadOk(db: Db, x: Read) {
    x.id < db.nextId && (x.id in db.receipts ==> db.receipts[x.id] == x.r)
  }

  ghost predicate SeenOk(db: Db, seen: seq<Read>) {
    && (forall i :: 0 <= i < |seen| ==> ReadOk(db, seen[i]))
    && (forall i, j :: 0 <= i < j < |seen| ==> seen[i].id != seen[j].id)
  }

  ghost predicate ReadsOk(w: World) {
    && (forall id :: id in w.db.receipts ==> id < w.db.nextId)
    && (forall t :: t in w.txns ==> SeenOk(w.db, w.txns[t].seen))
  }

  /** No receipt appears or changes but under a new id. */
  ghost predicate Later(a: Db, b: Db) {
    && a.nextId <= b.nextId
    && (forall id :: id in b.receipts ==> id < b.nextId)
    && (forall id :: id in b.receipts && id < a.nextId ==> id in a.receipts && b.receipts[id] == a.receipts[id])
  }

  lemma {:induction false} ReverseSeenReceipts(db: Db, seen: seq<Read>)
    ensures ReverseSeen(db, seen).nextId == db.nextId && ReverseSeen(db, seen).bins == db.bins
    ensures forall id :: id in ReverseSeen(db, seen).receipts <==> id in db.receipts && !HasRead(seen, id)
    ensures forall id :: id in ReverseSeen(db, seen).receipts ==> ReverseSeen(db, seen).receipts[id] == db.receipts[id]
  {
    if seen != [] {
      var n := |seen| - 1;
      ReverseSeenReceipts(db, seen[..n]);
      forall id ensures HasRead(seen, id) <==> HasRead(seen[..n], id) || id == seen[n].id {
        if HasRead(seen[..n], id) {
          var i :| 0 <= i < n && seen[..n][i].id == id;
          assert seen[i].id == id;
        }
      }
    }
  }

  lemma ReceiveIsLater(db: Db, scope: Scope, po: nat, entries: seq<Entry>, allowOver: bool)
    requires forall id :: id in db.receipts ==> id < db.nextId
    ensures Later(db, Step(db, DoReceive(scope, po, entries, allowOver)))
  {
    if Receive(db, scope, po, entries, allowOver).Ok? {
      ReceiveAllTakesIn(db, po, entries, allowOver);
    }
  }

  lemma NextIsLater(w: World, a: Action, w': World)
    requires ReadsOk(w) && Next(w, a, w')
    ensures Later(w.db, w'.db)
  {
    match a
    case Commit(t) => ReverseSeenReceipts(w.db, w.txns[t].seen);
    case Book(scope, po, entries, allowOver) => ReceiveIsLater(w.db, scope, po, entries, allowOver);
    case _ =>
  }

  lemma SeenStaysOk(a: Db, b: Db, seen: seq<Read>)
    requires SeenOk(a, seen) && Later(a, b)
    ensures SeenOk(b, seen)
  {
    forall i | 0 <= i < |seen| ensures ReadOk(b, seen[i]) {
      assert ReadOk(a, seen[i]);
    }
  }

  lemma LookIsOk(db: Db, x: Txn)
    requires SeenOk(db, x.seen) && x.next < |x.ids| && forall id :: id in db.receipts ==> id < db.nextId
    ensures SeenOk(db, Looked(db, x).seen)
  {
    var y := Looked(db, x);
    forall i | 0 <= i < |y.seen| ensures ReadOk(db, y.seen[i]) {
      if i < |x.seen| { assert ReadOk(db, x.seen[i]); }
    }
  }

  lemma NextKeepsReads(w: World, a: Action, w': World)
    requires ReadsOk(w) && Next(w, a, w')
    ensures ReadsOk(w')
  {
    NextIsLater(w, a, w');
    forall t | t in w'.txns ensures SeenOk(w'.db, w'.txns[t].seen) {
      if a.Look? && a.t == t {
        LookIsOk(w.db, w.txns[t]);
      } else if t in w.txns {
        SeenStaysOk(w.db, w'.db, w.txns[t].seen);
      }
    }
  }

  lemma {:induction false} ReadsStayOk(ws: seq<World>, acts: seq<Action>, n: nat)
    requires Behaviour(ws, acts) && n < |ws|
    ensures ReadsOk(ws[n])
  {
    if n > 0 {
      ReadsStayOk(ws, acts, n - 1);
      NextKeepsReads(ws[n - 1], acts[n - 1], ws[n]);
    }
  }

  // ---------- Fresh commits keep the books ----------

  /** Everything the cancel read is still there. */
  ghost predicate Fresh(db: Db, seen: seq<Read>) {
    forall i :: 0 <= i < |seen| ==> seen[i].id in db.receipts
  }

  lemma {:induction false} FreshReversalKeeps(db: Db, seen: seq<Read>)
    requires Consistent(db) && SeenOk(db, seen) && Fresh(db, seen)
    ensures Consistent(ReverseSeen(db, seen)) && SameFrame(db, ReverseSeen(db, seen))
  {
    if seen != [] {
      var n := |seen| - 1;
      FreshReversalKeeps(db, seen[..n]);
      ReverseSeenReceipts(db, seen[..n]);
      var mid := ReverseSeen(db, seen[..n]);
      assert ReadOk(db, seen[n]) && !HasRead(seen[..n], seen[n].id);
      CancelOneKeeps(mid, Admin, seen[n].id);
      assert Reverse(mid, seen[n]) == CancelOne(mid, Admin, seen[n].id);
      SameFrameTransitive(db, mid, Reverse(mid, seen[n]));
    }
  }

  /** Equal but for order statuses. */
  ghost predicate SameBooks(a: Db, b: Db) {
    && a == b.(pos := a.pos) && a.pos.Keys == b.pos.Keys
    && forall p :: p in a.pos ==> a.pos[p] == b.pos[p].(status := a.pos[p].status)
  }

  lemma FinishedBooks(db: Db, x: Txn)
    requires x.status.Some?
    ensures SameBooks(Finished(db, x), ReverseSeen(db, x.seen))
  {
  }

  /** Order statuses are no part of the books. */
  lemma SameBooksKeep(a: Db, b: Db)
    requires SameBooks(a, b) && Consistent(b)
    ensures Consistent(a) && SameFrame(b, a)
  {
    forall id | id in a.receipts ensures id < a.nextId && ReceiptOk(a, a.receipts[id]) {
      assert ReceiptOk(b, b.receipts[id]);
    }
    forall p, item | p in a.pos && item in a.pos[p].lines ensures LineOk(a.receipts, p, item, a.pos[p].lines[item]) {
      assert LineOk(b.receipts, p, item, b.pos[p].lines[item]);
    }
    forall item, bin ensures Other(a, item, bin) == Other(b, item, bin) {
    }
    SameOtherIsOk(b, a);
  }

  lemma FreshCommitKeeps(db: Db, x: Txn)
    requires Consistent(db) && SeenOk(db, x.seen) && Fresh(db, x.seen) && x.status.Some?
    ensures Consistent(Finished(db, x)) && SameFrame(db, Finished(db, x))
  {
    FreshReversalKeeps(db, x.seen);
    FinishedBooks(db, x);
    SameBooksKeep(Finished(db, x), ReverseSeen(db, x.seen));
    SameFrameTransitive(db, ReverseSeen(db, x.seen), Finished(db, x));
  }

  /** Every cancel that commits in the run finds what it read. */
  ghost predicate AllFresh(ws: seq<World>, acts: seq<Action>, n: nat) {
    forall i :: 0 <= i < n && i < |acts| && i < |ws| && acts[i].Commit? && acts[i].t in ws[i].txns ==> Fresh(ws[i].db, ws[i].txns[acts[i].t].seen)
  }

  /** While no cancel commits on a receipt that is gone, the books stay right in every interleaving. */
  lemma {:induction false} FreshCancelsKeepBooks(ws: seq<World>, acts: seq<Action>, n: nat)
    requires Behaviour(ws, acts) && n < |ws| && AllFresh(ws, acts, n)
    ensures Consistent(ws[n].db) && SameFrame(ws[0].db, ws[n].db)
  {
    if n > 0 {
      FreshCancelsKeepBooks(ws, acts, n - 1);
      ReadsStayOk(ws, acts, n - 1);
      var w, a, w' := ws[n - 1], acts[n - 1], ws[n];
      assert Next(w, a, w');
      match a
      case Commit(t) => FreshCommitKeeps(w.db, w.txns[t]);
      case Book(scope, po, entries, allowOver) => StepKeepsBooks(w.db, DoReceive(scope, po, entries, allowOver));
      case _ => SameFrameReflexive(w.db);
      SameFrameTransitive(ws[0].db, w.db, w'.db);
    } else {
      SameFrameReflexive(ws[0].db);
    }
  }

  lemma SameFrameReflexive(db: Db)
    ensures SameFrame(db, db)
  {
  }

  // ---------- When a read goes stale ----------

  /** At step `q` another cancel commits the receipt that `t` has read. */
  ghost predicate RacedAt(ws: seq<World>, acts: seq<Action>, q: nat, t: nat, id: nat) {
    && q < |acts| && q < |ws| && acts[q].Commit? && acts[q].t != t
    && t in ws[q].txns && HasRead(ws[q].txns[t].seen, id)
    && acts[q].t in ws[q].txns && HasRead(ws[q].txns[acts[q].t].seen, id)
  }

  /** Gone receipts stay gone. */
  lemma {:induction false} GoneStaysGone(ws: seq<World>, acts: seq<Action>, q: nat, n: nat, id: nat)
    requires Behaviour(ws, acts) && q <= n < |ws| && id < ws[q].db.nextId && id !in ws[q].db.receipts
    ensures id < ws[n].db.nextId && id !in ws[n].db.receipts
  {
    if q < n {
      GoneStaysGone(ws, acts, q, n - 1, id);
      ReadsStayOk(ws, acts, n - 1);
      NextIsLater(ws[n - 1], acts[n - 1], ws[n]);
    }
  }

  lemma {:induction false} StaleMeansRaced(ws: seq<World>, acts: seq<Action>, n: nat, t: nat, id: nat)
    requires Behaviour(ws, acts) && n < |ws| && t in ws[n].txns && !ws[n].txns[t].done
    requires HasRead(ws[n].txns[t].seen, id) && id !in ws[n].db.receipts
    ensures exists q: nat :: q < n && RacedAt(ws, acts, q, t, id)
  {
    if n > 0 {
      var w, a, w' := ws[n - 1], acts[n - 1], ws[n];
      assert Next(w, a, w');
      ReadsStayOk(ws, acts, n - 1);
      NextIsLater(w, a, w');
      if t in w.txns && HasRead(w.txns[t].seen, id) {
        if id !in w.db.receipts {
          StaleMeansRaced(ws, acts, n - 1, t, id);
        } else {
          RemovedByCommit(w, a, w', id);
          assert RacedAt(ws, acts, n - 1, t, id);
        }
      } else {
        ReadIsPresent(w, a, w', t, id);
      }
    }
  }

  /** Only the commit of a cancel that read it takes a receipt away. */
  lemma RemovedByCommit(w: World, a: Action, w': World, id: nat)
    requires Next(w, a, w') && ReadsOk(w) && id in w.db.receipts && id !in w'.db.receipts
    ensures a.Commit? && HasRead(w.txns[a.t].seen, id)
  {
    match a
    case Commit(t) => ReverseSeenReceipts(w.db, w.txns[t].seen);
    case Book(scope, po, entries, allowOver) =>
      if Receive(w.db, scope, po, entries, allowOver).Ok? { ReceiveAllTakesIn(w.db, po, entries, allowOver); }
    case _ =>
  }

  lemma ReadIsPresent(w: World, a: Action, w': World, t: nat, id: nat)
    requires Next(w, a, w') && t in w'.txns && HasRead(w'.txns[t].seen, id) && !(t in w.txns && HasRead(w.txns[t].seen, id))
    ensures id in w'.db.receipts
  {
    var i :| 0 <= i < |w'.txns[t].seen| && w'.txns[t].seen[i].id == id;
    if a.Look? && a.t == t {
      assert forall j :: 0 <= j < |w.txns[t].seen| ==> w.txns[t].seen[j].id != id;
    }
  }

  /**
   * A receipt a cancel has read is gone at its commit exactly when another cancel that
   * had read it too committed in between.
   */
  lemma StaleExactlyWhenRaced(ws: seq<World>, acts: seq<Action>, n: nat, t: nat, id: nat)
    requires Behaviour(ws, acts) && n < |ws| && t in ws[n].txns && !ws[n].txns[t].done && HasRead(ws[n].txns[t].seen, id)
    ensures id !in ws[n].db.receipts <==> exists q: nat :: q < n && RacedAt(ws, acts, q, t, id)
  {
    if q: nat :| q < n && RacedAt(ws, acts, q, t, id) {
      var u := acts[q].t;
      ReadsStayOk(ws, acts, q);
      assert Next(ws[q], acts[q], ws[q + 1]);
      ReverseSeenReceipts(ws[q].db, ws[q].txns[u].seen);
      var i :| 0 <= i < |ws[q].txns[u].seen| && ws[q].txns[u].seen[i].id == id;
      assert ReadOk(ws[q].db, ws[q].txns[u].seen[i]);
      GoneStaysGone(ws, acts, q + 1, n, id);
    }
    if id !in ws[n].db.receipts { StaleMeansRaced(ws, acts, n, t, id); }
  }

  // ---------- When a race does harm ----------

  /** All the run's requests are cancels of this one receipt. */
  ghost predicate CancelsOf(acts: seq<Action>, po: nat, id: nat) {
    forall i :: 0 <= i < |acts| ==> !acts[i].Book? && (acts[i].Begin? ==> acts[i].po == po && acts[i].ids == [id])
  }

  function Once(db: Db, id: nat): Db
    requires id in db.receipts
  {
    Reverse(db, Read(id, db.receipts[id]))
  }

  /** Whatever races, the receipt is there in full or reversed once, on its shelf and on its line. */
  ghost predicate ReversedOnce(ws: seq<World>, id: nat)
    requires ws != [] && id in ws[0].db.receipts
  {
    forall n :: 0 <= n < |ws| ==> SameBooks(ws[n].db, ws[0].db) || SameBooks(ws[n].db, Once(ws[0].db, id))
  }

  /** The receipt is all there is on its shelf and on its order line. */
  ghost predicate Alone(db: Db, id: nat)
    requires Consistent(db) && id in db.receipts && db.receipts[id].po.Some?
  {
    var r := db.receipts[id];
    assert ReceiptOk(db, r);
    db.inventory[(r.item, r.bin)] == r.qty && db.pos[r.po.value].lines[r.item].received == r.qty
  }

  lemma OneSeen(db: Db, seen: seq<Read>, read: Read)
    requires seen == [read]
    ensures ReverseSeen(db, seen) == Reverse(db, read)
  {
    assert seen[..0] == [];
    assert ReverseSeen(db, []) == db;
  }

  /** The order has the receipt's line and the shelf its row. */
  ghost predicate HasRows(db: Db, po: nat, r: Receipt) {
    r.po == Some(po) && po in db.pos && r.item in db.pos[po].lines && (r.item, r.bin) in db.inventory
  }

  /** Receipt, shelf and line after one reversal. */
  lemma ReverseMeans(db: Db, po: nat, id: nat, r: Receipt)
    requires HasRows(db, po, r)
    ensures var db' := Reverse(db, Read(id, r));
      && HasRows(db', po, r) && db'.receipts == db.receipts - {id}
      && db'.inventory == db.inventory[(r.item, r.bin) := Clamp(db.inventory[(r.item, r.bin)] - r.qty)]
      && db'.pos[po].lines[r.item].received == Clamp(db.pos[po].lines[r.item].received - r.qty)
      && db'.pos[po].lines[r.item].status == LineStatusOf(db'.pos[po].lines[r.item].received, db'.pos[po].lines[r.item].ordered)
  {
  }

  /** Reversing a receipt that is gone, on a shelf and a line at zero, changes nothing. */
  lemma NothingLeft(db: Db, po: nat, id: nat, r: Receipt)
    requires HasRows(db, po, r) && id !in db.receipts && db.inventory[(r.item, r.bin)] == 0
    requires db.pos[po].lines[r.item].received == 0 && db.pos[po].lines[r.item].status == LinePending
    ensures Reverse(db, Read(id, r)) == db
  {
    var line := db.pos[po].lines[r.item];
    assert Clamp(line.received - r.qty) == 0;
    assert db.pos[po].lines[r.item := line] == db.pos[po].lines;
    assert ReverseLine(db.pos, r) == db.pos;
    assert ReverseStock(db.inventory, r) == db.inventory;
    assert db.receipts - {id} == db.receipts;
  }

  /** The second reversal of a receipt that was alone finds shelf and line at zero. */
  lemma SecondFindsNothing(db: Db, po: nat, id: nat)
    requires Consistent(db) && id in db.receipts && db.receipts[id].po == Some(po) && Alone(db, id)
    ensures Reverse(Once(db, id), Read(id, db.receipts[id])) == Once(db, id)
  {
    var r := db.receipts[id];
    assert ReceiptOk(db, r);
    ReverseMeans(db, po, id, r);
    NothingLeft(Once(db, id), po, id, r);
  }

  lemma ReverseSameBooks(a: Db, b: Db, x: Read)
    requires SameBooks(a, b)
    ensures SameBooks(Reverse(a, x), Reverse(b, x))
  {
  }

  ghost predicate RacerOk(x: Txn, po: nat, id: nat, r: Receipt) {
    x.po == po && x.ids == [id] && x.next <= 1 && (x.seen == [] || x.seen == [Read(id, r)])
  }

  /** All racers are cancels of the receipt, and it is there in full or reversed once. */
  ghost predicate RaceInv(db: Db, po: nat, id: nat, w: World)
    requires id in db.receipts
  {
    && (SameBooks(w.db, db) || SameBooks(w.db, Once(db, id)))
    && forall t :: t in w.txns ==> RacerOk(w.txns[t], po, id, db.receipts[id])
  }

  lemma RacerCommits(db: Db, po: nat, id: nat, now: Db, x: Txn)
    requires Consistent(db) && id in db.receipts && db.receipts[id].po == Some(po) && Alone(db, id) && x.status.Some?
    requires (SameBooks(now, db) || SameBooks(now, Once(db, id))) && RacerOk(x, po, id, db.receipts[id])
    ensures SameBooks(Finished(now, x), db) || SameBooks(Finished(now, x), Once(db, id))
  {
    FinishedBooks(now, x);
    if x.seen != [] {
      var read := Read(id, db.receipts[id]);
      OneSeen(now, x.seen, read);
      if SameBooks(now, db) {
        ReverseSameBooks(now, db, read);
      } else {
        ReverseSameBooks(now, Once(db, id), read);
        SecondFindsNothing(db, po, id);
      }
    }
  }

  lemma RacerLooks(db: Db, id: nat, now: Db, po: nat, x: Txn)
    requires id in db.receipts && (SameBooks(now, db) || SameBooks(now, Once(db, id)))
    requires RacerOk(x, po, id, db.receipts[id]) && x.next < |x.ids|
    ensures RacerOk(Looked(now, x), po, id, db.receipts[id])
  {
  }

  lemma RacersStayOk(db: Db, po: nat, id: nat, w: World, a: Action, w': World, t: nat)
    requires id in db.receipts && RaceInv(db, po, id, w) && t in w'.txns
    requires Next(w, a, w') && !a.Book? && (a.Begin? ==> a.po == po && a.ids == [id])
    ensures RacerOk(w'.txns[t], po, id, db.receipts[id])
  {
    if t in w.txns { assert RacerOk(w.txns[t], po, id, db.receipts[id]); }
    if a.Look? && a.t == t { RacerLooks(db, id, w.db, po, w.txns[t]); }
  }

  lemma RaceStep(db: Db, po: nat, id: nat, w: World, a: Action, w': World)
    requires Consistent(db) && id in db.receipts && db.receipts[id].po == Some(po) && Alone(db, id)
    requires RaceInv(db, po, id, w) && Next(w, a, w') && !a.Book? && (a.Begin? ==> a.po == po && a.ids == [id])
    ensures RaceInv(db, po, id, w')
  {
    if a.Commit? {
      assert RacerOk(w.txns[a.t], po, id, db.receipts[id]);
      RacerCommits(db, po, id, w.db, w.txns[a.t]);
    }
    forall t | t in w'.txns ensures RacerOk(w'.txns[t], po, id, db.receipts[id]) {
      RacersStayOk(db, po, id, w, a, w', t);
    }
  }

  lemma RaceStarts(db: Db, po: nat, id: nat, w: World)
    requires id in db.receipts && w == World(db, map[])
    ensures RaceInv(db, po, id, w)
  {
  }

  lemma RaceMoves(ws: seq<World>, acts: seq<Action>, db: Db, po: nat, id: nat, n: nat)
    requires Behaviour(ws, acts) && CancelsOf(acts, po, id) && n < |acts|
    requires Consistent(db) && id in db.receipts && db.receipts[id].po == Some(po) && Alone(db, id)
    ensures RaceInv(db, po, id, ws[n]) ==> RaceInv(db, po, id, ws[n + 1])
  {
    if RaceInv(db, po, id, ws[n]) { RaceStep(db, po, id, ws[n], acts[n], ws[n + 1]); }
  }

  lemma {:induction false} RaceInvSpreads(ws: seq<World>, db: Db, po: nat, id: nat, n: nat)
    requires n < |ws| && id in db.receipts && RaceInv(db, po, id, ws[0])
    requires forall i :: 0 <= i < |ws| - 1 && RaceInv(db, po, id, ws[i]) ==> RaceInv(db, po, id, ws[i + 1])
    ensures RaceInv(db, po, id, ws[n])
  {
    if n > 0 { RaceInvSpreads(ws, db, po, id, n - 1); }
  }

  lemma AloneIsSafe(ws: seq<World>, acts: seq<Action>, db: Db, po: nat, id: nat, n: nat)
    requires Behaviour(ws, acts) && ws[0].db == db && CancelsOf(acts, po, id) && n < |ws|
    requires Consistent(db) && id in db.receipts && db.receipts[id].po == Some(po) && Alone(db, id)
    ensures RaceInv(db, po, id, ws[n])
  {
    RaceStarts(db, po, id, ws[0]);
    forall i | 0 <= i < |ws| - 1 && RaceInv(db, po, id, ws[i]) ensures RaceInv(db, po, id, ws[i + 1]) {
      RaceMoves(ws, acts, db, po, id, i);
    }
    RaceInvSpreads(ws, db, po, id, n);
  }

  // ---------- Runs of two cancels ----------

  /** A run from `db` that takes only these actions and ends in `w`. */
  ghost predicate LeadsTo(db: Db, allow: set<Action>, ws: seq<World>, acts: seq<Action>, w: World) {
    Behaviour(ws, acts) && ws[0] == World(db, map[]) && ws[|ws| - 1] == w && forall i :: 0 <= i < |acts| ==> acts[i] in allow
  }

  ghost predicate Reaches(db: Db, allow: set<Action>, w: World) {
    exists ws, acts :: LeadsTo(db, allow, ws, acts, w)
  }

  lemma OneMore(db: Db, allow: set<Action>, w: World, a: Action, w': World)
    requires Reaches(db, allow, w) && Next(w, a, w') && a in allow
    ensures Reaches(db, allow, w')
  {
    var ws, acts :| LeadsTo(db, allow, ws, acts, w);
    var vs, bs := ws + [w'], acts + [a];
    forall i | 0 <= i < |bs| ensures Next(vs[i], bs[i], vs[i + 1]) {
      if i < |acts| { assert Next(ws[i], acts[i], ws[i + 1]); }
    }
    assert LeadsTo(db, allow, vs, bs, w');
  }

  /** An administrator's cancel of one receipt: begun, past its read, past its status read, over. */
  function Idle(po: nat, id: nat): Txn {
    Txn(Admin, po, [id], 0, [], None, false)
  }

  function Ready(po: nat, id: nat, r: Receipt): Txn {
    Txn(Admin, po, [id], 1, [Read(id, r)], None, false)
  }

  function SettledAt(db: Db, po: nat, id: nat, r: Receipt): Txn {
    Ready(po, id, r).(status := Some(Statuses(db, Ready(po, id, r))))
  }

  function Over(x: Txn): Txn {
    x.(done := true)
  }

  function Two(db: Db, x: Txn, y: Txn): World {
    World(db, map[0 := x, 1 := y])
  }

  /** Two cancels of one receipt each, of one order. */
  function PairActions(po: nat, a: nat, b: nat): set<Action> {
    {Begin(0, Admin, po, [a]), Begin(1, Admin, po, [b]), Look(0), Look(1), Settle(0), Settle(1), Commit(0), Commit(1)}
  }

  lemma TwoMoves(x: Txn, y: Txn, x': Txn, y': Txn)
    ensures map[0 := x, 1 := y][0 := x'] == map[0 := x', 1 := y] && map[0 := x, 1 := y][1 := y'] == map[0 := x, 1 := y']
  {
  }

  lemma PairBegins(db: Db, po: nat, a: nat, b: nat)
    requires Consistent(db) && a in db.receipts && b in db.receipts && db.receipts[a].po == db.receipts[b].po == Some(po)
    ensures Reaches(db, PairActions(po, a, b), Two(db, Idle(po, a), Idle(po, b)))
  {
    var allow := PairActions(po, a, b);
    var start, one := World(db, map[]), World(db, map[0 := Idle(po, a)]);
    assert LeadsTo(db, allow, [start], [], start);
    assert !Mismatched(db, Admin, po, [a]) && !Mismatched(db, Admin, po, [b]);
    OneMore(db, allow, start, Begin(0, Admin, po, [a]), one);
    assert map[0 := Idle(po, a)][1 := Idle(po, b)] == map[0 := Idle(po, a), 1 := Idle(po, b)];
    OneMore(db, allow, one, Begin(1, Admin, po, [b]), Two(db, Idle(po, a), Idle(po, b)));
  }

  lemma FirstLooks(db: Db, now: Db, allow: set<Action>, x: Txn, y: Txn)
    requires Reaches(db, allow, Two(now, x, y)) && Look(0) in allow && !x.done && x.status.None? && x.next < |x.ids|
    ensures Reaches(db, allow, Two(now, Looked(now, x), y))
  {
    TwoMoves(x, y, Looked(now, x), y);
    OneMore(db, allow, Two(now, x, y), Look(0), Two(now, Looked(now, x), y));
  }

  lemma SecondLooks(db: Db, now: Db, allow: set<Action>, x: Txn, y: Txn)
    requires Reaches(db, allow, Two(now, x, y)) && Look(1) in allow && !y.done && y.status.None? && y.next < |y.ids|
    ensures Reaches(db, allow, Two(now, x, Looked(now, y)))
  {
    TwoMoves(x, y, x, Looked(now, y));
    OneMore(db, allow, Two(now, x, y), Look(1), Two(now, x, Looked(now, y)));
  }

  /** Both read their receipt before either commits. */
  lemma PairReads(db: Db, po: nat, a: nat, b: nat)
    requires Consistent(db) && a in db.receipts && b in db.receipts && db.receipts[a].po == db.receipts[b].po == Some(po)
    ensures Reaches(db, PairActions(po, a, b), Two(db, Ready(po, a, db.receipts[a]), Ready(po, b, db.receipts[b])))
  {
    PairBegins(db, po, a, b);
    assert Looked(db, Idle(po, a)) == Ready(po, a, db.receipts[a]) && Looked(db, Idle(po, b)) == Ready(po, b, db.receipts[b]);
    FirstLooks(db, db, PairActions(po, a, b), Idle(po, a), Idle(po, b));
    SecondLooks(db, db, PairActions(po, a, b), Ready(po, a, db.receipts[a]), Idle(po, b));
  }

  lemma FirstSettles(db: Db, now: Db, allow: set<Action>, x: Txn, y: Txn)
    requires Reaches(db, allow, Two(now, x, y)) && Settle(0) in allow
    requires !x.done && x.status.None? && x.next == |x.ids| && (HoldsRows(y) ==> !Clash(x.seen, y.seen))
    ensures Reaches(db, allow, Two(now, x.(status := Some(Statuses(now, x))), y))
  {
    TwoMoves(x, y, x.(status := Some(Statuses(now, x))), y);
    OneMore(db, allow, Two(now, x, y), Settle(0), Two(now, x.(status := Some(Statuses(now, x))), y));
  }

  lemma SecondSettles(db: Db, now: Db, allow: set<Action>, x: Txn, y: Txn)
    requires Reaches(db, allow, Two(now, x, y)) && Settle(1) in allow
    requires !y.done && y.status.None? && y.next == |y.ids| && (HoldsRows(x) ==> !Clash(y.seen, x.seen))
    ensures Reaches(db, allow, Two(now, x, y.(status := Some(Statuses(now, y)))))
  {
    TwoMoves(x, y, x, y.(status := Some(Statuses(now, y))));
    OneMore(db, allow, Two(now, x, y), Settle(1), Two(now, x, y.(status := Some(Statuses(now, y)))));
  }

  lemma FirstCommits(db: Db, now: Db, allow: set<Action>, x: Txn, y: Txn)
    requires Reaches(db, allow, Two(now, x, y)) && Commit(0) in allow && HoldsRows(x)
    ensures Reaches(db, allow, Two(Finished(now, x), Over(x), y))
  {
    TwoMoves(x, y, Over(x), y);
    OneMore(db, allow, Two(now, x, y), Commit(0), Two(Finished(now, x), Over(x), y));
  }

  lemma SecondCommits(db: Db, now: Db, allow: set<Action>, x: Txn, y: Txn)
    requires Reaches(db, allow, Two(now, x, y)) && Commit(1) in allow && HoldsRows(y)
    ensures Reaches(db, allow, Two(Finished(now, y), x, Over(y)))
  {
    TwoMoves(x, y, x, Over(y));
    OneMore(db, allow, Two(now, x, y), Commit(1), Two(Finished(now, y), x, Over(y)));
  }

  /** The race that does it: both read the receipt, then one after the other reverses it. */
  lemma BothReverse(db: Db, po: nat, id: nat) returns (end: World)
    requires Consistent(db) && id in db.receipts && db.receipts[id].po == Some(po)
    ensures Reaches(db, PairActions(po, id, id), end)
    ensures SameBooks(end.db, Reverse(Once(db, id), Read(id, db.receipts[id])))
  {
    var allow, read := PairActions(po, id, id), Read(id, db.receipts[id]);
    var x := Ready(po, id, db.receipts[id]);
    PairReads(db, po, id, id);
    FirstSettles(db, db, allow, x, x);
    var x1 := SettledAt(db, po, id, db.receipts[id]);
    FirstCommits(db, db, allow, x1, x);
    var mid := Finished(db, x1);
    SecondSettles(db, mid, allow, Over(x1), x);
    var y1 := SettledAt(mid, po, id, db.receipts[id]);
    SecondCommits(db, mid, allow, Over(x1), y1);
    end := Two(Finished(mid, y1), Over(x1), Over(y1));
    OneSeen(db, x1.seen, read);
    OneSeen(mid, y1.seen, read);
    FinishedBooks(db, x1);
    FinishedBooks(mid, y1);
    ReverseSameBooks(mid, Once(db, id), read);
  }

  lemma SecondTakesMore(db: Db, po: nat, id: nat, twice: Db)
    requires Consistent(db) && id in db.receipts && db.receipts[id].po == Some(po) && db.receipts[id].qty > 0 && !Alone(db, id)
    requires SameBooks(twice, Reverse(Once(db, id), Read(id, db.receipts[id])))
    ensures !SameBooks(twice, db) && !SameBooks(twice, Once(db, id))
  {
    var r := db.receipts[id];
    assert ReceiptOk(db, r);
    ClampsNeverBite(db, id);
    ReverseMeans(db, po, id, r);
    ReverseMeans(Once(db, id), po, id, r);
  }

  /** Where the receipt is not alone, the pair of racing cancels shows it. */
  lemma RaceCanHarm(db: Db, po: nat, id: nat) returns (ws: seq<World>, acts: seq<Action>)
    requires Consistent(db) && id in db.receipts && db.receipts[id].po == Some(po) && db.receipts[id].qty > 0 && !Alone(db, id)
    ensures Behaviour(ws, acts) && CancelsOf(acts, po, id) && ws[0].db == db && !ReversedOnce(ws, id)
  {
    var end := BothReverse(db, po, id);
    SecondTakesMore(db, po, id, end.db);
    ws, acts :| LeadsTo(db, PairActions(po, id, id), ws, acts, end);
    EndIsWrong(ws, db, id);
    PairIsCancels(acts, po, id);
  }

  lemma EndIsWrong(ws: seq<World>, db: Db, id: nat)
    requires ws != [] && ws[0].db == db && id in db.receipts
    requires !SameBooks(ws[|ws| - 1].db, db) && !SameBooks(ws[|ws| - 1].db, Once(db, id))
    ensures !ReversedOnce(ws, id)
  {
    var n := |ws| - 1;
    assert !(SameBooks(ws[n].db, ws[0].db) || SameBooks(ws[n].db, Once(ws[0].db, id)));
  }

  lemma PairIsCancels(acts: seq<Action>, po: nat, id: nat)
    requires forall i :: 0 <= i < |acts| ==> acts[i] in PairActions(po, id, id)
    ensures CancelsOf(acts, po, id)
  {
  }

  lemma AloneIsReversedOnce(ws: seq<World>, acts: seq<Action>, db: Db, po: nat, id: nat)
    requires Behaviour(ws, acts) && ws[0].db == db && CancelsOf(acts, po, id)
    requires Consistent(db) && id in db.receipts && db.receipts[id].po == Some(po) && Alone(db, id)
    ensures ReversedOnce(ws, id)
  {
    forall n | 0 <= n < |ws| ensures SameBooks(ws[n].db, ws[0].db) || SameBooks(ws[n].db, Once(ws[0].db, id)) {
      AloneIsSafe(ws, acts, db, po, id, n);
    }
  }

  /**
   * However many cancels of one receipt race, it is reversed at most once, exactly when
   * it is all there is on its shelf and on its order line: the clamp at zero then hides
   * the second reversal. With anything else there, a second cancel takes that too.
   */
  lemma RaceIsHarmlessExactly(db: Db, po: nat, id: nat)
    requires Consistent(db) && id in db.receipts && db.receipts[id].po == Some(po) && db.receipts[id].qty > 0
    ensures (forall ws: seq<World>, acts: seq<Action> :: Behaviour(ws, acts) && CancelsOf(acts, po, id) && ws[0].db == db ==> ReversedOnce(ws, id))
      <==> Alone(db, id)
  {
    if Alone(db, id) {
      forall ws: seq<World>, acts: seq<Action> | Behaviour(ws, acts) && CancelsOf(acts, po, id) && ws[0].db == db ensures ReversedOnce(ws, id) {
        AloneIsReversedOnce(ws, acts, db, po, id);
      }
    } else {
      var ws, acts := RaceCanHarm(db, po, id);
    }
  }
}
