// Receives and cancels in any order: the state is a function of the live receipts.

module ReceivingLedger {
  import opened Wrappers
  import opened Sums
  import opened Receiving

  // ---------- What the live receipts add up to ----------

  datatype Account = PoLine(po: nat, item: nat) | Shelf(item: nat, bin: nat)

  function Share(r: Receipt, a: Account): int {
    match a
    case PoLine(po, item) => if r.po == Some(po) && r.item == item then r.qty else 0
    case Shelf(item, bin) => if r.item == item && r.bin == bin then r.qty else 0
  }

  function Shares(receipts: map<nat, Receipt>, a: Account): map<nat, int> {
    map id | id in receipts :: Share(receipts[id], a)
  }

  /** The summed quantity of the live receipts of one line or one shelf. */
  ghost function Booked(receipts: map<nat, Receipt>, a: Account): int {
    Total(Shares(receipts, a))
  }

  lemma BookedAdd(receipts: map<nat, Receipt>, id: nat, r: Receipt, a: Account)
    requires id !in receipts
    ensures Booked(receipts[id := r], a) == Booked(receipts, a) + Share(r, a)
  {
    TotalUpdate(Shares(receipts, a), id, Share(r, a));
    assert Shares(receipts[id := r], a) == Shares(receipts, a)[id := Share(r, a)];
  }

  lemma BookedRemove(receipts: map<nat, Receipt>, id: nat, a: Account)
    requires id in receipts
    ensures Booked(receipts, a) == Booked(receipts - {id}, a) + Share(receipts[id], a)
    ensures Share(receipts[id], a) <= Booked(receipts, a)
  {
    TotalRemove(Shares(receipts, a), id);
    assert Shares(receipts - {id}, a) == Shares(receipts, a) - {id};
    TotalNonNegative(Shares(receipts - {id}, a));
  }

  // ---------- The invariant ----------

  ghost predicate LineOk(receipts: map<nat, Receipt>, po: nat, item: nat, line: Line) {
    && line.ordered > 0
    && line.received == Booked(receipts, PoLine(po, item))
    && line.status == LineStatusOf(line.received, line.ordered)
  }

  ghost predicate ReceiptOk(db: Db, r: Receipt) {
    && (r.item, r.bin) in db.inventory
    && (r.po.Some? ==> r.po.value in db.pos && r.item in db.pos[r.po.value].lines)
  }

  /** Stock of a shelf that does not come from a live receipt. */
  ghost function Other(db: Db, item: nat, bin: nat): int {
    OnHand(db.inventory, (item, bin)) - Booked(db.receipts, Shelf(item, bin))
  }

  ghost predicate ReceiptsOk(db: Db) {
    forall id :: id in db.receipts ==> id < db.nextId && ReceiptOk(db, db.receipts[id])
  }

  ghost predicate LinesOk(db: Db) {
    forall po, item :: po in db.pos && item in db.pos[po].lines ==> LineOk(db.receipts, po, item, db.pos[po].lines[item])
  }

  ghost predicate ShelvesOk(db: Db) {
    forall item, bin :: 0 <= Other(db, item, bin)
  }

  ghost predicate Consistent(db: Db) {
    ReceiptsOk(db) && LinesOk(db) && ShelvesOk(db)
  }

  ghost predicate SameOther(a: Db, b: Db) {
    forall item, bin :: Other(a, item, bin) == Other(b, item, bin)
  }

  ghost predicate SameOrdered(a: Db, b: Db) {
    && a.pos.Keys == b.pos.Keys
    && forall po :: po in a.pos ==>
         && a.pos[po].warehouse == b.pos[po].warehouse && a.pos[po].lines.Keys == b.pos[po].lines.Keys
         && forall item :: item in a.pos[po].lines ==> a.pos[po].lines[item].ordered == b.pos[po].lines[item].ordered
  }

  /** Nothing but receipts, received quantities, statuses and the receipts' own stock has changed. */
  ghost predicate SameFrame(a: Db, b: Db) {
    a.bins == b.bins && SameOrdered(a, b) && SameOther(a, b)
  }

  /** The purchase order's status says what its lines say. */
  ghost predicate Settled(db: Db, po: nat) {
    po in db.pos && db.pos[po].status == PoStatusOf(db.pos[po].lines)
  }

  lemma SameOtherIsOk(a: Db, b: Db)
    requires SameOther(a, b) && ShelvesOk(a)
    ensures ShelvesOk(b)
  {
    forall item, bin ensures 0 <= Other(b, item, bin) {
      assert Other(a, item, bin) == Other(b, item, bin);
    }
  }

  // ---------- One entry, one reversal ----------

  lemma ReceiveOneBooks(db: Db, po: nat, e: Entry, allowOver: bool, a: Account)
    requires ReceiptsOk(db) && po in db.pos && ReceiveOne(db, po, e, allowOver).Ok?
    ensures var r := Receipt(Some(po), e.item, e.qty, e.bin, db.pos[po].warehouse);
      Booked(ReceiveOne(db, po, e, allowOver).value.receipts, a) == Booked(db.receipts, a) + Share(r, a)
  {
    BookedAdd(db.receipts, db.nextId, Receipt(Some(po), e.item, e.qty, e.bin, db.pos[po].warehouse), a);
  }

  lemma ReceiveOneKeepsLine(db: Db, po: nat, e: Entry, allowOver: bool, p: nat, item: nat)
    requires Consistent(db) && po in db.pos && e.qty > 0 && ReceiveOne(db, po, e, allowOver).Ok?
    requires p in db.pos && item in db.pos[p].lines
    ensures var db' := ReceiveOne(db, po, e, allowOver).value; LineOk(db'.receipts, p, item, db'.pos[p].lines[item])
  {
    assert LineOk(db.receipts, p, item, db.pos[p].lines[item]);
    ReceiveOneBooks(db, po, e, allowOver, PoLine(p, item));
    LineNotNegative(db, p, item);
  }

  lemma ReceiveOneKeepsShelf(db: Db, po: nat, e: Entry, allowOver: bool, item: nat, bin: nat)
    requires ReceiptsOk(db) && po in db.pos && ReceiveOne(db, po, e, allowOver).Ok?
    ensures Other(ReceiveOne(db, po, e, allowOver).value, item, bin) == Other(db, item, bin)
  {
    ReceiveOneBooks(db, po, e, allowOver, Shelf(item, bin));
  }

  lemma ReceiveOneKeeps(db: Db, po: nat, e: Entry, allowOver: bool)
    requires Consistent(db) && po in db.pos && e.qty > 0 && ReceiveOne(db, po, e, allowOver).Ok?
    ensures var db' := ReceiveOne(db, po, e, allowOver).value; Consistent(db') && SameFrame(db, db')
  {
    var db' := ReceiveOne(db, po, e, allowOver).value;
    forall p, item | p in db'.pos && item in db'.pos[p].lines ensures LineOk(db'.receipts, p, item, db'.pos[p].lines[item]) {
      ReceiveOneKeepsLine(db, po, e, allowOver, p, item);
    }
    forall item, bin ensures Other(db', item, bin) == Other(db, item, bin) {
      ReceiveOneKeepsShelf(db, po, e, allowOver, item, bin);
    }
    SameOtherIsOk(db, db');
    assert ReceiptsOk(db') by { ReceiveOneKeepsReceipts(db, po, e, allowOver); }
  }

  lemma ReceiveOneKeepsReceipts(db: Db, po: nat, e: Entry, allowOver: bool)
    requires ReceiptsOk(db) && po in db.pos && ReceiveOne(db, po, e, allowOver).Ok?
    ensures ReceiptsOk(ReceiveOne(db, po, e, allowOver).value)
  {
    var db' := ReceiveOne(db, po, e, allowOver).value;
    forall id | id in db'.receipts ensures id < db'.nextId && ReceiptOk(db', db'.receipts[id]) {
      if id in db.receipts { assert ReceiptOk(db, db.receipts[id]); }
    }
  }

  lemma LineNotNegative(db: Db, po: nat, item: nat)
    requires Consistent(db) && po in db.pos && item in db.pos[po].lines
    ensures 0 <= db.pos[po].lines[item].received
  {
    assert LineOk(db.receipts, po, item, db.pos[po].lines[item]);
    TotalNonNegative(Shares(db.receipts, PoLine(po, item)));
  }

  /** No GREATEST(0, n) ever bites: shelf and line hold at least what the receipt brought. */
  lemma ClampsNeverBite(db: Db, id: nat)
    requires Consistent(db) && id in db.receipts
    ensures var r := db.receipts[id];
      && (r.item, r.bin) in db.inventory && r.qty <= db.inventory[(r.item, r.bin)]
      && (r.po.Some? ==> r.po.value in db.pos && r.item in db.pos[r.po.value].lines
                         && r.qty <= db.pos[r.po.value].lines[r.item].received)
  {
    var r := db.receipts[id];
    assert ReceiptOk(db, r);
    BookedRemove(db.receipts, id, Shelf(r.item, r.bin));
    assert 0 <= Other(db, r.item, r.bin);
    if r.po.Some? {
      BookedRemove(db.receipts, id, PoLine(r.po.value, r.item));
      assert LineOk(db.receipts, r.po.value, r.item, db.pos[r.po.value].lines[r.item]);
    }
  }

  lemma CancelOneKeepsLine(db: Db, scope: Scope, id: nat, p: nat, item: nat)
    requires Consistent(db) && Reversible(db, scope, id) && p in db.pos && item in db.pos[p].lines
    ensures var db' := CancelOne(db, scope, id);
      p in db'.pos && item in db'.pos[p].lines && LineOk(db'.receipts, p, item, db'.pos[p].lines[item])
  {
    ClampsNeverBite(db, id);
    assert LineOk(db.receipts, p, item, db.pos[p].lines[item]);
    BookedRemove(db.receipts, id, PoLine(p, item));
    var r := db.receipts[id];
    var db' := CancelOne(db, scope, id);
    assert db'.receipts == db.receipts - {id} && db'.pos == ReverseLine(db.pos, r);
    if r.po == Some(p) && r.item == item {
      assert db'.pos[p].lines[item].received == db.pos[p].lines[item].received - r.qty;
    } else {
      assert db'.pos[p].lines[item] == db.pos[p].lines[item];
    }
  }

  lemma CancelOneKeepsShelf(db: Db, scope: Scope, id: nat, item: nat, bin: nat)
    requires Consistent(db) && Reversible(db, scope, id)
    ensures Other(CancelOne(db, scope, id), item, bin) == Other(db, item, bin)
  {
    ClampsNeverBite(db, id);
    BookedRemove(db.receipts, id, Shelf(item, bin));
  }

  lemma CancelOneKeepsReceipts(db: Db, scope: Scope, id: nat)
    requires Consistent(db) && Reversible(db, scope, id)
    ensures ReceiptsOk(CancelOne(db, scope, id))
  {
    var db' := CancelOne(db, scope, id);
    forall i | i in db'.receipts ensures i < db'.nextId && ReceiptOk(db', db'.receipts[i]) {
      assert ReceiptOk(db, db.receipts[i]);
    }
  }

  lemma CancelOneKeepsLines(db: Db, scope: Scope, id: nat)
    requires Consistent(db) && Reversible(db, scope, id)
    ensures LinesOk(CancelOne(db, scope, id))
  {
    var db' := CancelOne(db, scope, id);
    forall p, item | p in db'.pos && item in db'.pos[p].lines ensures LineOk(db'.receipts, p, item, db'.pos[p].lines[item]) {
      CancelOneKeepsLine(db, scope, id, p, item);
    }
  }

  lemma CancelOneKeepsShelves(db: Db, scope: Scope, id: nat)
    requires Consistent(db) && Reversible(db, scope, id)
    ensures SameOther(db, CancelOne(db, scope, id)) && ShelvesOk(CancelOne(db, scope, id))
  {
    var db' := CancelOne(db, scope, id);
    forall item, bin ensures Other(db', item, bin) == Other(db, item, bin) {
      CancelOneKeepsShelf(db, scope, id, item, bin);
    }
    SameOtherIsOk(db, db');
  }

  lemma CancelOneKeeps(db: Db, scope: Scope, id: nat)
    requires Consistent(db)
    ensures var db' := CancelOne(db, scope, id);
      Consistent(db') && SameFrame(db, db') && forall p :: p in db.pos ==> db'.pos[p].status == db.pos[p].status
  {
    CancelOneKeepsOrders(db, scope, id);
    if Reversible(db, scope, id) {
      CancelOneKeepsLines(db, scope, id);
      CancelOneKeepsShelves(db, scope, id);
      CancelOneKeepsReceipts(db, scope, id);
    }
  }

  lemma CancelOneKeepsOrders(db: Db, scope: Scope, id: nat)
    ensures var db' := CancelOne(db, scope, id);
      db'.bins == db.bins && SameOrdered(db, db') && forall p :: p in db.pos ==> db'.pos[p].status == db.pos[p].status
  {
  }

  // ---------- Whole requests ----------

  ghost predicate ValidEntries(entries: seq<Entry>) {
    entries != [] && forall i :: 0 <= i < |entries| ==> entries[i].qty > 0
  }

  lemma SameFrameTransitive(a: Db, b: Db, c: Db)
    requires SameFrame(a, b) && SameFrame(b, c)
    ensures SameFrame(a, c)
  {
    forall item, bin ensures Other(a, item, bin) == Other(c, item, bin) {
      assert Other(a, item, bin) == Other(b, item, bin);
    }
    forall po | po in a.pos ensures forall item :: item in a.pos[po].lines ==> a.pos[po].lines[item].ordered == c.pos[po].lines[item].ordered {
      assert po in b.pos;
    }
  }

  function ReceiptFor(po: nat, warehouse: nat, e: Entry): Receipt {
    Receipt(Some(po), e.item, e.qty, e.bin, warehouse)
  }

  /** The receipts of one request: one per entry, numbered on from `first`. */
  function NewReceipts(first: nat, po: nat, warehouse: nat, entries: seq<Entry>): (m: map<nat, Receipt>)
    ensures forall id :: id in m <==> first <= id < first + |entries|
    ensures forall id :: id in m ==> m[id].po == Some(po) && m[id].warehouse == warehouse
  {
    if entries == [] then map[]
    else
      var n := |entries| - 1;
      NewReceipts(first, po, warehouse, entries[..n])[first + n := ReceiptFor(po, warehouse, entries[n])]
  }

  lemma {:induction false} NewReceiptAt(first: nat, po: nat, warehouse: nat, entries: seq<Entry>, i: nat)
    requires i < |entries|
    ensures NewReceipts(first, po, warehouse, entries)[first + i] == ReceiptFor(po, warehouse, entries[i])
  {
    if i < |entries| - 1 { NewReceiptAt(first, po, warehouse, entries[..|entries| - 1], i); }
  }

  /** What a receive of these entries adds, and what it leaves alone. */
  ghost predicate TookIn(db: Db, db': Db, po: nat, entries: seq<Entry>)
    requires po in db.pos && db.pos.Keys <= db'.pos.Keys
  {
    && db'.receipts == db.receipts + NewReceipts(db.nextId, po, db.pos[po].warehouse, entries)
    && forall p :: p in db.pos && p != po ==> db'.pos[p] == db.pos[p]
  }

  lemma {:induction false} ReceiveAllTakesIn(db: Db, po: nat, entries: seq<Entry>, allowOver: bool)
    requires po in db.pos && ReceiveAll(db, po, entries, allowOver).Ok?
    ensures var db' := ReceiveAll(db, po, entries, allowOver).value;
      && db.pos.Keys <= db'.pos.Keys && db'.pos[po].warehouse == db.pos[po].warehouse
      && TookIn(db, db', po, entries)
  {
    if entries != [] {
      var n := |entries| - 1;
      ReceiveAllTakesIn(db, po, entries[..n], allowOver);
      var mid := ReceiveAll(db, po, entries[..n], allowOver).value;
      TakesInOne(db, mid, po, entries, n, allowOver);
    }
  }

  lemma TakesInOne(db: Db, mid: Db, po: nat, entries: seq<Entry>, n: nat, allowOver: bool)
    requires po in db.pos && db.pos.Keys <= mid.pos.Keys && n + 1 == |entries| && TookIn(db, mid, po, entries[..n])
    requires mid.pos[po].warehouse == db.pos[po].warehouse && mid.nextId == db.nextId + n
    requires ReceiveOne(mid, po, entries[n], allowOver).Ok?
    ensures var db' := ReceiveOne(mid, po, entries[n], allowOver).value;
      db.pos.Keys <= db'.pos.Keys && db'.pos[po].warehouse == db.pos[po].warehouse && TookIn(db, db', po, entries)
  {
    var r := ReceiptFor(po, db.pos[po].warehouse, entries[n]);
    var before := NewReceipts(db.nextId, po, db.pos[po].warehouse, entries[..n]);
    assert (db.receipts + before)[db.nextId + n := r] == db.receipts + before[db.nextId + n := r];
  }

  lemma {:induction false} ReceiveAllKeeps(db: Db, po: nat, entries: seq<Entry>, allowOver: bool)
    requires Consistent(db) && po in db.pos && ReceiveAll(db, po, entries, allowOver).Ok?
    requires forall i :: 0 <= i < |entries| ==> entries[i].qty > 0
    ensures var db' := ReceiveAll(db, po, entries, allowOver).value; Consistent(db') && SameFrame(db, db')
  {
    if entries != [] {
      var n := |entries| - 1;
      ReceiveAllKeeps(db, po, entries[..n], allowOver);
      var mid := ReceiveAll(db, po, entries[..n], allowOver).value;
      ReceiveOneKeeps(mid, po, entries[n], allowOver);
      SameFrameTransitive(db, mid, ReceiveOne(mid, po, entries[n], allowOver).value);
    }
  }

  /** A line received by this request is above zero, so the two status rules agree. */
  lemma StatusRulesAgree(db: Db, po: nat, item: nat)
    requires Consistent(db) && po in db.pos && item in db.pos[po].lines && db.pos[po].lines[item].received > 0
    ensures ReceivedStatus(db.pos[po].lines) == PoStatusOf(db.pos[po].lines)
  {
    var lines := db.pos[po].lines;
    forall i | i in lines ensures lines[i].status == LineReceived <==> lines[i].received >= lines[i].ordered {
      assert LineOk(db.receipts, po, i, lines[i]);
    }
  }

  lemma FirstEntryIsOnItsLine(db: Db, mid: Db, po: nat, entries: seq<Entry>)
    requires Consistent(mid) && po in db.pos && db.pos.Keys <= mid.pos.Keys && TookIn(db, mid, po, entries) && ValidEntries(entries)
    ensures entries[0].item in mid.pos[po].lines && mid.pos[po].lines[entries[0].item].received > 0
  {
    var added := NewReceipts(db.nextId, po, db.pos[po].warehouse, entries);
    assert added[db.nextId] == ReceiptFor(po, db.pos[po].warehouse, entries[0]) by {
      NewReceiptAt(db.nextId, po, db.pos[po].warehouse, entries, 0);
    }
    assert mid.receipts[db.nextId] == added[db.nextId];
    ClampsNeverBite(mid, db.nextId);
  }

  lemma ReceiveKeepsBooks(db: Db, scope: Scope, po: nat, entries: seq<Entry>, allowOver: bool)
    requires Consistent(db) && ValidEntries(entries) && Receive(db, scope, po, entries, allowOver).Ok?
    ensures var db' := Receive(db, scope, po, entries, allowOver).value; Consistent(db') && SameFrame(db, db')
  {
    ReceiveAllKeeps(db, po, entries, allowOver);
    var mid := ReceiveAll(db, po, entries, allowOver).value;
    StatusChangeKeeps(mid, po, ReceivedStatus(mid.pos[po].lines));
    SameFrameTransitive(db, mid, Receive(db, scope, po, entries, allowOver).value);
  }

  /** A receive adds exactly one receipt per entry and settles the order's status. */
  lemma ReceiveTakesIn(db: Db, scope: Scope, po: nat, entries: seq<Entry>, allowOver: bool)
    requires Consistent(db) && ValidEntries(entries) && Receive(db, scope, po, entries, allowOver).Ok?
    ensures var db' := Receive(db, scope, po, entries, allowOver).value;
      db.pos.Keys <= db'.pos.Keys && Settled(db', po) && TookIn(db, db', po, entries)
  {
    ReceiveAllTakesIn(db, po, entries, allowOver);
    var mid := ReceiveAll(db, po, entries, allowOver).value;
    assert Consistent(mid) by { ReceiveAllKeeps(db, po, entries, allowOver); }
    FirstEntryIsOnItsLine(db, mid, po, entries);
    StatusRulesAgree(mid, po, entries[0].item);
  }

  lemma StatusChangeKeeps(db: Db, po: nat, status: PoStatus)
    requires Consistent(db) && po in db.pos
    ensures var db' := db.(pos := db.pos[po := db.pos[po].(status := status)]); Consistent(db') && SameFrame(db, db')
  {
    var db' := db.(pos := db.pos[po := db.pos[po].(status := status)]);
    forall id | id in db'.receipts ensures id < db'.nextId && ReceiptOk(db', db'.receipts[id]) {
      assert ReceiptOk(db, db.receipts[id]);
    }
    forall p, item | p in db'.pos && item in db'.pos[p].lines ensures LineOk(db'.receipts, p, item, db'.pos[p].lines[item]) {
      assert LineOk(db.receipts, p, item, db.pos[p].lines[item]);
    }
    forall item, bin ensures Other(db', item, bin) == Other(db, item, bin) {
    }
  }

  /** Which of the live receipts survive a cancel: all but the listed ones within the caller's warehouses. */
  ghost function Survivors(db: Db, scope: Scope, ids: seq<nat>): map<nat, Receipt> {
    map id | id in db.receipts && !(id in ids && Reversible(db, scope, id)) :: db.receipts[id]
  }

  lemma {:induction false} CancelAllKeeps(db: Db, scope: Scope, ids: seq<nat>)
    requires Consistent(db)
    ensures var db' := CancelAll(db, scope, ids);
      && Consistent(db') && SameFrame(db, db') && db'.receipts == Survivors(db, scope, ids)
      && forall p :: p in db.pos ==> db'.pos[p].status == db.pos[p].status
  {
    if ids != [] {
      var n := |ids| - 1;
      CancelAllKeeps(db, scope, ids[..n]);
      var mid := CancelAll(db, scope, ids[..n]);
      CancelOneKeeps(mid, scope, ids[n]);
      SameFrameTransitive(db, mid, CancelOne(mid, scope, ids[n]));
      assert ids == ids[..n] + [ids[n]];
      assert forall id :: id in ids <==> id in ids[..n] || id == ids[n];
    }
  }

  /**
   * A cancel is refused exactly when a listed receipt the caller can see belongs to another
   * order; otherwise it removes exactly the listed receipts in scope, in whatever order and
   * however often they are listed, and settles the order's status.
   */
  lemma CancelKeeps(db: Db, scope: Scope, po: nat, ids: seq<nat>)
    requires Consistent(db)
    ensures var reply := Cancel(db, scope, po, ids);
      && (reply.Err? <==> Mismatched(db, scope, po, ids))
      && (reply.Ok? ==>
            && Consistent(reply.value) && SameFrame(db, reply.value)
            && reply.value.receipts == Survivors(db, scope, ids)
            && (ids != [] && po in db.pos ==> Settled(reply.value, po)))
  {
    if ids == [] {
      assert Survivors(db, scope, ids) == db.receipts;
    } else if Cancel(db, scope, po, ids).Ok? {
      CancelAllKeeps(db, scope, ids);
      var mid := CancelAll(db, scope, ids);
      if po in mid.pos {
        StatusChangeKeeps(mid, po, PoStatusOf(mid.pos[po].lines));
        SameFrameTransitive(db, mid, Cancel(db, scope, po, ids).value);
      }
    }
  }

  // ---------- Main results ----------

  datatype Request =
    | DoReceive(scope: Scope, po: nat, entries: seq<Entry>, allowOver: bool)
    | DoCancel(scope: Scope, po: nat, ids: seq<nat>)

  function Step(db: Db, q: Request): Db {
    var reply := match q
      case DoReceive(scope, po, entries, allowOver) => Receive(db, scope, po, entries, allowOver)
      case DoCancel(scope, po, ids) => Cancel(db, scope, po, ids);
    if reply.Ok? then reply.value else db
  }

  function Run(db: Db, qs: seq<Request>): Db {
    if qs == [] then db else Step(Run(db, qs[..|qs| - 1]), qs[|qs| - 1])
  }

  ghost predicate ValidRequests(qs: seq<Request>) {
    forall i :: 0 <= i < |qs| && qs[i].DoReceive? ==> ValidEntries(qs[i].entries)
  }

  /**
   * Over any run of receives and cancels: every line's received quantity is the sum of its
   * live receipts, line statuses follow from the quantities, no shelf is short of what its
   * live receipts brought (so no clamp bites), and stock from other sources is untouched.
   */
  lemma {:induction false} RunKeepsBooks(db: Db, qs: seq<Request>)
    requires Consistent(db) && ValidRequests(qs)
    ensures Consistent(Run(db, qs)) && SameFrame(db, Run(db, qs))
  {
    if qs != [] {
      var n := |qs| - 1;
      RunKeepsBooks(db, qs[..n]);
      var mid := Run(db, qs[..n]);
      StepKeepsBooks(mid, qs[n]);
      SameFrameTransitive(db, mid, Step(mid, qs[n]));
    }
  }

  lemma StepKeepsBooks(db: Db, q: Request)
    requires Consistent(db) && (q.DoReceive? ==> ValidEntries(q.entries))
    ensures Consistent(Step(db, q)) && SameFrame(db, Step(db, q))
    ensures forall po :: Settled(db, po) ==> Settled(Step(db, q), po)
  {
    match q
    case DoReceive(scope, po, entries, allowOver) =>
      if Receive(db, scope, po, entries, allowOver).Ok? {
        ReceiveKeepsBooks(db, scope, po, entries, allowOver);
        ReceiveTakesIn(db, scope, po, entries, allowOver);
      }
    case DoCancel(scope, po, ids) =>
      CancelKeeps(db, scope, po, ids);
      if !Mismatched(db, scope, po, ids) { CancelTouchesOnlyItsOrder(db, scope, po, ids); }
  }

  lemma {:induction false} CancelTouchesOnlyItsOrder(db: Db, scope: Scope, po: nat, ids: seq<nat>)
    requires Consistent(db) && !Mismatched(db, scope, po, ids)
    ensures forall p :: p in db.pos && p != po ==> p in CancelAll(db, scope, ids).pos && CancelAll(db, scope, ids).pos[p] == db.pos[p]
  {
    if ids != [] {
      var n := |ids| - 1;
      assert !Mismatched(db, scope, po, ids[..n]);
      CancelTouchesOnlyItsOrder(db, scope, po, ids[..n]);
      CancelAllKeeps(db, scope, ids[..n]);
    }
  }

  /** A status that once says what the lines say keeps saying it: a fixed function of the quantities. */
  lemma {:induction false} StatusesStaySettled(db: Db, qs: seq<Request>, po: nat)
    requires Consistent(db) && ValidRequests(qs) && Settled(db, po)
    ensures Settled(Run(db, qs), po)
  {
    if qs != [] {
      var n := |qs| - 1;
      StatusesStaySettled(db, qs[..n], po);
      RunKeepsBooks(db, qs[..n]);
      StepKeepsBooks(Run(db, qs[..n]), qs[n]);
    }
  }

  /** Same frame and same live receipts: same lines and same stock. */
  lemma ReceiptsDecideTheState(a: Db, b: Db)
    requires Consistent(a) && Consistent(b) && SameFrame(a, b) && a.receipts == b.receipts
    ensures forall po :: po in a.pos ==> a.pos[po].lines == b.pos[po].lines
    ensures forall place :: OnHand(a.inventory, place) == OnHand(b.inventory, place)
  {
    forall po, item | po in a.pos && item in a.pos[po].lines ensures a.pos[po].lines[item] == b.pos[po].lines[item] {
      assert LineOk(a.receipts, po, item, a.pos[po].lines[item]) && LineOk(b.receipts, po, item, b.pos[po].lines[item]);
    }
    forall place: Place ensures OnHand(a.inventory, place) == OnHand(b.inventory, place) {
      assert Other(a, place.0, place.1) == Other(b, place.0, place.1);
    }
  }

  /**
   * Cancelling the ids of a batch, in any order and with repeats, undoes the batch exactly:
   * receipts, lines, order statuses and stock are as before.
   */
  lemma CancelUndoesReceive(
    db: Db, scope: Scope, po: nat, entries: seq<Entry>, allowOver: bool, db1: Db, ids: seq<nat>)
    requires Consistent(db) && ValidEntries(entries) && Settled(db, po)
    requires Receive(db, scope, po, entries, allowOver) == Ok(db1)
    requires forall id :: id in ids <==> db.nextId <= id < db.nextId + |entries|
    ensures Cancel(db1, scope, po, ids).Ok?
    ensures var db2 := Cancel(db1, scope, po, ids).value;
      && db2.receipts == db.receipts && db2.pos == db.pos && db2.bins == db.bins
      && forall place :: OnHand(db2.inventory, place) == OnHand(db.inventory, place)
  {
    ReceiveKeepsBooks(db, scope, po, entries, allowOver);
    ReceiveTakesIn(db, scope, po, entries, allowOver);
    BatchIsWhatSurvivesNot(db, db1, scope, po, entries, ids);
    assert db.nextId in ids;
    CancelOfBatch(db, scope, po, db1, ids);
  }

  lemma CancelOfBatch(db: Db, scope: Scope, po: nat, db1: Db, ids: seq<nat>)
    requires Consistent(db) && Consistent(db1) && SameFrame(db, db1) && Settled(db, po) && ids != []
    requires !Mismatched(db1, scope, po, ids) && Survivors(db1, scope, ids) == db.receipts
    requires forall p :: p in db.pos && p != po ==> db1.pos[p] == db.pos[p]
    ensures Cancel(db1, scope, po, ids).Ok?
    ensures var db2 := Cancel(db1, scope, po, ids).value;
      && db2.receipts == db.receipts && db2.pos == db.pos && db2.bins == db.bins
      && forall place :: OnHand(db2.inventory, place) == OnHand(db.inventory, place)
  {
    CancelKeeps(db1, scope, po, ids);
    var db2 := Cancel(db1, scope, po, ids).value;
    assert SameFrame(db, db2) by { SameFrameTransitive(db, db1, db2); }
    CancelTouchesOnlyItsOrder(db1, scope, po, ids);
    StateRestored(db, db2, po);
  }

  lemma StateRestored(db: Db, db2: Db, po: nat)
    requires Consistent(db) && Consistent(db2) && SameFrame(db, db2) && db.receipts == db2.receipts
    requires Settled(db, po) && Settled(db2, po)
    requires forall p :: p in db.pos && p != po ==> db2.pos[p] == db.pos[p]
    ensures db2.pos == db.pos && forall place :: OnHand(db2.inventory, place) == OnHand(db.inventory, place)
  {
    ReceiptsDecideTheState(db, db2);
    OrdersRestored(db, db2, po);
  }

  lemma BatchIsWhatSurvivesNot(db: Db, db1: Db, scope: Scope, po: nat, entries: seq<Entry>, ids: seq<nat>)
    requires ReceiptsOk(db) && po in db.pos && db.pos.Keys <= db1.pos.Keys && TookIn(db, db1, po, entries)
    requires InScope(scope, db.pos[po].warehouse)
    requires forall id :: id in ids <==> db.nextId <= id < db.nextId + |entries|
    ensures !Mismatched(db1, scope, po, ids) && Survivors(db1, scope, ids) == db.receipts
  {
  }

  lemma OrdersRestored(db: Db, db2: Db, po: nat)
    requires db.pos.Keys == db2.pos.Keys && Settled(db, po) && Settled(db2, po)
    requires forall p :: p in db.pos ==> db2.pos[p].lines == db.pos[p].lines && db2.pos[p].warehouse == db.pos[p].warehouse
    requires forall p :: p in db.pos && p != po ==> db2.pos[p] == db.pos[p]
    ensures db2.pos == db.pos
  {
    assert db2.pos[po] == db.pos[po];
  }

  /**
   * A cancel that reverses nothing still rewrites the order's status: it leaves the state
   * alone exactly when the order is unknown or its status already says what its lines say.
   */
  lemma IdleCancelIsHarmlessExactly(db: Db, scope: Scope, po: nat, ids: seq<nat>)
    requires Consistent(db) && ids != [] && forall id :: id in ids ==> !Reversible(db, scope, id)
    ensures Cancel(db, scope, po, ids).Ok?
    ensures Cancel(db, scope, po, ids).value == db <==> po !in db.pos || Settled(db, po)
  {
    IdleCancelReverses(db, scope, ids);
    if po in db.pos {
      var status := PoStatusOf(db.pos[po].lines);
      assert db.pos[po].status == status ==> db.pos[po := db.pos[po].(status := status)] == db.pos;
      assert db.pos[po := db.pos[po].(status := status)][po].status == status;
    }
  }

  lemma {:induction false} IdleCancelReverses(db: Db, scope: Scope, ids: seq<nat>)
    requires forall id :: id in ids ==> !Reversible(db, scope, id)
    ensures CancelAll(db, scope, ids) == db
  {
    if ids != [] { IdleCancelReverses(db, scope, ids[..|ids| - 1]); }
  }

  /** So an unknown receipt id reopens a closed purchase order, of any warehouse. */
  lemma ClosedOrderReopens(db: Db, scope: Scope, po: nat, unknown: nat)
    requires Consistent(db) && po in db.pos && db.pos[po].status == Closed && unknown !in db.receipts
    ensures Cancel(db, scope, po, [unknown]).Ok? && po in Cancel(db, scope, po, [unknown]).value.pos
    ensures Cancel(db, scope, po, [unknown]).value.pos[po].status != Closed
  {
    IdleCancelReverses(db, scope, [unknown]);
  }

  /** A bin-to-bin transfer. */
  function Move(db: Db, item: nat, from: nat, to: nat, qty: nat): Db {
    var less := db.inventory[(item, from) := OnHand(db.inventory, (item, from)) - qty];
    db.(inventory := less[(item, to) := OnHand(less, (item, to)) + qty])
  }

  /** Put away and then cancelled, goods on an empty shelf stay in stock although their receipt is gone. */
  lemma PutAwayThenCancelLeavesStock(db: Db, scope: Scope, po: nat, e: Entry, to: nat, db1: Db)
    requires Consistent(db) && e.qty > 0 && to != e.bin && OnHand(db.inventory, (e.item, e.bin)) == 0
    requires Receive(db, scope, po, [e], false) == Ok(db1)
    ensures var end := Cancel(Move(db1, e.item, e.bin, to, e.qty), scope, po, [db.nextId]);
      && end.Ok? && end.value.receipts == db.receipts
      && OnHand(end.value.inventory, (e.item, to)) == OnHand(db.inventory, (e.item, to)) + e.qty
      && OnHand(end.value.inventory, (e.item, e.bin)) == 0
  {
    ReceiveOfOne(db, scope, po, e, db1);
    CancelOfOne(Move(db1, e.item, e.bin, to, e.qty), scope, po, db.nextId);
    assert db.nextId !in db.receipts;
    assert db1.receipts - {db.nextId} == db.receipts;
  }

  lemma ReceiveOfOne(db: Db, scope: Scope, po: nat, e: Entry, db1: Db)
    requires Receive(db, scope, po, [e], false) == Ok(db1)
    ensures po in db.pos && InScope(scope, db.pos[po].warehouse)
    ensures db1.receipts == db.receipts[db.nextId := ReceiptFor(po, db.pos[po].warehouse, e)]
    ensures db1.inventory == db.inventory[(e.item, e.bin) := OnHand(db.inventory, (e.item, e.bin)) + e.qty]
  {
    assert [e][..0] == [] && [e][0] == e;
    assert ReceiveAll(db, po, [e], false) == ReceiveOne(db, po, e, false);
  }

  lemma CancelOfOne(db: Db, scope: Scope, po: nat, id: nat)
    requires Reversible(db, scope, id) && db.receipts[id].po == Some(po)
    ensures var end := Cancel(db, scope, po, [id]);
      end.Ok? && end.value.receipts == db.receipts - {id} && end.value.inventory == ReverseStock(db.inventory, db.receipts[id])
  {
    assert [id][..0] == [] && [id][0] == id;
    assert CancelAll(db, scope, [id]) == CancelOne(db, scope, id);
  }
}
