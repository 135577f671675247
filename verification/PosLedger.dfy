// What every checkout, refund and reference ingest keeps: stock conservation,
// the reservation balance, row bounds and the per-item refund ledger.

module PosLedger {
  import opened Wrappers
  import opened Sums
  import opened PosModel
  import opened PosStockGate

  // ---------- Balances ----------

  ghost function OnHand(inv: Inventory, item: nat): int {
    Total(map l | l in inv && l.item == item :: inv[l].onHand)
  }

  ghost function Reserved(inv: Inventory, item: nat): int {
    Total(map l | l in inv && l.item == item :: inv[l].reserved)
  }

  ghost predicate RowsOk(inv: Inventory) {
    forall l :: l in inv ==> 0 <= inv[l].reserved <= inv[l].onHand
  }

  function LineReserved(lines: seq<SoLine>, item: nat): int {
    if lines == [] then 0
    else (if lines[0].item == item then lines[0].reserved else 0) + LineReserved(lines[1..], item)
  }

  /** Units shipped on POS-source orders below `n`, credit memos counting negative. */
  function ShippedQty(orders: map<nat, Order>, item: nat, n: nat): int {
    if n == 0 then 0
    else ShippedQty(orders, item, n - 1) +
         (if n - 1 in orders && orders[n - 1].source == Pos then LineQty(orders[n - 1].lines, item) else 0)
  }

  /** Units reserved by order lines below `n`. */
  function Promised(orders: map<nat, Order>, item: nat, n: nat): int {
    if n == 0 then 0
    else Promised(orders, item, n - 1) + (if n - 1 in orders then LineReserved(orders[n - 1].lines, item) else 0)
  }

  lemma RowUpdate(inv: Inventory, l: Loc, s: Stock, item: nat)
    requires l in inv
    ensures OnHand(inv[l := s], item) == OnHand(inv, item) + (if l.item == item then s.onHand - inv[l].onHand else 0)
    ensures Reserved(inv[l := s], item) == Reserved(inv, item) + (if l.item == item then s.reserved - inv[l].reserved else 0)
  {
    var a := map k | k in inv && k.item == item :: inv[k].onHand;
    var b := map k | k in inv && k.item == item :: inv[k].reserved;
    var inv' := inv[l := s];
    var a' := map k | k in inv' && k.item == item :: inv'[k].onHand;
    var b' := map k | k in inv' && k.item == item :: inv'[k].reserved;
    if l.item == item {
      assert a' == a[l := s.onHand] && b' == b[l := s.reserved];
      TotalUpdate(a, l, s.onHand);
      TotalUpdate(b, l, s.reserved);
    } else {
      assert a' == a && b' == b;
    }
  }

  /** A passed gate moves exactly the demanded units, and keeps rows within bounds. */
  lemma {:induction false} GateBalance(inv: Inventory, ds: seq<Demand>, phone: bool, item: nat)
    requires Gate(inv, ds, phone).Some?
    ensures var inv' := Gate(inv, ds, phone).value;
      && OnHand(inv', item) == OnHand(inv, item) - (if phone then 0 else ItemQty(ds, item))
      && Reserved(inv', item) == Reserved(inv, item) + (if phone then ItemQty(ds, item) else 0)
      && (RowsOk(inv) && Positive(ds) ==> RowsOk(inv'))
    decreases |ds|
  {
    if ds != [] {
      var s := Charge(inv[ds[0].loc], ds[0].qty, phone);
      RowUpdate(inv, ds[0].loc, s, item);
      GateBalance(inv[ds[0].loc := s], ds[1..], phone, item);
    }
  }

  lemma {:induction false} PutBackBalance(inv: Inventory, ds: seq<Demand>, item: nat)
    requires PutBack(inv, ds).Some?
    ensures var inv' := PutBack(inv, ds).value;
      && OnHand(inv', item) == OnHand(inv, item) + ItemQty(ds, item)
      && Reserved(inv', item) == Reserved(inv, item)
      && (RowsOk(inv) && Positive(ds) ==> RowsOk(inv'))
    decreases |ds|
  {
    if ds != [] {
      var s := inv[ds[0].loc];
      var s' := s.(onHand := s.onHand + ds[0].qty);
      RowUpdate(inv, ds[0].loc, s', item);
      PutBackBalance(inv[ds[0].loc := s'], ds[1..], item);
    }
  }

  lemma {:induction false} SoldLineQty(ds: seq<Demand>, phone: bool, item: nat)
    ensures LineQty(SoldLines(ds, phone), item) == (if phone then 0 else ItemQty(ds, item))
    ensures LineReserved(SoldLines(ds, phone), item) == (if phone then ItemQty(ds, item) else 0)
  {
    if ds != [] {
      SoldLineQty(ds[1..], phone, item);
      assert SoldLines(ds, phone)[1..] == SoldLines(ds[1..], phone);
    }
  }

  lemma {:induction false} MemoLineQty(ds: seq<Demand>, item: nat)
    ensures LineQty(MemoLines(ds), item) == -ItemQty(ds, item)
    ensures LineReserved(MemoLines(ds), item) == 0
  {
    if ds != [] {
      MemoLineQty(ds[1..], item);
      assert MemoLines(ds)[1..] == MemoLines(ds[1..]);
    }
  }

  lemma {:induction false} IdleLineQty(lines: seq<SoLine>, item: nat)
    ensures (forall i :: 0 <= i < |lines| ==> lines[i].shipped == 0) ==> LineQty(lines, item) == 0
    ensures (forall i :: 0 <= i < |lines| ==> lines[i].reserved == 0) ==> LineReserved(lines, item) == 0
  {
    if lines != [] {
      IdleLineQty(lines[1..], item);
      assert forall i :: 0 <= i < |lines[1..]| ==> lines[1..][i] == lines[i + 1];
    }
  }

  lemma {:induction false} ItemQtyNonNegative(ds: seq<Demand>, item: nat)
    requires Positive(ds)
    ensures 0 <= ItemQty(ds, item)
    ensures item in ItemsOf(ds) <==> 0 < ItemQty(ds, item)
  {
    if ds != [] {
      ItemQtyNonNegative(ds[1..], item);
      assert ds == [ds[0]] + ds[1..];
      assert item in ItemsOf(ds) <==> ds[0].loc.item == item || item in ItemsOf(ds[1..]);
    }
  }

  lemma SortedItemQty(ds: seq<Demand>, item: nat)
    ensures ItemQty(Sorted(ds), item) == ItemQty(ds, item)
  {
    SortedIsOrderedPermutation(ds);
    QtyOfPermutation(Sorted(ds), ds, Loc(0, 0, 0), item);
  }

  // ---------- Sums over orders ----------

  /** Only status and refund mark of orders differ. */
  ghost predicate SameRows(a: map<nat, Order>, b: map<nat, Order>) {
    && a.Keys == b.Keys
    && forall id :: id in a ==> b[id] == a[id].(status := b[id].status, refundSo := b[id].refundSo)
  }

  lemma {:induction false} SumsOfSameRows(a: map<nat, Order>, b: map<nat, Order>, n: nat, sale: nat, item: nat)
    requires SameRows(a, b)
    ensures ShippedQty(a, item, n) == ShippedQty(b, item, n)
    ensures Promised(a, item, n) == Promised(b, item, n)
    ensures RefundedQty(a, sale, item, n) == RefundedQty(b, sale, item, n)
  {
    if n > 0 {
      SumsOfSameRows(a, b, n - 1, sale, item);
    }
  }

  /** What one order adds to the three sums. */
  function ShippedOf(o: Order, item: nat): int {
    if o.source == Pos then LineQty(o.lines, item) else 0
  }

  function RefundedOf(o: Order, sale: nat, item: nat): int {
    if o.parent == Some(sale) && o.otype == Refund then -LineQty(o.lines, item) else 0
  }

  /** Ids without orders add nothing. */
  lemma {:induction false} SumsBeyond(orders: map<nat, Order>, n: nat, m: nat, sale: nat, item: nat)
    requires n <= m && forall id :: id in orders ==> id < n
    ensures ShippedQty(orders, item, m) == ShippedQty(orders, item, n)
    ensures Promised(orders, item, m) == Promised(orders, item, n)
    ensures RefundedQty(orders, sale, item, m) == RefundedQty(orders, sale, item, n)
  {
    if n < m {
      SumsBeyond(orders, n, m - 1, sale, item);
    }
  }

  lemma {:induction false} SumsInserted(orders: map<nat, Order>, so: nat, o: Order, m: nat, sale: nat, item: nat)
    requires so !in orders
    ensures var orders' := orders[so := o];
      && ShippedQty(orders', item, m) == ShippedQty(orders, item, m) + (if so < m then ShippedOf(o, item) else 0)
      && Promised(orders', item, m) == Promised(orders, item, m) + (if so < m then LineReserved(o.lines, item) else 0)
      && RefundedQty(orders', sale, item, m) == RefundedQty(orders, sale, item, m) + (if so < m then RefundedOf(o, sale, item) else 0)
  {
    if m > 0 {
      SumsInserted(orders, so, o, m - 1, sale, item);
    }
  }

  /** A new order, wherever its id falls, adds its own share. */
  lemma SumsWithOrder(orders: map<nat, Order>, n: nat, so: nat, o: Order, sale: nat, item: nat)
    requires so !in orders && forall id :: id in orders ==> id < n
    ensures var orders' := orders[so := o]; var m := Above(n, so);
      && ShippedQty(orders', item, m) == ShippedQty(orders, item, n) + ShippedOf(o, item)
      && Promised(orders', item, m) == Promised(orders, item, n) + LineReserved(o.lines, item)
      && RefundedQty(orders', sale, item, m) == RefundedQty(orders, sale, item, n) + RefundedOf(o, sale, item)
  {
    SumsBeyond(orders, n, Above(n, so), sale, item);
    SumsInserted(orders, so, o, Above(n, so), sale, item);
  }

  // ---------- Children of an order ----------

  lemma {:induction false} ChildrenOfSameRows(a: map<nat, Order>, b: map<nat, Order>, n: nat, parent: nat, t: OrderType)
    requires SameRows(a, b)
    ensures ChildCount(a, parent, t, n) == ChildCount(b, parent, t, n)
  {
    if n > 0 {
      ChildrenOfSameRows(a, b, n - 1, parent, t);
    }
  }

  lemma {:induction false} ChildrenBeyond(orders: map<nat, Order>, n: nat, m: nat, parent: nat, t: OrderType)
    requires n <= m && forall id :: id in orders ==> id < n
    ensures ChildCount(orders, parent, t, m) == ChildCount(orders, parent, t, n)
  {
    if n < m {
      ChildrenBeyond(orders, n, m - 1, parent, t);
    }
  }

  lemma {:induction false} ChildrenInserted(orders: map<nat, Order>, so: nat, o: Order, m: nat, parent: nat, t: OrderType)
    requires so !in orders
    ensures ChildCount(orders[so := o], parent, t, m)
         == ChildCount(orders, parent, t, m) + (if so < m && o.parent == Some(parent) && o.otype == t then 1 else 0)
  {
    if m > 0 {
      ChildrenInserted(orders, so, o, m - 1, parent, t);
    }
  }

  lemma ChildrenWithOrder(orders: map<nat, Order>, n: nat, so: nat, o: Order, parent: nat, t: OrderType)
    requires so !in orders && forall id :: id in orders ==> id < n
    ensures ChildCount(orders[so := o], parent, t, Above(n, so))
         == ChildCount(orders, parent, t, n) + (if o.parent == Some(parent) && o.otype == t then 1 else 0)
  {
    ChildrenBeyond(orders, n, Above(n, so), parent, t);
    ChildrenInserted(orders, so, o, Above(n, so), parent, t);
  }

  // ---------- The invariant ----------

  ghost predicate Indexed(db: Db) {
    && (forall id :: id in db.orders ==> id < db.top && db.orders[id].number in db.numbers && db.numbers[db.orders[id].number] == id)
    && (forall s :: s in db.numbers ==> db.numbers[s] in db.orders && db.orders[db.numbers[s]].number == s)
    && (forall k :: k in db.keys ==> db.keys[k].so in db.orders)
  }

  /** A credit memo belongs to an order. */
  ghost predicate MemosPointBack(orders: map<nat, Order>) {
    forall id :: id in orders && orders[id].otype == Refund ==> orders[id].parent.Some? && orders[id].parent.value in orders
  }

  /** Units of `item` a sale sold, from the locations archived at checkout. */
  ghost function SoldQty(cat: Catalog, o: Order, item: nat): int {
    if o.audited.Some? && AllResolve(cat, o.audited.value.lines) then ItemQty(Resolve(cat, o.audited.value.lines), item) else 0
  }

  ghost predicate FullyRefunded(cat: Catalog, orders: map<nat, Order>, n: nat, sale: nat)
    requires sale in orders
  {
    forall item :: RefundedQty(orders, sale, item, n) == SoldQty(cat, orders[sale], item)
  }

  /** The refund ledger of one sale. */
  ghost predicate SaleOk(cat: Catalog, orders: map<nat, Order>, n: nat, sale: nat)
    requires sale in orders
  {
    var o := orders[sale];
    && (o.status == Status.Refunded <==> o.refundSo.Some?)
    && (o.status == Open || o.status == WaitingStock ==> forall item :: RefundedQty(orders, sale, item, n) == 0)
    && (o.status == Status.Shipped || o.status == Status.Refunded ==>
          && o.audited.Some? && ValidLines(o.audited.value.lines) && AllResolve(cat, o.audited.value.lines)
          && (forall item :: LineQty(o.lines, item) == SoldQty(cat, o, item))
          && (forall item :: 0 <= RefundedQty(orders, sale, item, n) <= SoldQty(cat, o, item))
          && (o.status == Status.Refunded <==> FullyRefunded(cat, orders, n, sale)))
  }

  ghost predicate IsPosSale(orders: map<nat, Order>, id: nat) {
    id in orders && orders[id].source == Pos && orders[id].otype == Sale
  }

  ghost predicate Inv(cat: Catalog, db: Db) {
    && Indexed(db)
    && RowsOk(db.stock)
    && MemosPointBack(db.orders)
    && forall id :: IsPosSale(db.orders, id) ==> SaleOk(cat, db.orders, db.top, id)
  }

  /** The unique indexes only gain entries. */
  ghost predicate IndexesGrow(a: Db, b: Db) {
    && (forall k :: k in a.keys ==> k in b.keys && b.keys[k] == a.keys[k])
    && (forall s :: s in a.numbers ==> s in b.numbers && b.numbers[s] == a.numbers[s])
  }

  // ---------- Adding one order ----------

  ghost predicate Unrefunded(orders: map<nat, Order>, sale: nat, n: nat) {
    forall item :: RefundedQty(orders, sale, item, n) == 0
  }

  /** An id that no order has has no credit memos. */
  lemma {:induction false} NoMemosYet(orders: map<nat, Order>, sale: nat, item: nat, n: nat)
    requires MemosPointBack(orders) && sale !in orders
    ensures RefundedQty(orders, sale, item, n) == 0
  {
    if n > 0 {
      NoMemosYet(orders, sale, item, n - 1);
    }
  }

  lemma SaleOkCarries(cat: Catalog, a: map<nat, Order>, n: nat, b: map<nat, Order>, m: nat, id: nat)
    requires id in a && id in b && a[id] == b[id] && SaleOk(cat, a, n, id)
    requires forall item :: RefundedQty(b, id, item, m) == RefundedQty(a, id, item, n)
    ensures SaleOk(cat, b, m, id)
  {
    assert FullyRefunded(cat, b, m, id) <==> FullyRefunded(cat, a, n, id);
  }

  /** Adding an order that is no credit memo leaves every sale's ledger alone. */
  lemma AddPlainOrder(cat: Catalog, orders: map<nat, Order>, n: nat, so: nat, o: Order)
    requires so !in orders && (forall id :: id in orders ==> id < n)
    requires MemosPointBack(orders) && o.otype != Refund
    requires forall id :: IsPosSale(orders, id) ==> SaleOk(cat, orders, n, id)
    ensures MemosPointBack(orders[so := o])
    ensures forall id :: IsPosSale(orders, id) ==> SaleOk(cat, orders[so := o], Above(n, so), id)
    ensures Unrefunded(orders[so := o], so, Above(n, so))
  {
    var orders' := orders[so := o];
    forall item: nat ensures RefundedQty(orders', so, item, Above(n, so)) == 0 {
      NoMemosYet(orders, so, item, n);
      SumsWithOrder(orders, n, so, o, so, item);
    }
    forall id | IsPosSale(orders, id) ensures SaleOk(cat, orders', Above(n, so), id) {
      forall item: nat ensures RefundedQty(orders', id, item, Above(n, so)) == RefundedQty(orders, id, item, n) {
        SumsWithOrder(orders, n, so, o, id, item);
      }
      SaleOkCarries(cat, orders, n, orders', Above(n, so), id);
    }
  }

  lemma CounterSaleIsOk(cat: Catalog, orders: map<nat, Order>, n: nat, so: nat)
    requires so in orders && orders[so].status == Status.Shipped && orders[so].refundSo.None?
    requires orders[so].audited.Some? && ValidLines(orders[so].audited.value.lines) && AllResolve(cat, orders[so].audited.value.lines)
    requires orders[so].lines == SoldLines(Sorted(Resolve(cat, orders[so].audited.value.lines)), false)
    requires Unrefunded(orders, so, n)
    ensures SaleOk(cat, orders, n, so)
  {
    var o := orders[so];
    var ds := Resolve(cat, o.audited.value.lines);
    ResolvedPositive(cat, o.audited.value.lines);
    forall item: nat ensures LineQty(o.lines, item) == SoldQty(cat, o, item) && 0 <= SoldQty(cat, o, item) {
      SoldLineQty(Sorted(ds), false, item);
      SortedItemQty(ds, item);
      ItemQtyNonNegative(ds, item);
    }
    var item := ds[0].loc.item;
    assert item in ItemsOf(ds);
    ItemQtyNonNegative(ds, item);
    assert RefundedQty(orders, so, item, n) != SoldQty(cat, o, item);
  }

  // ---------- Checkout ----------

  /** What an accepted checkout does, in one place. */
  ghost predicate Sold(cat: Catalog, db: Db, b: CheckoutBody, db': Db, so: nat, o: Order) {
    && so !in db.orders && db'.orders == db.orders[so := o] && db'.top == Above(db.top, so)
    && o.source == Pos && o.otype == b.otype && o.refundSo.None?
    && o.audited == Some(Audit(b.tender, b.lines))
    && if b.backorder then
         && db'.stock == db.stock && o.status == WaitingStock
         && forall i :: 0 <= i < |o.lines| ==> o.lines[i].shipped == 0 && o.lines[i].reserved == 0
       else
         && AllResolve(cat, b.lines)
         && o.status == (if b.phone then Open else Status.Shipped)
         && o.lines == SoldLines(Sorted(Resolve(cat, b.lines)), b.phone)
         && Gate(db.stock, Sorted(Resolve(cat, b.lines)), b.phone) == Some(db'.stock)
  }

  lemma CheckoutAccepted(cat: Catalog, db: Db, boCode: string, scope: seq<nat>, key: string, b: CheckoutBody, now: int, so: nat)
    requires Indexed(db) && ValidCheckout(b)
    requires Checkout(db, cat, boCode, scope, key, b, now, so).1.Created?
    ensures key !in db.keys && Checkout(db, cat, boCode, scope, key, b, now, so).0.keys.Keys == db.keys.Keys + {key}
    ensures var db' := Checkout(db, cat, boCode, scope, key, b, now, so).0;
      so in db'.orders && Sold(cat, db, b, db', so, db'.orders[so]) && Indexed(db') && IndexesGrow(db, db')
  {
    var h := CheckoutShape(cat, db, boCode, scope, key, b, now, so);
    var stock := SaleStock(cat, db.stock, b).value;
    OrderAdded(db, stock, so, SaleOrder(cat, h, b, now), key, KeyRow(so, CheckoutOf(b), SaleReceipt(h.number)));
    SaleAdded(cat, db, b, h, now, stock, so, key, KeyRow(so, CheckoutOf(b), SaleReceipt(h.number)));
  }

  lemma CheckoutShape(cat: Catalog, db: Db, boCode: string, scope: seq<nat>, key: string, b: CheckoutBody, now: int, so: nat) returns (h: Header)
    requires ValidCheckout(b) && Checkout(db, cat, boCode, scope, key, b, now, so).1.Created?
    ensures h.Header? && h.number !in db.numbers && key !in db.keys && so !in db.orders && CartResolves(cat, b)
    ensures SaleStock(cat, db.stock, b).Some?
    ensures Checkout(db, cat, boCode, scope, key, b, now, so).0
         == AddOrder(db.(stock := SaleStock(cat, db.stock, b).value), so, SaleOrder(cat, h, b, now), key, KeyRow(so, CheckoutOf(b), SaleReceipt(h.number)))
  {
    h := CheckoutHeader(db, cat, boCode, scope, so, b);
  }

  lemma SaleAdded(cat: Catalog, db: Db, b: CheckoutBody, h: Header, now: int, stock: Inventory, so: nat, key: string, row: KeyRow)
    requires h.Header? && so !in db.orders && CartResolves(cat, b) && SaleStock(cat, db.stock, b) == Some(stock)
    ensures Sold(cat, db, b, AddOrder(db.(stock := stock), so, SaleOrder(cat, h, b, now), key, row), so, SaleOrder(cat, h, b, now))
  {
  }

  /** A new order under a free number and key keeps the indexes. */
  lemma OrderAdded(db: Db, stock: Inventory, so: nat, o: Order, key: string, row: KeyRow)
    requires Indexed(db) && so !in db.orders && o.number !in db.numbers && key !in db.keys && row.so == so
    ensures var db' := AddOrder(db.(stock := stock), so, o, key, row); Indexed(db') && IndexesGrow(db, db')
  {
  }

  lemma CheckoutKeepsInv(cat: Catalog, db: Db, boCode: string, scope: seq<nat>, key: string, b: CheckoutBody, now: int, so: nat)
    requires Inv(cat, db) && ValidCheckout(b)
    ensures Inv(cat, Checkout(db, cat, boCode, scope, key, b, now, so).0)
  {
    var (db', reply) := Checkout(db, cat, boCode, scope, key, b, now, so);
    if reply.Created? {
      CheckoutAccepted(cat, db, boCode, scope, key, b, now, so);
      SoldKeepsInv(cat, db, b, db', so, db'.orders[so]);
    }
  }

  lemma SoldKeepsInv(cat: Catalog, db: Db, b: CheckoutBody, db': Db, so: nat, o: Order)
    requires Inv(cat, db) && ValidCheckout(b) && Sold(cat, db, b, db', so, o) && Indexed(db')
    ensures Inv(cat, db')
  {
    AddPlainOrder(cat, db.orders, db.top, so, o);
    NewSaleIsOk(cat, db, b, db', so, o);
    forall id | IsPosSale(db'.orders, id) ensures SaleOk(cat, db'.orders, db'.top, id) {
      assert id != so ==> IsPosSale(db.orders, id);
    }
    if !b.backorder {
      ResolvedPositive(cat, b.lines);
      GateBalance(db.stock, Sorted(Resolve(cat, b.lines)), b.phone, 0);
    }
  }

  lemma NewSaleIsOk(cat: Catalog, db: Db, b: CheckoutBody, db': Db, so: nat, o: Order)
    requires ValidCheckout(b) && Sold(cat, db, b, db', so, o) && Unrefunded(db'.orders, so, db'.top)
    ensures SaleOk(cat, db'.orders, db'.top, so)
  {
    if o.status == Status.Shipped {
      CounterSaleIsOk(cat, db'.orders, db'.top, so);
    }
  }

  /** Units leave the shelf as they appear on order lines, or are reserved as they are promised. */
  lemma SoldBalances(cat: Catalog, db: Db, b: CheckoutBody, db': Db, so: nat, o: Order, item: nat)
    requires Indexed(db) && Sold(cat, db, b, db', so, o)
    ensures OnHand(db'.stock, item) + ShippedQty(db'.orders, item, db'.top) == OnHand(db.stock, item) + ShippedQty(db.orders, item, db.top)
    ensures Reserved(db'.stock, item) - Promised(db'.orders, item, db'.top) == Reserved(db.stock, item) - Promised(db.orders, item, db.top)
  {
    SumsWithOrder(db.orders, db.top, so, o, so, item);
    if b.backorder {
      IdleLineQty(o.lines, item);
    } else {
      var ds := Sorted(Resolve(cat, b.lines));
      GateBalance(db.stock, ds, b.phone, item);
      SoldLineQty(ds, b.phone, item);
    }
  }

  // ---------- Refund ----------

  /** What an accepted refund does, in one place. */
  ghost predicate Accepted(cat: Catalog, db: Db, b: RefundBody, now: int, db': Db, so: nat, sale: nat, asked: seq<Demand>) {
    && so !in db.orders && so in db'.orders && db'.top == Above(db.top, so)
    && IsPosSale(db.orders, sale) && db.orders[sale].number == b.original
    && (var o := db.orders[sale];
        && RefundBar(cat, o, b, now).None?
        && asked == Resolve(cat, RefundLines(o, b)) && Positive(asked)
        && (var sold := Resolve(cat, o.audited.value.lines);
            && FitsRemainder(db.orders, db.top, sale, sold, asked)
            && PutBack(db.stock, Sorted(asked)) == Some(db'.stock)
            && IsMemoFor(db'.orders[so], b, o, sale, asked)
            && db'.orders == db.orders[so := db'.orders[so]][sale := Marked(o, Completes(db.orders, db.top, sale, sold, asked), so)]))
  }

  ghost predicate IsMemoFor(memo: Order, b: RefundBody, o: Order, sale: nat, asked: seq<Demand>)
    requires o.audited.Some?
  {
    && memo.source == Pos && memo.otype == Refund && memo.parent == Some(sale)
    && memo.lines == MemoLines(Sorted(asked))
    && memo.audited == Some(Audit(b.tender, RefundLines(o, b)))
  }

  lemma BookingShape(db: Db, sale: nat, key: string, b: RefundBody, asked: seq<Demand>, fully: bool, now: int, so: nat)
    requires Indexed(db) && sale in db.orders && db.orders[sale].audited.Some? && key !in db.keys
    requires BookRefund(db, sale, key, b, asked, fully, now, so).1.Created?
    ensures var db' := BookRefund(db, sale, key, b, asked, fully, now, so).0; var o := db.orders[sale];
      && Indexed(db') && IndexesGrow(db, db') && so !in db.orders && db'.top == Above(db.top, so)
      && PutBack(db.stock, Sorted(asked)) == Some(db'.stock)
      && so in db'.orders && IsMemoFor(db'.orders[so], b, o, sale, asked)
      && db'.orders == db.orders[so := db'.orders[so]][sale := Marked(o, fully, so)]
  {
    assert MintChild(db, sale, db.orders[sale].number, Refund) !in db.numbers;
  }

  lemma RefundAccepted(cat: Catalog, db: Db, scope: seq<nat>, key: string, b: RefundBody, now: int, so: nat)
      returns (sale: nat, asked: seq<Demand>)
    requires Inv(cat, db) && ValidRefund(b)
    requires RefundOrder(db, cat, scope, key, b, now, so).1.Created?
    ensures var db' := RefundOrder(db, cat, scope, key, b, now, so).0;
      Accepted(cat, db, b, now, db', so, sale, asked) && Indexed(db') && IndexesGrow(db, db')
    ensures Original(db, scope, b.original) == Some(sale)
  {
    sale := Original(db, scope, b.original).value;
    var o := db.orders[sale];
    assert SaleOk(cat, db.orders, db.top, sale);
    asked := Resolve(cat, RefundLines(o, b));
    ResolvedPositive(cat, RefundLines(o, b));
    var sold := Resolve(cat, o.audited.value.lines);
    BookingShape(db, sale, key, b, asked, Completes(db.orders, db.top, sale, sold, asked), now, so);
  }

  /** The refunded sale's ledger after the memo: what was there plus what was asked. */
  lemma RefundedAfter(cat: Catalog, db: Db, b: RefundBody, now: int, db': Db, so: nat, sale: nat, asked: seq<Demand>, id: nat, item: nat)
    requires Indexed(db) && Accepted(cat, db, b, now, db', so, sale, asked)
    ensures RefundedQty(db'.orders, id, item, db'.top)
         == RefundedQty(db.orders, id, item, db.top) + (if id == sale then ItemQty(asked, item) else 0)
    ensures ShippedQty(db'.orders, item, db'.top) == ShippedQty(db.orders, item, db.top) - ItemQty(asked, item)
    ensures Promised(db'.orders, item, db'.top) == Promised(db.orders, item, db.top)
  {
    var memo := db'.orders[so];
    SumsWithOrder(db.orders, db.top, so, memo, id, item);
    assert SameRows(db.orders[so := memo], db'.orders);
    SumsOfSameRows(db.orders[so := memo], db'.orders, db'.top, id, item);
    MemoLineQty(Sorted(asked), item);
    SortedItemQty(asked, item);
  }

  lemma AcceptedBalances(cat: Catalog, db: Db, b: RefundBody, now: int, db': Db, so: nat, sale: nat, asked: seq<Demand>, item: nat)
    requires Indexed(db) && Accepted(cat, db, b, now, db', so, sale, asked)
    ensures OnHand(db'.stock, item) + ShippedQty(db'.orders, item, db'.top) == OnHand(db.stock, item) + ShippedQty(db.orders, item, db.top)
    ensures Reserved(db'.stock, item) - Promised(db'.orders, item, db'.top) == Reserved(db.stock, item) - Promised(db.orders, item, db.top)
  {
    RefundedAfter(cat, db, b, now, db', so, sale, asked, sale, item);
    PutBackBalance(db.stock, Sorted(asked), item);
    SortedItemQty(asked, item);
  }

  /** The guard bounds every item; completing means every item is equal. */
  lemma GuardCoversAllItems(cat: Catalog, db: Db, b: RefundBody, now: int, db': Db, so: nat, sale: nat, asked: seq<Demand>)
    requires Inv(cat, db) && Accepted(cat, db, b, now, db', so, sale, asked)
    ensures var o := db.orders[sale]; var n := db.top;
      && (forall item :: 0 <= RefundedQty(db.orders, sale, item, n) + ItemQty(asked, item) <= SoldQty(cat, o, item))
      && (Completes(db.orders, n, sale, Resolve(cat, o.audited.value.lines), asked)
          <==> forall item :: RefundedQty(db.orders, sale, item, n) + ItemQty(asked, item) == SoldQty(cat, o, item))
  {
    var o := db.orders[sale];
    var sold := Resolve(cat, o.audited.value.lines);
    assert SaleOk(cat, db.orders, db.top, sale);
    ResolvedPositive(cat, o.audited.value.lines);
    forall item: nat
      ensures 0 <= RefundedQty(db.orders, sale, item, db.top) + ItemQty(asked, item) <= SoldQty(cat, o, item)
      ensures item !in ItemsOf(sold) ==> SoldQty(cat, o, item) == 0
    {
      ItemQtyNonNegative(asked, item);
      ItemQtyNonNegative(sold, item);
    }
  }

  lemma RefundKeepsInv(cat: Catalog, db: Db, scope: seq<nat>, key: string, b: RefundBody, now: int, so: nat)
    requires Inv(cat, db) && ValidRefund(b)
    ensures Inv(cat, RefundOrder(db, cat, scope, key, b, now, so).0)
  {
    var (db', reply) := RefundOrder(db, cat, scope, key, b, now, so);
    if reply.Created? {
      var sale, asked := RefundAccepted(cat, db, scope, key, b, now, so);
      SortedIsOrderedPermutation(asked);
      PositivePermutation(asked, Sorted(asked));
      PutBackBalance(db.stock, Sorted(asked), 0);
      AcceptedKeepsLedgers(cat, db, b, now, db', so, sale, asked);
    }
  }

  lemma AcceptedKeepsLedgers(cat: Catalog, db: Db, b: RefundBody, now: int, db': Db, so: nat, sale: nat, asked: seq<Demand>)
    requires Inv(cat, db) && Accepted(cat, db, b, now, db', so, sale, asked)
    ensures MemosPointBack(db'.orders)
    ensures forall id :: IsPosSale(db'.orders, id) ==> SaleOk(cat, db'.orders, db'.top, id)
  {
    forall id | IsPosSale(db'.orders, id) ensures SaleOk(cat, db'.orders, db'.top, id) {
      assert id != so && IsPosSale(db.orders, id);
      forall item: nat
        ensures RefundedQty(db'.orders, id, item, db'.top)
             == RefundedQty(db.orders, id, item, db.top) + (if id == sale then ItemQty(asked, item) else 0)
      {
        RefundedAfter(cat, db, b, now, db', so, sale, asked, id, item);
      }
      if id == sale {
        RefundedSaleIsOk(cat, db, b, now, db', so, sale, asked);
      } else {
        SaleOkCarries(cat, db.orders, db.top, db'.orders, db'.top, id);
      }
    }
  }

  lemma RefundedSaleIsOk(cat: Catalog, db: Db, b: RefundBody, now: int, db': Db, so: nat, sale: nat, asked: seq<Demand>)
    requires Inv(cat, db) && Accepted(cat, db, b, now, db', so, sale, asked)
    requires forall item :: RefundedQty(db'.orders, sale, item, db'.top)
                         == RefundedQty(db.orders, sale, item, db.top) + ItemQty(asked, item)
    ensures SaleOk(cat, db'.orders, db'.top, sale)
  {
    GuardCoversAllItems(cat, db, b, now, db', so, sale, asked);
    assert SaleOk(cat, db.orders, db.top, sale);
    var o := db.orders[sale];
    var o' := db'.orders[sale];
    assert o'.lines == o.lines && o'.audited == o.audited;
    assert forall item :: SoldQty(cat, o', item) == SoldQty(cat, o, item);
  }

  // ---------- Reference ingest ----------

  lemma ReferenceKeepsInv(cat: Catalog, db: Db, scope: seq<nat>, number: string, lines: seq<RefLine>, now: int, so: nat)
    requires Inv(cat, db)
    ensures Inv(cat, ReferenceOrder(db, cat, scope, number, lines, now, so).0)
  {
    var db' := ReferenceOrder(db, cat, scope, number, lines, now, so).0;
    if scope != [] && number !in db.numbers && so !in db.orders {
      var o := db'.orders[so];
      AddPlainOrder(cat, db.orders, db.top, so, o);
      assert db'.orders == db.orders[so := o];
      forall id | IsPosSale(db'.orders, id) ensures SaleOk(cat, db'.orders, db'.top, id) {
        assert IsPosSale(db.orders, id);
      }
    }
  }
}
