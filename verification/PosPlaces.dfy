// Refunds accrue per item, not per stock location. This file settles when the
// per-location bound a reader might expect holds, and proves that a full refund
// undoes a counter sale on the shelf.

module PosPlaces {
  import opened Wrappers
  import opened PosModel
  import opened PosStockGate
  import opened PosLedger
  import opened PosRuns

  // ---------- Quantities per place and per item of wire-level lines ----------

  ghost function CartItemQty(cat: Catalog, lines: seq<CartLine>, item: nat): int {
    if lines == [] then 0
    else (if lines[0].sku in cat.items && cat.items[lines[0].sku].id == item then lines[0].qty else 0)
         + CartItemQty(cat, lines[1..], item)
  }

  lemma {:induction false} QtyIgnoresIndex(a: seq<Demand>, b: seq<Demand>, item: nat)
    requires |a| == |b| && forall i :: 0 <= i < |a| ==> a[i].loc == b[i].loc && a[i].qty == b[i].qty
    ensures ItemQty(a, item) == ItemQty(b, item)
  {
    if a != [] {
      QtyIgnoresIndex(a[1..], b[1..], item);
    }
  }

  lemma {:induction false} ResolvedItemQty(cat: Catalog, lines: seq<CartLine>, item: nat)
    requires AllResolve(cat, lines)
    ensures ItemQty(Resolve(cat, lines), item) == CartItemQty(cat, lines, item)
  {
    if lines != [] {
      assert AllResolve(cat, lines[1..]);
      ResolvedItemQty(cat, lines[1..], item);
      QtyIgnoresIndex(Resolve(cat, lines)[1..], Resolve(cat, lines[1..]), item);
    }
  }

  ghost predicate HasItem(cat: Catalog, p: Place, item: nat) {
    p.sku in cat.items && cat.items[p.sku].id == item
  }

  /** One place holds at most the item's quantity; two distinct places of an item share it. */
  lemma {:induction false} PlacesShareTheItem(cat: Catalog, lines: seq<CartLine>, p: Place, q: Place, item: nat)
    requires HasItem(cat, p, item) && HasItem(cat, q, item) && forall i :: 0 <= i < |lines| ==> lines[i].qty >= 1
    ensures 0 <= PlaceQty(lines, p) <= CartItemQty(cat, lines, item)
    ensures p != q ==> PlaceQty(lines, p) + PlaceQty(lines, q) <= CartItemQty(cat, lines, item)
    ensures (exists i :: 0 <= i < |lines| && PlaceOf(lines[i]) == p) <==> PlaceQty(lines, p) >= 1
  {
    if lines != [] {
      PlacesShareTheItem(cat, lines[1..], p, q, item);
      if i :| 1 <= i < |lines| && PlaceOf(lines[i]) == p {
        assert lines[1..][i - 1] == lines[i];
      }
    }
  }

  /** Every item of the cart comes from one place. */
  ghost predicate OnePlacePerItem(cat: Catalog, lines: seq<CartLine>) {
    forall i, j :: 0 <= i < |lines| && 0 <= j < |lines|
      && lines[i].sku in cat.items && lines[j].sku in cat.items && cat.items[lines[i].sku].id == cat.items[lines[j].sku].id
      ==> PlaceOf(lines[i]) == PlaceOf(lines[j])
  }

  lemma {:induction false} OnePlaceHoldsAll(cat: Catalog, lines: seq<CartLine>, p: Place, item: nat)
    requires HasItem(cat, p, item)
    requires forall i :: 0 <= i < |lines| && lines[i].sku in cat.items && cat.items[lines[i].sku].id == item ==> PlaceOf(lines[i]) == p
    ensures CartItemQty(cat, lines, item) == PlaceQty(lines, p)
  {
    if lines != [] {
      OnePlaceHoldsAll(cat, lines[1..], p, item);
    }
  }

  // ---------- The per-place refund ledger ----------

  /** Units the credit memos of `sale` returned to one place. */
  ghost function PlaceRefunded(orders: map<nat, Order>, sale: nat, p: Place, n: nat): int {
    if n == 0 then 0
    else PlaceRefunded(orders, sale, p, n - 1) +
         (if IsMemo(orders, sale, n - 1) && orders[n - 1].audited.Some? then PlaceQty(orders[n - 1].audited.value.lines, p) else 0)
  }

  /** No place of the sale got back more than it sold. */
  ghost predicate PlacesWithinSale(db: Db, sale: nat)
    requires sale in db.orders && db.orders[sale].audited.Some?
  {
    var sold := db.orders[sale].audited.value.lines;
    forall i :: 0 <= i < |sold| ==>
      PlaceRefunded(db.orders, sale, PlaceOf(sold[i]), db.top) <= PlaceQty(sold, PlaceOf(sold[i]))
  }

  /** A credit memo's lines are its archived lines. */
  ghost predicate MemoAudited(cat: Catalog, o: Order) {
    && o.audited.Some? && ValidLines(o.audited.value.lines) && AllResolve(cat, o.audited.value.lines)
    && o.lines == MemoLines(Sorted(Resolve(cat, o.audited.value.lines)))
  }

  ghost predicate MemosAudited(cat: Catalog, orders: map<nat, Order>) {
    forall id :: id in orders && orders[id].otype == Refund ==> MemoAudited(cat, orders[id])
  }

  lemma StepKeepsMemosAudited(cat: Catalog, boCode: string, db: Db, r: ValidRequest)
    requires Inv(cat, db) && MemosAudited(cat, db.orders)
    ensures MemosAudited(cat, Step(cat, boCode, db, r).0.orders)
  {
    var (db', reply) := Step(cat, boCode, db, r);
    match r
    case CheckoutReq(scope, key, c, now, so) => {
      if reply.Created? {
        CheckoutAccepted(cat, db, boCode, scope, key, c, now, so);
        assert db'.orders[so].otype != Refund;
      }
    }
    case RefundReq(scope, key, b, now, so) => {
      if reply.Created? {
        var sale, asked := RefundAccepted(cat, db, scope, key, b, now, so);
        AcceptedMemoAudited(cat, db, b, now, db', so, sale, asked);
      }
    }
    case ReferenceReq(scope, number, refs, now, so) =>
  }

  lemma AcceptedMemoAudited(cat: Catalog, db: Db, b: RefundBody, now: int, db': Db, so: nat, sale: nat, asked: seq<Demand>)
    requires Inv(cat, db) && MemosAudited(cat, db.orders) && Accepted(cat, db, b, now, db', so, sale, asked) && ValidRefund(b)
    ensures MemosAudited(cat, db'.orders)
  {
    assert SaleOk(cat, db.orders, db.top, sale);
    assert MemoAudited(cat, db'.orders[so]);
  }

  lemma {:induction false} RunKeepsMemosAudited(cat: Catalog, boCode: string, db: Db, rs: seq<ValidRequest>)
    requires Inv(cat, db) && MemosAudited(cat, db.orders)
    ensures MemosAudited(cat, Run(cat, boCode, db, rs).orders)
  {
    if rs != [] {
      RunKeepsMemosAudited(cat, boCode, db, rs[..|rs| - 1]);
      RunKeepsInv(cat, boCode, db, rs[..|rs| - 1]);
      StepKeepsMemosAudited(cat, boCode, Run(cat, boCode, db, rs[..|rs| - 1]), rs[|rs| - 1]);
    }
  }

  lemma {:induction false} PlaceWithinItem(cat: Catalog, orders: map<nat, Order>, sale: nat, p: Place, item: nat, n: nat)
    requires MemosAudited(cat, orders) && HasItem(cat, p, item)
    ensures PlaceRefunded(orders, sale, p, n) <= RefundedQty(orders, sale, item, n)
  {
    if n > 0 {
      PlaceWithinItem(cat, orders, sale, p, item, n - 1);
      if IsMemo(orders, sale, n - 1) {
        var lines := orders[n - 1].audited.value.lines;
        PlacesShareTheItem(cat, lines, p, p, item);
        ResolvedItemQty(cat, lines, item);
        SortedItemQty(Resolve(cat, lines), item);
        MemoLineQty(Sorted(Resolve(cat, lines)), item);
      }
    }
  }

  /** If every item of a sale came from one place, no place ever gets back too much. */
  lemma OnePlaceIsSafe(cat: Catalog, db: Db, sale: nat)
    requires Inv(cat, db) && MemosAudited(cat, db.orders)
    requires IsPosSale(db.orders, sale) && db.orders[sale].audited.Some? && OnePlacePerItem(cat, db.orders[sale].audited.value.lines)
    requires db.orders[sale].status == Status.Shipped || db.orders[sale].status == Status.Refunded
    ensures PlacesWithinSale(db, sale)
  {
    var o := db.orders[sale];
    var sold := o.audited.value.lines;
    assert SaleOk(cat, db.orders, db.top, sale);
    forall i | 0 <= i < |sold|
      ensures PlaceRefunded(db.orders, sale, PlaceOf(sold[i]), db.top) <= PlaceQty(sold, PlaceOf(sold[i]))
    {
      var p := PlaceOf(sold[i]);
      assert ResolveLine(cat, sold[i]).Some?;
      var item := cat.items[p.sku].id;
      PlaceWithinItem(cat, db.orders, sale, p, item, db.top);
      OnePlaceHoldsAll(cat, sold, p, item);
      ResolvedItemQty(cat, sold, item);
      assert RefundedQty(db.orders, sale, item, db.top) <= SoldQty(cat, o, item);
    }
  }

  // ---------- Two places of one item: the bound breaks ----------

  /** A shipped counter sale nobody has refunded, whose shelf rows and memo numbers are there to use. */
  ghost predicate Untouched(cat: Catalog, db: Db, sale: nat) {
    && IsPosSale(db.orders, sale) && db.orders[sale].status == Status.Shipped && db.orders[sale].audited.Some?
    && AllResolve(cat, db.orders[sale].audited.value.lines)
    && (forall i :: 0 <= i < |db.orders[sale].audited.value.lines| ==>
          ResolveLine(cat, db.orders[sale].audited.value.lines[i]).value in db.stock)
    && (forall id :: !IsMemo(db.orders, sale, id))
    && db.orders[sale].number + "-REFUND" !in db.numbers
    && db.orders[sale].number + "-REFUND-2" !in db.numbers
  }

  /** One line back to one place. */
  function OneLineRefund(o: Order, ln: CartLine): RefundBody
    requires o.audited.Some?
  {
    RefundBody(o.number, o.audited.value.tender, Some([ln]))
  }

  lemma {:induction false} MemoCount(orders: map<nat, Order>, sale: nat, n: nat, m: nat)
    requires m <= n
    requires forall id :: m <= id < n ==> !IsMemo(orders, sale, id)
    ensures ChildCount(orders, sale, Refund, n) == ChildCount(orders, sale, Refund, m)
    ensures forall item :: RefundedQty(orders, sale, item, n) == RefundedQty(orders, sale, item, m)
    ensures forall p :: PlaceRefunded(orders, sale, p, n) == PlaceRefunded(orders, sale, p, m)
  {
    if m < n {
      assert !IsMemo(orders, sale, n - 1);
      MemoCount(orders, sale, n - 1, m);
    }
  }

  /** A one-line refund fits its place and what is left of its item. */
  ghost predicate FitsOneLine(cat: Catalog, db: Db, sale: nat, ln: CartLine) {
    && IsPosSale(db.orders, sale) && db.orders[sale].status == Status.Shipped && db.orders[sale].audited.Some?
    && ln.qty >= 1 && ResolveLine(cat, ln).Some? && ResolveLine(cat, ln).value in db.stock
    && (var sold := db.orders[sale].audited.value.lines;
        && (exists i :: 0 <= i < |sold| && PlaceOf(sold[i]) == PlaceOf(ln)) && ln.qty <= PlaceQty(sold, PlaceOf(ln))
        && ln.qty <= Remaining(cat, db, sale, ResolveLine(cat, ln).value.item))
  }

  ghost function Remaining(cat: Catalog, db: Db, sale: nat, item: nat): int
    requires sale in db.orders
  {
    SoldQty(cat, db.orders[sale], item) - RefundedQty(db.orders, sale, item, db.top)
  }

  lemma OneLineGates(cat: Catalog, db: Db, sale: nat, ln: CartLine) returns (asked: seq<Demand>)
    requires Inv(cat, db) && FitsOneLine(cat, db, sale, ln)
    ensures var o := db.orders[sale]; var b := OneLineRefund(o, ln);
      && RefundBar(cat, o, b, o.createdAt).None?
      && asked == Resolve(cat, [ln]) && asked == Sorted(asked) == [Demand(0, ResolveLine(cat, ln).value, ln.qty)]
      && FitsRemainder(db.orders, db.top, sale, Resolve(cat, o.audited.value.lines), asked)
      && (ln.qty < Remaining(cat, db, sale, ResolveLine(cat, ln).value.item)
          ==> !Completes(db.orders, db.top, sale, Resolve(cat, o.audited.value.lines), asked))
  {
    var o := db.orders[sale];
    var sold := o.audited.value.lines;
    assert SaleOk(cat, db.orders, db.top, sale);
    assert PlaceQty([ln], PlaceOf(ln)) == ln.qty by { assert [ln][1..] == []; }
    assert WithinSold(sold, [ln]);
    asked := Resolve(cat, [ln]);
    var d := asked[0];
    assert Sorted(asked) == [d] by { assert asked[..0] == []; }
    assert asked[1..] == [];
    assert ItemQty(asked, d.loc.item) == ln.qty;
    ResolvedPositive(cat, sold);
    ItemQtyNonNegative(Resolve(cat, sold), d.loc.item);
    assert d.loc.item in ItemsOf(Resolve(cat, sold));
  }

  lemma FirstMemoNumber(db: Db, sale: nat, number: string)
    requires ChildCount(db.orders, sale, Refund, db.top) == 0
    ensures MintChild(db, sale, number, Refund) == number + "-REFUND"
  {
    assert number + "-" + "REFUND" == number + "-REFUND";
  }

  /** The handler takes it; if something is left of the item, the sale stays open for the next one. */
  lemma OneLineAccepted(cat: Catalog, db: Db, sale: nat, key: string, ln: CartLine, number: string, so: nat) returns (db': Db)
    requires Inv(cat, db) && key !in db.keys && so !in db.orders && FitsOneLine(cat, db, sale, ln)
    requires number == MintChild(db, sale, db.orders[sale].number, Refund) && number !in db.numbers
    ensures var o := db.orders[sale];
      && RefundOrder(db, cat, [o.warehouse], key, OneLineRefund(o, ln), o.createdAt, so).0 == db'
      && db'.top == Above(db.top, so) && sale in db'.orders && OnlyMarked(o, db'.orders[sale])
      && (ln.qty < Remaining(cat, db, sale, ResolveLine(cat, ln).value.item) ==> db'.orders[sale] == o)
      && IsMemo(db'.orders, sale, so) && SameRows(db.orders[so := db'.orders[so]], db'.orders)
      && db'.orders[so].audited == Some(Audit(o.audited.value.tender, [ln]))
      && db'.orders[so].lines == MemoLines([Demand(0, ResolveLine(cat, ln).value, ln.qty)])
      && db'.numbers == db.numbers[number := so]
      && db'.stock.Keys == db.stock.Keys
  {
    var o := db.orders[sale];
    var b := OneLineRefund(o, ln);
    var asked := OneLineGates(cat, db, sale, ln);
    var fully := Completes(db.orders, db.top, sale, Resolve(cat, o.audited.value.lines), asked);
    db' := BookRefund(db, sale, key, b, asked, fully, o.createdAt, so).0;
    OneLineBooked(db, sale, key, b, ln, asked, fully, so);
    OneLineReply(cat, db, sale, key, ln, asked, fully, so);
  }

  lemma {:induction false} OneLineBooked(db: Db, sale: nat, key: string, b: RefundBody, ln: CartLine, asked: seq<Demand>, fully: bool, so: nat)
    requires sale in db.orders && db.orders[sale].audited.Some? && so !in db.orders && b.lines == Some([ln])
    requires |asked| == 1 && asked[0].loc in db.stock && Sorted(asked) == asked
    requires MintChild(db, sale, db.orders[sale].number, Refund) !in db.numbers
    ensures var o := db.orders[sale]; var number := MintChild(db, sale, o.number, Refund);
      var db' := BookRefund(db, sale, key, b, asked, fully, o.createdAt, so).0;
      && db'.top == Above(db.top, so) && sale in db'.orders && OnlyMarkedBy(o, db'.orders[sale], fully)
      && IsMemo(db'.orders, sale, so) && SameRows(db.orders[so := db'.orders[so]], db'.orders)
      && db'.orders[so].audited == Some(Audit(b.tender, [ln])) && db'.orders[so].lines == MemoLines(asked)
      && db'.numbers == db.numbers[number := so] && db'.stock.Keys == db.stock.Keys
  {
    assert asked[1..] == [];
    assert PutBack(db.stock, asked).Some? && PutBack(db.stock, asked).value.Keys == db.stock.Keys;
  }

  ghost predicate OnlyMarkedBy(a: Order, b: Order, fully: bool) {
    if fully then b == a.(status := Status.Refunded, refundSo := b.refundSo) else b == a
  }

  lemma OneLineReply(cat: Catalog, db: Db, sale: nat, key: string, ln: CartLine, asked: seq<Demand>, fully: bool, so: nat)
    requires Inv(cat, db) && key !in db.keys && FitsOneLine(cat, db, sale, ln)
    requires asked == Resolve(cat, [ln])
    requires fully == Completes(db.orders, db.top, sale, Resolve(cat, db.orders[sale].audited.value.lines), asked)
    ensures var o := db.orders[sale]; var b := OneLineRefund(o, ln);
      RefundOrder(db, cat, [o.warehouse], key, b, o.createdAt, so) == BookRefund(db, sale, key, b, asked, fully, o.createdAt, so)
  {
    var o := db.orders[sale];
    var asked' := OneLineGates(cat, db, sale, ln);
    assert Original(db, [o.warehouse], o.number) == Some(sale);
  }

  lemma {:induction false} LongerKey(keys: set<string>) returns (n: nat)
    ensures forall k :: k in keys ==> |k| < n
  {
    if keys == {} {
      n := 0;
    } else {
      var k :| k in keys;
      n := LongerKey(keys - {k});
      n := if n <= |k| then |k| + 1 else n;
    }
  }

  lemma FreshKey(keys: set<string>) returns (k: string)
    ensures k !in keys
  {
    var n := LongerKey(keys);
    k := seq(n, i => 'k');
  }

  /** Two accepted refunds of a sale with an item from two places push one place past what it sold. */
  lemma TwoPlacesOverflow(cat: Catalog, boCode: string, db: Db, sale: nat) returns (rs: seq<ValidRequest>)
    requires Inv(cat, db) && Untouched(cat, db, sale)
    requires !OnePlacePerItem(cat, db.orders[sale].audited.value.lines)
    ensures var end := Run(cat, boCode, db, rs);
      sale in end.orders && OnlyMarked(db.orders[sale], end.orders[sale]) && !PlacesWithinSale(end, sale)
  {
    var o := db.orders[sale];
    var sold := o.audited.value.lines;
    assert SaleOk(cat, db.orders, db.top, sale);
    var i, j :| 0 <= i < |sold| && 0 <= j < |sold| && sold[i].sku in cat.items && sold[j].sku in cat.items
      && cat.items[sold[i].sku].id == cat.items[sold[j].sku].id && PlaceOf(sold[i]) != PlaceOf(sold[j]);
    var one := sold[i].(qty := 1);
    var all := sold[i].(qty := PlaceQty(sold, PlaceOf(sold[i])));
    TwoPlacesLeaveRoom(cat, db, sale, i, j);
    var k1, mid, k2, end := RefundTwice(cat, db, sale, one, all);
    rs := TwoStepRun(cat, boCode, db, mid, end, o, one, k1, all, k2);
    assert PlaceRefunded(end.orders, sale, PlaceOf(sold[i]), end.top) > PlaceQty(sold, PlaceOf(sold[i]));
  }

  /** An item from two places: one unit more than a place sold is still within the item's remainder. */
  lemma TwoPlacesLeaveRoom(cat: Catalog, db: Db, sale: nat, i: nat, j: nat)
    requires Inv(cat, db) && Untouched(cat, db, sale)
    requires var sold := db.orders[sale].audited.value.lines;
      && i < |sold| && j < |sold| && sold[i].sku in cat.items && sold[j].sku in cat.items
      && cat.items[sold[i].sku].id == cat.items[sold[j].sku].id && PlaceOf(sold[i]) != PlaceOf(sold[j])
    ensures var sold := db.orders[sale].audited.value.lines;
      var one := sold[i].(qty := 1); var all := sold[i].(qty := PlaceQty(sold, PlaceOf(sold[i])));
      && PlaceOf(one) == PlaceOf(all) == PlaceOf(sold[i])
      && FitsOneLine(cat, db, sale, one) && FitsOneLine(cat, db, sale, all)
      && 1 + all.qty <= Remaining(cat, db, sale, ResolveLine(cat, all).value.item)
  {
    var sold := db.orders[sale].audited.value.lines;
    assert SaleOk(cat, db.orders, db.top, sale);
    var p := PlaceOf(sold[i]);
    var item := cat.items[p.sku].id;
    PlacesShareTheItem(cat, sold, p, PlaceOf(sold[j]), item);
    PlacesShareTheItem(cat, sold, PlaceOf(sold[j]), p, item);
    ResolvedItemQty(cat, sold, item);
    MemoCount(db.orders, sale, db.top, 0);
    assert ResolveLine(cat, sold[i]).Some?;
    var one := sold[i].(qty := 1);
    var all := sold[i].(qty := PlaceQty(sold, p));
    assert ResolveLine(cat, one) == ResolveLine(cat, sold[i]) == ResolveLine(cat, all);
    assert PlaceOf(one) == p == PlaceOf(all);
  }

  lemma TwoStepRun(cat: Catalog, boCode: string, db: Db, mid: Db, end: Db, o: Order, one: CartLine, k1: string, all: CartLine, k2: string)
      returns (rs: seq<ValidRequest>)
    requires o.audited.Some? && one.qty >= 1 && all.qty >= 1
    requires RefundOrder(db, cat, [o.warehouse], k1, OneLineRefund(o, one), o.createdAt, db.top).0 == mid
    requires RefundOrder(mid, cat, [o.warehouse], k2, OneLineRefund(o, all), o.createdAt, mid.top).0 == end
    ensures Run(cat, boCode, db, rs) == end
  {
    var r1: ValidRequest := RefundReq([o.warehouse], k1, OneLineRefund(o, one), o.createdAt, db.top);
    var r2: ValidRequest := RefundReq([o.warehouse], k2, OneLineRefund(o, all), o.createdAt, mid.top);
    rs := [r1, r2];
    assert rs[..1] == [r1] && [r1][..0] == [];
    assert Run(cat, boCode, db, []) == db;
    assert Run(cat, boCode, db, [r1]) == mid;
  }

  /** One unit back to a place, then everything the place sold, as if the first had not been. */
  lemma RefundTwice(cat: Catalog, db: Db, sale: nat, one: CartLine, all: CartLine)
      returns (k1: string, mid: Db, k2: string, end: Db)
    requires Inv(cat, db) && Untouched(cat, db, sale)
    requires PlaceOf(one) == PlaceOf(all) && one.qty == 1 && FitsOneLine(cat, db, sale, one) && FitsOneLine(cat, db, sale, all)
    requires 1 + all.qty <= Remaining(cat, db, sale, ResolveLine(cat, all).value.item)
    ensures var o := db.orders[sale];
      && RefundOrder(db, cat, [o.warehouse], k1, OneLineRefund(o, one), o.createdAt, db.top).0 == mid
      && RefundOrder(mid, cat, [o.warehouse], k2, OneLineRefund(o, all), o.createdAt, mid.top).0 == end
      && sale in end.orders && OnlyMarked(o, end.orders[sale])
      && PlaceRefunded(end.orders, sale, PlaceOf(all), end.top) == 1 + all.qty
  {
    var o := db.orders[sale];
    var l := ResolveLine(cat, all).value;
    k1, mid := FirstOfTwo(cat, db, sale, one, all);
    k2 := FreshKey(mid.keys.Keys);
    SecondMemoNumber(mid, sale, o.number);
    end := OneLineAccepted(cat, mid, sale, k2, all, o.number + "-REFUND-2", mid.top);
    AfterOneMemo(mid, end, mid.top, sale, all, l, l.item);
  }

  /** After the first refund the sale is as it was, and the second one still fits. */
  lemma FirstOfTwo(cat: Catalog, db: Db, sale: nat, one: CartLine, all: CartLine) returns (k1: string, mid: Db)
    requires Inv(cat, db) && Untouched(cat, db, sale)
    requires PlaceOf(one) == PlaceOf(all) && one.qty == 1 && FitsOneLine(cat, db, sale, one) && FitsOneLine(cat, db, sale, all)
    requires 1 + all.qty <= Remaining(cat, db, sale, ResolveLine(cat, all).value.item)
    ensures var o := db.orders[sale];
      && RefundOrder(db, cat, [o.warehouse], k1, OneLineRefund(o, one), o.createdAt, db.top).0 == mid
      && Inv(cat, mid) && FitsOneLine(cat, mid, sale, all) && mid.orders[sale] == o
      && ChildCount(mid.orders, sale, Refund, mid.top) == 1 && PlaceRefunded(mid.orders, sale, PlaceOf(all), mid.top) == 1
      && o.number + "-REFUND-2" !in mid.numbers
  {
    var o := db.orders[sale];
    var l := ResolveLine(cat, all).value;
    assert ResolveLine(cat, one) == Some(l);
    MemoCount(db.orders, sale, db.top, 0);
    k1 := FreshKey(db.keys.Keys);
    FirstMemoNumber(db, sale, o.number);
    mid := OneLineAccepted(cat, db, sale, k1, one, o.number + "-REFUND", db.top);
    RefundKeepsInv(cat, db, [o.warehouse], k1, OneLineRefund(o, one), o.createdAt, db.top);
    AfterOneMemo(db, mid, db.top, sale, one, l, l.item);
    StillFits(cat, db, mid, sale, all, 1);
  }

  /** A line fits again while the sale and its shelf row are there and enough of its item is left. */
  lemma StillFits(cat: Catalog, a: Db, b: Db, sale: nat, ln: CartLine, less: nat)
    requires FitsOneLine(cat, a, sale, ln) && sale in b.orders && b.orders[sale] == a.orders[sale] && a.stock.Keys == b.stock.Keys
    requires var item := ResolveLine(cat, ln).value.item;
      Remaining(cat, b, sale, item) == Remaining(cat, a, sale, item) - less && ln.qty + less <= Remaining(cat, a, sale, item)
    ensures FitsOneLine(cat, b, sale, ln)
  {
  }

  lemma SecondMemoNumber(db: Db, sale: nat, number: string)
    requires ChildCount(db.orders, sale, Refund, db.top) == 1
    ensures MintChild(db, sale, number, Refund) == number + "-REFUND-2"
  {
    assert PosModel.Decimal.Digits(2) == "2";
    assert number + "-" + "REFUND" + "-" + "2" == number + "-REFUND-2";
  }

  /** What one more memo of one line adds to the counts of its sale. */
  lemma AfterOneMemo(a: Db, b: Db, so: nat, sale: nat, ln: CartLine, l: Loc, item: nat)
    requires so !in a.orders && (forall id :: id in a.orders ==> id < a.top)
    requires IsMemo(b.orders, sale, so) && SameRows(a.orders[so := b.orders[so]], b.orders) && b.top == Above(a.top, so)
    requires b.orders[so].lines == MemoLines([Demand(0, l, ln.qty)]) && l.item == item
    requires b.orders[so].audited.Some? && b.orders[so].audited.value.lines == [ln]
    ensures RefundedQty(b.orders, sale, item, b.top) == RefundedQty(a.orders, sale, item, a.top) + ln.qty
    ensures PlaceRefunded(b.orders, sale, PlaceOf(ln), b.top) == PlaceRefunded(a.orders, sale, PlaceOf(ln), a.top) + ln.qty
    ensures ChildCount(b.orders, sale, Refund, b.top) == ChildCount(a.orders, sale, Refund, a.top) + 1
  {
    var memo := b.orders[so];
    SumsWithOrder(a.orders, a.top, so, memo, sale, item);
    SumsOfSameRows(a.orders[so := memo], b.orders, b.top, sale, item);
    MemoLineQty([Demand(0, l, ln.qty)], item);
    assert [ln][1..] == [] && [Demand(0, l, ln.qty)][1..] == [];
    assert PlaceQty([ln], PlaceOf(ln)) == ln.qty;
    assert forall id :: a.top <= id ==> !IsMemo(a.orders, sale, id);
    MemoCount(a.orders, sale, b.top, a.top);
    ChildrenWithOrder(a.orders, a.top, so, memo, sale, Refund);
    ChildrenOfSameRows(a.orders[so := memo], b.orders, b.top, sale, Refund);
    PlaceRefundedInserted(a.orders, so, memo, b.top, sale, PlaceOf(ln));
    PlaceRefundedOfSameRows(a.orders[so := memo], b.orders, b.top, sale, PlaceOf(ln));
  }

  lemma {:induction false} PlaceRefundedInserted(orders: map<nat, Order>, so: nat, memo: Order, n: nat, sale: nat, p: Place)
    requires so !in orders && memo.parent == Some(sale) && memo.otype == Refund && memo.audited.Some?
    ensures PlaceRefunded(orders[so := memo], sale, p, n)
         == PlaceRefunded(orders, sale, p, n) + (if so < n then PlaceQty(memo.audited.value.lines, p) else 0)
  {
    if n > 0 {
      PlaceRefundedInserted(orders, so, memo, n - 1, sale, p);
    }
  }

  lemma {:induction false} PlaceRefundedOfSameRows(a: map<nat, Order>, b: map<nat, Order>, n: nat, sale: nat, p: Place)
    requires SameRows(a, b)
    ensures PlaceRefunded(a, sale, p, n) == PlaceRefunded(b, sale, p, n)
  {
    if n > 0 {
      PlaceRefundedOfSameRows(a, b, n - 1, sale, p);
    }
  }

  /**
   * For an untouched counter sale, no run can return more to a place than it sold
   * there exactly when every item of the cart came from one place.
   */
  lemma PlaceBoundExactly(cat: Catalog, boCode: string, db: Db, sale: nat)
    requires Inv(cat, db) && MemosAudited(cat, db.orders) && Untouched(cat, db, sale)
    ensures OnePlacePerItem(cat, db.orders[sale].audited.value.lines) <==>
      forall rs: seq<ValidRequest> :: AlwaysWithin(cat, boCode, db, rs, sale)
  {
    if OnePlacePerItem(cat, db.orders[sale].audited.value.lines) {
      forall rs: seq<ValidRequest> ensures AlwaysWithin(cat, boCode, db, rs, sale) {
        RunKeepsInv(cat, boCode, db, rs);
        RunKeepsMemosAudited(cat, boCode, db, rs);
        RunKeeps(cat, boCode, db, rs);
        var end := Run(cat, boCode, db, rs);
        OnePlaceIsSafe(cat, end, sale);
      }
    } else {
      var rs := TwoPlacesOverflow(cat, boCode, db, sale);
      assert !AlwaysWithin(cat, boCode, db, rs, sale);
    }
  }

  ghost predicate AlwaysWithin(cat: Catalog, boCode: string, db: Db, rs: seq<ValidRequest>, sale: nat) {
    var end := Run(cat, boCode, db, rs);
    sale in end.orders && end.orders[sale].audited.Some? && PlacesWithinSale(end, sale)
  }

  // ---------- A full refund undoes a counter sale ----------

  ghost function Returned(inv: Inventory, ds: seq<Demand>): Inventory {
    map l | l in inv :: inv[l].(onHand := inv[l].onHand + LocQty(ds, l))
  }

  lemma {:induction false} PutBackMeaning(inv: Inventory, ds: seq<Demand>)
    requires forall i :: 0 <= i < |ds| ==> ds[i].loc in inv
    ensures PutBack(inv, ds) == Some(Returned(inv, ds))
    decreases |ds|
  {
    if ds == [] {
      assert Returned(inv, ds) == inv;
    } else {
      var s := inv[ds[0].loc];
      var next := inv[ds[0].loc := s.(onHand := s.onHand + ds[0].qty)];
      PutBackMeaning(next, ds[1..]);
      assert Returned(next, ds[1..]) == Returned(inv, ds);
    }
  }

  /** Putting back what a passed gate took restores every row. */
  lemma TakeThenPutBack(inv: Inventory, ds: seq<Demand>)
    requires Positive(ds) && Gate(inv, ds, false).Some?
    ensures PutBack(Gate(inv, ds, false).value, ds) == Some(inv)
  {
    GateMeaning(inv, ds, false);
    var taken := Charged(inv, ds, false);
    forall i | 0 <= i < |ds| ensures ds[i].loc in taken {
      LocQtyNonNegative(ds, ds[i].loc);
    }
    PutBackMeaning(taken, ds);
    assert Returned(taken, ds) == inv;
  }

  /**
   * A counter sale followed by its full refund (no lines given, same tender, in
   * time, under a new key) leaves the shelf exactly as it was and the sale REFUNDED.
   */
  lemma FullRefundRestoresStock(cat: Catalog, boCode: string, db: Db, scope: seq<nat>, key: string, c: CheckoutBody, now: int, sale: nat,
                                sold: Db, number: string, key2: string, later: int, so: nat)
    requires Inv(cat, db) && ValidCheckout(c) && !c.phone && !c.backorder && c.otype == Sale
    requires Checkout(db, cat, boCode, scope, key, c, now, sale) == (sold, Created(SaleReceipt(number)))
    requires key2 != key && key2 !in db.keys && later - REFUND_WINDOW <= now && number + "-REFUND" !in sold.numbers && so !in sold.orders
    ensures sale in sold.orders
    ensures var o := sold.orders[sale];
      var (end, again) := RefundOrder(sold, cat, [o.warehouse], key2, RefundBody(number, c.tender, None), later, so);
      && again == Created(RefundReceipt(number + "-REFUND", number, true))
      && end.stock == db.stock && sale in end.orders && end.orders[sale].status == Status.Refunded
  {
    CheckoutAccepted(cat, db, boCode, scope, key, c, now, sale);
    var o := sold.orders[sale];
    NumberOfSale(cat, db, boCode, scope, key, c, now, sale, sold, number);
    TimeOfSale(cat, db, boCode, scope, key, c, now, sale, sold, number);
    SoldKeepsInv(cat, db, c, sold, sale, o);
    FullRefundOfNewSale(cat, db, c, sold, sale, o, key2, later, so);
  }

  lemma NumberOfSale(cat: Catalog, db: Db, boCode: string, scope: seq<nat>, key: string, c: CheckoutBody, now: int, sale: nat, sold: Db, number: string)
    requires Indexed(db) && ValidCheckout(c)
    requires Checkout(db, cat, boCode, scope, key, c, now, sale) == (sold, Created(SaleReceipt(number)))
    ensures sale in sold.orders && sold.orders[sale].number == number
  {
    var h := CheckoutHeader(db, cat, boCode, scope, sale, c);
    assert SaleOrder(cat, h, c, now).number == number;
  }

  lemma TimeOfSale(cat: Catalog, db: Db, boCode: string, scope: seq<nat>, key: string, c: CheckoutBody, now: int, sale: nat, sold: Db, number: string)
    requires Indexed(db) && ValidCheckout(c)
    requires Checkout(db, cat, boCode, scope, key, c, now, sale) == (sold, Created(SaleReceipt(number)))
    ensures sale in sold.orders && sold.orders[sale].createdAt == now
  {
    var h := CheckoutHeader(db, cat, boCode, scope, sale, c);
    assert SaleOrder(cat, h, c, now).createdAt == now;
  }

  lemma FullRefundOfNewSale(cat: Catalog, db: Db, c: CheckoutBody, sold: Db, sale: nat, o: Order, key2: string, later: int, so: nat)
    requires Inv(cat, db) && ValidCheckout(c) && !c.phone && !c.backorder && c.otype == Sale
    requires Sold(cat, db, c, sold, sale, o) && Inv(cat, sold) && sale in sold.orders && sold.orders[sale] == o
    requires key2 !in sold.keys && later - REFUND_WINDOW <= o.createdAt && o.number + "-REFUND" !in sold.numbers && so !in sold.orders
    ensures var (end, again) := RefundOrder(sold, cat, [o.warehouse], key2, RefundBody(o.number, c.tender, None), later, so);
      && again == Created(RefundReceipt(o.number + "-REFUND", o.number, true))
      && end.stock == db.stock && sale in end.orders && end.orders[sale].status == Status.Refunded
  {
    var b := RefundBody(o.number, c.tender, None);
    var asked := Resolve(cat, c.lines);
    assert Original(sold, [o.warehouse], o.number) == Some(sale);
    assert RefundBar(cat, o, b, later).None? && RefundLines(o, b) == c.lines;
    forall id: nat ensures !IsMemo(sold.orders, sale, id) {
      assert id in sold.orders && id != sale ==> id in db.orders && sold.orders[id] == db.orders[id];
    }
    MemoCount(sold.orders, sale, sold.top, 0);
    assert FitsRemainder(sold.orders, sold.top, sale, asked, asked);
    assert Completes(sold.orders, sold.top, sale, asked, asked);
    ResolvedPositive(cat, c.lines);
    TakeThenPutBack(db.stock, Sorted(asked));
    FirstMemoNumber(sold, sale, o.number);
    BookedFully(sold, sale, key2, b, asked, later, db.stock, so);
  }

  lemma BookedFully(db: Db, sale: nat, key: string, b: RefundBody, asked: seq<Demand>, now: int, stock: Inventory, so: nat)
    requires sale in db.orders && db.orders[sale].audited.Some? && so !in db.orders
    requires PutBack(db.stock, Sorted(asked)) == Some(stock)
    requires MintChild(db, sale, db.orders[sale].number, Refund) !in db.numbers
    ensures var (end, reply) := BookRefund(db, sale, key, b, asked, true, now, so);
      && reply == Created(RefundReceipt(MintChild(db, sale, db.orders[sale].number, Refund), db.orders[sale].number, true))
      && end.stock == stock && sale in end.orders && end.orders[sale].status == Status.Refunded
  {
  }
}
