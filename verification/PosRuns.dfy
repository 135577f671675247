// Whole runs of the POS handlers: theorems about every reachable state.

module PosRuns {
  import opened Wrappers
  import opened PosModel
  import opened PosStockGate
  import opened PosLedger

  datatype Request =
    | CheckoutReq(scope: seq<nat>, key: string, c: CheckoutBody, now: int, so: nat)
    | RefundReq(scope: seq<nat>, key: string, r: RefundBody, now: int, so: nat)
    | ReferenceReq(scope: seq<nat>, number: string, refs: seq<RefLine>, now: int, so: nat)
  {
    predicate Valid() {
      match this
      case CheckoutReq(_, _, c, _, _) => ValidCheckout(c)
      case RefundReq(_, _, r, _, _) => ValidRefund(r)
      case ReferenceReq(_, _, _, _, _) => true
    }
  }

  type ValidRequest = r: Request | r.Valid() witness ReferenceReq([], "", [], 0, 0)

  function Step(cat: Catalog, boCode: string, db: Db, r: ValidRequest): (Db, Reply) {
    match r
    case CheckoutReq(scope, key, c, now, so) => Checkout(db, cat, boCode, scope, key, c, now, so)
    case RefundReq(scope, key, b, now, so) => RefundOrder(db, cat, scope, key, b, now, so)
    case ReferenceReq(scope, number, refs, now, so) => ReferenceOrder(db, cat, scope, number, refs, now, so)
  }

  function Run(cat: Catalog, boCode: string, db: Db, rs: seq<ValidRequest>): Db {
    if rs == [] then db else Step(cat, boCode, Run(cat, boCode, db, rs[..|rs| - 1]), rs[|rs| - 1]).0
  }

  /** A shop that has stock and has sold nothing. */
  ghost predicate Opening(db: Db) {
    db.orders == map[] && db.numbers == map[] && db.keys == map[] && RowsOk(db.stock)
  }

  lemma OpeningInv(cat: Catalog, db: Db)
    requires Opening(db)
    ensures Inv(cat, db)
  {
  }

  lemma StepKeepsInv(cat: Catalog, boCode: string, db: Db, r: ValidRequest)
    requires Inv(cat, db)
    ensures Inv(cat, Step(cat, boCode, db, r).0)
  {
    match r
    case CheckoutReq(scope, key, c, now, so) => CheckoutKeepsInv(cat, db, boCode, scope, key, c, now, so);
    case RefundReq(scope, key, b, now, so) => RefundKeepsInv(cat, db, scope, key, b, now, so);
    case ReferenceReq(scope, number, refs, now, so) => ReferenceKeepsInv(cat, db, scope, number, refs, now, so);
  }

  lemma {:induction false} RunKeepsInv(cat: Catalog, boCode: string, db: Db, rs: seq<ValidRequest>)
    requires Inv(cat, db)
    ensures Inv(cat, Run(cat, boCode, db, rs))
  {
    if rs != [] {
      RunKeepsInv(cat, boCode, db, rs[..|rs| - 1]);
      StepKeepsInv(cat, boCode, Run(cat, boCode, db, rs[..|rs| - 1]), rs[|rs| - 1]);
    }
  }

  // ---------- Conservation ----------

  /** On hand plus shipped, and reserved minus promised: the two balances of an item. */
  ghost function StockBalance(db: Db, item: nat): int {
    OnHand(db.stock, item) + ShippedQty(db.orders, item, db.top)
  }

  ghost function ReservationBalance(db: Db, item: nat): int {
    Reserved(db.stock, item) - Promised(db.orders, item, db.top)
  }

  lemma CheckoutBalances(cat: Catalog, db: Db, boCode: string, scope: seq<nat>, key: string, b: CheckoutBody, now: int, so: nat, item: nat)
    requires Inv(cat, db) && ValidCheckout(b)
    ensures var db' := Checkout(db, cat, boCode, scope, key, b, now, so).0;
      StockBalance(db', item) == StockBalance(db, item) && ReservationBalance(db', item) == ReservationBalance(db, item)
  {
    var (db', reply) := Checkout(db, cat, boCode, scope, key, b, now, so);
    if reply.Created? {
      CheckoutAccepted(cat, db, boCode, scope, key, b, now, so);
      SoldBalances(cat, db, b, db', so, db'.orders[so], item);
    }
  }

  lemma RefundBalances(cat: Catalog, db: Db, scope: seq<nat>, key: string, b: RefundBody, now: int, so: nat, item: nat)
    requires Inv(cat, db) && ValidRefund(b)
    ensures var db' := RefundOrder(db, cat, scope, key, b, now, so).0;
      StockBalance(db', item) == StockBalance(db, item) && ReservationBalance(db', item) == ReservationBalance(db, item)
  {
    var (db', reply) := RefundOrder(db, cat, scope, key, b, now, so);
    if reply.Created? {
      AcceptedRefundBalances(cat, db, scope, key, b, now, so, item);
    } else {
      assert db' == db;
    }
  }

  lemma AcceptedRefundBalances(cat: Catalog, db: Db, scope: seq<nat>, key: string, b: RefundBody, now: int, so: nat, item: nat)
    requires Inv(cat, db) && ValidRefund(b) && RefundOrder(db, cat, scope, key, b, now, so).1.Created?
    ensures var db' := RefundOrder(db, cat, scope, key, b, now, so).0;
      StockBalance(db', item) == StockBalance(db, item) && ReservationBalance(db', item) == ReservationBalance(db, item)
  {
    var sale, asked := RefundAccepted(cat, db, scope, key, b, now, so);
    AcceptedBalances(cat, db, b, now, RefundOrder(db, cat, scope, key, b, now, so).0, so, sale, asked, item);
  }

  lemma {:induction false} RefLinesReserveNothing(cat: Catalog, lines: seq<RefLine>, number: nat, item: nat)
    ensures LineReserved(KnownLines(cat, lines, number), item) == 0
  {
    if lines != [] {
      if lines[0].sku !in cat.items {
        RefLinesReserveNothing(cat, lines[1..], number, item);
      } else {
        RefLinesReserveNothing(cat, lines[1..], number + 1, item);
        assert KnownLines(cat, lines, number)[1..] == KnownLines(cat, lines[1..], number + 1);
      }
    }
  }

  lemma ReferenceBalances(cat: Catalog, db: Db, scope: seq<nat>, number: string, lines: seq<RefLine>, now: int, so: nat, item: nat)
    requires Inv(cat, db)
    ensures var db' := ReferenceOrder(db, cat, scope, number, lines, now, so).0;
      StockBalance(db', item) == StockBalance(db, item) && ReservationBalance(db', item) == ReservationBalance(db, item)
  {
    var db' := ReferenceOrder(db, cat, scope, number, lines, now, so).0;
    if scope != [] && number !in db.numbers && so !in db.orders {
      SumsWithOrder(db.orders, db.top, so, db'.orders[so], 0, item);
      RefLinesReserveNothing(cat, lines, 1, item);
    }
  }

  /**
   * Over every run: on-hand stock plus units shipped on POS orders (credit memos
   * negative) is constant per item, reserved stock grows exactly by the
   * reservations of phone-order lines, and every row keeps 0 <= reserved <= on hand.
   */
  lemma {:induction false} StockIsConserved(cat: Catalog, boCode: string, db: Db, rs: seq<ValidRequest>, item: nat)
    requires Inv(cat, db)
    ensures StockBalance(Run(cat, boCode, db, rs), item) == StockBalance(db, item)
    ensures ReservationBalance(Run(cat, boCode, db, rs), item) == ReservationBalance(db, item)
    ensures RowsOk(Run(cat, boCode, db, rs).stock)
  {
    RunKeepsInv(cat, boCode, db, rs);
    if rs != [] {
      var front := rs[..|rs| - 1];
      StockIsConserved(cat, boCode, db, front, item);
      RunKeepsInv(cat, boCode, db, front);
      var mid := Run(cat, boCode, db, front);
      match rs[|rs| - 1]
      case CheckoutReq(scope, key, c, now, so) => CheckoutBalances(cat, mid, boCode, scope, key, c, now, so, item);
      case RefundReq(scope, key, b, now, so) => RefundBalances(cat, mid, scope, key, b, now, so, item);
      case ReferenceReq(scope, number, refs, now, so) => ReferenceBalances(cat, mid, scope, number, refs, now, so, item);
    }
  }

  // ---------- The refund ledger ----------

  /** The sale's credit memos give back every item in full. */
  ghost predicate GivenBack(orders: map<nat, Order>, n: nat, sale: nat)
    requires sale in orders
  {
    forall item :: RefundedQty(orders, sale, item, n) == LineQty(orders[sale].lines, item)
  }

  /**
   * What a sale's credit memos gave back never exceeds what it shipped, item by
   * item, and a shipped sale is REFUNDED exactly when everything is given back.
   */
  ghost predicate RefundsWithinSale(orders: map<nat, Order>, n: nat, sale: nat)
    requires sale in orders
  {
    var o := orders[sale];
    && (forall item :: 0 <= RefundedQty(orders, sale, item, n) <= LineQty(o.lines, item))
    && (o.status == Status.Refunded <==> GivenBack(orders, n, sale))
  }

  lemma SaleOkWithinSale(cat: Catalog, orders: map<nat, Order>, n: nat, sale: nat)
    requires sale in orders && SaleOk(cat, orders, n, sale)
    ensures orders[sale].status != WaitingStock && orders[sale].status != Open ==> RefundsWithinSale(orders, n, sale)
    ensures orders[sale].status == WaitingStock || orders[sale].status == Open ==> Unrefunded(orders, sale, n)
  {
    var o := orders[sale];
    if o.status == Status.Shipped || o.status == Status.Refunded {
      assert forall item :: LineQty(o.lines, item) == SoldQty(cat, o, item);
      assert FullyRefunded(cat, orders, n, sale) <==> GivenBack(orders, n, sale);
    }
  }

  /** Every sale in every state reached from an opening shop keeps its refunds within bounds. */
  lemma RefundsNeverExceedTheSale(cat: Catalog, boCode: string, db: Db, rs: seq<ValidRequest>, sale: nat)
    requires Opening(db)
    ensures var end := Run(cat, boCode, db, rs); IsPosSale(end.orders, sale) ==>
      if end.orders[sale].status == Open || end.orders[sale].status == WaitingStock
      then Unrefunded(end.orders, sale, end.top)
      else RefundsWithinSale(end.orders, end.top, sale)
  {
    OpeningInv(cat, db);
    RunKeepsInv(cat, boCode, db, rs);
    var end := Run(cat, boCode, db, rs);
    if IsPosSale(end.orders, sale) {
      SaleOkWithinSale(cat, end.orders, end.top, sale);
    }
  }

  /** Orders only ever gain a refund mark, and a refunded sale not even that. */
  ghost predicate OnlyMarked(a: Order, b: Order) {
    && b == a.(status := b.status, refundSo := b.refundSo)
    && (b.status == a.status || b.status == Status.Refunded)
    && (a.status == Status.Refunded ==> b == a)
  }

  /** Rows are never removed, nor changed but for that mark. */
  ghost predicate Keeps(a: Db, b: Db) {
    && a.top <= b.top
    && (forall id :: id in a.orders ==> id in b.orders && OnlyMarked(a.orders[id], b.orders[id]))
    && (forall k :: k in a.keys ==> k in b.keys && b.keys[k] == a.keys[k])
    && (forall s :: s in a.numbers ==> s in b.numbers && b.numbers[s] == a.numbers[s])
  }

  lemma KeepsItself(db: Db)
    ensures Keeps(db, db)
  {
  }

  lemma AcceptedKeeps(cat: Catalog, db: Db, b: RefundBody, now: int, db': Db, so: nat, sale: nat, asked: seq<Demand>)
    requires Indexed(db) && Accepted(cat, db, b, now, db', so, sale, asked) && IndexesGrow(db, db')
    ensures Keeps(db, db')
  {
    assert db.orders[sale].status == Status.Shipped;
  }

  lemma SoldKeeps(cat: Catalog, db: Db, b: CheckoutBody, db': Db, so: nat, o: Order)
    requires Indexed(db) && Sold(cat, db, b, db', so, o) && IndexesGrow(db, db')
    ensures Keeps(db, db')
  {
  }

  lemma ReferenceKeeps(cat: Catalog, db: Db, scope: seq<nat>, number: string, lines: seq<RefLine>, now: int, so: nat)
    requires Indexed(db)
    ensures Keeps(db, ReferenceOrder(db, cat, scope, number, lines, now, so).0)
  {
  }

  lemma StepKeeps(cat: Catalog, boCode: string, db: Db, r: ValidRequest)
    requires Inv(cat, db)
    ensures Keeps(db, Step(cat, boCode, db, r).0)
  {
    match r
    case CheckoutReq(scope, key, c, now, so) => CheckoutKeeps(cat, db, boCode, scope, key, c, now, so);
    case RefundReq(scope, key, b, now, so) => RefundKeeps(cat, db, scope, key, b, now, so);
    case ReferenceReq(scope, number, refs, now, so) => ReferenceKeeps(cat, db, scope, number, refs, now, so);
  }

  lemma CheckoutKeeps(cat: Catalog, db: Db, boCode: string, scope: seq<nat>, key: string, c: CheckoutBody, now: int, so: nat)
    requires Inv(cat, db) && ValidCheckout(c)
    ensures Keeps(db, Checkout(db, cat, boCode, scope, key, c, now, so).0)
  {
    var (db', reply) := Checkout(db, cat, boCode, scope, key, c, now, so);
    if reply.Created? {
      CheckoutAccepted(cat, db, boCode, scope, key, c, now, so);
      SoldKeeps(cat, db, c, db', so, db'.orders[so]);
    } else {
      KeepsItself(db);
    }
  }

  lemma RefundKeeps(cat: Catalog, db: Db, scope: seq<nat>, key: string, b: RefundBody, now: int, so: nat)
    requires Inv(cat, db) && ValidRefund(b)
    ensures Keeps(db, RefundOrder(db, cat, scope, key, b, now, so).0)
  {
    var (db', reply) := RefundOrder(db, cat, scope, key, b, now, so);
    if reply.Created? {
      var sale, asked := RefundAccepted(cat, db, scope, key, b, now, so);
      AcceptedKeeps(cat, db, b, now, db', so, sale, asked);
    } else {
      KeepsItself(db);
    }
  }

  lemma {:induction false} RunKeeps(cat: Catalog, boCode: string, db: Db, rs: seq<ValidRequest>)
    requires Inv(cat, db)
    ensures Keeps(db, Run(cat, boCode, db, rs))
  {
    if rs != [] {
      var front := rs[..|rs| - 1];
      RunKeeps(cat, boCode, db, front);
      RunKeepsInv(cat, boCode, db, front);
      StepKeeps(cat, boCode, Run(cat, boCode, db, front), rs[|rs| - 1]);
    }
  }

  /** Once REFUNDED, a sale stays as it is and every further refund of it under a new key is refused. */
  lemma RefundedIsFinal(cat: Catalog, boCode: string, db: Db, rs: seq<ValidRequest>, sale: nat,
                        scope: seq<nat>, key: string, b: RefundBody, now: int, so: nat)
    requires Inv(cat, db) && IsPosSale(db.orders, sale) && db.orders[sale].status == Status.Refunded
    requires ValidRefund(b) && b.original == db.orders[sale].number
    ensures var end := Run(cat, boCode, db, rs);
      && sale in end.orders && end.orders[sale] == db.orders[sale]
      && (key !in end.keys ==>
            RefundOrder(end, cat, scope, key, b, now, so) ==
              (end, Rejected(if end.orders[sale].warehouse in scope then AlreadyRefunded else OriginalNotFound)))
  {
    RunKeeps(cat, boCode, db, rs);
    RunKeepsInv(cat, boCode, db, rs);
    assert SaleOk(cat, db.orders, db.top, sale);
  }

  // ---------- Retries and refusals ----------

  /**
   * A retry of an accepted request, any time later, changes nothing and returns the
   * stored receipt; any other body under that key is refused.
   */
  lemma RetriesReplay(cat: Catalog, boCode: string, db: Db, r: ValidRequest, rs: seq<ValidRequest>, again: ValidRequest)
    requires Inv(cat, db) && !r.ReferenceReq? && !again.ReferenceReq? && again.key == r.key
    requires Step(cat, boCode, db, r).1.Created?
    ensures var end := Run(cat, boCode, Step(cat, boCode, db, r).0, rs);
      var same := (r.CheckoutReq? && again.CheckoutReq? && again.c == r.c) || (r.RefundReq? && again.RefundReq? && again.r == r.r);
      Step(cat, boCode, end, again) == (end, if same then Replayed(Step(cat, boCode, db, r).1.receipt) else Rejected(KeyReused))
  {
    var mid := Step(cat, boCode, db, r).0;
    StepKeepsInv(cat, boCode, db, r);
    RunKeeps(cat, boCode, mid, rs);
    AcceptedKeyRow(cat, boCode, db, r);
  }

  lemma AcceptedKeyRow(cat: Catalog, boCode: string, db: Db, r: ValidRequest)
    requires !r.ReferenceReq? && Step(cat, boCode, db, r).1.Created?
    ensures var (db', reply) := Step(cat, boCode, db, r);
      && r.key !in db.keys && r.key in db'.keys && db'.keys[r.key].receipt == reply.receipt
      && db'.keys[r.key].body == (if r.CheckoutReq? then CheckoutOf(r.c) else RefundOf(r.r))
  {
    if r.RefundReq? {
      var sale := Original(db, r.scope, r.r.original).value;
      var o := db.orders[sale];
      var sold := Resolve(cat, o.audited.value.lines);
      var asked := Resolve(cat, RefundLines(o, r.r));
      assert Step(cat, boCode, db, r) ==
             BookRefund(db, sale, r.key, r.r, asked, Completes(db.orders, db.top, sale, sold, asked), r.now, r.so);
    }
  }
}
