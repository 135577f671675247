// A request's plan is what the whole handler would write, as long as its order
// number is still free: plans survive every commit of other requests that holds
// none of the same locks, and carrying one out is one step of the handler.

module PosPlans {
  import opened Wrappers
  import opened PosModel
  import opened PosStockGate
  import opened PosLedger
  import opened PosRuns
  import opened PosMachine

  /** What a refund knows of the sale it locked. */
  ghost predicate PassedGates(cat: Catalog, db: Db, r: ValidRequest, sale: nat, o: Order, asked: seq<Demand>, fully: bool)
    requires r.RefundReq?
  {
    && Original(db, r.scope, r.r.original) == Some(sale) && db.orders[sale] == o
    && RefundBar(cat, o, r.r, r.now).None?
    && asked == Resolve(cat, RefundLines(o, r.r))
    && FitsRemainder(db.orders, db.top, sale, Resolve(cat, o.audited.value.lines), asked)
    && fully == Completes(db.orders, db.top, sale, Resolve(cat, o.audited.value.lines), asked)
  }

  ghost predicate MemoIsCurrent(cat: Catalog, db: Db, r: ValidRequest, plan: Plan)
    requires r.RefundReq?
  {
    && plan.sale.Some? && plan.sale.value in db.orders
    && (var o := db.orders[plan.sale.value];
        && RefundBar(cat, o, r.r, r.now).None?
        && (var asked := Resolve(cat, RefundLines(o, r.r));
            && PassedGates(cat, db, r, plan.sale.value, o, asked, plan.fully)
            && plan == MemoPlan(db, r, plan.sale.value, o, asked, plan.fully)))
  }

  /** The plan is the one the request would make of these tables. */
  ghost predicate Current(cat: Catalog, boCode: string, db: Db, r: ValidRequest, plan: Plan) {
    match r
    case CheckoutReq(_, _, _, _, _) => CheckoutPlan(cat, boCode, db, r) == Planned(plan)
    case RefundReq(_, _, _, _, _) => MemoIsCurrent(cat, db, r, plan)
    case ReferenceReq(_, _, _, _, _) => r.scope != [] && plan == ReferencePlan(cat, r)
  }

  // ---------- Carrying a plan out is the handler ----------

  /** The stock lines go through and nobody has the key, the number or the id. */
  ghost predicate Clear(db: Db, r: ValidRequest, plan: Plan, mine: Inventory) {
    && (Keyed(r) ==> r.key !in db.keys)
    && plan.row.number !in db.numbers && plan.so !in db.orders
    && Apply(db.stock, plan.lines, plan.mode) == Some(db.stock + mine)
  }

  lemma CheckoutCarriedOut(cat: Catalog, boCode: string, db: Db, r: ValidRequest, plan: Plan, mine: Inventory)
    requires r.CheckoutReq? && Current(cat, boCode, db, r, plan) && Clear(db, r, plan, mine)
    ensures Step(cat, boCode, db, r) == (Published(db, plan, mine), ReplyOf(plan))
  {
    var h := CheckoutHeader(db, cat, boCode, r.scope, r.so, r.c);
    assert plan.row.number == h.number;
    assert SaleStock(cat, db.stock, r.c) == Some(db.stock + mine);
  }

  lemma RefundCarriedOut(cat: Catalog, boCode: string, db: Db, r: ValidRequest, plan: Plan, mine: Inventory)
    requires r.RefundReq? && Current(cat, boCode, db, r, plan) && Clear(db, r, plan, mine)
    ensures Step(cat, boCode, db, r) == (Published(db, plan, mine), ReplyOf(plan))
  {
    var sale := plan.sale.value;
    var o := db.orders[sale];
    var asked := Resolve(cat, RefundLines(o, r.r));
    assert Step(cat, boCode, db, r) == BookRefund(db, sale, r.key, r.r, asked, plan.fully, r.now, r.so);
  }

  /** The commit of a current plan is one step of the handler on the tables as they stand. */
  lemma CarriedOut(cat: Catalog, boCode: string, db: Db, r: ValidRequest, plan: Plan, mine: Inventory)
    requires Current(cat, boCode, db, r, plan) && Clear(db, r, plan, mine)
    ensures Step(cat, boCode, db, r) == (Published(db, plan, mine), ReplyOf(plan))
  {
    match r
    case CheckoutReq(_, _, _, _, _) => CheckoutCarriedOut(cat, boCode, db, r, plan, mine);
    case RefundReq(_, _, _, _, _) => RefundCarriedOut(cat, boCode, db, r, plan, mine);
    case ReferenceReq(_, _, _, _, _) => assert db.stock + mine == db.stock;
  }

  // ---------- Plans under other requests' commits ----------

  /** What a current plan says about its own row. */
  lemma PlanShape(cat: Catalog, boCode: string, db: Db, u: ValidRequest, w: Plan)
    requires Indexed(db) && Current(cat, boCode, db, u, w)
    ensures w.row.otype == Refund <==> u.RefundReq?
    ensures u.RefundReq? ==> w.sale.Some? && w.sale.value in db.orders && w.row.parent == w.sale
    ensures !u.RefundReq? ==> w.sale.None?
    ensures w.row.parent.Some? ==> w.row.parent.value in db.orders
    ensures w.row.parent.Some? ==> w.row.number == MintChild(db, w.row.parent.value, db.orders[w.row.parent.value].number, w.row.otype)
  {
    if u.CheckoutReq? {
      var h := CheckoutHeader(db, cat, boCode, u.scope, u.so, u.c);
      assert w.row.parent == h.parent && w.row.number == h.number && w.row.otype == u.c.otype;
    }
  }

  ghost predicate NewRow(db: Db, w: Plan) {
    && Indexed(db) && w.so !in db.orders
    && (w.sale.Some? ==> w.sale.value in db.orders)
  }

  /** The order rows after a commit: the new one, and perhaps a mark on a sale. */
  lemma PublishedRows(db: Db, w: Plan, mine: Inventory)
    requires NewRow(db, w)
    ensures var db' := Published(db, w, mine);
      && SameRows(db.orders[w.so := w.row], db'.orders)
      && (forall id :: id in db.orders && w.sale != Some(id) ==> db'.orders[id] == db.orders[id])
  {
  }

  lemma ChildrenAfter(db: Db, w: Plan, mine: Inventory, parent: nat, t: OrderType)
    requires NewRow(db, w)
    ensures var db' := Published(db, w, mine);
      ChildCount(db'.orders, parent, t, db'.top)
      == ChildCount(db.orders, parent, t, db.top) + (if w.row.parent == Some(parent) && w.row.otype == t then 1 else 0)
  {
    var db' := Published(db, w, mine);
    PublishedRows(db, w, mine);
    ChildrenWithOrder(db.orders, db.top, w.so, w.row, parent, t);
    ChildrenOfSameRows(db.orders[w.so := w.row], db'.orders, db'.top, parent, t);
  }

  lemma RefundsAfter(db: Db, w: Plan, mine: Inventory, sale: nat, item: nat)
    requires NewRow(db, w)
    ensures var db' := Published(db, w, mine);
      RefundedQty(db'.orders, sale, item, db'.top)
      == RefundedQty(db.orders, sale, item, db.top) + RefundedOf(w.row, sale, item)
  {
    var db' := Published(db, w, mine);
    PublishedRows(db, w, mine);
    SumsWithOrder(db.orders, db.top, w.so, w.row, sale, item);
    SumsOfSameRows(db.orders[w.so := w.row], db'.orders, db'.top, sale, item);
  }

  /** Numbering a child is disturbed only by a sibling, and then the sibling took the number. */
  lemma MintAfter(cat: Catalog, boCode: string, db: Db, u: ValidRequest, w: Plan, mine: Inventory, parent: nat, t: OrderType)
    requires NewRow(db, w) && Current(cat, boCode, db, u, w) && parent in db.orders
    ensures var db' := Published(db, w, mine); var number := db.orders[parent].number;
      MintChild(db', parent, number, t) == MintChild(db, parent, number, t) || MintChild(db, parent, number, t) in db'.numbers
  {
    PlanShape(cat, boCode, db, u, w);
    ChildrenAfter(db, w, mine, parent, t);
  }

  /** An order found by its number is found again after any commit under another number. */
  lemma VisibleAfter(db: Db, w: Plan, mine: Inventory, scope: seq<nat>, number: string)
    requires NewRow(db, w) && w.row.number !in db.numbers && Visible(db, scope, number).Some?
    ensures Visible(Published(db, w, mine), scope, number) == Visible(db, scope, number)
  {
    PublishedRows(db, w, mine);
    var db' := Published(db, w, mine);
    var id := db.numbers[number];
    assert db'.orders[id].warehouse == db.orders[id].warehouse;
  }

  lemma HeaderAfter(cat: Catalog, boCode: string, db: Db, r: ValidRequest, u: ValidRequest, w: Plan, mine: Inventory)
    requires NewRow(db, w) && Current(cat, boCode, db, u, w) && w.row.number !in db.numbers
    requires r.CheckoutReq? && CartResolves(cat, r.c)
    ensures var db' := Published(db, w, mine);
      var h := CheckoutHeader(db, cat, boCode, r.scope, r.so, r.c);
      h.Header? ==> CheckoutHeader(db', cat, boCode, r.scope, r.so, r.c) == h || h.number in db'.numbers
  {
    var b := r.c;
    if CheckoutHeader(db, cat, boCode, r.scope, r.so, b).Header? && (b.otype == Replacement || b.otype == Exchange) {
      VisibleAfter(db, w, mine, r.scope, b.parentNumber.value);
      MintAfter(cat, boCode, db, u, w, mine, Visible(db, r.scope, b.parentNumber.value).value, b.otype);
    }
  }

  lemma OriginalAfter(db: Db, w: Plan, mine: Inventory, scope: seq<nat>, number: string, sale: nat)
    requires NewRow(db, w) && w.row.number !in db.numbers && Original(db, scope, number) == Some(sale) && w.sale != Some(sale)
    ensures var db' := Published(db, w, mine); Original(db', scope, number) == Some(sale) && db'.orders[sale] == db.orders[sale]
  {
    VisibleAfter(db, w, mine, scope, number);
    PublishedRows(db, w, mine);
  }

  /** A locked sale and its ledger are as they were after any commit that does not refund it. */
  lemma GatesAfter(cat: Catalog, boCode: string, db: Db, r: ValidRequest, sale: nat, o: Order, asked: seq<Demand>, fully: bool,
                   u: ValidRequest, w: Plan, mine: Inventory)
    requires NewRow(db, w) && Current(cat, boCode, db, u, w) && w.row.number !in db.numbers
    requires r.RefundReq? && PassedGates(cat, db, r, sale, o, asked, fully) && w.sale != Some(sale)
    ensures PassedGates(cat, Published(db, w, mine), r, sale, o, asked, fully)
  {
    var db' := Published(db, w, mine);
    OriginalAfter(db, w, mine, r.scope, r.r.original, sale);
    forall item: nat ensures RefundedQty(db'.orders, sale, item, db'.top) == RefundedQty(db.orders, sale, item, db.top) {
      OtherLedgerStays(cat, boCode, db, sale, item, u, w, mine);
    }
    LedgerDecides(db.orders, db.top, db'.orders, db'.top, sale, Resolve(cat, o.audited.value.lines), asked);
  }

  lemma OtherLedgerStays(cat: Catalog, boCode: string, db: Db, sale: nat, item: nat, u: ValidRequest, w: Plan, mine: Inventory)
    requires NewRow(db, w) && Current(cat, boCode, db, u, w) && w.sale != Some(sale)
    ensures var db' := Published(db, w, mine);
      RefundedQty(db'.orders, sale, item, db'.top) == RefundedQty(db.orders, sale, item, db.top)
  {
    PlanShape(cat, boCode, db, u, w);
    RefundsAfter(db, w, mine, sale, item);
  }

  lemma LedgerDecides(a: map<nat, Order>, n: nat, b: map<nat, Order>, m: nat, sale: nat, sold: seq<Demand>, asked: seq<Demand>)
    requires forall item :: RefundedQty(b, sale, item, m) == RefundedQty(a, sale, item, n)
    ensures FitsRemainder(b, m, sale, sold, asked) <==> FitsRemainder(a, n, sale, sold, asked)
    ensures Completes(b, m, sale, sold, asked) <==> Completes(a, n, sale, sold, asked)
  {
  }

  lemma CheckoutPlanAfter(cat: Catalog, boCode: string, db: Db, r: ValidRequest, plan: Plan, u: ValidRequest, w: Plan, mine: Inventory)
    requires NewRow(db, w) && Current(cat, boCode, db, u, w) && w.row.number !in db.numbers
    requires r.CheckoutReq? && CheckoutPlan(cat, boCode, db, r) == Planned(plan)
    ensures var db' := Published(db, w, mine); CheckoutPlan(cat, boCode, db', r) == Planned(plan) || plan.row.number in db'.numbers
  {
    HeaderAfter(cat, boCode, db, r, u, w, mine);
  }

  lemma MemoAfter(cat: Catalog, boCode: string, db: Db, r: ValidRequest, plan: Plan, u: ValidRequest, w: Plan, mine: Inventory)
    requires NewRow(db, w) && Current(cat, boCode, db, u, w) && w.row.number !in db.numbers
    requires r.RefundReq? && MemoIsCurrent(cat, db, r, plan) && w.sale != plan.sale
    ensures var db' := Published(db, w, mine); MemoIsCurrent(cat, db', r, plan) || plan.row.number in db'.numbers
  {
    var sale := plan.sale.value;
    var o := db.orders[sale];
    var asked := Resolve(cat, RefundLines(o, r.r));
    GatesAfter(cat, boCode, db, r, sale, o, asked, plan.fully, u, w, mine);
    MintAfter(cat, boCode, db, u, w, mine, sale, Refund);
  }

  /**
   * A plan outlives another request's commit, unless that commit took its number:
   * two children minted from one count carry one number.
   */
  lemma PlanAfter(cat: Catalog, boCode: string, db: Db, r: ValidRequest, plan: Plan, u: ValidRequest, w: Plan, mine: Inventory)
    requires NewRow(db, w) && Current(cat, boCode, db, u, w) && w.row.number !in db.numbers
    requires Current(cat, boCode, db, r, plan) && (plan.sale.Some? ==> w.sale != plan.sale)
    ensures var db' := Published(db, w, mine); Current(cat, boCode, db', r, plan) || plan.row.number in db'.numbers
  {
    match r
    case CheckoutReq(_, _, _, _, _) => CheckoutPlanAfter(cat, boCode, db, r, plan, u, w, mine);
    case RefundReq(_, _, _, _, _) => MemoAfter(cat, boCode, db, r, plan, u, w, mine);
    case ReferenceReq(_, _, _, _, _) =>
  }
}
