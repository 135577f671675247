// The tables behind api/routes/pos.py, and each handler as one committed
// transaction: old tables in, new tables and a reply out.

module PosModel {
  import opened Wrappers
  import Decimal

  // ---------- Catalogue ----------

  datatype Item = Item(id: nat, active: bool)
  datatype Warehouse = Warehouse(id: nat, code: string)

  /** Items by SKU, warehouses in id order, bins by (warehouse id, bin code). */
  datatype Catalog = Catalog(
    items: map<string, Item>,
    warehouses: seq<Warehouse>,
    bins: map<(nat, string), nat>)

  /** One inventory row: no lots, so (item, bin) identifies it. */
  datatype Loc = Loc(item: nat, warehouse: nat, bin: nat)
  datatype Stock = Stock(onHand: int, reserved: int)
  type Inventory = map<Loc, Stock>

  /** A wire-level line: SKU, warehouse code, bin code, quantity. */
  datatype CartLine = CartLine(sku: string, warehouse: string, bin: string, qty: int)

  /** A wire-level stock location. */
  datatype Place = Place(sku: string, warehouse: string, bin: string)

  /** A line resolved to internal ids; `index` is its position in the request. */
  datatype Demand = Demand(index: nat, loc: Loc, qty: int)

  function WarehouseId(ws: seq<Warehouse>, code: string): Option<nat> {
    if ws == [] then None
    else if ws[0].code == code then Some(ws[0].id)
    else WarehouseId(ws[1..], code)
  }

  function ResolveLine(cat: Catalog, ln: CartLine): Option<Loc> {
    var w := WarehouseId(cat.warehouses, ln.warehouse);
    if ln.sku !in cat.items || w.None? || (w.value, ln.bin) !in cat.bins then None
    else Some(Loc(cat.items[ln.sku].id, w.value, cat.bins[(w.value, ln.bin)]))
  }

  predicate AllResolve(cat: Catalog, lines: seq<CartLine>) {
    forall i :: 0 <= i < |lines| ==> ResolveLine(cat, lines[i]).Some?
  }

  function Resolve(cat: Catalog, lines: seq<CartLine>): (ds: seq<Demand>)
    requires AllResolve(cat, lines)
    ensures |ds| == |lines|
  {
    seq(|lines|, i requires 0 <= i < |lines| =>
      Demand(i, ResolveLine(cat, lines[i]).value, lines[i].qty))
  }

  // ---------- Quantities asked of a list of lines ----------

  function LocQty(ds: seq<Demand>, l: Loc): int {
    if ds == [] then 0
    else (if ds[0].loc == l then ds[0].qty else 0) + LocQty(ds[1..], l)
  }

  function ItemQty(ds: seq<Demand>, item: nat): int {
    if ds == [] then 0
    else (if ds[0].loc.item == item then ds[0].qty else 0) + ItemQty(ds[1..], item)
  }

  function PlaceOf(ln: CartLine): Place {
    Place(ln.sku, ln.warehouse, ln.bin)
  }

  function PlaceQty(lines: seq<CartLine>, p: Place): int {
    if lines == [] then 0
    else (if PlaceOf(lines[0]) == p then lines[0].qty else 0) + PlaceQty(lines[1..], p)
  }

  // ---------- The stock gate ----------

  function Available(inv: Inventory, l: Loc): int {
    if l in inv then inv[l].onHand - inv[l].reserved else 0
  }

  /** What one accepted line does to its row: a phone order reserves, a counter sale takes. */
  function Charge(s: Stock, qty: int, phone: bool): Stock {
    if phone then s.(reserved := s.reserved + qty) else s.(onHand := s.onHand - qty)
  }

  /** Lines are checked and applied one after the other on the running stock. */
  function Gate(inv: Inventory, ds: seq<Demand>, phone: bool): Option<Inventory> {
    if ds == [] then Some(inv)
    else if ds[0].loc !in inv || Available(inv, ds[0].loc) < ds[0].qty then None
    else Gate(inv[ds[0].loc := Charge(inv[ds[0].loc], ds[0].qty, phone)], ds[1..], phone)
  }

  function PutBack(inv: Inventory, ds: seq<Demand>): Option<Inventory> {
    if ds == [] then Some(inv)
    else if ds[0].loc !in inv then None
    else
      var s := inv[ds[0].loc];
      PutBack(inv[ds[0].loc := s.(onHand := s.onHand + ds[0].qty)], ds[1..])
  }

  /** Row-locking order: by (item_id, bin_id). */
  predicate Before(a: Demand, b: Demand) {
    a.loc.item < b.loc.item || (a.loc.item == b.loc.item && a.loc.bin < b.loc.bin)
  }

  function InsertSorted(d: Demand, ds: seq<Demand>): seq<Demand> {
    if ds == [] then [d]
    else if Before(d, ds[0]) then [d] + ds
    else [ds[0]] + InsertSorted(d, ds[1..])
  }

  /** A stable sort: each line goes after the earlier lines with the same key. */
  function Sorted(ds: seq<Demand>): seq<Demand> {
    if ds == [] then [] else InsertSorted(ds[|ds| - 1], Sorted(ds[..|ds| - 1]))
  }

  // ---------- Orders ----------

  datatype Source = Pos | Reference
  datatype OrderType = Sale | Replacement | Exchange | Refund
  datatype Status = Open | Shipped | WaitingStock | Refunded
  datatype Tender = Card | Cash | Split

  datatype SoLine = SoLine(number: nat, item: nat, ordered: int, reserved: int, shipped: int)

  /** `audited` holds the tender and line locations written to audit_log. */
  datatype Audit = Audit(tender: Tender, lines: seq<CartLine>)
  datatype Order = Order(
    number: string, source: Source, otype: OrderType, status: Status, warehouse: nat,
    parent: Option<nat>, createdAt: int, lines: seq<SoLine>,
    audited: Option<Audit>, refundSo: Option<nat>)

  datatype CheckoutBody = CheckoutBody(
    phone: bool, backorder: bool, otype: OrderType, parentNumber: Option<string>,
    tender: Tender, lines: seq<CartLine>)
  datatype RefundBody = RefundBody(original: string, tender: Tender, lines: Option<seq<CartLine>>)

  /** A request body without its key; it stands for its own SHA-256. */
  datatype Body = CheckoutOf(c: CheckoutBody) | RefundOf(r: RefundBody)

  datatype Receipt =
    | SaleReceipt(number: string)
    | RefundReceipt(number: string, original: string, fully: bool)

  datatype KeyRow = KeyRow(so: nat, body: Body, receipt: Receipt)

  /**
   * The committed tables; `numbers` and `keys` are the two unique indexes on
   * sales_orders, and every order id lies below `top`.
   */
  datatype Db = Db(
    stock: Inventory, orders: map<nat, Order>, numbers: map<string, nat>,
    keys: map<string, KeyRow>, top: nat)

  function Above(top: nat, so: nat): nat {
    if so < top then top else so + 1
  }

  datatype Error =
    | KeyReused | WarehouseNotInScope | FulfillmentFailed | ParentRequired | ParentNotFound
    | BackorderWarehouseUnavailable | NumberTaken | OriginalNotFound | AlreadyRefunded
    | WindowExpired | TenderMismatch | LineNotInOrder | ExceedsRemaining | NoScope

  datatype Reply =
    | Created(receipt: Receipt)
    | Replayed(stored: Receipt)
    | Ingested(so: nat, created: bool)
    | Rejected(error: Error)

  // ---------- Checkout ----------

  predicate ValidLines(lines: seq<CartLine>) {
    |lines| > 0 && forall i :: 0 <= i < |lines| ==> lines[i].qty >= 1
  }

  predicate ValidCheckout(b: CheckoutBody) {
    ValidLines(b.lines) && b.otype != Refund
  }

  function ReplayReply(row: KeyRow, body: Body): Reply {
    if row.body != body then Rejected(KeyReused) else Replayed(row.receipt)
  }

  predicate OutOfScope(cat: Catalog, scope: seq<nat>, lines: seq<CartLine>) {
    exists i :: 0 <= i < |lines| &&
      var w := WarehouseId(cat.warehouses, lines[i].warehouse);
      w.Some? && w.value !in scope
  }

  predicate CartResolves(cat: Catalog, b: CheckoutBody) {
    && (forall i :: 0 <= i < |b.lines| ==>
          b.lines[i].sku in cat.items && cat.items[b.lines[i].sku].active)
    && (!b.backorder ==> AllResolve(cat, b.lines))
  }

  function ChildCount(orders: map<nat, Order>, parent: nat, t: OrderType, n: nat): nat {
    if n == 0 then 0
    else ChildCount(orders, parent, t, n - 1) +
         (if n - 1 in orders && orders[n - 1].parent == Some(parent) && orders[n - 1].otype == t then 1 else 0)
  }

  function Suffix(t: OrderType): string {
    match t
    case Replacement => "REPLACEMENT"
    case Exchange => "EXCHANGE"
    case _ => "REFUND"
  }

  function MintChild(db: Db, parent: nat, parentNumber: string, t: OrderType): string {
    var existing := ChildCount(db.orders, parent, t, db.top);
    if existing == 0 then parentNumber + "-" + Suffix(t)
    else parentNumber + "-" + Suffix(t) + "-" + Decimal.Digits(existing + 1)
  }

  /** The order with this number, when the token's warehouses include its warehouse. */
  function Visible(db: Db, scope: seq<nat>, number: string): Option<nat> {
    if number in db.numbers && db.numbers[number] in db.orders
       && db.orders[db.numbers[number]].warehouse in scope
    then Some(db.numbers[number]) else None
  }

  function BackorderWarehouse(cat: Catalog, code: string): Option<nat> {
    if code != "" then WarehouseId(cat.warehouses, code)
    else if |cat.warehouses| == 1 then Some(cat.warehouses[0].id)
    else None
  }

  datatype Header = Header(number: string, warehouse: nat, parent: Option<nat>) | NoHeader(why: Error)

  /** Order number, parent and header warehouse of a checkout whose lines resolve. */
  function CheckoutHeader(db: Db, cat: Catalog, boCode: string, scope: seq<nat>, so: nat, b: CheckoutBody): Header
    requires ValidCheckout(b) && CartResolves(cat, b)
  {
    var child := b.otype == Replacement || b.otype == Exchange;
    var parent := if child && b.parentNumber.Some? then Visible(db, scope, b.parentNumber.value) else None;
    if child && (b.parentNumber.None? || b.parentNumber == Some("")) then NoHeader(ParentRequired)
    else if child && parent.None? then NoHeader(ParentNotFound)
    else
      var number := if child then MintChild(db, parent.value, b.parentNumber.value, b.otype)
                    else "POS-" + Decimal.Digits(so);
      if b.backorder then
        var w := BackorderWarehouse(cat, boCode);
        if w.None? then NoHeader(BackorderWarehouseUnavailable) else Header(number, w.value, parent)
      else
        Header(number, ResolveLine(cat, b.lines[0]).value.warehouse, parent)
  }

  function PendingLines(cat: Catalog, lines: seq<CartLine>): (r: seq<SoLine>)
    requires forall i :: 0 <= i < |lines| ==> lines[i].sku in cat.items
    ensures |r| == |lines|
  {
    seq(|lines|, i requires 0 <= i < |lines| =>
      SoLine(i + 1, cat.items[lines[i].sku].id, lines[i].qty, 0, 0))
  }

  function SoldLines(ds: seq<Demand>, phone: bool): (r: seq<SoLine>)
    ensures |r| == |ds|
  {
    seq(|ds|, i requires 0 <= i < |ds| =>
      SoLine(ds[i].index + 1, ds[i].loc.item, ds[i].qty,
             if phone then ds[i].qty else 0, if phone then 0 else ds[i].qty))
  }

  function AddOrder(db: Db, so: nat, o: Order, key: string, row: KeyRow): Db {
    db.(orders := db.orders[so := o], numbers := db.numbers[o.number := so], keys := db.keys[key := row], top := Above(db.top, so))
  }

  /**
   * POST /checkout. `boCode` is BACKORDER_WAREHOUSE_CODE, `scope` the token's
   * warehouses, `so` the order id the sequence hands out.
   */
  function Checkout(db: Db, cat: Catalog, boCode: string, scope: seq<nat>, key: string, b: CheckoutBody, now: int, so: nat): (Db, Reply)
    requires ValidCheckout(b)
  {
    if key in db.keys then (db, ReplayReply(db.keys[key], CheckoutOf(b)))
    else if OutOfScope(cat, scope, b.lines) then (db, Rejected(WarehouseNotInScope))
    else if !CartResolves(cat, b) then (db, Rejected(FulfillmentFailed))
    else
      var h := CheckoutHeader(db, cat, boCode, scope, so, b);
      if h.NoHeader? then (db, Rejected(h.why))
      else if so in db.orders || h.number in db.numbers then (db, Rejected(NumberTaken))
      else
        match SaleStock(cat, db.stock, b)
        case None => (db, Rejected(FulfillmentFailed))
        case Some(stock) =>
          var receipt := SaleReceipt(h.number);
          (AddOrder(db.(stock := stock), so, SaleOrder(cat, h, b, now), key, KeyRow(so, CheckoutOf(b), receipt)), Created(receipt))
  }

  /** Stock after the lines; a backorder moves none. */
  function SaleStock(cat: Catalog, stock: Inventory, b: CheckoutBody): Option<Inventory>
    requires CartResolves(cat, b)
  {
    if b.backorder then Some(stock) else Gate(stock, Sorted(Resolve(cat, b.lines)), b.phone)
  }

  /** The order row and lines a checkout writes. */
  function SaleOrder(cat: Catalog, h: Header, b: CheckoutBody, now: int): Order
    requires h.Header? && CartResolves(cat, b)
  {
    var audited := Some(Audit(b.tender, b.lines));
    if b.backorder then
      Order(h.number, Pos, b.otype, WaitingStock, h.warehouse, h.parent, now, PendingLines(cat, b.lines), audited, None)
    else
      Order(h.number, Pos, b.otype, if b.phone then Open else Shipped, h.warehouse, h.parent, now,
            SoldLines(Sorted(Resolve(cat, b.lines)), b.phone), audited, None)
  }

  // ---------- Refund ----------

  predicate ValidRefund(b: RefundBody) {
    b.lines.Some? ==> ValidLines(b.lines.value)
  }

  const REFUND_WINDOW := 90 * 86400

  function LineQty(lines: seq<SoLine>, item: nat): int {
    if lines == [] then 0
    else (if lines[0].item == item then lines[0].shipped else 0) + LineQty(lines[1..], item)
  }

  /** Is order `id` a credit memo of sale `sale`? */
  predicate IsMemo(orders: map<nat, Order>, sale: nat, id: nat) {
    id in orders && orders[id].parent == Some(sale) && orders[id].otype == Refund
  }

  /** Units of `item` given back by the credit memos of `sale` with ids below `n`. */
  function RefundedQty(orders: map<nat, Order>, sale: nat, item: nat, n: nat): int {
    if n == 0 then 0
    else RefundedQty(orders, sale, item, n - 1) +
         (if IsMemo(orders, sale, n - 1) then -LineQty(orders[n - 1].lines, item) else 0)
  }

  function ItemsOf(ds: seq<Demand>): set<nat> {
    set d | d in ds :: d.loc.item
  }

  /** Every requested place is on the sale, with no more than it sold there. */
  predicate WithinSold(sold: seq<CartLine>, asked: seq<CartLine>) {
    forall i :: 0 <= i < |asked| ==> PlaceWithinSold(sold, asked, PlaceOf(asked[i]))
  }

  predicate PlaceWithinSold(sold: seq<CartLine>, asked: seq<CartLine>, p: Place) {
    (exists j :: 0 <= j < |sold| && PlaceOf(sold[j]) == p) && PlaceQty(asked, p) <= PlaceQty(sold, p)
  }

  /** The gates on the original order, in the handler's order; None lets the refund go on. */
  function RefundBar(cat: Catalog, o: Order, b: RefundBody, now: int): Option<Error> {
    if o.refundSo.Some? then Some(AlreadyRefunded)
    else if o.status != Shipped then Some(OriginalNotFound)
    else if o.createdAt < now - REFUND_WINDOW then Some(WindowExpired)
    else if o.audited.None? then Some(OriginalNotFound)
    else if o.audited.value.tender != b.tender then Some(TenderMismatch)
    else if o.audited.value.lines == [] then Some(OriginalNotFound)
    else if !AllResolve(cat, o.audited.value.lines) then Some(OriginalNotFound)
    else if b.lines.Some? && !(AllResolve(cat, b.lines.value) && WithinSold(o.audited.value.lines, b.lines.value))
    then Some(LineNotInOrder)
    else None
  }

  function RefundLines(o: Order, b: RefundBody): seq<CartLine>
    requires o.audited.Some?
  {
    if b.lines.Some? then b.lines.value else o.audited.value.lines
  }

  function MemoLines(ds: seq<Demand>): (r: seq<SoLine>)
    ensures |r| == |ds|
  {
    seq(|ds|, i requires 0 <= i < |ds| =>
      SoLine(ds[i].index + 1, ds[i].loc.item, -ds[i].qty, 0, -ds[i].qty))
  }

  /** The cumulative guard: nothing asked goes past what is left of it. */
  predicate FitsRemainder(orders: map<nat, Order>, n: nat, sale: nat, sold: seq<Demand>, asked: seq<Demand>) {
    forall item :: item in ItemsOf(asked) ==>
      RefundedQty(orders, sale, item, n) + ItemQty(asked, item) <= ItemQty(sold, item)
  }

  predicate Completes(orders: map<nat, Order>, n: nat, sale: nat, sold: seq<Demand>, asked: seq<Demand>) {
    forall item :: item in ItemsOf(sold) ==>
      RefundedQty(orders, sale, item, n) + ItemQty(asked, item) == ItemQty(sold, item)
  }

  function Original(db: Db, scope: seq<nat>, number: string): Option<nat> {
    var so := Visible(db, scope, number);
    if so.Some? && db.orders[so.value].source == Pos && db.orders[so.value].otype == Sale then so else None
  }

  /** The credit memo a refund writes. */
  function MemoOrder(number: string, sale: nat, o: Order, b: RefundBody, asked: seq<Demand>, now: int): Order
    requires o.audited.Some?
  {
    Order(number, Pos, Refund, Shipped, o.warehouse, Some(sale), now,
          MemoLines(Sorted(asked)), Some(Audit(b.tender, RefundLines(o, b))), None)
  }

  /** The original after the refund: marked once it is complete. */
  function Marked(o: Order, fully: bool, so: nat): Order {
    if fully then o.(refundSo := Some(so), status := Refunded) else o
  }

  /** The write half of a refund: credit memo, restocking, and the mark on a completed sale. */
  function BookRefund(db: Db, sale: nat, key: string, b: RefundBody, asked: seq<Demand>, fully: bool, now: int, so: nat): (Db, Reply)
    requires sale in db.orders && db.orders[sale].audited.Some?
  {
    var o := db.orders[sale];
    var number := MintChild(db, sale, o.number, Refund);
    if so in db.orders || number in db.numbers then (db, Rejected(NumberTaken))
    else
      match PutBack(db.stock, Sorted(asked))
      case None => (db, Rejected(OriginalNotFound))
      case Some(stock) =>
        var receipt := RefundReceipt(number, o.number, fully);
        var kept := AddOrder(db.(stock := stock), so, MemoOrder(number, sale, o, b, asked, now), key, KeyRow(so, RefundOf(b), receipt));
        (kept.(orders := kept.orders[sale := Marked(o, fully, so)]), Created(receipt))
  }

  /** POST /refund; `now` counts seconds, `so` is the order id the sequence hands out. */
  function RefundOrder(db: Db, cat: Catalog, scope: seq<nat>, key: string, b: RefundBody, now: int, so: nat): (Db, Reply)
    requires ValidRefund(b)
  {
    if key in db.keys then (db, ReplayReply(db.keys[key], RefundOf(b)))
    else
      var sale := Original(db, scope, b.original);
      if sale.None? then (db, Rejected(OriginalNotFound))
      else
        var o := db.orders[sale.value];
        var bar := RefundBar(cat, o, b, now);
        if bar.Some? then (db, Rejected(bar.value))
        else
          var sold := Resolve(cat, o.audited.value.lines);
          var asked := Resolve(cat, RefundLines(o, b));
          if !FitsRemainder(db.orders, db.top, sale.value, sold, asked) then (db, Rejected(ExceedsRemaining))
          else
            BookRefund(db, sale.value, key, b, asked, Completes(db.orders, db.top, sale.value, sold, asked), now, so)
  }

  // ---------- Reference ingest ----------

  datatype RefLine = RefLine(sku: string, qty: int)

  function KnownLines(cat: Catalog, lines: seq<RefLine>, number: nat): seq<SoLine> {
    if lines == [] then []
    else if lines[0].sku !in cat.items then KnownLines(cat, lines[1..], number)
    else [SoLine(number, cat.items[lines[0].sku].id, lines[0].qty, 0, lines[0].qty)]
         + KnownLines(cat, lines[1..], number + 1)
  }

  /** POST /reference-orders. */
  function ReferenceOrder(db: Db, cat: Catalog, scope: seq<nat>, number: string, lines: seq<RefLine>, now: int, so: nat): (Db, Reply) {
    if scope == [] then (db, Rejected(NoScope))
    else if number in db.numbers then (db, Ingested(db.numbers[number], false))
    else if so in db.orders then (db, Rejected(NumberTaken))
    else
      var o := Order(number, Reference, Sale, Shipped, scope[0], None, now, KnownLines(cat, lines, 1), None, None);
      (db.(orders := db.orders[so := o], numbers := db.numbers[number := so], top := Above(db.top, so)), Ingested(so, true))
  }
}
