// The POS handlers in the form the source has them: statements that update the
// tables inside a transaction, with rollbacks. Each is proved to move the tables
// as PosModel says.

module PosStore {
  import opened Wrappers
  import opened PosModel
  import opened PosStockGate

  lemma {:induction false} ItemQtySnoc(ds: seq<Demand>, d: Demand, item: nat)
    ensures ItemQty(ds + [d], item) == ItemQty(ds, item) + (if d.loc.item == item then d.qty else 0)
  {
    if ds != [] {
      ItemQtySnoc(ds[1..], d, item);
      assert (ds + [d])[1..] == ds[1..] + [d];
    } else {
      assert ([d])[1..] == [];
    }
  }

  lemma {:induction false} PlaceQtySnoc(lines: seq<CartLine>, ln: CartLine, p: Place)
    ensures PlaceQty(lines + [ln], p) == PlaceQty(lines, p) + (if PlaceOf(ln) == p then ln.qty else 0)
  {
    if lines != [] {
      PlaceQtySnoc(lines[1..], ln, p);
      assert (lines + [ln])[1..] == lines[1..] + [ln];
    } else {
      assert ([ln])[1..] == [];
    }
  }

  /** The two dictionaries a refund builds: quantity by place and by item. */
  ghost predicate Tallies(lines: seq<CartLine>, ds: seq<Demand>, byPlace: map<Place, int>, byItem: map<nat, int>) {
    && (forall p :: p in byPlace <==> exists i :: 0 <= i < |lines| && PlaceOf(lines[i]) == p)
    && (forall p :: p in byPlace ==> byPlace[p] == PlaceQty(lines, p))
    && byItem.Keys == ItemsOf(ds)
    && (forall item :: item in byItem ==> byItem[item] == ItemQty(ds, item))
  }

  /** The gate on places, read off the two tallies. */
  lemma PlacesDecide(sold: seq<CartLine>, asked: seq<CartLine>, soldAt: map<Place, int>, askedAt: map<Place, int>,
                     soldDs: seq<Demand>, soldBy: map<nat, int>, askedDs: seq<Demand>, askedBy: map<nat, int>)
    requires Tallies(sold, soldDs, soldAt, soldBy) && Tallies(asked, askedDs, askedAt, askedBy)
    ensures WithinSold(sold, asked) <==> forall p :: p in askedAt ==> p in soldAt && askedAt[p] <= soldAt[p]
  {
    forall p | p in askedAt ensures PlaceWithinSold(sold, asked, p) <==> p in soldAt && askedAt[p] <= soldAt[p] {
    }
    forall i | 0 <= i < |asked| ensures PlaceOf(asked[i]) in askedAt {
    }
    if WithinSold(sold, asked) {
      forall p | p in askedAt ensures p in soldAt && askedAt[p] <= soldAt[p] {
        var i :| 0 <= i < |asked| && PlaceOf(asked[i]) == p;
        assert PlaceWithinSold(sold, asked, PlaceOf(asked[i]));
      }
    }
  }

  lemma TalliesGrow(lines: seq<CartLine>, ds: seq<Demand>, byPlace: map<Place, int>, byItem: map<nat, int>, ln: CartLine, d: Demand)
    requires Tallies(lines, ds, byPlace, byItem) && d.qty == ln.qty
    ensures var p := PlaceOf(ln); var item := d.loc.item;
      Tallies(lines + [ln], ds + [d],
              byPlace[p := (if p in byPlace then byPlace[p] else 0) + ln.qty],
              byItem[item := (if item in byItem then byItem[item] else 0) + d.qty])
  {
    PlacesGrow(lines, ds, byPlace, byItem, ln);
    forall item: nat ensures ItemQty(ds + [d], item) == ItemQty(ds, item) + (if d.loc.item == item then d.qty else 0) {
      ItemQtySnoc(ds, d, item);
    }
    NoItemNoQty(ds, d.loc.item);
    assert ItemsOf(ds + [d]) == ItemsOf(ds) + {d.loc.item} by {
      forall item: nat | item in ItemsOf(ds) + {d.loc.item} ensures item in ItemsOf(ds + [d]) {
        assert (ds + [d])[|ds|] == d;
        if e :| e in ds && e.loc.item == item { assert e in ds + [d]; }
      }
    }
  }

  lemma PlacesGrow(lines: seq<CartLine>, ds: seq<Demand>, byPlace: map<Place, int>, byItem: map<nat, int>, ln: CartLine)
    requires Tallies(lines, ds, byPlace, byItem)
    ensures var p := PlaceOf(ln); var more := byPlace[p := (if p in byPlace then byPlace[p] else 0) + ln.qty];
      && (forall q :: q in more <==> exists i :: 0 <= i < |lines + [ln]| && PlaceOf((lines + [ln])[i]) == q)
      && (forall q :: q in more ==> more[q] == PlaceQty(lines + [ln], q))
  {
    var p := PlaceOf(ln);
    var more := byPlace[p := (if p in byPlace then byPlace[p] else 0) + ln.qty];
    var lines' := lines + [ln];
    forall q: Place ensures PlaceQty(lines', q) == PlaceQty(lines, q) + (if p == q then ln.qty else 0) {
      PlaceQtySnoc(lines, ln, q);
    }
    NoPlaceNoQty(lines, p);
    forall q: Place ensures q in more <==> exists i :: 0 <= i < |lines'| && PlaceOf(lines'[i]) == q {
      if q == p {
        assert PlaceOf(lines'[|lines|]) == q;
      } else if i :| 0 <= i < |lines| && PlaceOf(lines[i]) == q {
        assert PlaceOf(lines'[i]) == q;
      }
    }
  }

  lemma {:induction false} NoItemNoQty(ds: seq<Demand>, item: nat)
    ensures item !in ItemsOf(ds) ==> ItemQty(ds, item) == 0
  {
    if ds != [] {
      NoItemNoQty(ds[1..], item);
      assert ds[0] in ds && forall d :: d in ds[1..] ==> d in ds;
    }
  }

  lemma {:induction false} NoPlaceNoQty(lines: seq<CartLine>, p: Place)
    ensures (forall i :: 0 <= i < |lines| ==> PlaceOf(lines[i]) != p) ==> PlaceQty(lines, p) == 0
  {
    if lines != [] {
      NoPlaceNoQty(lines[1..], p);
    }
  }

  method TallyLines(cat: Catalog, lines: seq<CartLine>) returns (byPlace: map<Place, int>, byItem: map<nat, int>)
    requires AllResolve(cat, lines)
    ensures Tallies(lines, Resolve(cat, lines), byPlace, byItem)
  {
    byPlace, byItem := map[], map[];
    var ds := Resolve(cat, lines);
    for i := 0 to |lines|
      invariant Tallies(lines[..i], ds[..i], byPlace, byItem)
    {
      byPlace, byItem := TallyLine(lines[..i], ds[..i], byPlace, byItem, lines[i], ds[i]);
      assert lines[..i + 1] == lines[..i] + [lines[i]] && ds[..i + 1] == ds[..i] + [ds[i]];
    }
    assert lines[..|lines|] == lines && ds[..|lines|] == ds;
  }

  method TallyLine(ghost lines: seq<CartLine>, ghost ds: seq<Demand>, byPlace: map<Place, int>, byItem: map<nat, int>, ln: CartLine, d: Demand)
    returns (byPlace': map<Place, int>, byItem': map<nat, int>)
    requires Tallies(lines, ds, byPlace, byItem) && d.qty == ln.qty
    ensures Tallies(lines + [ln], ds + [d], byPlace', byItem')
  {
    TalliesGrow(lines, ds, byPlace, byItem, ln, d);
    var p, item := PlaceOf(ln), d.loc.item;
    byPlace' := byPlace[p := (if p in byPlace then byPlace[p] else 0) + ln.qty];
    byItem' := byItem[item := (if item in byItem then byItem[item] else 0) + d.qty];
  }

  /** validate-cart: every conflict of the cart in one answer. */
  method ValidateCart(cat: Catalog, inv: Inventory, scope: seq<nat>, lines: seq<CartLine>) returns (conflicts: seq<(nat, Reason)>)
    ensures conflicts == Conflicts(cat, inv, scope, lines)
    ensures conflicts == [] <==> forall i :: 0 <= i < |lines| ==> LineClear(cat, inv, scope, lines[i])
  {
    conflicts := [];
    for i := 0 to |lines|
      invariant conflicts == Conflicts(cat, inv, scope, lines[..i])
    {
      var reason := Classify(cat, inv, scope, lines[i]);
      assert lines[..i + 1][..i] == lines[..i];
      if reason.Some? {
        conflicts := conflicts + [(i, reason.value)];
      }
    }
    assert lines[..|lines|] == lines;
    NoConflictsMeansAllClear(cat, inv, scope, lines);
  }

  lemma Overwrite(orders: map<nat, Order>, so: nat, a: Order, b: Order)
    ensures orders[so := a][so := b] == orders[so := b]
  {
  }

  /** The order row a checkout inserts becomes the sale once its lines are in. */
  lemma RowWithLines(cat: Catalog, h: Header, b: CheckoutBody, now: int, row: Order)
    requires h.Header? && CartResolves(cat, b)
    requires row == Order(h.number, Pos, b.otype, if b.backorder then WaitingStock else if b.phone then Open else Shipped, h.warehouse, h.parent, now, [],
                          Some(Audit(b.tender, b.lines)), None)
    ensures b.backorder ==> row.(lines := PendingLines(cat, b.lines)) == SaleOrder(cat, h, b, now)
    ensures !b.backorder ==> row.(lines := SoldLines(Sorted(Resolve(cat, b.lines)), b.phone)) == SaleOrder(cat, h, b, now)
  {
  }

  class Store {
    var stock: Inventory
    var orders: map<nat, Order>
    var numbers: map<string, nat>
    var keys: map<string, KeyRow>
    /** One above the greatest order id. */
    var top: nat

    function State(): Db
      reads this
    {
      Db(stock, orders, numbers, keys, top)
    }

    method Rollback(saved: Db)
      modifies this
      ensures State() == saved
    {
      stock, orders, numbers, keys, top := saved.stock, saved.orders, saved.numbers, saved.keys, saved.top;
    }

    /** The header row: order, unique number, and the running maximum of ids. */
    method InsertOrder(so: nat, o: Order)
      modifies this`orders, this`numbers, this`top
      ensures orders == old(orders)[so := o] && numbers == old(numbers)[o.number := so] && top == Above(old(top), so)
    {
      orders := orders[so := o];
      numbers := numbers[o.number := so];
      if so >= top { top := so + 1; }
    }

    /** Steps 1 and 3: warehouse scope first, then every key of every line. */
    method CheckLines(cat: Catalog, scope: seq<nat>, b: CheckoutBody) returns (error: Option<Error>)
      requires ValidCheckout(b)
      ensures error == if OutOfScope(cat, scope, b.lines) then Some(Error.WarehouseNotInScope)
                       else if !CartResolves(cat, b) then Some(FulfillmentFailed) else None
    {
      for i := 0 to |b.lines|
        invariant forall j :: 0 <= j < i ==>
          var w := WarehouseId(cat.warehouses, b.lines[j].warehouse); w.Some? ==> w.value in scope
      {
        var w := WarehouseId(cat.warehouses, b.lines[i].warehouse);
        if w.Some? && w.value !in scope {
          return Some(Error.WarehouseNotInScope);
        }
      }
      for i := 0 to |b.lines|
        invariant forall j :: 0 <= j < i ==> b.lines[j].sku in cat.items && cat.items[b.lines[j].sku].active
        invariant !b.backorder ==> forall j :: 0 <= j < i ==> ResolveLine(cat, b.lines[j]).Some?
      {
        var unresolved := b.lines[i].sku !in cat.items || !cat.items[b.lines[i].sku].active;
        if !b.backorder {
          unresolved := unresolved || ResolveLine(cat, b.lines[i]).None?;
        }
        if unresolved {
          return Some(FulfillmentFailed);
        }
      }
      return None;
    }

    /** Step 6: lock, check, insert the line and move the row, one line at a time. */
    method SellLines(so: nat, ds: seq<Demand>, phone: bool) returns (ok: bool)
      requires so in orders && orders[so].lines == []
      modifies this`stock, this`orders
      ensures ok <==> Gate(old(stock), ds, phone).Some?
      ensures ok ==> stock == Gate(old(stock), ds, phone).value
                     && orders == old(orders)[so := old(orders)[so].(lines := SoldLines(ds, phone))]
    {
      ghost var before := orders;
      assert before[so].(lines := []) == before[so] && before[so := before[so]] == before;
      for i := 0 to |ds|
        invariant so in orders && orders == before[so := before[so].(lines := SoldLines(ds[..i], phone))]
        invariant Gate(stock, ds[i..], phone) == Gate(old(stock), ds, phone)
      {
        var d := ds[i];
        assert ds[i..][0] == d && ds[i..][1..] == ds[i + 1..];
        if d.loc !in stock || stock[d.loc].onHand - stock[d.loc].reserved < d.qty {
          return false;
        }
        var row := stock[d.loc];
        var line := if phone then SoLine(d.index + 1, d.loc.item, d.qty, d.qty, 0)
                    else SoLine(d.index + 1, d.loc.item, d.qty, 0, d.qty);
        orders := orders[so := orders[so].(lines := orders[so].lines + [line])];
        stock := stock[d.loc := if phone then row.(reserved := row.reserved + d.qty)
                                else row.(onHand := row.onHand - d.qty)];
        assert SoldLines(ds[..i + 1], phone) == SoldLines(ds[..i], phone) + [line];
      }
      assert ds[..|ds|] == ds;
      return true;
    }

    method Checkout(cat: Catalog, boCode: string, scope: seq<nat>, key: string, b: CheckoutBody, now: int, so: nat) returns (reply: Reply)
      requires ValidCheckout(b)
      modifies this
      ensures (State(), reply) == PosModel.Checkout(old(State()), cat, boCode, scope, key, b, now, so)
    {
      var saved := State();
      if key in keys {
        return ReplayReply(keys[key], CheckoutOf(b));
      }
      var error := CheckLines(cat, scope, b);
      if error.Some? {
        return Rejected(error.value);
      }
      var h := CheckoutHeader(saved, cat, boCode, scope, so, b);
      if h.NoHeader? {
        return Rejected(h.why);
      }
      if so in orders || h.number in numbers {
        return Rejected(NumberTaken);
      }
      var status := if b.backorder then WaitingStock else if b.phone then Open else Shipped;
      var row := Order(h.number, Pos, b.otype, status, h.warehouse, h.parent, now, [], Some(Audit(b.tender, b.lines)), None);
      InsertOrder(so, row);
      RowWithLines(cat, h, b, now, row);
      Overwrite(saved.orders, so, row, SaleOrder(cat, h, b, now));
      if b.backorder {
        orders := orders[so := orders[so].(lines := PendingLines(cat, b.lines))];
      } else {
        var ok := SellLines(so, Sorted(Resolve(cat, b.lines)), b.phone);
        if !ok {
          Rollback(saved);
          return Rejected(FulfillmentFailed);
        }
      }
      assert orders == saved.orders[so := SaleOrder(cat, h, b, now)];
      var receipt := SaleReceipt(h.number);
      keys := keys[key := KeyRow(so, CheckoutOf(b), receipt)];
      return Created(receipt);
    }

    /** Restock and write the credit-memo lines. */
    method ReturnLines(so: nat, ds: seq<Demand>) returns (ok: bool)
      requires so in orders && orders[so].lines == []
      modifies this`stock, this`orders
      ensures ok <==> PutBack(old(stock), ds).Some?
      ensures ok ==> stock == PutBack(old(stock), ds).value
                     && orders == old(orders)[so := old(orders)[so].(lines := MemoLines(ds))]
    {
      ghost var before := orders;
      assert before[so].(lines := []) == before[so] && before[so := before[so]] == before;
      for i := 0 to |ds|
        invariant so in orders && orders == before[so := before[so].(lines := MemoLines(ds[..i]))]
        invariant PutBack(stock, ds[i..]) == PutBack(old(stock), ds)
      {
        var d := ds[i];
        assert ds[i..][0] == d && ds[i..][1..] == ds[i + 1..];
        if d.loc !in stock {
          return false;
        }
        var row := stock[d.loc];
        var line := SoLine(d.index + 1, d.loc.item, -d.qty, 0, -d.qty);
        orders := orders[so := orders[so].(lines := orders[so].lines + [line])];
        stock := stock[d.loc := row.(onHand := row.onHand + d.qty)];
        assert MemoLines(ds[..i + 1]) == MemoLines(ds[..i]) + [line];
      }
      assert ds[..|ds|] == ds;
      return true;
    }

    /** The requested places, summed, against what each place sold. */
    method CheckPlaces(sold: seq<CartLine>, asked: seq<CartLine>, soldAt: map<Place, int>, askedAt: map<Place, int>,
                       ghost soldDs: seq<Demand>, ghost soldBy: map<nat, int>, ghost askedDs: seq<Demand>, ghost askedBy: map<nat, int>)
      returns (ok: bool)
      requires Tallies(sold, soldDs, soldAt, soldBy) && Tallies(asked, askedDs, askedAt, askedBy)
      ensures ok <==> WithinSold(sold, asked)
    {
      var todo := askedAt.Keys;
      while todo != {}
        invariant todo <= askedAt.Keys
        invariant forall p :: p in askedAt && p !in todo ==> p in soldAt && askedAt[p] <= soldAt[p]
      {
        var p :| p in todo;
        if p !in soldAt || askedAt[p] > soldAt[p] {
          PlacesDecide(sold, asked, soldAt, askedAt, soldDs, soldBy, askedDs, askedBy);
          return false;
        }
        todo := todo - {p};
      }
      PlacesDecide(sold, asked, soldAt, askedAt, soldDs, soldBy, askedDs, askedBy);
      return true;
    }

    /** The cumulative guard, item by item, against the credit memos already booked. */
    method CheckRemainder(sale: nat, sold: seq<Demand>, asked: seq<Demand>, soldBy: map<nat, int>, askedBy: map<nat, int>)
      returns (ok: bool)
      requires soldBy.Keys == ItemsOf(sold) && forall item :: item in soldBy ==> soldBy[item] == ItemQty(sold, item)
      requires askedBy.Keys == ItemsOf(asked) && forall item :: item in askedBy ==> askedBy[item] == ItemQty(asked, item)
      ensures ok <==> FitsRemainder(orders, top, sale, sold, asked)
    {
      var todo := askedBy.Keys;
      while todo != {}
        invariant todo <= askedBy.Keys
        invariant forall item :: item in askedBy && item !in todo ==>
          RefundedQty(orders, sale, item, top) + ItemQty(asked, item) <= ItemQty(sold, item)
      {
        var item :| item in todo;
        var shipped := if item in soldBy then soldBy[item] else 0;
        NoItemNoQty(sold, item);
        if RefundedQty(orders, sale, item, top) + askedBy[item] > shipped {
          return false;
        }
        todo := todo - {item};
      }
      return true;
    }

    method Refund(cat: Catalog, scope: seq<nat>, key: string, b: RefundBody, now: int, so: nat) returns (reply: Reply)
      requires ValidRefund(b)
      modifies this
      ensures (State(), reply) == RefundOrder(old(State()), cat, scope, key, b, now, so)
    {
      var saved := State();
      if key in keys {
        return ReplayReply(keys[key], RefundOf(b));
      }
      var found := Original(saved, scope, b.original);
      if found.None? {
        return Rejected(OriginalNotFound);
      }
      var sale := found.value;
      var o := orders[sale];
      if o.refundSo.Some? { return Rejected(AlreadyRefunded); }
      if o.status != Shipped { return Rejected(OriginalNotFound); }
      if o.createdAt < now - REFUND_WINDOW { return Rejected(WindowExpired); }
      if o.audited.None? { return Rejected(OriginalNotFound); }
      if o.audited.value.tender != b.tender { return Rejected(TenderMismatch); }
      var soldLines := o.audited.value.lines;
      if soldLines == [] { return Rejected(OriginalNotFound); }
      if !AllResolve(cat, soldLines) { return Rejected(OriginalNotFound); }
      var soldAt, soldBy := TallyLines(cat, soldLines);
      var sold := Resolve(cat, soldLines);
      var asked, askedBy := sold, soldBy;
      if b.lines.Some? {
        if !AllResolve(cat, b.lines.value) { return Rejected(LineNotInOrder); }
        asked := Resolve(cat, b.lines.value);
        var askedAt;
        askedAt, askedBy := TallyLines(cat, b.lines.value);
        var within := CheckPlaces(soldLines, b.lines.value, soldAt, askedAt, sold, soldBy, asked, askedBy);
        if !within { return Rejected(LineNotInOrder); }
      }
      assert RefundBar(cat, o, b, now).None? && asked == Resolve(cat, RefundLines(o, b));
      var fits := CheckRemainder(sale, sold, asked, soldBy, askedBy);
      if !fits { return Rejected(ExceedsRemaining); }
      var fully := Completes(orders, top, sale, sold, asked);
      reply := Book(sale, key, b, asked, fully, now, so);
    }

    method Book(sale: nat, key: string, b: RefundBody, asked: seq<Demand>, fully: bool, now: int, so: nat) returns (reply: Reply)
      requires sale in orders && orders[sale].audited.Some?
      modifies this
      ensures (State(), reply) == BookRefund(old(State()), sale, key, b, asked, fully, now, so)
    {
      var saved := State();
      var o := orders[sale];
      var number := MintChild(saved, sale, o.number, PosModel.Refund);
      if so in orders || number in numbers {
        return Rejected(NumberTaken);
      }
      InsertOrder(so, Order(number, Pos, PosModel.Refund, Shipped, o.warehouse, Some(sale), now, [],
                            Some(Audit(b.tender, RefundLines(o, b))), None));
      var ok := ReturnLines(so, Sorted(asked));
      if !ok {
        Rollback(saved);
        return Rejected(OriginalNotFound);
      }
      assert orders == saved.orders[so := MemoOrder(number, sale, o, b, asked, now)];
      if fully {
        orders := orders[sale := o.(refundSo := Some(so), status := Refunded)];
      } else {
        assert orders == orders[sale := o];
      }
      var receipt := RefundReceipt(number, o.number, fully);
      keys := keys[key := KeyRow(so, RefundOf(b), receipt)];
      return Created(receipt);
    }

    method ReferenceOrders(cat: Catalog, scope: seq<nat>, number: string, lines: seq<RefLine>, now: int, so: nat) returns (reply: Reply)
      modifies this
      ensures (State(), reply) == ReferenceOrder(old(State()), cat, scope, number, lines, now, so)
    {
      if scope == [] {
        return Rejected(NoScope);
      }
      if number in numbers {
        return Ingested(numbers[number], false);
      }
      if so in orders {
        return Rejected(NumberTaken);
      }
      var booked: seq<SoLine> := [];
      for i := 0 to |lines|
        invariant booked + KnownLines(cat, lines[i..], |booked| + 1) == KnownLines(cat, lines, 1)
      {
        assert lines[i..][0] == lines[i] && lines[i..][1..] == lines[i + 1..];
        if lines[i].sku in cat.items {
          ghost var rest := KnownLines(cat, lines[i..], |booked| + 1);
          assert booked + rest == booked + [rest[0]] + rest[1..];
          booked := booked + [SoLine(|booked| + 1, cat.items[lines[i].sku].id, lines[i].qty, 0, lines[i].qty)];
        }
      }
      assert lines[|lines|..] == [] && booked + [] == booked;
      InsertOrder(so, Order(number, Reference, Sale, Shipped, scope[0], None, now, booked, None, None));
      return Ingested(so, true);
    }
  }
}
