// The line-by-line stock gate of checkout against its meaning: per-location
// sums. Also validate-cart, and when its verdict is the gate's verdict.

module PosStockGate {
  import opened Wrappers
  import opened PosModel

  ghost predicate Positive(ds: seq<Demand>) {
    forall i :: 0 <= i < |ds| ==> ds[i].qty >= 1
  }

  /** The summed demand of every location fits what is available there. */
  ghost predicate Fits(inv: Inventory, ds: seq<Demand>) {
    forall l :: LocQty(ds, l) > 0 ==> l in inv && LocQty(ds, l) <= Available(inv, l)
  }

  /** Each row charged once with its whole demand. */
  ghost function Charged(inv: Inventory, ds: seq<Demand>, phone: bool): Inventory {
    map l | l in inv :: Charge(inv[l], LocQty(ds, l), phone)
  }

  lemma {:induction false} LocQtyNonNegative(ds: seq<Demand>, l: Loc)
    requires Positive(ds)
    ensures 0 <= LocQty(ds, l)
    ensures (exists i :: 0 <= i < |ds| && ds[i].loc == l) <==> 0 < LocQty(ds, l)
  {
    if ds != [] {
      LocQtyNonNegative(ds[1..], l);
      if i :| 1 <= i < |ds| && ds[i].loc == l {
        assert ds[1..][i - 1] == ds[i];
      }
    }
  }

  /** Charging the first line moves its demand from the cart to the row. */
  lemma ChargeFirst(inv: Inventory, ds: seq<Demand>, phone: bool)
    requires Positive(ds) && ds != [] && ds[0].loc in inv && ds[0].qty <= Available(inv, ds[0].loc)
    ensures var next := inv[ds[0].loc := Charge(inv[ds[0].loc], ds[0].qty, phone)];
      (Fits(inv, ds) <==> Fits(next, ds[1..])) && Charged(next, ds[1..], phone) == Charged(inv, ds, phone)
  {
    var d := ds[0];
    var next := inv[d.loc := Charge(inv[d.loc], d.qty, phone)];
    forall l: Loc
      ensures 0 <= LocQty(ds[1..], l)
      ensures LocQty(ds, l) == LocQty(ds[1..], l) + (if l == d.loc then d.qty else 0)
      ensures Available(next, l) == Available(inv, l) - (if l == d.loc then d.qty else 0)
    {
      LocQtyNonNegative(ds[1..], l);
    }
  }

  /** The sequential gate accepts exactly when the sums fit, and then charges the sums. */
  lemma {:induction false} GateMeaning(inv: Inventory, ds: seq<Demand>, phone: bool)
    requires Positive(ds)
    ensures Gate(inv, ds, phone).Some? <==> Fits(inv, ds)
    ensures Gate(inv, ds, phone).Some? ==> Gate(inv, ds, phone).value == Charged(inv, ds, phone)
    decreases |ds|
  {
    if ds == [] {
      assert Charged(inv, ds, phone) == inv;
    } else if ds[0].loc !in inv || Available(inv, ds[0].loc) < ds[0].qty {
      LocQtyNonNegative(ds[1..], ds[0].loc);
      assert LocQty(ds, ds[0].loc) >= ds[0].qty;
    } else {
      ChargeFirst(inv, ds, phone);
      GateMeaning(inv[ds[0].loc := Charge(inv[ds[0].loc], ds[0].qty, phone)], ds[1..], phone);
    }
  }

  // ---------- Order of the lines ----------

  lemma {:induction false} QtyWithout(ds: seq<Demand>, i: nat, l: Loc, item: nat)
    requires i < |ds|
    ensures LocQty(ds, l) == LocQty(ds[..i] + ds[i + 1..], l) + (if ds[i].loc == l then ds[i].qty else 0)
    ensures ItemQty(ds, item) == ItemQty(ds[..i] + ds[i + 1..], item) + (if ds[i].loc.item == item then ds[i].qty else 0)
  {
    if i == 0 {
      assert ds[..0] + ds[1..] == ds[1..];
    } else {
      QtyWithout(ds[1..], i - 1, l, item);
      var rest := ds[..i] + ds[i + 1..];
      assert rest[1..] == ds[1..][..i - 1] + ds[1..][i..];
      assert rest[0] == ds[0];
    }
  }

  /** Taking an element out of both sides of a permutation leaves a permutation. */
  lemma PermutationWithout(a: seq<Demand>, b: seq<Demand>) returns (i: nat)
    requires multiset(a) == multiset(b) && a != []
    ensures i < |b| && b[i] == a[0] && multiset(a[1..]) == multiset(b[..i] + b[i + 1..])
  {
    assert a[0] in multiset(b);
    i :| 0 <= i < |b| && b[i] == a[0];
    assert a == [a[0]] + a[1..];
    assert b == b[..i] + [b[i]] + b[i + 1..];
    assert multiset(a[1..]) == multiset(a) - multiset{a[0]};
    assert multiset(b[..i] + b[i + 1..]) == multiset(b) - multiset{b[i]};
  }

  /** Sums do not depend on the order of the lines. */
  lemma {:induction false} QtyOfPermutation(a: seq<Demand>, b: seq<Demand>, l: Loc, item: nat)
    requires multiset(a) == multiset(b)
    ensures LocQty(a, l) == LocQty(b, l)
    ensures ItemQty(a, item) == ItemQty(b, item)
  {
    if a == [] {
      assert |multiset(b)| == 0;
      assert b == [];
    } else {
      var i := PermutationWithout(a, b);
      QtyWithout(b, i, l, item);
      QtyOfPermutation(a[1..], b[..i] + b[i + 1..], l, item);
    }
  }

  lemma PositivePermutation(a: seq<Demand>, b: seq<Demand>)
    requires multiset(a) == multiset(b) && Positive(a)
    ensures Positive(b)
  {
    forall i | 0 <= i < |b| ensures b[i].qty >= 1 {
      assert b[i] in multiset(a);
    }
  }

  /** Any processing order gives the same verdict and the same stock. */
  lemma GateOrderIrrelevant(inv: Inventory, a: seq<Demand>, b: seq<Demand>, phone: bool)
    requires Positive(a) && multiset(a) == multiset(b)
    ensures Gate(inv, a, phone) == Gate(inv, b, phone)
  {
    PositivePermutation(a, b);
    GateMeaning(inv, a, phone);
    GateMeaning(inv, b, phone);
    forall l: Loc ensures LocQty(a, l) == LocQty(b, l) {
      QtyOfPermutation(a, b, l, 0);
    }
    assert Charged(inv, a, phone) == Charged(inv, b, phone);
  }

  ghost predicate Ordered(ds: seq<Demand>) {
    forall i, j :: 0 <= i < j < |ds| ==> !Before(ds[j], ds[i])
  }

  lemma {:induction false} InsertSortedKeepsLines(d: Demand, ds: seq<Demand>)
    ensures multiset(InsertSorted(d, ds)) == multiset(ds) + multiset{d}
  {
    if ds != [] {
      assert ds == [ds[0]] + ds[1..];
      if !Before(d, ds[0]) {
        InsertSortedKeepsLines(d, ds[1..]);
      }
    }
  }

  lemma {:induction false} InsertSortedOrdered(d: Demand, ds: seq<Demand>)
    requires Ordered(ds)
    ensures Ordered(InsertSorted(d, ds))
  {
    if ds != [] && !Before(d, ds[0]) {
      InsertSortedOrdered(d, ds[1..]);
      InsertSortedKeepsLines(d, ds[1..]);
      var rest := InsertSorted(d, ds[1..]);
      forall j | 0 <= j < |rest| ensures !Before(rest[j], ds[0]) {
        assert rest[j] in multiset(rest);
        assert rest[j] == d || rest[j] in ds[1..];
      }
    }
  }

  /** The lock order: a sorted permutation of the lines. */
  lemma {:induction false} SortedIsOrderedPermutation(ds: seq<Demand>)
    ensures Ordered(Sorted(ds)) && multiset(Sorted(ds)) == multiset(ds)
  {
    if ds != [] {
      SortedIsOrderedPermutation(ds[..|ds| - 1]);
      InsertSortedOrdered(ds[|ds| - 1], Sorted(ds[..|ds| - 1]));
      InsertSortedKeepsLines(ds[|ds| - 1], Sorted(ds[..|ds| - 1]));
      assert ds == ds[..|ds| - 1] + [ds[|ds| - 1]];
    }
  }

  lemma ResolvedPositive(cat: Catalog, lines: seq<CartLine>)
    requires AllResolve(cat, lines) && ValidLines(lines)
    ensures Positive(Resolve(cat, lines)) && Positive(Sorted(Resolve(cat, lines)))
  {
    SortedIsOrderedPermutation(Resolve(cat, lines));
    PositivePermutation(Resolve(cat, lines), Sorted(Resolve(cat, lines)));
  }

  /** What checkout does to stock, said without the sort and without the loop. */
  lemma CheckoutGateMeaning(cat: Catalog, inv: Inventory, lines: seq<CartLine>, phone: bool)
    requires AllResolve(cat, lines) && ValidLines(lines)
    ensures var ds := Resolve(cat, lines); var g := Gate(inv, Sorted(ds), phone);
      (g.Some? <==> Fits(inv, ds)) && (g.Some? ==> g.value == Charged(inv, ds, phone))
  {
    ResolvedPositive(cat, lines);
    SortedIsOrderedPermutation(Resolve(cat, lines));
    GateOrderIrrelevant(inv, Resolve(cat, lines), Sorted(Resolve(cat, lines)), phone);
    GateMeaning(inv, Resolve(cat, lines), phone);
  }

  // ---------- validate-cart ----------

  datatype Reason =
    | SkuNotFound | ItemInactive | WarehouseNotFound | WarehouseNotInScope | BinNotFound
    | InsufficientStock(available: int)

  /** The first reason that applies to one line, in the documented precedence. */
  function Classify(cat: Catalog, inv: Inventory, scope: seq<nat>, ln: CartLine): Option<Reason> {
    if ln.sku !in cat.items then Some(SkuNotFound)
    else if !cat.items[ln.sku].active then Some(ItemInactive)
    else
      var w := WarehouseId(cat.warehouses, ln.warehouse);
      if w.None? then Some(WarehouseNotFound)
      else if w.value !in scope then Some(Reason.WarehouseNotInScope)
      else if (w.value, ln.bin) !in cat.bins then Some(BinNotFound)
      else
        var available := Available(inv, ResolveLine(cat, ln).value);
        if available < ln.qty then Some(InsufficientStock(available)) else None
  }

  /** The conflicts validate-cart answers with, each with its line index. */
  function Conflicts(cat: Catalog, inv: Inventory, scope: seq<nat>, lines: seq<CartLine>): seq<(nat, Reason)> {
    if lines == [] then []
    else
      var last := |lines| - 1;
      var c := Classify(cat, inv, scope, lines[last]);
      Conflicts(cat, inv, scope, lines[..last]) + (if c.Some? then [(last, c.value)] else [])
  }

  /** Every conflicting line is reported once, in line order, and nothing else is. */
  ghost predicate Reports(cat: Catalog, inv: Inventory, scope: seq<nat>, lines: seq<CartLine>, cs: seq<(nat, Reason)>) {
    && (forall k :: 0 <= k < |cs| ==> cs[k].0 < |lines| && Classify(cat, inv, scope, lines[cs[k].0]) == Some(cs[k].1))
    && (forall j, k :: 0 <= j < k < |cs| ==> cs[j].0 < cs[k].0)
    && (forall i :: 0 <= i < |lines| && Classify(cat, inv, scope, lines[i]).Some? ==> exists k :: 0 <= k < |cs| && cs[k].0 == i)
  }

  lemma ReportsSnoc(cat: Catalog, inv: Inventory, scope: seq<nat>, front: seq<CartLine>, ln: CartLine, cs: seq<(nat, Reason)>)
    requires Reports(cat, inv, scope, front, cs)
    ensures var c := Classify(cat, inv, scope, ln);
      Reports(cat, inv, scope, front + [ln], cs + (if c.Some? then [(|front|, c.value)] else []))
  {
    var c := Classify(cat, inv, scope, ln);
    var more := cs + (if c.Some? then [(|front|, c.value)] else []);
    var lines := front + [ln];
    forall i | 0 <= i < |lines| && Classify(cat, inv, scope, lines[i]).Some?
      ensures exists k :: 0 <= k < |more| && more[k].0 == i
    {
      if i < |front| {
        var k :| 0 <= k < |cs| && cs[k].0 == i;
        assert more[k] == cs[k];
      } else {
        assert more[|cs|].0 == i;
      }
    }
  }

  lemma {:induction false} ConflictsComplete(cat: Catalog, inv: Inventory, scope: seq<nat>, lines: seq<CartLine>)
    ensures Reports(cat, inv, scope, lines, Conflicts(cat, inv, scope, lines))
  {
    if lines != [] {
      var front := lines[..|lines| - 1];
      ConflictsComplete(cat, inv, scope, front);
      ReportsSnoc(cat, inv, scope, front, lines[|lines| - 1], Conflicts(cat, inv, scope, front));
      assert front + [lines[|lines| - 1]] == lines;
    }
  }

  /** The line names live stock, in the token's scope, with enough available. */
  ghost predicate LineClear(cat: Catalog, inv: Inventory, scope: seq<nat>, ln: CartLine) {
    && ResolveLine(cat, ln).Some?
    && cat.items[ln.sku].active
    && ResolveLine(cat, ln).value.warehouse in scope
    && ln.qty <= Available(inv, ResolveLine(cat, ln).value)
  }

  lemma NoConflictsMeansAllClear(cat: Catalog, inv: Inventory, scope: seq<nat>, lines: seq<CartLine>)
    ensures Conflicts(cat, inv, scope, lines) == [] <==> forall i :: 0 <= i < |lines| ==> LineClear(cat, inv, scope, lines[i])
  {
    ConflictsComplete(cat, inv, scope, lines);
    var cs := Conflicts(cat, inv, scope, lines);
    if cs != [] {
      assert Classify(cat, inv, scope, lines[cs[0].0]).Some?;
      assert !LineClear(cat, inv, scope, lines[cs[0].0]);
    } else {
      forall i | 0 <= i < |lines| ensures LineClear(cat, inv, scope, lines[i]) {
        assert Classify(cat, inv, scope, lines[i]).None?;
      }
    }
  }

  ghost predicate NoRepeat(ds: seq<Demand>) {
    forall i, j :: 0 <= i < j < |ds| ==> ds[i].loc != ds[j].loc
  }

  /** validate-cart's stock verdict: each line on its own. */
  ghost predicate EachFits(inv: Inventory, ds: seq<Demand>) {
    forall i :: 0 <= i < |ds| ==> ds[i].qty <= Available(inv, ds[i].loc)
  }

  lemma {:induction false} LocQtyAtLeast(ds: seq<Demand>, i: nat)
    requires Positive(ds) && i < |ds|
    ensures ds[i].qty <= LocQty(ds, ds[i].loc)
    ensures (forall j :: 0 <= j < |ds| && j != i ==> ds[j].loc != ds[i].loc) ==> LocQty(ds, ds[i].loc) == ds[i].qty
    ensures forall j :: 0 <= j < |ds| && j != i && ds[j].loc == ds[i].loc ==> ds[i].qty < LocQty(ds, ds[i].loc)
  {
    var l := ds[i].loc;
    var rest := ds[..i] + ds[i + 1..];
    QtyWithout(ds, i, l, 0);
    LocQtyNonNegative(rest, l);
    forall j | 0 <= j < |ds| && j != i && ds[j].loc == l ensures 0 < LocQty(rest, l) {
      assert rest[if j < i then j else j - 1] == ds[j];
    }
  }

  lemma FitsImpliesEachFits(inv: Inventory, ds: seq<Demand>)
    requires Positive(ds)
    ensures Fits(inv, ds) ==> EachFits(inv, ds)
    ensures NoRepeat(ds) && EachFits(inv, ds) ==> Fits(inv, ds)
  {
    forall i | 0 <= i < |ds|
      ensures ds[i].qty <= LocQty(ds, ds[i].loc)
      ensures NoRepeat(ds) ==> LocQty(ds, ds[i].loc) == ds[i].qty
    {
      LocQtyAtLeast(ds, i);
    }
    forall l | LocQty(ds, l) > 0 ensures exists i :: 0 <= i < |ds| && ds[i].loc == l {
      LocQtyNonNegative(ds, l);
    }
  }

  /** Stock that passes every single line: the largest line of each location. */
  ghost function LargestLines(ds: seq<Demand>): Inventory {
    if ds == [] then map[]
    else
      var d := ds[|ds| - 1];
      var inv := LargestLines(ds[..|ds| - 1]);
      if d.loc in inv && d.qty <= Available(inv, d.loc) then inv else inv[d.loc := Stock(d.qty, 0)]
  }

  ghost predicate Covers(inv: Inventory, d: Demand) {
    d.loc in inv && d.qty <= Available(inv, d.loc)
  }

  ghost predicate IsLargest(ds: seq<Demand>, inv: Inventory, l: Loc)
    requires l in inv
  {
    exists i :: 0 <= i < |ds| && ds[i].loc == l && ds[i].qty == Available(inv, l)
  }

  lemma {:induction false} LargestLinesMeaning(ds: seq<Demand>)
    ensures forall i :: 0 <= i < |ds| ==> Covers(LargestLines(ds), ds[i])
    ensures forall l :: l in LargestLines(ds) ==> IsLargest(ds, LargestLines(ds), l)
  {
    if ds != [] {
      var n := |ds| - 1;
      LargestLinesMeaning(ds[..n]);
      var before, inv := LargestLines(ds[..n]), LargestLines(ds);
      forall i | 0 <= i < |ds| ensures Covers(inv, ds[i]) {
        if i < n { assert Covers(before, ds[..n][i]); }
      }
      forall l | l in inv ensures IsLargest(ds, inv, l) {
        if l in before && inv[l] == before[l] {
          assert IsLargest(ds[..n], before, l);
          var i :| 0 <= i < n && ds[..n][i].loc == l && ds[..n][i].qty == Available(before, l);
          assert ds[i].loc == l && ds[i].qty == Available(inv, l);
        } else {
          assert ds[n].loc == l && ds[n].qty == Available(inv, l);
        }
      }
    }
  }

  /** The two verdicts agree on every stock exactly when no location repeats in the cart. */
  lemma VerdictsAgreeExactly(ds: seq<Demand>)
    requires Positive(ds)
    ensures (forall inv :: Fits(inv, ds) <==> EachFits(inv, ds)) <==> NoRepeat(ds)
  {
    if NoRepeat(ds) {
      forall inv ensures Fits(inv, ds) <==> EachFits(inv, ds) {
        FitsImpliesEachFits(inv, ds);
      }
    } else {
      var i, j :| 0 <= i < j < |ds| && ds[i].loc == ds[j].loc;
      var inv := LargestLines(ds);
      LargestLinesMeaning(ds);
      assert Covers(inv, ds[i]) && IsLargest(ds, inv, ds[i].loc);
      var k :| 0 <= k < |ds| && ds[k].loc == ds[i].loc && ds[k].qty == Available(inv, ds[i].loc);
      LocQtyAtLeast(ds, k);
      var other := if k == i then j else i;
      assert other != k && ds[other].loc == ds[k].loc;
      assert EachFits(inv, ds) && !Fits(inv, ds);
    }
  }

  /**
   * A plain counter or phone sale under a new key and a free number: validate-cart
   * clears the cart exactly when checkout takes it, if no location repeats. With
   * repeats, clearing is necessary but not sufficient.
   */
  lemma ValidateCartPredictsCheckout(db: Db, cat: Catalog, boCode: string, scope: seq<nat>, key: string, b: CheckoutBody, now: int, so: nat)
    requires ValidCheckout(b) && !b.backorder && b.otype == Sale
    requires key !in db.keys && so !in db.orders && "POS-" + PosModel.Decimal.Digits(so) !in db.numbers
    ensures Checkout(db, cat, boCode, scope, key, b, now, so).1.Created? ==> Conflicts(cat, db.stock, scope, b.lines) == []
    ensures Conflicts(cat, db.stock, scope, b.lines) == [] ==> AllResolve(cat, b.lines)
    ensures Conflicts(cat, db.stock, scope, b.lines) == [] && NoRepeat(Resolve(cat, b.lines))
            ==> Checkout(db, cat, boCode, scope, key, b, now, so).1.Created?
  {
    NoConflictsMeansAllClear(cat, db.stock, scope, b.lines);
    AcceptedExactly(db, cat, boCode, scope, key, b, now, so);
    if AllResolve(cat, b.lines) {
      ResolvedPositive(cat, b.lines);
      FitsImpliesEachFits(db.stock, Resolve(cat, b.lines));
      if !OutOfScope(cat, scope, b.lines) && CartResolves(cat, b) && EachFits(db.stock, Resolve(cat, b.lines)) {
        EachClear(db, cat, scope, b);
      }
    }
  }

  /** A counter or phone checkout with a free key and number goes through exactly when every line resolves in scope and the cart fits. */
  lemma AcceptedExactly(db: Db, cat: Catalog, boCode: string, scope: seq<nat>, key: string, b: CheckoutBody, now: int, so: nat)
    requires ValidCheckout(b) && !b.backorder && b.otype == Sale
    requires key !in db.keys && so !in db.orders && "POS-" + PosModel.Decimal.Digits(so) !in db.numbers
    ensures Checkout(db, cat, boCode, scope, key, b, now, so).1.Created? <==>
      !OutOfScope(cat, scope, b.lines) && CartResolves(cat, b) && Fits(db.stock, Resolve(cat, b.lines))
  {
    if AllResolve(cat, b.lines) { CheckoutGateMeaning(cat, db.stock, b.lines, b.phone); }
  }

  lemma EachClear(db: Db, cat: Catalog, scope: seq<nat>, b: CheckoutBody)
    requires AllResolve(cat, b.lines) && !OutOfScope(cat, scope, b.lines) && CartResolves(cat, b)
    requires EachFits(db.stock, Resolve(cat, b.lines))
    ensures forall i :: 0 <= i < |b.lines| ==> LineClear(cat, db.stock, scope, b.lines[i])
  {
    var ds := Resolve(cat, b.lines);
    forall i | 0 <= i < |b.lines| ensures LineClear(cat, db.stock, scope, b.lines[i]) {
      assert ds[i].qty <= Available(db.stock, ds[i].loc);
    }
  }
}
