// Who waits for whom: checkouts, refunds and ingests cannot block each other for
// good, but for a refund and a child checkout under one key.

module PosDeadlock {
  import opened Wrappers
  import opened PosModel
  import opened PosStockGate
  import PosLedger
  import opened PosRuns
  import opened PosMachine
  import opened PosPlans
  import opened PosConcurrency

  // ---------- No deadlock ----------

  /** The handler's own next statement can run now (no waiting, no time-out). */
  ghost predicate CanMove(cat: Catalog, boCode: string, s: Sys, t: nat) {
    exists a: Action, s' :: a.t == t && !a.Arrive? && !a.Abort? && Next(cat, boCode, s, a, s')
  }

  predicate Unfinished(x: Txn) {
    !x.pc.Done? && !x.pc.GaveUp?
  }

  /**
   * What a request waits for, ranked: key and number of a checkout, a sale row, key and
   * number of a refund (which has its sale), then inventory rows by (item, bin).
   */
  datatype Rank = Rank(kind: nat, item: nat, bin: nat)

  function WaitRank(x: Txn): Rank {
    if x.pc.Cleared? || x.pc.Linking? then Rank(2, 0, 0)
    else if x.pc.Working? && x.pc.next < |x.pc.plan.lines| then
      Rank(4, x.pc.plan.lines[x.pc.next].loc.item, x.pc.plan.lines[x.pc.next].loc.bin)
    else Rank(if x.req.RefundReq? then 3 else 1, 0, 0)
  }

  predicate Less(a: Rank, b: Rank) {
    a.kind < b.kind || (a.kind == b.kind && (a.item < b.item || (a.item == b.item && a.bin < b.bin)))
  }

  /** A bin belongs to one warehouse. */
  ghost predicate BinsApart(cat: Catalog) {
    forall a, b :: a in cat.bins && b in cat.bins && cat.bins[a] == cat.bins[b] ==> a.0 == b.0
  }

  ghost predicate BinOf(cat: Catalog, loc: Loc, code: string) {
    (loc.warehouse, code) in cat.bins && cat.bins[(loc.warehouse, code)] == loc.bin
  }

  ghost predicate Placed(cat: Catalog, loc: Loc) {
    exists code :: BinOf(cat, loc, code)
  }

  lemma SortedPlaced(cat: Catalog, lines: seq<CartLine>)
    requires AllResolve(cat, lines)
    ensures var ds := Sorted(Resolve(cat, lines)); Ordered(ds) && forall i :: 0 <= i < |ds| ==> Placed(cat, ds[i].loc)
  {
    var ds := Resolve(cat, lines);
    SortedIsOrderedPermutation(ds);
    forall i | 0 <= i < |Sorted(ds)| ensures Placed(cat, Sorted(ds)[i].loc) {
      assert Sorted(ds)[i] in multiset(ds);
      var j :| 0 <= j < |ds| && ds[j] == Sorted(ds)[i];
      assert BinOf(cat, ds[j].loc, lines[j].bin);
    }
  }

  /** Both handlers sort the rows they lock. */
  lemma PlansInLockOrder(cat: Catalog, boCode: string, db: Db, r: ValidRequest, plan: Plan)
    requires Current(cat, boCode, db, r, plan)
    ensures Ordered(plan.lines) && forall i :: 0 <= i < |plan.lines| ==> Placed(cat, plan.lines[i].loc)
  {
    if r.CheckoutReq? && !r.c.backorder {
      SortedPlaced(cat, r.c.lines);
    } else if r.RefundReq? {
      SortedPlaced(cat, RefundLines(db.orders[plan.sale.value], r.r));
    }
  }

  /** Moves that never wait. */
  predicate NeverWaits(x: Txn) {
    || x.pc.Start? || x.pc.SaleLocked? || x.pc.Lost? || x.pc.Cached?
    || (x.pc.Working? && x.pc.next >= |x.pc.plan.lines|)
    || (x.pc.Cleared? && !x.req.RefundReq?)
    || (x.pc.Linking? && (x.pc.plan.row.parent.None? || x.pc.plan.sale == x.pc.plan.row.parent))
  }

  lemma FreeMoves(cat: Catalog, boCode: string, s: Sys, t: nat)
    requires AllOk(cat, boCode, s) && LocksExclusive(s) && t in s.txns && NeverWaits(s.txns[t])
    ensures CanMove(cat, boCode, s, t)
  {
    var x := s.txns[t];
    assert TxnOk(cat, boCode, s.db, s.seqNo, x);
    match x.pc
    case Linking(plan) => LinkMoves(cat, boCode, s, t);
    case Start => assert Next(cat, boCode, s, WarmRead(t), At(s, t, Warm(s, x.req)));
    case Lost(plan) => assert Next(cat, boCode, s, Reread(t), At(s, t, Rereading(s, x.req)));
    case Cached(plan, mine) => assert Next(cat, boCode, s, Commit(t), Committed(s, t, plan, mine));
    case Working(plan, next, mine) => assert Next(cat, boCode, s, Cache(t), At(s, t, Cached(plan, mine)));
    case _ => DrawMoves(cat, boCode, s, t);
  }

  lemma LinkMoves(cat: Catalog, boCode: string, s: Sys, t: nat)
    requires LocksExclusive(s) && t in s.txns && s.txns[t].pc.Linking? && NeverWaits(s.txns[t])
    ensures CanMove(cat, boCode, s, t)
  {
    var plan := s.txns[t].pc.plan;
    if plan.row.parent.Some? {
      HeldIsFree(s, t);
      assert Holds(s.txns[t], SaleLock(plan.row.parent.value));
    }
    assert Next(cat, boCode, s, Link(t), At(s, t, Working(plan, 0, map[])));
  }

  lemma DrawMoves(cat: Catalog, boCode: string, s: Sys, t: nat)
    requires t in s.txns && (if s.txns[t].req.RefundReq? then s.txns[t].pc.SaleLocked? else s.txns[t].pc == Cleared)
    ensures CanMove(cat, boCode, s, t)
  {
    var r := WithId(s.txns[t].req, s.seqNo);
    var s' := s.(seqNo := s.seqNo + 1, txns := s.txns[t := Txn(r, Drawing(cat, boCode, s.db, r, s.txns[t].pc))]);
    assert Next(cat, boCode, s, Draw(t), s');
  }

  /** The locks the next statement needs are free. */
  ghost predicate NextLocksFree(s: Sys, t: nat)
    requires t in s.txns
  {
    var x := s.txns[t];
    match x.pc
    case Cleared =>
      && x.req.RefundReq?
      && (var sale := Original(s.db, x.req.scope, x.req.r.original);
          sale.Some? ==> FreeFor(s, t, SaleLock(sale.value)) && UnsharedFor(s, t, sale.value))
    case Linking(plan) => plan.row.parent.Some? ==> FreeFor(s, t, SaleLock(plan.row.parent.value))
    case Drawn(plan) => (Keyed(x.req) ==> FreeFor(s, t, KeyLock(x.req.key))) && FreeFor(s, t, NumberLock(plan.row.number))
    case Working(plan, next, mine) => next < |plan.lines| && FreeFor(s, t, RowLock(plan.lines[next].loc))
    case _ => false
  }

  lemma FreeLocksMove(cat: Catalog, boCode: string, s: Sys, t: nat)
    requires t in s.txns && NextLocksFree(s, t)
    ensures CanMove(cat, boCode, s, t)
  {
    var x := s.txns[t];
    match x.pc
    case Cleared => {
      var sale := Original(s.db, x.req.scope, x.req.r.original);
      var pc := if sale.None? then Done(Rejected(OriginalNotFound)) else UnderLock(cat, s.db, x.req, sale.value);
      assert Next(cat, boCode, s, LockSale(t), At(s, t, pc));
    }
    case Linking(plan) => assert Next(cat, boCode, s, Link(t), At(s, t, Working(plan, 0, map[])));
    case Drawn(plan) => assert Next(cat, boCode, s, Insert(t), At(s, t, Inserting(s.db, x.req, plan)));
    case Working(plan, next, mine) => assert Next(cat, boCode, s, Line(t), At(s, t, Lining(s.db.stock, x.pc)));
    case _ =>
  }

  /** The holder of a row another one waits for waits, if at all, for a later row. */
  lemma RowHolderIsAhead(cat: Catalog, boCode: string, s: Sys, t: nat, h: nat)
    requires AllOk(cat, boCode, s) && LocksExclusive(s) && BinsApart(cat) && t in s.txns && h in s.txns && h != t
    requires s.txns[t].pc.Working? && s.txns[t].pc.next < |s.txns[t].pc.plan.lines|
    requires Holds(s.txns[h], RowLock(s.txns[t].pc.plan.lines[s.txns[t].pc.next].loc))
    ensures CanMove(cat, boCode, s, h) || Less(WaitRank(s.txns[t]), WaitRank(s.txns[h]))
  {
    var x, y := s.txns[t], s.txns[h];
    if NeverWaits(y) {
      FreeMoves(cat, boCode, s, h);
    } else if NextLocksFree(s, h) {
      FreeLocksMove(cat, boCode, s, h);
    } else {
      assert TxnOk(cat, boCode, s.db, s.seqNo, x) && TxnOk(cat, boCode, s.db, s.seqNo, y);
      PlansInLockOrder(cat, boCode, s.db, x.req, x.pc.plan);
      PlansInLockOrder(cat, boCode, s.db, y.req, y.pc.plan);
      HeldIsFree(s, h);
      LaterRow(cat, x.pc.plan.lines[x.pc.next].loc, y.pc.plan.lines, y.pc.next, y.pc.mine);
    }
  }

  /** A row still to be locked comes after every row already held, or is one of them. */
  lemma LaterRow(cat: Catalog, l: Loc, lines: seq<Demand>, next: nat, mine: Inventory)
    requires BinsApart(cat) && Ordered(lines) && next < |lines| && Placed(cat, l) && Placed(cat, lines[next].loc)
    requires (forall k :: k in mine <==> Names(lines[..next], k)) && l in mine
    ensures lines[next].loc in mine || l.item < lines[next].loc.item || (l.item == lines[next].loc.item && l.bin < lines[next].loc.bin)
  {
    assert Names(lines[..next], l);
    var i :| 0 <= i < next && lines[..next][i].loc == l;
    assert !Before(lines[next], lines[i]);
    var m := lines[next].loc;
    if m.item == l.item && m.bin == l.bin {
      var c :| BinOf(cat, l, c);
      var d :| BinOf(cat, m, d);
      assert m == l;
    }
  }

  // ---------- Whom a refund can wait for ----------

  /** A replacement or exchange. */
  predicate IsChild(r: ValidRequest) {
    r.CheckoutReq? && (r.c.otype == Replacement || r.c.otype == Exchange)
  }

  /** No refund shares its key with a replacement or an exchange. */
  ghost predicate KeysApart(s: Sys) {
    forall t, u :: t in s.txns && u in s.txns && s.txns[t].req.RefundReq? && IsChild(s.txns[u].req) ==> s.txns[t].req.key != s.txns[u].req.key
  }

  /** A child's number ends in its suffix, perhaps followed by a dash and a numeral. */
  ghost predicate EndsIn(number: string, word: string, tail: string) {
    && |word| > 0 && |number| >= |word| + |tail| && number[|number| - |word| - |tail|..] == word + tail
    && (tail != "" ==> tail[0] == '-' && |tail| > 1 && forall i :: 1 <= i < |tail| ==> '0' <= tail[i] <= '9')
  }

  lemma MintEnds(db: Db, parent: nat, parentNumber: string, t: OrderType) returns (tail: string)
    ensures EndsIn(MintChild(db, parent, parentNumber, t), Suffix(t), tail)
  {
    var existing := ChildCount(db.orders, parent, t, db.top);
    var number := MintChild(db, parent, parentNumber, t);
    if existing == 0 {
      tail := "";
      assert number[|parentNumber| + 1..] == Suffix(t) + tail;
    } else {
      tail := "-" + PosModel.Decimal.Digits(existing + 1);
      assert number[|parentNumber| + 1..] == Suffix(t) + tail;
    }
  }

  lemma EndingsDiffer(a: string, u: string, x: string, b: string, v: string, y: string)
    requires EndsIn(a, u, x) && EndsIn(b, v, y)
    requires u[|u| - 1] != v[|v| - 1] && !('0' <= u[|u| - 1] <= '9') && !('0' <= v[|v| - 1] <= '9')
    ensures a != b
  {
    assert (u + x)[|u| - 1] == u[|u| - 1] && (v + y)[|v| - 1] == v[|v| - 1];
    assert a[|a| - |x| - 1] == (u + x)[|u| - 1] && b[|b| - |y| - 1] == (v + y)[|v| - 1];
    assert forall i :: 0 <= i < |x| ==> a[|a| - |x| + i] == (u + x)[|u| + i] == x[i];
    assert forall i :: 0 <= i < |y| ==> b[|b| - |y| + i] == (v + y)[|v| + i] == y[i];
  }

  /** Refund numbers and the numbers of replacements and exchanges never coincide. */
  lemma NumbersDiffer(db: Db, p: nat, m: string, q: nat, n: string, t: OrderType)
    requires t == Replacement || t == Exchange
    ensures MintChild(db, p, m, Refund) != MintChild(db, q, n, t)
  {
    var x := MintEnds(db, p, m, Refund);
    var y := MintEnds(db, q, n, t);
    EndingsDiffer(MintChild(db, p, m, Refund), Suffix(Refund), x, MintChild(db, q, n, t), Suffix(t), y);
  }

  /** The holder of what a drawn refund waits for is no child waiting for its parent. */
  lemma RefundWaitsForNoChild(cat: Catalog, boCode: string, s: Sys, t: nat, h: nat, l: Lock)
    requires AllOk(cat, boCode, s) && KeysApart(s) && t in s.txns && h in s.txns && PosLedger.Indexed(s.db)
    requires s.txns[t].pc.Drawn? && s.txns[t].req.RefundReq?
    requires (l == KeyLock(s.txns[t].req.key) || l == NumberLock(s.txns[t].pc.plan.row.number)) && Holds(s.txns[h], l)
    ensures !IsChild(s.txns[h].req)
  {
    var x, y := s.txns[t], s.txns[h];
    assert TxnOk(cat, boCode, s.db, s.seqNo, x) && TxnOk(cat, boCode, s.db, s.seqNo, y);
    if IsChild(y.req) && l.NumberLock? {
      PlanShape(cat, boCode, s.db, y.req, y.pc.plan);
      PlanShape(cat, boCode, s.db, x.req, x.pc.plan);
      ChildHasParent(cat, boCode, s.db, y.req, y.pc.plan);
      var p, q := x.pc.plan.row.parent.value, y.pc.plan.row.parent.value;
      NumbersDiffer(s.db, p, s.db.orders[p].number, q, s.db.orders[q].number, y.pc.plan.row.otype);
    }
  }

  lemma ChildHasParent(cat: Catalog, boCode: string, db: Db, r: ValidRequest, plan: Plan)
    requires Current(cat, boCode, db, r, plan) && r.CheckoutReq?
    ensures plan.row.parent.Some? <==> IsChild(r)
    ensures plan.row.otype == r.c.otype
  {
  }

  lemma HolderMoves(cat: Catalog, boCode: string, s: Sys, h: nat)
    requires AllOk(cat, boCode, s) && LocksExclusive(s) && h in s.txns && HasPlan(s.txns[h].pc) && PosLedger.Indexed(s.db)
    ensures s.txns[h].pc.Linking? && !IsChild(s.txns[h].req) ==> CanMove(cat, boCode, s, h)
    ensures NeverWaits(s.txns[h]) ==> CanMove(cat, boCode, s, h)
  {
    var y := s.txns[h];
    assert TxnOk(cat, boCode, s.db, s.seqNo, y);
    if y.pc.Linking? && !IsChild(y.req) {
      PlanShape(cat, boCode, s.db, y.req, y.pc.plan);
      if y.req.CheckoutReq? { ChildHasParent(cat, boCode, s.db, y.req, y.pc.plan); }
    }
    if NeverWaits(y) { FreeMoves(cat, boCode, s, h); }
  }

  /** The holder of the key or number a request waits for. */
  lemma ClaimHolderIsAhead(cat: Catalog, boCode: string, s: Sys, t: nat, h: nat, l: Lock)
    requires AllOk(cat, boCode, s) && LocksExclusive(s) && KeysApart(s) && t in s.txns && h in s.txns && PosLedger.Indexed(s.db)
    requires s.txns[t].pc.Drawn? && Holds(s.txns[h], l)
    requires (Keyed(s.txns[t].req) && l == KeyLock(s.txns[t].req.key)) || l == NumberLock(s.txns[t].pc.plan.row.number)
    ensures CanMove(cat, boCode, s, h) || Less(WaitRank(s.txns[t]), WaitRank(s.txns[h]))
  {
    HolderMoves(cat, boCode, s, h);
    if s.txns[t].req.RefundReq? { RefundWaitsForNoChild(cat, boCode, s, t, h, l); }
  }

  /** The holder of the sale row a request waits for is a refund past it, or a child past its check. */
  lemma SaleHolderIsAhead(cat: Catalog, boCode: string, s: Sys, t: nat, h: nat, sale: nat)
    requires AllOk(cat, boCode, s) && LocksExclusive(s) && t in s.txns && h in s.txns && PosLedger.Indexed(s.db)
    requires s.txns[t].pc.Cleared? || s.txns[t].pc.Linking?
    requires Holds(s.txns[h], SaleLock(sale)) || SharesParent(s.txns[h], sale)
    ensures CanMove(cat, boCode, s, h) || Less(WaitRank(s.txns[t]), WaitRank(s.txns[h]))
  {
    var y := s.txns[h];
    if y.pc.SaleLocked? {
      FreeMoves(cat, boCode, s, h);
    } else {
      HolderMoves(cat, boCode, s, h);
      assert TxnOk(cat, boCode, s.db, s.seqNo, y);
      if y.pc.Drawn? || y.pc.Linking? { SaleHolderIsRefund(cat, boCode, s.db, s.seqNo, y); }
    }
  }

  lemma SaleHolderIsRefund(cat: Catalog, boCode: string, db: Db, seqNo: nat, y: Txn)
    requires TxnOk(cat, boCode, db, seqNo, y) && HasPlan(y.pc) && y.pc.plan.sale.Some? && PosLedger.Indexed(db)
    ensures y.req.RefundReq?
  {
  }

  ghost predicate Orderly(cat: Catalog, boCode: string, s: Sys) {
    AllOk(cat, boCode, s) && LocksExclusive(s) && BinsApart(cat) && KeysApart(s) && PosLedger.Indexed(s.db)
  }

  /** A stuck request waits for one that can move, or that waits for something ranked higher. */
  ghost predicate WaitsFor(cat: Catalog, boCode: string, s: Sys, t: nat, h: nat)
    requires t in s.txns
  {
    h in s.txns && Unfinished(s.txns[h]) && (CanMove(cat, boCode, s, h) || Less(WaitRank(s.txns[t]), WaitRank(s.txns[h])))
  }

  lemma HolderOf(s: Sys, t: nat, l: Lock) returns (h: nat)
    requires !FreeFor(s, t, l)
    ensures h in s.txns && h != t && Holds(s.txns[h], l) && Unfinished(s.txns[h])
  {
    h :| h in s.txns && h != t && Holds(s.txns[h], l);
  }

  lemma SharerOf(s: Sys, t: nat, sale: nat) returns (h: nat)
    requires !UnsharedFor(s, t, sale)
    ensures h in s.txns && h != t && SharesParent(s.txns[h], sale) && Unfinished(s.txns[h])
  {
    h :| h in s.txns && h != t && SharesParent(s.txns[h], sale);
  }

  lemma StuckOnRow(cat: Catalog, boCode: string, s: Sys, t: nat) returns (h: nat)
    requires Orderly(cat, boCode, s) && t in s.txns && s.txns[t].pc.Working? && !NeverWaits(s.txns[t]) && !NextLocksFree(s, t)
    ensures WaitsFor(cat, boCode, s, t, h)
  {
    var pc := s.txns[t].pc;
    h := HolderOf(s, t, RowLock(pc.plan.lines[pc.next].loc));
    RowHolderIsAhead(cat, boCode, s, t, h);
  }

  lemma StuckOnClaim(cat: Catalog, boCode: string, s: Sys, t: nat) returns (h: nat)
    requires Orderly(cat, boCode, s) && t in s.txns && s.txns[t].pc.Drawn? && !NextLocksFree(s, t)
    ensures WaitsFor(cat, boCode, s, t, h)
  {
    var x := s.txns[t];
    var l := if Keyed(x.req) && !FreeFor(s, t, KeyLock(x.req.key)) then KeyLock(x.req.key) else NumberLock(x.pc.plan.row.number);
    h := HolderOf(s, t, l);
    ClaimHolderIsAhead(cat, boCode, s, t, h, l);
  }

  lemma StuckOnSale(cat: Catalog, boCode: string, s: Sys, t: nat) returns (h: nat)
    requires Orderly(cat, boCode, s) && t in s.txns && s.txns[t].pc.Cleared? && s.txns[t].req.RefundReq? && !NextLocksFree(s, t)
    ensures WaitsFor(cat, boCode, s, t, h)
  {
    var r := s.txns[t].req;
    var sale := Original(s.db, r.scope, r.r.original).value;
    if !FreeFor(s, t, SaleLock(sale)) {
      h := HolderOf(s, t, SaleLock(sale));
    } else {
      h := SharerOf(s, t, sale);
    }
    SaleHolderIsAhead(cat, boCode, s, t, h, sale);
  }

  lemma StuckOnParent(cat: Catalog, boCode: string, s: Sys, t: nat) returns (h: nat)
    requires Orderly(cat, boCode, s) && t in s.txns && s.txns[t].pc.Linking? && !NextLocksFree(s, t)
    ensures WaitsFor(cat, boCode, s, t, h)
  {
    var sale := s.txns[t].pc.plan.row.parent.value;
    h := HolderOf(s, t, SaleLock(sale));
    SaleHolderIsAhead(cat, boCode, s, t, h, sale);
  }

  lemma StuckWaitsHigher(cat: Catalog, boCode: string, s: Sys, t: nat) returns (h: nat)
    requires Orderly(cat, boCode, s) && t in s.txns && Unfinished(s.txns[t]) && !CanMove(cat, boCode, s, t)
    ensures WaitsFor(cat, boCode, s, t, h)
  {
    if NeverWaits(s.txns[t]) { FreeMoves(cat, boCode, s, t); }
    if NextLocksFree(s, t) { FreeLocksMove(cat, boCode, s, t); }
    if s.txns[t].pc.Working? {
      h := StuckOnRow(cat, boCode, s, t);
    } else if s.txns[t].pc.Drawn? {
      h := StuckOnClaim(cat, boCode, s, t);
    } else if s.txns[t].pc.Linking? {
      h := StuckOnParent(cat, boCode, s, t);
    } else {
      h := StuckOnSale(cat, boCode, s, t);
    }
  }

  lemma {:induction false} SomeoneMovesFrom(cat: Catalog, boCode: string, s: Sys, t: nat) returns (u: nat)
    requires Orderly(cat, boCode, s) && t in s.txns && Unfinished(s.txns[t])
    ensures u in s.txns && CanMove(cat, boCode, s, u)
    decreases set v | v in s.txns && Less(WaitRank(s.txns[t]), WaitRank(s.txns[v]))
  {
    if CanMove(cat, boCode, s, t) {
      u := t;
    } else {
      var h := StuckWaitsHigher(cat, boCode, s, t);
      if CanMove(cat, boCode, s, h) {
        u := h;
      } else {
        var above := set v | v in s.txns && Less(WaitRank(s.txns[t]), WaitRank(s.txns[v]));
        var higher := set v | v in s.txns && Less(WaitRank(s.txns[h]), WaitRank(s.txns[v]));
        assert h in above && h !in higher;
        u := SomeoneMovesFrom(cat, boCode, s, h);
      }
    }
  }

  /**
   * Whenever a request is unfinished, some request can run its next statement, as long as
   * no refund shares its key with a replacement or an exchange.
   */
  lemma NoDeadlock(cat: Catalog, boCode: string, ss: seq<Sys>, acts: seq<Action>, i: nat, t: nat)
    requires Behaviour(cat, boCode, ss, acts) && i < |ss| && BinsApart(cat) && KeysApart(ss[i])
    requires t in ss[i].txns && Unfinished(ss[i].txns[t])
    ensures exists u :: u in ss[i].txns && CanMove(cat, boCode, ss[i], u)
  {
    BehaviourKeepsSafe(cat, boCode, ss, acts, i);
    var u := SomeoneMovesFrom(cat, boCode, ss[i], t);
  }

  // ---------- One key for a refund and a replacement of its sale ----------

  /** A refund that passes its gates, and a child of the same sale with a free number, both under unused keys. */
  ghost predicate Rivals(cat: Catalog, boCode: string, s: Sys, r: ValidRequest, c: ValidRequest, sale: nat) {
    && Initial(cat, s) && r.RefundReq? && IsChild(c) && r.key !in s.db.keys && c.key !in s.db.keys
    && Original(s.db, r.scope, r.r.original) == Some(sale) && UnderLock(cat, s.db, r, sale).SaleLocked?
    && (var p := CheckoutPlan(cat, boCode, s.db, WithId(c, s.seqNo));
        p.Planned? && p.plan.row.parent == Some(sale) && p.plan.row.number !in s.db.numbers)
  }

  /** Every request of the run is one of these two. */
  ghost predicate ArriveOnly(acts: seq<Action>, r: ValidRequest, c: ValidRequest) {
    forall i :: 0 <= i < |acts| && acts[i].Arrive? ==> acts[i].req == r || acts[i].req == c
  }

  /** A run from `s`, with no other requests, that ends in `w`. */
  ghost predicate LeadsTo(cat: Catalog, boCode: string, s: Sys, r: ValidRequest, c: ValidRequest, ss: seq<Sys>, acts: seq<Action>, w: Sys) {
    Behaviour(cat, boCode, ss, acts) && ss[0] == s && ArriveOnly(acts, r, c) && ss[|ss| - 1] == w
  }

  ghost predicate Reaches(cat: Catalog, boCode: string, s: Sys, r: ValidRequest, c: ValidRequest, w: Sys) {
    exists ss, acts :: LeadsTo(cat, boCode, s, r, c, ss, acts, w)
  }

  lemma OneMore(cat: Catalog, boCode: string, s: Sys, r: ValidRequest, c: ValidRequest, w: Sys, a: Action, w': Sys)
    requires Reaches(cat, boCode, s, r, c, w) && Next(cat, boCode, w, a, w') && (a.Arrive? ==> a.req == r || a.req == c)
    ensures Reaches(cat, boCode, s, r, c, w')
  {
    var ss, acts :| LeadsTo(cat, boCode, s, r, c, ss, acts, w);
    var vs, bs := ss + [w'], acts + [a];
    forall i | 0 <= i < |bs| ensures Next(cat, boCode, vs[i], bs[i], vs[i + 1]) {
      if i < |acts| { assert Next(cat, boCode, ss[i], acts[i], ss[i + 1]); }
    }
    assert LeadsTo(cat, boCode, s, r, c, vs, bs, w');
  }

  function Two(s: Sys, drawn: nat, x: Txn, y: Txn): Sys {
    s.(seqNo := s.seqNo + drawn, txns := map[0 := x, 1 := y])
  }

  lemma TwoMoves(x: Txn, y: Txn, x': Txn, y': Txn)
    ensures map[0 := x, 1 := y][0 := x'] == map[0 := x', 1 := y] && map[0 := x, 1 := y][1 := y'] == map[0 := x, 1 := y']
  {
  }

  lemma RivalsArrive(cat: Catalog, boCode: string, s: Sys, r: ValidRequest, c: ValidRequest, sale: nat)
    requires Rivals(cat, boCode, s, r, c, sale)
    ensures Reaches(cat, boCode, s, r, c, Two(s, 0, Txn(r, Start), Txn(c, Start)))
  {
    var one := s.(txns := map[0 := Txn(r, Start)]);
    assert LeadsTo(cat, boCode, s, r, c, [s], [], s);
    OneMore(cat, boCode, s, r, c, s, Arrive(0, r), one);
    assert map[0 := Txn(r, Start)][1 := Txn(c, Start)] == map[0 := Txn(r, Start), 1 := Txn(c, Start)];
    OneMore(cat, boCode, s, r, c, one, Arrive(1, c), Two(s, 0, Txn(r, Start), Txn(c, Start)));
  }

  lemma RivalsWarm(cat: Catalog, boCode: string, s: Sys, r: ValidRequest, c: ValidRequest, sale: nat)
    requires Rivals(cat, boCode, s, r, c, sale)
    ensures Reaches(cat, boCode, s, r, c, Two(s, 0, Txn(r, Cleared), Txn(c, Cleared)))
  {
    RivalsArrive(cat, boCode, s, r, c, sale);
    TwoMoves(Txn(r, Start), Txn(c, Start), Txn(r, Cleared), Txn(c, Start));
    OneMore(cat, boCode, s, r, c, Two(s, 0, Txn(r, Start), Txn(c, Start)), WarmRead(0), Two(s, 0, Txn(r, Cleared), Txn(c, Start)));
    TwoMoves(Txn(r, Cleared), Txn(c, Start), Txn(r, Cleared), Txn(c, Cleared));
    OneMore(cat, boCode, s, r, c, Two(s, 0, Txn(r, Cleared), Txn(c, Start)), WarmRead(1), Two(s, 0, Txn(r, Cleared), Txn(c, Cleared)));
  }

  lemma SaleIsFree(cat: Catalog, boCode: string, s: Sys, r: ValidRequest, y: Txn, sale: nat)
    requires r.RefundReq? && Original(s.db, r.scope, r.r.original) == Some(sale) && y.pc.Cleared?
    ensures Next(cat, boCode, Two(s, 0, Txn(r, Cleared), y), LockSale(0), Two(s, 0, Txn(r, UnderLock(cat, s.db, r, sale)), y))
  {
    TwoMoves(Txn(r, Cleared), y, Txn(r, UnderLock(cat, s.db, r, sale)), y);
  }

  /** The refund locks its sale. */
  lemma RivalLocks(cat: Catalog, boCode: string, s: Sys, r: ValidRequest, c: ValidRequest, sale: nat)
    requires Rivals(cat, boCode, s, r, c, sale)
    ensures Reaches(cat, boCode, s, r, c, Two(s, 0, Txn(r, UnderLock(cat, s.db, r, sale)), Txn(c, Cleared)))
  {
    RivalsWarm(cat, boCode, s, r, c, sale);
    SaleIsFree(cat, boCode, s, r, Txn(c, Cleared), sale);
    OneMore(cat, boCode, s, r, c, Two(s, 0, Txn(r, Cleared), Txn(c, Cleared)), LockSale(0), Two(s, 0, Txn(r, UnderLock(cat, s.db, r, sale)), Txn(c, Cleared)));
  }

  /** The child draws its id and number. */
  lemma RivalDraws(cat: Catalog, boCode: string, s: Sys, r: ValidRequest, c: ValidRequest, sale: nat)
    requires Rivals(cat, boCode, s, r, c, sale)
    ensures var plan := CheckoutPlan(cat, boCode, s.db, WithId(c, s.seqNo)).plan;
      Reaches(cat, boCode, s, r, c, Two(s, 1, Txn(r, UnderLock(cat, s.db, r, sale)), Txn(WithId(c, s.seqNo), Drawn(plan))))
  {
    RivalLocks(cat, boCode, s, r, c, sale);
    var x, d := Txn(r, UnderLock(cat, s.db, r, sale)), WithId(c, s.seqNo);
    var plan := CheckoutPlan(cat, boCode, s.db, d).plan;
    TwoMoves(x, Txn(c, Cleared), x, Txn(d, Drawn(plan)));
    var w, w' := Two(s, 0, x, Txn(c, Cleared)), Two(s, 1, x, Txn(d, Drawn(plan)));
    assert Next(cat, boCode, w, Draw(1), w');
    OneMore(cat, boCode, s, r, c, w, Draw(1), w');
  }

  /** Nobody holds the child's key or number, so its row goes in. */
  lemma ChildInserts(cat: Catalog, boCode: string, s: Sys, x: Txn, d: ValidRequest, plan: Plan)
    requires x.pc.SaleLocked? && Keyed(d) && d.key !in s.db.keys && plan.row.number !in s.db.numbers
    ensures Next(cat, boCode, Two(s, 1, x, Txn(d, Drawn(plan))), Insert(1), Two(s, 1, x, Txn(d, Linking(plan))))
  {
    TwoMoves(x, Txn(d, Drawn(plan)), x, Txn(d, Linking(plan)));
  }

  lemma RivalInserts(cat: Catalog, boCode: string, s: Sys, r: ValidRequest, c: ValidRequest, sale: nat)
    requires Rivals(cat, boCode, s, r, c, sale)
    ensures var plan := CheckoutPlan(cat, boCode, s.db, WithId(c, s.seqNo)).plan;
      Reaches(cat, boCode, s, r, c, Two(s, 1, Txn(r, UnderLock(cat, s.db, r, sale)), Txn(WithId(c, s.seqNo), Linking(plan))))
  {
    RivalDraws(cat, boCode, s, r, c, sale);
    var x, d := Txn(r, UnderLock(cat, s.db, r, sale)), WithId(c, s.seqNo);
    var plan := CheckoutPlan(cat, boCode, s.db, d).plan;
    ChildInserts(cat, boCode, s, x, d, plan);
    OneMore(cat, boCode, s, r, c, Two(s, 1, x, Txn(d, Drawn(plan))), Insert(1), Two(s, 1, x, Txn(d, Linking(plan))));
  }

  /** The refund's memo, from what it read under its lock. */
  function Memo(cat: Catalog, s: Sys, r: ValidRequest, sale: nat): Plan
    requires r.RefundReq? && sale in s.db.orders && UnderLock(cat, s.db, r, sale).SaleLocked?
  {
    var locked := UnderLock(cat, s.db, r, sale);
    MemoPlan(s.db, WithId(r, s.seqNo + 1), sale, locked.original, locked.asked, locked.fully)
  }

  lemma RefundDraws(cat: Catalog, boCode: string, s: Sys, r: ValidRequest, y: Txn, sale: nat)
    requires r.RefundReq? && sale in s.db.orders && UnderLock(cat, s.db, r, sale).SaleLocked?
    ensures Next(cat, boCode, Two(s, 1, Txn(r, UnderLock(cat, s.db, r, sale)), y), Draw(0),
                 Two(s, 2, Txn(WithId(r, s.seqNo + 1), Drawn(Memo(cat, s, r, sale))), y))
  {
    TwoMoves(Txn(r, UnderLock(cat, s.db, r, sale)), y, Txn(WithId(r, s.seqNo + 1), Drawn(Memo(cat, s, r, sale))), y);
  }

  /** The refund draws in turn. */
  lemma RivalsMeet(cat: Catalog, boCode: string, s: Sys, r: ValidRequest, c: ValidRequest, sale: nat)
    requires Rivals(cat, boCode, s, r, c, sale)
    ensures var plan := CheckoutPlan(cat, boCode, s.db, WithId(c, s.seqNo)).plan;
      Reaches(cat, boCode, s, r, c,
              Two(s, 2, Txn(WithId(r, s.seqNo + 1), Drawn(Memo(cat, s, r, sale))), Txn(WithId(c, s.seqNo), Linking(plan))))
  {
    RivalInserts(cat, boCode, s, r, c, sale);
    var y := Txn(WithId(c, s.seqNo), Linking(CheckoutPlan(cat, boCode, s.db, WithId(c, s.seqNo)).plan));
    RefundDraws(cat, boCode, s, r, y, sale);
    OneMore(cat, boCode, s, r, c, Two(s, 1, Txn(r, UnderLock(cat, s.db, r, sale)), y), Draw(0),
            Two(s, 2, Txn(WithId(r, s.seqNo + 1), Drawn(Memo(cat, s, r, sale))), y));
  }

  /** What the two plans say of key and sale. */
  lemma RivalPlans(cat: Catalog, boCode: string, s: Sys, r: ValidRequest, c: ValidRequest, sale: nat)
    requires Rivals(cat, boCode, s, r, c, sale)
    ensures Memo(cat, s, r, sale).sale == Some(sale)
    ensures var plan := CheckoutPlan(cat, boCode, s.db, WithId(c, s.seqNo)).plan;
      plan.row.parent == Some(sale) && plan.sale.None? && plan.entry.Some? && plan.entry.value.key == c.key
  {
  }

  /** Some request is unfinished and none can run its next statement. */
  ghost predicate Stuck(cat: Catalog, boCode: string, s: Sys) {
    && (exists t :: t in s.txns && Unfinished(s.txns[t]))
    && forall t :: t in s.txns ==> !CanMove(cat, boCode, s, t)
  }

  /** The refund waits for the key, the child for the sale, and neither can go on. */
  lemma MeetingIsStuck(cat: Catalog, boCode: string, s: Sys, r: ValidRequest, c: ValidRequest, sale: nat, plan: Plan, memo: Plan)
    requires r.RefundReq? && IsChild(c) && r.key == c.key && plan.entry.Some? && plan.entry.value.key == c.key
    requires memo.sale == Some(sale) && plan.row.parent == Some(sale) && plan.sale.None?
    ensures Stuck(cat, boCode, Two(s, 2, Txn(r, Drawn(memo)), Txn(c, Linking(plan))))
  {
    var w := Two(s, 2, Txn(r, Drawn(memo)), Txn(c, Linking(plan)));
    assert 0 in w.txns && Unfinished(w.txns[0]);
    assert Holds(w.txns[1], KeyLock(r.key)) && !FreeFor(w, 0, KeyLock(r.key));
    assert Holds(w.txns[0], SaleLock(sale)) && !FreeFor(w, 1, SaleLock(sale));
  }

  /** The requests of a run keep what they came with but for the drawn id. */
  lemma {:induction false} RequestsArrived(cat: Catalog, boCode: string, ss: seq<Sys>, acts: seq<Action>, r: ValidRequest, c: ValidRequest, n: nat)
    requires Behaviour(cat, boCode, ss, acts) && ArriveOnly(acts, r, c) && n < |ss|
    ensures forall t :: t in ss[n].txns ==> OneOf(ss[n].txns[t].req, r, c)
  {
    if n > 0 {
      RequestsArrived(cat, boCode, ss, acts, r, c, n - 1);
      assert Next(cat, boCode, ss[n - 1], acts[n - 1], ss[n]);
    }
  }

  predicate OneOf(x: ValidRequest, r: ValidRequest, c: ValidRequest) {
    x == WithId(r, x.so) || x == WithId(c, x.so)
  }

  /**
   * A refund and a replacement of its sale, retried at will: no run of them ever stops for
   * good exactly when their keys differ.
   */
  lemma RivalsDeadlockExactly(cat: Catalog, boCode: string, s: Sys, r: ValidRequest, c: ValidRequest, sale: nat)
    requires Rivals(cat, boCode, s, r, c, sale) && BinsApart(cat)
    ensures (forall ss: seq<Sys>, acts: seq<Action> :: Behaviour(cat, boCode, ss, acts) && ss[0] == s && ArriveOnly(acts, r, c)
              ==> !Stuck(cat, boCode, ss[|ss| - 1]))
      <==> r.key != c.key
  {
    if r.key == c.key {
      RivalsMeet(cat, boCode, s, r, c, sale);
      RivalPlans(cat, boCode, s, r, c, sale);
      var plan, memo := CheckoutPlan(cat, boCode, s.db, WithId(c, s.seqNo)).plan, Memo(cat, s, r, sale);
      var w := Two(s, 2, Txn(WithId(r, s.seqNo + 1), Drawn(memo)), Txn(WithId(c, s.seqNo), Linking(plan)));
      MeetingIsStuck(cat, boCode, s, WithId(r, s.seqNo + 1), WithId(c, s.seqNo), sale, plan, memo);
      var ss, acts :| LeadsTo(cat, boCode, s, r, c, ss, acts, w);
      assert Stuck(cat, boCode, ss[|ss| - 1]);
    } else {
      forall ss: seq<Sys>, acts: seq<Action> | Behaviour(cat, boCode, ss, acts) && ss[0] == s && ArriveOnly(acts, r, c)
        ensures !Stuck(cat, boCode, ss[|ss| - 1])
      {
        NeverStuck(cat, boCode, ss, acts, r, c);
      }
    }
  }

  lemma NeverStuck(cat: Catalog, boCode: string, ss: seq<Sys>, acts: seq<Action>, r: ValidRequest, c: ValidRequest)
    requires Behaviour(cat, boCode, ss, acts) && ArriveOnly(acts, r, c) && BinsApart(cat)
    requires r.RefundReq? && IsChild(c) && r.key != c.key
    ensures !Stuck(cat, boCode, ss[|ss| - 1])
  {
    var n := |ss| - 1;
    RequestsArrived(cat, boCode, ss, acts, r, c, n);
    assert KeysApart(ss[n]);
    if t :| t in ss[n].txns && Unfinished(ss[n].txns[t]) {
      NoDeadlock(cat, boCode, ss, acts, n, t);
    }
  }
}
