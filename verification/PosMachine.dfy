// Checkout, refund and reference-ingest requests racing each other, one SQL
// statement a step: the row lock on a refunded sale, the unique indexes on
// idempotency key and order number, the foreign key of a child order, the sequence,
// and the inventory row locks.

module PosMachine {
  import opened Wrappers
  import opened PosModel
  import opened PosRuns

  /** What the loop over inventory rows does to a row. */
  datatype Mode = Take | Reserve | Return

  /** The columns that make a row an idempotency sentinel, with the reply it will cache. */
  datatype Entry = Entry(key: string, body: Body, receipt: Receipt)

  /**
   * What a request is about to write, from the values its earlier statements read:
   * the order row under its drawn id, the sale it refunds, the inventory lines in
   * lock order.
   */
  datatype Plan = Plan(so: nat, row: Order, entry: Option<Entry>, sale: Option<nat>, fully: bool, lines: seq<Demand>, mode: Mode)
  datatype Planned = Planned(plan: Plan) | Refusal(error: Error)

  /** Where a request stands. `mine` holds its uncommitted inventory rows. */
  datatype Pc =
    | Start
    | Cleared
    | SaleLocked(sale: nat, original: Order, asked: seq<Demand>, fully: bool)
    | Drawn(plan: Plan)
    | Linking(plan: Plan)
    | Working(plan: Plan, next: nat, mine: Inventory)
    | Cached(plan: Plan, mine: Inventory)
    | Lost(plan: Plan)
    | Done(reply: Reply)
    | GaveUp

  datatype Txn = Txn(req: ValidRequest, pc: Pc)

  /**
   * The committed tables, the cached_response_body column by order id, the next
   * value of the id sequence, the requests, and the committed requests in commit order.
   */
  datatype Sys = Sys(db: Db, bodies: map<nat, Receipt>, seqNo: nat, txns: map<nat, Txn>, log: seq<ValidRequest>)

  predicate Keyed(r: ValidRequest) {
    !r.ReferenceReq?
  }

  /** The request once the sequence has given it its order id. */
  function WithId(r: ValidRequest, so: nat): ValidRequest {
    r.(so := so)
  }

  function BodyOf(r: ValidRequest): Body
    requires Keyed(r)
  {
    if r.CheckoutReq? then CheckoutOf(r.c) else RefundOf(r.r)
  }

  function ReplyOf(plan: Plan): Reply {
    if plan.entry.Some? then Created(plan.entry.value.receipt) else Ingested(plan.so, true)
  }

  // ---------- Plans ----------

  /** A checkout after its reads: scope, catalogue, parent and the count that numbers a child. */
  function CheckoutPlan(cat: Catalog, boCode: string, db: Db, r: ValidRequest): Planned
    requires r.CheckoutReq?
  {
    var b := r.c;
    if OutOfScope(cat, r.scope, b.lines) then Refusal(WarehouseNotInScope)
    else if !CartResolves(cat, b) then Refusal(FulfillmentFailed)
    else
      var h := CheckoutHeader(db, cat, boCode, r.scope, r.so, b);
      if h.NoHeader? then Refusal(h.why)
      else
        Planned(Plan(r.so, SaleOrder(cat, h, b, r.now), Some(Entry(r.key, CheckoutOf(b), SaleReceipt(h.number))), None, false,
                     if b.backorder then [] else Sorted(Resolve(cat, b.lines)), if b.phone then Reserve else Take))
  }

  /** A refund under the lock of its sale, from what it read there. */
  function MemoPlan(db: Db, r: ValidRequest, sale: nat, o: Order, asked: seq<Demand>, fully: bool): Plan
    requires r.RefundReq? && o.audited.Some?
  {
    var number := MintChild(db, sale, o.number, Refund);
    Plan(r.so, MemoOrder(number, sale, o, r.r, asked, r.now), Some(Entry(r.key, RefundOf(r.r), RefundReceipt(number, o.number, fully))),
         Some(sale), fully, Sorted(asked), Return)
  }

  function ReferencePlan(cat: Catalog, r: ValidRequest): Plan
    requires r.ReferenceReq? && r.scope != []
  {
    Plan(r.so, Order(r.number, Reference, Sale, Status.Shipped, r.scope[0], None, r.now, KnownLines(cat, r.refs, 1), None, None),
         None, None, false, [], Take)
  }

  // ---------- Lines ----------

  function Apply(stock: Inventory, lines: seq<Demand>, mode: Mode): Option<Inventory> {
    match mode
    case Take => Gate(stock, lines, false)
    case Reserve => Gate(stock, lines, true)
    case Return => PutBack(stock, lines)
  }

  /** One line under its row lock: the check and the update. */
  function ApplyLine(stock: Inventory, d: Demand, mode: Mode): Option<Inventory> {
    if d.loc !in stock || (mode != Return && Available(stock, d.loc) < d.qty) then None
    else
      var s := stock[d.loc];
      Some(stock[d.loc := if mode == Return then s.(onHand := s.onHand + d.qty) else Charge(s, d.qty, mode == Reserve)])
  }

  // ---------- Locks ----------

  datatype Lock = SaleLock(sale: nat) | KeyLock(key: string) | NumberLock(number: string) | RowLock(loc: Loc) | IdLock(so: nat)

  predicate HasPlan(pc: Pc) {
    pc.Drawn? || Inserted(pc) || pc.Lost?
  }

  predicate Inserted(pc: Pc) {
    pc.Linking? || Linked(pc)
  }

  /** Past the foreign-key check of its order row. */
  predicate Linked(pc: Pc) {
    pc.Working? || pc.Cached?
  }

  /** A drawn id is owned like a lock; the others are held by the index entries and rows written. */
  predicate Holds(x: Txn, l: Lock) {
    match l
    case SaleLock(sale) => (x.pc.SaleLocked? && x.pc.sale == sale) || (HasPlan(x.pc) && x.pc.plan.sale == Some(sale))
    case KeyLock(key) => Inserted(x.pc) && x.pc.plan.entry.Some? && x.pc.plan.entry.value.key == key
    case NumberLock(number) => Inserted(x.pc) && x.pc.plan.row.number == number
    case RowLock(loc) => Linked(x.pc) && loc in x.pc.mine
    case IdLock(so) => HasPlan(x.pc) && x.pc.plan.so == so
  }

  ghost predicate FreeFor(s: Sys, t: nat, l: Lock) {
    forall u :: u in s.txns && u != t ==> !Holds(s.txns[u], l)
  }

  /** The foreign-key check leaves a shared lock on the parent's row. */
  predicate SharesParent(x: Txn, sale: nat) {
    Linked(x.pc) && x.pc.plan.row.parent == Some(sale)
  }

  ghost predicate UnsharedFor(s: Sys, t: nat, sale: nat) {
    forall u :: u in s.txns && u != t ==> !SharesParent(s.txns[u], sale)
  }

  // ---------- Steps ----------

  datatype Action =
    | Arrive(t: nat, req: ValidRequest)
    | WarmRead(t: nat)
    | LockSale(t: nat)
    | Draw(t: nat)
    | Insert(t: nat)
    | Link(t: nat)
    | Reread(t: nat)
    | Line(t: nat)
    | Cache(t: nat)
    | Commit(t: nat)
    | Abort(t: nat)

  function At(s: Sys, t: nat, pc: Pc): Sys
    requires t in s.txns
  {
    s.(txns := s.txns[t := s.txns[t].(pc := pc)])
  }

  /** The answer the committed row of the request's key gives; None while its body column is empty. */
  function FromRow(db: Db, bodies: map<nat, Receipt>, r: ValidRequest): Option<Reply>
    requires Keyed(r) && r.key in db.keys
  {
    var row := db.keys[r.key];
    if row.body != BodyOf(r) then Some(Rejected(KeyReused))
    else if row.so !in bodies then None
    else Some(Replayed(bodies[row.so]))
  }

  /** The first read: a stored answer, an order already on the ingested number, or go on. */
  function Warm(s: Sys, r: ValidRequest): Pc {
    if Keyed(r) then
      if r.key in s.db.keys && FromRow(s.db, s.bodies, r).Some? then Done(FromRow(s.db, s.bodies, r).value) else Cleared
    else if r.scope == [] then Done(Rejected(NoScope))
    else if r.number in s.db.numbers then Done(Ingested(s.db.numbers[r.number], false))
    else Cleared
  }

  /** The gates of a refund, evaluated on the locked sale. */
  function UnderLock(cat: Catalog, db: Db, r: ValidRequest, sale: nat): Pc
    requires r.RefundReq? && sale in db.orders
  {
    var o := db.orders[sale];
    var bar := RefundBar(cat, o, r.r, r.now);
    if bar.Some? then Done(Rejected(bar.value))
    else
      var sold := Resolve(cat, o.audited.value.lines);
      var asked := Resolve(cat, RefundLines(o, r.r));
      if !FitsRemainder(db.orders, db.top, sale, sold, asked) then Done(Rejected(ExceedsRemaining))
      else SaleLocked(sale, o, asked, Completes(db.orders, db.top, sale, sold, asked))
  }

  /** Id and number in hand: what the request will write, or a refusal of its reads. */
  function Drawing(cat: Catalog, boCode: string, db: Db, r: ValidRequest, pc: Pc): Pc {
    match r
    case CheckoutReq(_, _, _, _, _) =>
      var p := CheckoutPlan(cat, boCode, db, r);
      if p.Planned? then Drawn(p.plan) else Done(Rejected(p.error))
    case RefundReq(_, _, _, _, _) =>
      if pc.SaleLocked? && pc.original.audited.Some? then Drawn(MemoPlan(db, r, pc.sale, pc.original, pc.asked, pc.fully)) else GaveUp
    case ReferenceReq(_, _, _, _, _) =>
      if r.scope != [] then Drawn(ReferencePlan(cat, r)) else GaveUp
  }

  /** INSERT ... ON CONFLICT on the key (or, for an ingest, on the number), then the other unique index. */
  function Inserting(db: Db, r: ValidRequest, plan: Plan): Pc {
    if Keyed(r) && r.key in db.keys then Lost(plan)
    else if plan.row.number in db.numbers then (if Keyed(r) then Done(Rejected(NumberTaken)) else Lost(plan))
    else Linking(plan)
  }

  function Rereading(s: Sys, r: ValidRequest): Pc {
    if Keyed(r) then
      if r.key in s.db.keys && FromRow(s.db, s.bodies, r).Some? then Done(FromRow(s.db, s.bodies, r).value) else GaveUp
    else if r.number in s.db.numbers then Done(Ingested(s.db.numbers[r.number], false))
    else GaveUp
  }

  /** The next line sees the committed stock under the request's own rows. */
  function LineResult(stock: Inventory, pc: Pc): Option<Inventory>
    requires pc.Working? && pc.next < |pc.plan.lines|
  {
    ApplyLine(stock + pc.mine, pc.plan.lines[pc.next], pc.plan.mode)
  }

  function NoStock(mode: Mode): Error {
    if mode == Return then OriginalNotFound else FulfillmentFailed
  }

  function Lining(stock: Inventory, pc: Pc): Pc
    requires pc.Working? && pc.next < |pc.plan.lines|
  {
    var l := pc.plan.lines[pc.next].loc;
    var after := LineResult(stock, pc);
    if after.None? || l !in after.value then Done(Rejected(NoStock(pc.plan.mode)))
    else Working(pc.plan, pc.next + 1, pc.mine[l := after.value[l]])
  }

  /** The tables once the plan's rows are visible. */
  function Published(db: Db, plan: Plan, mine: Inventory): Db {
    var kept := db.(
      stock := db.stock + mine,
      orders := db.orders[plan.so := plan.row],
      numbers := db.numbers[plan.row.number := plan.so],
      keys := if plan.entry.Some? then db.keys[plan.entry.value.key := KeyRow(plan.so, plan.entry.value.body, plan.entry.value.receipt)] else db.keys,
      top := Above(db.top, plan.so));
    if plan.sale.Some? && plan.sale.value in kept.orders
    then kept.(orders := kept.orders[plan.sale.value := Marked(kept.orders[plan.sale.value], plan.fully, plan.so)])
    else kept
  }

  function Committed(s: Sys, t: nat, plan: Plan, mine: Inventory): Sys
    requires t in s.txns
  {
    At(s, t, Done(ReplyOf(plan))).(
      db := Published(s.db, plan, mine),
      bodies := if plan.entry.Some? then s.bodies[plan.so := plan.entry.value.receipt] else s.bodies,
      log := s.log + [s.txns[t].req])
  }

  ghost predicate StepLockSale(cat: Catalog, s: Sys, t: nat, s': Sys)
    requires t in s.txns
  {
    var r := s.txns[t].req;
    && s.txns[t].pc == Cleared && r.RefundReq?
    && (var sale := Original(s.db, r.scope, r.r.original);
        if sale.None? then s' == At(s, t, Done(Rejected(OriginalNotFound)))
        else FreeFor(s, t, SaleLock(sale.value)) && UnsharedFor(s, t, sale.value) && s' == At(s, t, UnderLock(cat, s.db, r, sale.value)))
  }

  ghost predicate StepDraw(cat: Catalog, boCode: string, s: Sys, t: nat, s': Sys)
    requires t in s.txns
  {
    var x := s.txns[t];
    var r := WithId(x.req, s.seqNo);
    && (if r.RefundReq? then x.pc.SaleLocked? else x.pc == Cleared)
    && s' == s.(seqNo := s.seqNo + 1, txns := s.txns[t := Txn(r, Drawing(cat, boCode, s.db, r, x.pc))])
  }

  ghost predicate StepInsert(s: Sys, t: nat, s': Sys)
    requires t in s.txns
  {
    var x := s.txns[t];
    && x.pc.Drawn?
    && (Keyed(x.req) ==> FreeFor(s, t, KeyLock(x.req.key))) && FreeFor(s, t, NumberLock(x.pc.plan.row.number))
    && s' == At(s, t, Inserting(s.db, x.req, x.pc.plan))
  }

  /** The foreign-key check of the row just inserted waits while its parent is locked for a refund. */
  ghost predicate StepLink(s: Sys, t: nat, s': Sys)
    requires t in s.txns
  {
    var pc := s.txns[t].pc;
    && pc.Linking? && (pc.plan.row.parent.Some? ==> FreeFor(s, t, SaleLock(pc.plan.row.parent.value)))
    && s' == At(s, t, Working(pc.plan, 0, map[]))
  }

  ghost predicate StepLine(s: Sys, t: nat, s': Sys)
    requires t in s.txns
  {
    var pc := s.txns[t].pc;
    && pc.Working? && pc.next < |pc.plan.lines|
    && FreeFor(s, t, RowLock(pc.plan.lines[pc.next].loc))
    && s' == At(s, t, Lining(s.db.stock, pc))
  }

  ghost predicate Next(cat: Catalog, boCode: string, s: Sys, a: Action, s': Sys) {
    match a
    case Arrive(t, req) => t !in s.txns && s' == s.(txns := s.txns[t := Txn(req, Start)])
    case WarmRead(t) => t in s.txns && s.txns[t].pc == Start && s' == At(s, t, Warm(s, s.txns[t].req))
    case LockSale(t) => t in s.txns && StepLockSale(cat, s, t, s')
    case Draw(t) => t in s.txns && StepDraw(cat, boCode, s, t, s')
    case Insert(t) => t in s.txns && StepInsert(s, t, s')
    case Link(t) => t in s.txns && StepLink(s, t, s')
    case Reread(t) => t in s.txns && s.txns[t].pc.Lost? && s' == At(s, t, Rereading(s, s.txns[t].req))
    case Line(t) => t in s.txns && StepLine(s, t, s')
    case Cache(t) =>
      && t in s.txns && s.txns[t].pc.Working? && s.txns[t].pc.next == |s.txns[t].pc.plan.lines|
      && s' == At(s, t, Cached(s.txns[t].pc.plan, s.txns[t].pc.mine))
    case Commit(t) => t in s.txns && s.txns[t].pc.Cached? && s' == Committed(s, t, s.txns[t].pc.plan, s.txns[t].pc.mine)
    case Abort(t) => t in s.txns && !s.txns[t].pc.Done? && s' == At(s, t, GaveUp)
  }

  /** The lines so far, applied to the committed stock, are the request's own rows. */
  ghost predicate Progress(stock: Inventory, plan: Plan, next: nat, mine: Inventory) {
    && next <= |plan.lines|
    && Apply(stock, plan.lines[..next], plan.mode) == Some(stock + mine)
    && forall l :: l in mine <==> Names(plan.lines[..next], l)
  }

  ghost predicate Names(lines: seq<Demand>, l: Loc) {
    exists i :: 0 <= i < |lines| && lines[i].loc == l
  }

  // ---------- Lines on rows nobody else touches ----------

  lemma ApplyUnfold(stock: Inventory, lines: seq<Demand>, mode: Mode)
    ensures lines == [] ==> Apply(stock, lines, mode) == Some(stock)
    ensures lines != [] ==>
      var one := ApplyLine(stock, lines[0], mode);
      Apply(stock, lines, mode) == if one.None? then None else Apply(one.value, lines[1..], mode)
  {
  }

  /** Applying lines only reads and writes the rows they name. */
  lemma {:induction false} ApplyFrame(a: Inventory, b: Inventory, lines: seq<Demand>, mode: Mode)
    requires forall i :: 0 <= i < |lines| ==> lines[i].loc in a && lines[i].loc in b && a[lines[i].loc] == b[lines[i].loc]
    ensures Apply(a, lines, mode).Some? <==> Apply(b, lines, mode).Some?
    ensures Apply(a, lines, mode).Some? ==> SameEffect(a, Apply(a, lines, mode).value, b, Apply(b, lines, mode).value, lines)
    decreases |lines|
  {
    ApplyUnfold(a, lines, mode);
    ApplyUnfold(b, lines, mode);
    if lines != [] && ApplyLine(a, lines[0], mode).Some? {
      var a1 := ApplyLine(a, lines[0], mode).value;
      var b1 := ApplyLine(b, lines[0], mode).value;
      ApplyFrame(a1, b1, lines[1..], mode);
      if Apply(a, lines, mode).Some? {
        EffectsCompose(a, a1, Apply(a, lines, mode).value, b, b1, Apply(b, lines, mode).value, lines);
      }
    }
  }

  /** The two runs end with equal rows where the lines are, and leave the others alone. */
  ghost predicate SameEffect(a: Inventory, a': Inventory, b: Inventory, b': Inventory, lines: seq<Demand>) {
    && a'.Keys == a.Keys && b'.Keys == b.Keys
    && (forall i :: 0 <= i < |lines| ==> lines[i].loc in a' && lines[i].loc in b' && a'[lines[i].loc] == b'[lines[i].loc])
    && (forall l :: l in a && !Names(lines, l) ==> a'[l] == a[l])
    && (forall l :: l in b && !Names(lines, l) ==> b'[l] == b[l])
  }

  lemma EffectsCompose(a: Inventory, a1: Inventory, a': Inventory, b: Inventory, b1: Inventory, b': Inventory, lines: seq<Demand>)
    requires lines != [] && lines[0].loc in a1 && lines[0].loc in b1 && a1[lines[0].loc] == b1[lines[0].loc]
    requires a1.Keys == a.Keys && b1.Keys == b.Keys
    requires forall l :: l in a && l != lines[0].loc ==> a1[l] == a[l]
    requires forall l :: l in b && l != lines[0].loc ==> b1[l] == b[l]
    requires SameEffect(a1, a', b1, b', lines[1..])
    ensures SameEffect(a, a', b, b', lines)
  {
    var rest := lines[1..];
    forall l: Loc ensures Names(lines, l) <==> l == lines[0].loc || Names(rest, l) {
      if i :| 0 <= i < |lines| && lines[i].loc == l {
        assert i == 0 || rest[i - 1].loc == l;
      }
      if k :| 0 <= k < |rest| && rest[k].loc == l {
        assert lines[k + 1].loc == l;
      }
    }
    forall i | 0 <= i < |lines| ensures lines[i].loc in a' && lines[i].loc in b' && a'[lines[i].loc] == b'[lines[i].loc] {
      var l := lines[i].loc;
      assert Names(lines, l);
      if !Names(rest, l) {
        assert a'[l] == a1[l] && b'[l] == b1[l];
      }
    }
  }

  lemma {:induction false} ApplySnoc(stock: Inventory, lines: seq<Demand>, d: Demand, mode: Mode)
    requires Apply(stock, lines, mode).Some?
    ensures Apply(stock, lines + [d], mode) == ApplyLine(Apply(stock, lines, mode).value, d, mode)
    decreases |lines|
  {
    ApplyUnfold(stock, lines, mode);
    ApplyUnfold(stock, lines + [d], mode);
    if lines == [] {
      assert (lines + [d])[1..] == [];
      assert forall t :: Apply(t, [], mode) == Some(t);
    } else {
      assert (lines + [d])[1..] == lines[1..] + [d];
      ApplySnoc(ApplyLine(stock, lines[0], mode).value, lines[1..], d, mode);
    }
  }

  lemma {:induction false} ApplyTouchesRows(stock: Inventory, lines: seq<Demand>, mode: Mode)
    requires Apply(stock, lines, mode).Some?
    ensures Apply(stock, lines, mode).value.Keys == stock.Keys
    ensures forall i :: 0 <= i < |lines| ==> lines[i].loc in stock
    decreases |lines|
  {
    ApplyUnfold(stock, lines, mode);
    if lines != [] {
      ApplyTouchesRows(ApplyLine(stock, lines[0], mode).value, lines[1..], mode);
      assert forall i :: 1 <= i < |lines| ==> lines[i] == lines[1..][i - 1];
    }
  }

  lemma ProgressStarts(stock: Inventory, plan: Plan)
    ensures Progress(stock, plan, 0, map[])
  {
    assert plan.lines[..0] == [];
    ApplyUnfold(stock, [], plan.mode);
    assert stock + map[] == stock;
  }

  /** One more line applied to the rows the request holds. */
  lemma ProgressGoesOn(stock: Inventory, pc: Pc)
    requires pc.Working? && Progress(stock, pc.plan, pc.next, pc.mine) && pc.next < |pc.plan.lines|
    ensures LineResult(stock, pc).Some? ==>
      && pc.plan.lines[pc.next].loc in LineResult(stock, pc).value
      && Progress(stock, pc.plan, pc.next + 1, pc.mine[pc.plan.lines[pc.next].loc := LineResult(stock, pc).value[pc.plan.lines[pc.next].loc]])
    ensures LineResult(stock, pc).None? ==> Apply(stock, pc.plan.lines[..pc.next + 1], pc.plan.mode).None?
  {
    var d := pc.plan.lines[pc.next];
    var done := pc.plan.lines[..pc.next];
    ApplySnoc(stock, done, d, pc.plan.mode);
    assert pc.plan.lines[..pc.next + 1] == done + [d];
    var after := LineResult(stock, pc);
    if after.Some? {
      assert after.value == stock + pc.mine[d.loc := after.value[d.loc]];
      forall l: Loc ensures Names(done + [d], l) <==> Names(done, l) || l == d.loc {
        assert (done + [d])[|done|] == d;
        if i :| 0 <= i < |done| && done[i].loc == l { assert (done + [d])[i].loc == l; }
      }
    }
  }

  /** Lines that fail already on a prefix fail as a whole. */
  lemma {:induction false} FailedPrefixFails(stock: Inventory, lines: seq<Demand>, n: nat, mode: Mode)
    requires n <= |lines| && Apply(stock, lines[..n], mode).None?
    ensures Apply(stock, lines, mode).None?
    decreases n
  {
    ApplyUnfold(stock, lines, mode);
    ApplyUnfold(stock, lines[..n], mode);
    if n > 0 && ApplyLine(stock, lines[0], mode).Some? {
      assert lines[..n][1..] == lines[1..][..n - 1];
      FailedPrefixFails(ApplyLine(stock, lines[0], mode).value, lines[1..], n - 1, mode);
    }
  }

  /** Another request's rows survive a commit on rows it does not hold. */
  lemma ProgressSurvives(stock: Inventory, other: Inventory, plan: Plan, next: nat, mine: Inventory)
    requires Progress(stock, plan, next, mine) && other.Keys <= stock.Keys
    requires forall l :: l in other ==> l !in mine
    ensures Progress(stock + other, plan, next, mine)
  {
    var lines := plan.lines[..next];
    ApplyTouchesRows(stock, lines, plan.mode);
    forall i | 0 <= i < |lines| ensures lines[i].loc in stock + other && (stock + other)[lines[i].loc] == stock[lines[i].loc] {
      assert Names(lines, lines[i].loc);
    }
    ApplyFrame(stock, stock + other, lines, plan.mode);
    var b' := Apply(stock + other, lines, plan.mode).value;
    assert b' == stock + other + mine by {
      forall l | l in b' ensures b'[l] == (stock + other + mine)[l] {
        if Names(lines, l) {
          assert b'[l] == (stock + mine)[l];
        }
      }
    }
  }
}
