// Racing POS requests: whatever the interleaving, the tables are those of whole
// handlers run in commit order, so everything proved of sequential runs holds;
// keys and numbers are claimed once.

module PosConcurrency {
  import opened Wrappers
  import opened PosModel
  import opened PosStockGate
  import PosLedger
  import opened PosRuns
  import opened PosMachine
  import opened PosPlans

  // ---------- The invariant ----------

  ghost predicate LocksExclusive(s: Sys) {
    forall t, u, l: Lock :: t in s.txns && u in s.txns && t != u && Holds(s.txns[t], l) ==> !Holds(s.txns[u], l)
  }

  /** What a request's statements fixed once and for all. */
  ghost predicate PlanOk(db: Db, seqNo: nat, r: ValidRequest, plan: Plan) {
    && plan.so == r.so && plan.so < seqNo && plan.so !in db.orders
    && (plan.entry.Some? <==> Keyed(r)) && (plan.sale.Some? <==> r.RefundReq?)
    && (if Keyed(r) then plan.entry.value.key == r.key && plan.entry.value.body == BodyOf(r) else plan.row.number == r.number)
  }

  /** After the insert nothing stands between the plan and its commit but stock. */
  ghost predicate InFlight(cat: Catalog, boCode: string, db: Db, seqNo: nat, r: ValidRequest, plan: Plan, next: nat, mine: Inventory) {
    && PlanOk(db, seqNo, r, plan) && Current(cat, boCode, db, r, plan)
    && plan.row.number !in db.numbers && (Keyed(r) ==> r.key !in db.keys)
    && Progress(db.stock, plan, next, mine)
  }

  /** What an answer says about the committed rows. */
  ghost predicate AnsweredFrom(db: Db, r: ValidRequest, reply: Reply) {
    match reply
    case Created(receipt) => Keyed(r) && r.key in db.keys && db.keys[r.key] == KeyRow(r.so, BodyOf(r), receipt)
    case Replayed(receipt) => Keyed(r) && r.key in db.keys && db.keys[r.key].body == BodyOf(r) && db.keys[r.key].receipt == receipt
    case Ingested(so, created) => r.ReferenceReq? && r.number in db.numbers && db.numbers[r.number] == so && (created ==> so == r.so)
    case Rejected(error) => error == KeyReused ==> Keyed(r) && r.key in db.keys && db.keys[r.key].body != BodyOf(r)
  }

  ghost predicate TxnOk(cat: Catalog, boCode: string, db: Db, seqNo: nat, x: Txn) {
    match x.pc
    case Start => true
    case Cleared => true
    case SaleLocked(sale, o, asked, fully) => x.req.RefundReq? && PassedGates(cat, db, x.req, sale, o, asked, fully)
    case Drawn(plan) => PlanOk(db, seqNo, x.req, plan) && (Current(cat, boCode, db, x.req, plan) || plan.row.number in db.numbers)
    case Linking(plan) => InFlight(cat, boCode, db, seqNo, x.req, plan, 0, map[])
    case Working(plan, next, mine) => InFlight(cat, boCode, db, seqNo, x.req, plan, next, mine)
    case Cached(plan, mine) => InFlight(cat, boCode, db, seqNo, x.req, plan, |plan.lines|, mine)
    case Lost(plan) => PlanOk(db, seqNo, x.req, plan) && Taken(db, Claim(x.req))
    case Done(reply) => AnsweredFrom(db, x.req, reply)
    case GaveUp => true
  }

  /** What a request may claim once: its key, or for an ingest its number. */
  function Claim(r: ValidRequest): Lock {
    if Keyed(r) then KeyLock(r.key) else NumberLock(r.number)
  }

  ghost predicate Taken(db: Db, l: Lock) {
    match l
    case KeyLock(key) => key in db.keys
    case NumberLock(number) => number in db.numbers
    case _ => false
  }

  /** The request committed. */
  predicate Won(x: Txn) {
    x.pc.Done? && (x.pc.reply.Created? || (x.pc.reply.Ingested? && x.pc.reply.created))
  }

  ghost predicate OneWinner(s: Sys) {
    forall t, u :: t in s.txns && u in s.txns && Won(s.txns[t]) && Won(s.txns[u]) && Claim(s.txns[t].req) == Claim(s.txns[u].req) ==> t == u
  }

  ghost predicate WonKey(s: Sys, t: nat, k: string) {
    t in s.txns && Won(s.txns[t]) && Keyed(s.txns[t].req) && s.txns[t].req.key == k
  }

  /** A key is taken only by a committed request. */
  ghost predicate KeysWon(init: Db, s: Sys) {
    forall k :: k in s.db.keys && k !in init.keys ==> exists t: nat :: WonKey(s, t, k)
  }

  /** No committed row lacks its cached body. */
  ghost predicate BodiesAgree(s: Sys) {
    forall k :: k in s.db.keys ==> s.db.keys[k].so in s.bodies && s.bodies[s.db.keys[k].so] == s.db.keys[k].receipt
  }

  ghost predicate AllOk(cat: Catalog, boCode: string, s: Sys) {
    forall t :: t in s.txns ==> TxnOk(cat, boCode, s.db, s.seqNo, s.txns[t])
  }

  ghost predicate Serial(cat: Catalog, boCode: string, init: Db, s: Sys) {
    s.db == Run(cat, boCode, init, s.log) && s.db.top <= s.seqNo && PosLedger.Inv(cat, s.db)
  }

  ghost predicate Safe(cat: Catalog, boCode: string, init: Db, s: Sys) {
    LocksExclusive(s) && AllOk(cat, boCode, s) && OneWinner(s) && KeysWon(init, s) && BodiesAgree(s) && Serial(cat, boCode, init, s)
  }

  /** Consistent tables, nobody at work, and a sequence past every id in use. */
  ghost predicate Initial(cat: Catalog, s: Sys) {
    s.txns == map[] && s.log == [] && PosLedger.Inv(cat, s.db) && s.db.top <= s.seqNo && BodiesAgree(s)
  }

  // ---------- Steps that leave the tables alone ----------

  /** One request changes place; every lock it then holds was free of others. */
  lemma LocksStayExclusive(s: Sys, s': Sys, t: nat)
    requires LocksExclusive(s) && t in s'.txns
    requires forall u :: u in s'.txns && u != t ==> u in s.txns && s'.txns[u] == s.txns[u]
    requires forall l :: Holds(s'.txns[t], l) ==> FreeFor(s, t, l)
    ensures LocksExclusive(s')
  {
    forall u, l | u in s'.txns && u != t && Holds(s'.txns[t], l) ensures !Holds(s'.txns[u], l) {
      assert FreeFor(s, t, l);
    }
  }

  /** Locks already held are free of others. */
  lemma HeldIsFree(s: Sys, t: nat)
    requires LocksExclusive(s) && t in s.txns
    ensures forall l :: Holds(s.txns[t], l) ==> FreeFor(s, t, l)
  {
  }

  lemma KeysWonGrows(init: Db, s: Sys, s': Sys)
    requires KeysWon(init, s)
    requires forall u :: u in s.txns && Won(s.txns[u]) ==> u in s'.txns && s'.txns[u] == s.txns[u]
    requires forall k :: k in s'.db.keys && k !in s.db.keys ==> exists t: nat :: WonKey(s', t, k)
    ensures KeysWon(init, s')
  {
    forall k | k in s'.db.keys && k !in init.keys ensures exists u: nat :: WonKey(s', u, k) {
      if k in s.db.keys {
        var u: nat :| WonKey(s, u, k);
        assert WonKey(s', u, k);
      }
    }
  }

  /** A step of one request that takes only free locks, and at most an id. */
  ghost predicate Local(s: Sys, t: nat, x: Txn, s': Sys) {
    && s.seqNo <= s'.seqNo && s' == s.(seqNo := s'.seqNo, txns := s.txns[t := x])
    && (t in s.txns ==> !Won(s.txns[t])) && !Won(x)
    && forall l :: Holds(x, l) ==> FreeFor(s, t, l)
  }

  lemma LocalKeepsSafe(cat: Catalog, boCode: string, init: Db, s: Sys, t: nat, x: Txn, s': Sys)
    requires Safe(cat, boCode, init, s) && Local(s, t, x, s') && TxnOk(cat, boCode, s.db, s'.seqNo, x)
    ensures Safe(cat, boCode, init, s')
  {
    LocksStayExclusive(s, s', t);
    KeysWonGrows(init, s, s');
    forall u | u in s'.txns ensures TxnOk(cat, boCode, s'.db, s'.seqNo, s'.txns[u]) {
      if u != t {
        assert TxnOk(cat, boCode, s.db, s.seqNo, s.txns[u]);
        LaterSequence(cat, boCode, s.db, s.seqNo, s'.seqNo, s.txns[u]);
      }
    }
  }

  lemma LaterSequence(cat: Catalog, boCode: string, db: Db, a: nat, b: nat, x: Txn)
    requires TxnOk(cat, boCode, db, a, x) && a <= b
    ensures TxnOk(cat, boCode, db, b, x)
  {
  }

  /** A step after which the request holds no lock it did not hold before. */
  lemma QuietKeepsSafe(cat: Catalog, boCode: string, init: Db, s: Sys, t: nat, pc: Pc)
    requires Safe(cat, boCode, init, s) && t in s.txns && !Won(s.txns[t])
    requires var x := Txn(s.txns[t].req, pc);
      TxnOk(cat, boCode, s.db, s.seqNo, x) && !Won(x) && forall l :: Holds(x, l) ==> Holds(s.txns[t], l)
    ensures Safe(cat, boCode, init, At(s, t, pc))
  {
    HeldIsFree(s, t);
    LocalKeepsSafe(cat, boCode, init, s, t, Txn(s.txns[t].req, pc), At(s, t, pc));
  }

  /** A stored answer is the committed row's. */
  lemma RowAnswers(s: Sys, r: ValidRequest)
    requires BodiesAgree(s)
    ensures Warm(s, r).Cleared? || (Warm(s, r).Done? && AnsweredFrom(s.db, r, Warm(s, r).reply) && !Won(Txn(r, Warm(s, r))))
    ensures Rereading(s, r).GaveUp? || (Rereading(s, r).Done? && AnsweredFrom(s.db, r, Rereading(s, r).reply) && !Won(Txn(r, Rereading(s, r))))
  {
  }

  lemma ReadStepKeepsSafe(cat: Catalog, boCode: string, init: Db, s: Sys, a: Action, s': Sys)
    requires Safe(cat, boCode, init, s) && Next(cat, boCode, s, a, s') && (a.WarmRead? || a.Reread?)
    ensures Safe(cat, boCode, init, s')
  {
    var r := s.txns[a.t].req;
    RowAnswers(s, r);
    QuietKeepsSafe(cat, boCode, init, s, a.t, if a.WarmRead? then Warm(s, r) else Rereading(s, r));
  }

  lemma AbortKeepsSafe(cat: Catalog, boCode: string, init: Db, s: Sys, t: nat, s': Sys)
    requires Safe(cat, boCode, init, s) && Next(cat, boCode, s, Abort(t), s')
    ensures Safe(cat, boCode, init, s')
  {
    QuietKeepsSafe(cat, boCode, init, s, t, GaveUp);
  }

  lemma CachedIsOk(cat: Catalog, boCode: string, db: Db, seqNo: nat, x: Txn)
    requires TxnOk(cat, boCode, db, seqNo, x) && x.pc.Working? && x.pc.next == |x.pc.plan.lines|
    ensures var x' := Txn(x.req, Cached(x.pc.plan, x.pc.mine));
      TxnOk(cat, boCode, db, seqNo, x') && forall l :: Holds(x', l) ==> Holds(x, l)
  {
  }

  lemma CacheKeepsSafe(cat: Catalog, boCode: string, init: Db, s: Sys, t: nat, s': Sys)
    requires Safe(cat, boCode, init, s) && Next(cat, boCode, s, Cache(t), s')
    ensures Safe(cat, boCode, init, s')
  {
    var x := s.txns[t];
    CachedIsOk(cat, boCode, s.db, s.seqNo, x);
    QuietKeepsSafe(cat, boCode, init, s, t, Cached(x.pc.plan, x.pc.mine));
  }

  lemma UnderLockIsOk(cat: Catalog, boCode: string, db: Db, seqNo: nat, r: ValidRequest, sale: nat)
    requires r.RefundReq? && Original(db, r.scope, r.r.original) == Some(sale)
    ensures var x := Txn(r, UnderLock(cat, db, r, sale));
      TxnOk(cat, boCode, db, seqNo, x) && !Won(x) && forall l :: Holds(x, l) ==> l == SaleLock(sale)
  {
  }

  lemma LockSaleKeepsSafe(cat: Catalog, boCode: string, init: Db, s: Sys, t: nat, s': Sys)
    requires Safe(cat, boCode, init, s) && Next(cat, boCode, s, LockSale(t), s')
    ensures Safe(cat, boCode, init, s')
  {
    var r := s.txns[t].req;
    var sale := Original(s.db, r.scope, r.r.original);
    if sale.None? {
      QuietKeepsSafe(cat, boCode, init, s, t, Done(Rejected(OriginalNotFound)));
    } else {
      UnderLockIsOk(cat, boCode, s.db, s.seqNo, r, sale.value);
      LocalKeepsSafe(cat, boCode, init, s, t, Txn(r, UnderLock(cat, s.db, r, sale.value)), s');
    }
  }

  lemma InsertingIsOk(cat: Catalog, boCode: string, db: Db, seqNo: nat, x: Txn)
    requires TxnOk(cat, boCode, db, seqNo, x) && x.pc.Drawn?
    ensures var x' := Txn(x.req, Inserting(db, x.req, x.pc.plan));
      && TxnOk(cat, boCode, db, seqNo, x') && !Won(x')
      && forall l :: Holds(x', l) ==> Holds(x, l) || l == NumberLock(x.pc.plan.row.number) || (Keyed(x.req) && l == KeyLock(x.req.key))
  {
    ProgressStarts(db.stock, x.pc.plan);
  }

  lemma InsertKeepsSafe(cat: Catalog, boCode: string, init: Db, s: Sys, t: nat, s': Sys)
    requires Safe(cat, boCode, init, s) && Next(cat, boCode, s, Insert(t), s')
    ensures Safe(cat, boCode, init, s')
  {
    var x := s.txns[t];
    HeldIsFree(s, t);
    InsertingIsOk(cat, boCode, s.db, s.seqNo, x);
    LocalKeepsSafe(cat, boCode, init, s, t, Txn(x.req, Inserting(s.db, x.req, x.pc.plan)), s');
  }

  lemma LinkKeepsSafe(cat: Catalog, boCode: string, init: Db, s: Sys, t: nat, s': Sys)
    requires Safe(cat, boCode, init, s) && Next(cat, boCode, s, Link(t), s')
    ensures Safe(cat, boCode, init, s')
  {
    assert TxnOk(cat, boCode, s.db, s.seqNo, s.txns[t]);
    QuietKeepsSafe(cat, boCode, init, s, t, Working(s.txns[t].pc.plan, 0, map[]));
  }

  lemma LiningIsOk(cat: Catalog, boCode: string, db: Db, seqNo: nat, x: Txn)
    requires TxnOk(cat, boCode, db, seqNo, x) && x.pc.Working? && x.pc.next < |x.pc.plan.lines|
    ensures var x' := Txn(x.req, Lining(db.stock, x.pc)); TxnOk(cat, boCode, db, seqNo, x') && !Won(x')
  {
    if LineResult(db.stock, x.pc).Some? { LineWorks(cat, boCode, db, seqNo, x.req, x.pc); }
  }

  lemma LiningLocks(stock: Inventory, x: Txn)
    requires x.pc.Working? && x.pc.next < |x.pc.plan.lines|
    ensures forall l :: Holds(Txn(x.req, Lining(stock, x.pc)), l) ==> Holds(x, l) || l == RowLock(x.pc.plan.lines[x.pc.next].loc)
  {
  }

  lemma LineWorks(cat: Catalog, boCode: string, db: Db, seqNo: nat, r: ValidRequest, pc: Pc)
    requires pc.Working? && InFlight(cat, boCode, db, seqNo, r, pc.plan, pc.next, pc.mine) && pc.next < |pc.plan.lines|
    requires LineResult(db.stock, pc).Some?
    ensures var pc' := Lining(db.stock, pc);
      pc'.Working? && pc'.plan == pc.plan && InFlight(cat, boCode, db, seqNo, r, pc'.plan, pc'.next, pc'.mine)
  {
    ProgressGoesOn(db.stock, pc);
  }

  lemma LineKeepsSafe(cat: Catalog, boCode: string, init: Db, s: Sys, t: nat, s': Sys)
    requires Safe(cat, boCode, init, s) && Next(cat, boCode, s, Line(t), s')
    ensures Safe(cat, boCode, init, s')
  {
    var x := s.txns[t];
    HeldIsFree(s, t);
    LiningIsOk(cat, boCode, s.db, s.seqNo, x);
    LiningLocks(s.db.stock, x);
    LocalKeepsSafe(cat, boCode, init, s, t, Txn(x.req, Lining(s.db.stock, x.pc)), s');
  }

  /** An id off the sequence is in no row and in no other plan. */
  lemma DrawnIdIsNew(cat: Catalog, boCode: string, init: Db, s: Sys, t: nat)
    requires Safe(cat, boCode, init, s)
    ensures s.seqNo !in s.db.orders && FreeFor(s, t, IdLock(s.seqNo))
  {
    forall u | u in s.txns && u != t ensures !Holds(s.txns[u], IdLock(s.seqNo)) {
      assert TxnOk(cat, boCode, s.db, s.seqNo, s.txns[u]);
    }
  }

  lemma DrawKeepsSafe(cat: Catalog, boCode: string, init: Db, s: Sys, t: nat, s': Sys)
    requires Safe(cat, boCode, init, s) && Next(cat, boCode, s, Draw(t), s')
    ensures Safe(cat, boCode, init, s')
  {
    var x := s.txns[t];
    DrawnIdIsNew(cat, boCode, init, s, t);
    assert TxnOk(cat, boCode, s.db, s.seqNo, x);
    DrawingIsCurrent(cat, boCode, s.db, s.seqNo, x);
    HeldIsFree(s, t);
    LocalKeepsSafe(cat, boCode, init, s, t, s'.txns[t], s');
  }

  lemma DrawingIsCurrent(cat: Catalog, boCode: string, db: Db, seqNo: nat, x: Txn)
    requires TxnOk(cat, boCode, db, seqNo, x) && seqNo !in db.orders
    requires if x.req.RefundReq? then x.pc.SaleLocked? else x.pc == Cleared
    ensures var r := WithId(x.req, seqNo); var x' := Txn(r, Drawing(cat, boCode, db, r, x.pc));
      && TxnOk(cat, boCode, db, seqNo + 1, x') && !Won(x')
      && forall l :: Holds(x', l) ==> l == IdLock(seqNo) || (l.SaleLock? && Holds(x, l))
  {
    var r := WithId(x.req, seqNo);
    if r.RefundReq? {
      MemoDrawn(cat, boCode, db, seqNo, r, x.pc);
    } else {
      var pc := Drawing(cat, boCode, db, r, x.pc);
      assert pc.Drawn? ==> Current(cat, boCode, db, r, pc.plan) && PlanOk(db, seqNo + 1, r, pc.plan) && pc.plan.sale.None?;
    }
  }

  lemma MemoDrawn(cat: Catalog, boCode: string, db: Db, seqNo: nat, r: ValidRequest, pc: Pc)
    requires r.RefundReq? && r.so == seqNo && seqNo !in db.orders
    requires pc.SaleLocked? && PassedGates(cat, db, r, pc.sale, pc.original, pc.asked, pc.fully)
    ensures var pc' := Drawing(cat, boCode, db, r, pc);
      && pc'.Drawn? && pc'.plan.sale == Some(pc.sale) && pc'.plan.so == seqNo
      && PlanOk(db, seqNo + 1, r, pc'.plan) && Current(cat, boCode, db, r, pc'.plan)
  {
  }

  // ---------- Commits ----------

  /** The commit is one whole handler, run on the tables as they stand. */
  lemma CommitIsTheHandler(cat: Catalog, boCode: string, init: Db, s: Sys, t: nat, s': Sys)
    requires Safe(cat, boCode, init, s) && Next(cat, boCode, s, Commit(t), s')
    ensures var x := s.txns[t];
      && Step(cat, boCode, s.db, x.req) == (s'.db, ReplyOf(x.pc.plan)) && s'.txns[t].pc == Done(ReplyOf(x.pc.plan))
      && NewRow(s.db, x.pc.plan) && s'.db == Published(s.db, x.pc.plan, x.pc.mine)
  {
    var x := s.txns[t];
    assert TxnOk(cat, boCode, s.db, s.seqNo, x);
    assert x.pc.plan.lines[..|x.pc.plan.lines|] == x.pc.plan.lines;
    CarriedOut(cat, boCode, s.db, x.req, x.pc.plan, x.pc.mine);
    PlanShape(cat, boCode, s.db, x.req, x.pc.plan);
  }

  lemma RowsSurvive(stock: Inventory, x: Txn, y: Txn, next: nat, mine: Inventory)
    requires (forall l :: Holds(x, l) ==> !Holds(y, l)) && (forall l :: l in mine ==> Holds(y, RowLock(l)))
    requires x.pc.Cached? && Progress(stock, x.pc.plan, |x.pc.plan.lines|, x.pc.mine)
    requires Inserted(y.pc) && Progress(stock, y.pc.plan, next, mine)
    ensures Progress(stock + x.pc.mine, y.pc.plan, next, mine)
  {
    var w := x.pc.plan;
    ApplyTouchesRows(stock, w.lines[..|w.lines|], w.mode);
    assert x.pc.mine.Keys <= stock.Keys;
    forall l | l in x.pc.mine ensures l !in mine {
      assert Holds(x, RowLock(l)) && !Holds(y, RowLock(l));
    }
    ProgressSurvives(stock, x.pc.mine, y.pc.plan, next, mine);
  }

  /** A commit of `x` as its neighbours see it: rows of its plan appear, and nothing they hold a lock on changes. */
  ghost predicate Neighbours(cat: Catalog, boCode: string, db: Db, seqNo: nat, x: Txn, y: Txn, db': Db) {
    && x.pc.Cached? && TxnOk(cat, boCode, db, seqNo, x) && TxnOk(cat, boCode, db, seqNo, y)
    && NewRow(db, x.pc.plan) && db' == Published(db, x.pc.plan, x.pc.mine)
    && forall l :: Holds(x, l) ==> !Holds(y, l)
  }

  /** A plan with a free number keeps its meaning. */
  lemma PlanSurvives(cat: Catalog, boCode: string, db: Db, seqNo: nat, x: Txn, y: Txn, db': Db)
    requires Neighbours(cat, boCode, db, seqNo, x, y, db') && HasPlan(y.pc) && Current(cat, boCode, db, y.req, y.pc.plan)
    ensures Current(cat, boCode, db', y.req, y.pc.plan) || y.pc.plan.row.number in db'.numbers
  {
    if x.pc.plan.sale.Some? { assert Holds(x, SaleLock(x.pc.plan.sale.value)) && !Holds(y, SaleLock(x.pc.plan.sale.value)); }
    PlanAfter(cat, boCode, db, y.req, y.pc.plan, x.req, x.pc.plan, x.pc.mine);
  }

  lemma IdSurvives(cat: Catalog, boCode: string, db: Db, seqNo: nat, x: Txn, y: Txn, db': Db)
    requires Neighbours(cat, boCode, db, seqNo, x, y, db') && HasPlan(y.pc) && PlanOk(db, seqNo, y.req, y.pc.plan)
    ensures PlanOk(db', seqNo, y.req, y.pc.plan)
  {
    assert Holds(x, IdLock(x.pc.plan.so)) && !Holds(y, IdLock(x.pc.plan.so));
  }

  /** After its insert a request keeps its key and number to itself. */
  lemma InFlightSurvives(cat: Catalog, boCode: string, db: Db, seqNo: nat, x: Txn, y: Txn, db': Db, next: nat, mine: Inventory)
    requires Neighbours(cat, boCode, db, seqNo, x, y, db') && Inserted(y.pc) && forall l :: l in mine ==> Holds(y, RowLock(l))
    requires InFlight(cat, boCode, db, seqNo, y.req, y.pc.plan, next, mine)
    ensures InFlight(cat, boCode, db', seqNo, y.req, y.pc.plan, next, mine)
  {
    IdSurvives(cat, boCode, db, seqNo, x, y, db');
    PlanSurvives(cat, boCode, db, seqNo, x, y, db');
    assert Holds(x, NumberLock(x.pc.plan.row.number)) && !Holds(y, NumberLock(x.pc.plan.row.number));
    if x.pc.plan.entry.Some? { assert Holds(x, KeyLock(x.pc.plan.entry.value.key)) && !Holds(y, KeyLock(x.pc.plan.entry.value.key)); }
    RowsSurvive(db.stock, x, y, next, mine);
    assert db'.stock == db.stock + x.pc.mine;
  }

  lemma AnswersSurvive(db: Db, plan: Plan, mine: Inventory, r: ValidRequest, reply: Reply)
    requires AnsweredFrom(db, r, reply) && plan.row.number !in db.numbers
    requires plan.entry.Some? ==> plan.entry.value.key !in db.keys
    ensures AnsweredFrom(Published(db, plan, mine), r, reply)
  {
  }

  /** How far a request past its insert has come: lines applied and rows held. */
  function Lines(pc: Pc): (nat, Inventory)
    requires Inserted(pc)
  {
    match pc
    case Linking(plan) => (0, map[])
    case Working(plan, next, mine) => (next, mine)
    case Cached(plan, mine) => (|plan.lines|, mine)
  }

  lemma InsertedIsInFlight(cat: Catalog, boCode: string, db: Db, seqNo: nat, x: Txn)
    requires Inserted(x.pc)
    ensures TxnOk(cat, boCode, db, seqNo, x) <==> InFlight(cat, boCode, db, seqNo, x.req, x.pc.plan, Lines(x.pc).0, Lines(x.pc).1)
    ensures forall l :: l in Lines(x.pc).1 ==> Holds(x, RowLock(l))
  {
  }

  lemma InsertedSurvives(cat: Catalog, boCode: string, db: Db, seqNo: nat, x: Txn, y: Txn, db': Db)
    requires Neighbours(cat, boCode, db, seqNo, x, y, db') && Inserted(y.pc)
    ensures TxnOk(cat, boCode, db', seqNo, y)
  {
    InsertedIsInFlight(cat, boCode, db, seqNo, y);
    InFlightSurvives(cat, boCode, db, seqNo, x, y, db', Lines(y.pc).0, Lines(y.pc).1);
    InsertedIsInFlight(cat, boCode, db', seqNo, y);
  }

  lemma NeighbourSurvives(cat: Catalog, boCode: string, db: Db, seqNo: nat, x: Txn, y: Txn, db': Db)
    requires Neighbours(cat, boCode, db, seqNo, x, y, db')
    ensures TxnOk(cat, boCode, db', seqNo, y)
  {
    if Inserted(y.pc) {
      InsertedSurvives(cat, boCode, db, seqNo, x, y, db');
    } else if y.pc.SaleLocked? {
      assert Holds(y, SaleLock(y.pc.sale)) && !Holds(x, SaleLock(y.pc.sale));
      GatesAfter(cat, boCode, db, y.req, y.pc.sale, y.pc.original, y.pc.asked, y.pc.fully, x.req, x.pc.plan, x.pc.mine);
    } else if y.pc.Drawn? || y.pc.Lost? {
      IdSurvives(cat, boCode, db, seqNo, x, y, db');
      if y.pc.Drawn? && y.pc.plan.row.number !in db.numbers { PlanSurvives(cat, boCode, db, seqNo, x, y, db'); }
    } else if y.pc.Done? {
      AnswersSurvive(db, x.pc.plan, x.pc.mine, y.req, y.pc.reply);
    }
  }

  lemma CommitKeepsOk(cat: Catalog, boCode: string, init: Db, s: Sys, t: nat, s': Sys)
    requires Safe(cat, boCode, init, s) && Next(cat, boCode, s, Commit(t), s')
    ensures AllOk(cat, boCode, s')
  {
    CommitIsTheHandler(cat, boCode, init, s, t, s');
    var x := s.txns[t];
    forall u | u in s'.txns ensures TxnOk(cat, boCode, s'.db, s'.seqNo, s'.txns[u]) {
      assert TxnOk(cat, boCode, s.db, s.seqNo, s.txns[u]);
      if u != t {
        NeighbourSurvives(cat, boCode, s.db, s.seqNo, x, s.txns[u], s'.db);
      }
    }
  }

  /** The committer's claim was free, so no earlier winner has it. */
  lemma CommitKeepsOneWinner(cat: Catalog, boCode: string, init: Db, s: Sys, t: nat, s': Sys)
    requires Safe(cat, boCode, init, s) && Next(cat, boCode, s, Commit(t), s')
    ensures OneWinner(s')
  {
    var x := s.txns[t];
    ClaimIsFree(cat, boCode, s.db, s.seqNo, x);
    forall u | u in s.txns && Won(s.txns[u]) ensures Taken(s.db, Claim(s.txns[u].req)) {
      assert TxnOk(cat, boCode, s.db, s.seqNo, s.txns[u]);
    }
  }

  lemma ClaimIsFree(cat: Catalog, boCode: string, db: Db, seqNo: nat, x: Txn)
    requires TxnOk(cat, boCode, db, seqNo, x) && x.pc.Cached?
    ensures !Taken(db, Claim(x.req))
  {
  }

  lemma CommitKeepsKeysWon(cat: Catalog, boCode: string, init: Db, s: Sys, t: nat, s': Sys)
    requires Safe(cat, boCode, init, s) && Next(cat, boCode, s, Commit(t), s')
    ensures KeysWon(init, s')
  {
    assert TxnOk(cat, boCode, s.db, s.seqNo, s.txns[t]);
    forall k | k in s'.db.keys && k !in s.db.keys ensures exists u: nat :: WonKey(s', u, k) {
      assert WonKey(s', t, k);
    }
    KeysWonGrows(init, s, s');
  }

  lemma CommitKeepsSerial(cat: Catalog, boCode: string, init: Db, s: Sys, t: nat, s': Sys)
    requires Safe(cat, boCode, init, s) && Next(cat, boCode, s, Commit(t), s')
    ensures Serial(cat, boCode, init, s')
  {
    var x := s.txns[t];
    assert TxnOk(cat, boCode, s.db, s.seqNo, x);
    CommitIsTheHandler(cat, boCode, init, s, t, s');
    StepKeepsInv(cat, boCode, s.db, x.req);
    assert s'.log[..|s'.log| - 1] == s.log;
    assert s'.db.top == Above(s.db.top, x.pc.plan.so);
  }

  /** The committed row's body is cached with it, and no other row's body moves. */
  lemma CommitKeepsBodies(cat: Catalog, boCode: string, init: Db, s: Sys, t: nat, s': Sys)
    requires Safe(cat, boCode, init, s) && Next(cat, boCode, s, Commit(t), s')
    ensures BodiesAgree(s')
  {
    var x := s.txns[t];
    assert TxnOk(cat, boCode, s.db, s.seqNo, x);
    BodiesGrow(s.db, s.bodies, x.pc.plan, x.pc.mine);
  }

  lemma BodiesGrow(db: Db, bodies: map<nat, Receipt>, plan: Plan, mine: Inventory)
    requires PosLedger.Indexed(db) && plan.so !in db.orders
    requires forall k :: k in db.keys ==> db.keys[k].so in bodies && bodies[db.keys[k].so] == db.keys[k].receipt
    ensures var db' := Published(db, plan, mine);
      var bodies' := if plan.entry.Some? then bodies[plan.so := plan.entry.value.receipt] else bodies;
      forall k :: k in db'.keys ==> db'.keys[k].so in bodies' && bodies'[db'.keys[k].so] == db'.keys[k].receipt
  {
  }

  lemma CommitKeepsSafe(cat: Catalog, boCode: string, init: Db, s: Sys, t: nat, s': Sys)
    requires Safe(cat, boCode, init, s) && Next(cat, boCode, s, Commit(t), s')
    ensures Safe(cat, boCode, init, s')
  {
    CommitKeepsOk(cat, boCode, init, s, t, s');
    CommitKeepsOneWinner(cat, boCode, init, s, t, s');
    CommitKeepsKeysWon(cat, boCode, init, s, t, s');
    CommitKeepsSerial(cat, boCode, init, s, t, s');
    CommitKeepsBodies(cat, boCode, init, s, t, s');
    CommitKeepsLocks(cat, boCode, s, t, s');
  }

  lemma CommitKeepsLocks(cat: Catalog, boCode: string, s: Sys, t: nat, s': Sys)
    requires LocksExclusive(s) && Next(cat, boCode, s, Commit(t), s')
    ensures LocksExclusive(s')
  {
    LocksStayExclusive(s, s', t);
  }

  lemma NextKeepsSafe(cat: Catalog, boCode: string, init: Db, s: Sys, a: Action, s': Sys)
    requires Safe(cat, boCode, init, s) && Next(cat, boCode, s, a, s')
    ensures Safe(cat, boCode, init, s')
  {
    match a
    case Arrive(t, req) => LocalKeepsSafe(cat, boCode, init, s, t, Txn(req, Start), s');
    case LockSale(t) => LockSaleKeepsSafe(cat, boCode, init, s, t, s');
    case Draw(t) => DrawKeepsSafe(cat, boCode, init, s, t, s');
    case Insert(t) => InsertKeepsSafe(cat, boCode, init, s, t, s');
    case Link(t) => LinkKeepsSafe(cat, boCode, init, s, t, s');
    case Line(t) => LineKeepsSafe(cat, boCode, init, s, t, s');
    case Commit(t) => CommitKeepsSafe(cat, boCode, init, s, t, s');
    case Cache(t) => CacheKeepsSafe(cat, boCode, init, s, t, s');
    case Abort(t) => AbortKeepsSafe(cat, boCode, init, s, t, s');
    case _ => ReadStepKeepsSafe(cat, boCode, init, s, a, s');
  }

  // ---------- Whole runs ----------

  /** A run: states and the actions between them. */
  ghost predicate Behaviour(cat: Catalog, boCode: string, ss: seq<Sys>, acts: seq<Action>) {
    && |ss| == |acts| + 1 && Initial(cat, ss[0])
    && forall i :: 0 <= i < |acts| ==> Next(cat, boCode, ss[i], acts[i], ss[i + 1])
  }

  lemma {:induction false} BehaviourKeepsSafe(cat: Catalog, boCode: string, ss: seq<Sys>, acts: seq<Action>, i: nat)
    requires Behaviour(cat, boCode, ss, acts) && i < |ss|
    ensures Safe(cat, boCode, ss[0].db, ss[i])
  {
    if i > 0 {
      BehaviourKeepsSafe(cat, boCode, ss, acts, i - 1);
      NextKeepsSafe(cat, boCode, ss[0].db, ss[i - 1], acts[i - 1], ss[i]);
    }
  }

  /**
   * Concurrent requests are serializable: the tables are those of the whole handlers
   * run one after another in commit order, and each commit has the effect and the
   * answer of its handler run at that moment.
   */
  lemma RunsAreSerializable(cat: Catalog, boCode: string, ss: seq<Sys>, acts: seq<Action>, i: nat)
    requires Behaviour(cat, boCode, ss, acts) && i < |ss|
    ensures ss[i].db == Run(cat, boCode, ss[0].db, ss[i].log)
    ensures i < |acts| && !acts[i].Commit? ==> ss[i + 1].db == ss[i].db && ss[i + 1].log == ss[i].log
    ensures i < |acts| && acts[i].Commit? ==> CommitsAStep(cat, boCode, ss[i], acts[i].t, ss[i + 1])
  {
    BehaviourKeepsSafe(cat, boCode, ss, acts, i);
    if i < |acts| {
      assert Next(cat, boCode, ss[i], acts[i], ss[i + 1]);
      if acts[i].Commit? {
        CommitIsTheHandler(cat, boCode, ss[0].db, ss[i], acts[i].t, ss[i + 1]);
      }
    }
  }

  ghost predicate CommitsAStep(cat: Catalog, boCode: string, s: Sys, t: nat, s': Sys) {
    && t in s.txns && t in s'.txns && s'.log == s.log + [s.txns[t].req] && s'.txns[t].pc.Done?
    && Step(cat, boCode, s.db, s.txns[t].req) == (s'.db, s'.txns[t].pc.reply)
  }

  /** Stock is conserved in every interleaving. */
  lemma StockIsConservedInterleaved(cat: Catalog, boCode: string, ss: seq<Sys>, acts: seq<Action>, i: nat, item: nat)
    requires Behaviour(cat, boCode, ss, acts) && i < |ss|
    ensures StockBalance(ss[i].db, item) == StockBalance(ss[0].db, item)
    ensures ReservationBalance(ss[i].db, item) == ReservationBalance(ss[0].db, item)
    ensures PosLedger.RowsOk(ss[i].db.stock)
  {
    RunsAreSerializable(cat, boCode, ss, acts, i);
    StockIsConserved(cat, boCode, ss[0].db, ss[i].log, item);
  }

  /** Racing refunds of one sale, also of a sale made during the run, never give back more than it shipped. */
  lemma RefundsNeverExceedInterleaved(cat: Catalog, boCode: string, ss: seq<Sys>, acts: seq<Action>, i: nat, sale: nat)
    requires Behaviour(cat, boCode, ss, acts) && i < |ss| && Opening(ss[0].db)
    ensures var end := ss[i].db; PosLedger.IsPosSale(end.orders, sale) ==>
      if end.orders[sale].status == Open || end.orders[sale].status == WaitingStock
      then PosLedger.Unrefunded(end.orders, sale, end.top)
      else RefundsWithinSale(end.orders, end.top, sale)
  {
    RunsAreSerializable(cat, boCode, ss, acts, i);
    RefundsNeverExceedTheSale(cat, boCode, ss[0].db, ss[i].log, sale);
  }

  /**
   * In every interleaving: a key (an ingest's number) is committed at most once; every
   * 200 carries the committed receipt of its key and body and every 409 means another
   * body holds the key; no committed row lacks its cached body; and a key is taken
   * only by a committed request.
   */
  lemma KeysTakeEffectOnce(cat: Catalog, boCode: string, ss: seq<Sys>, acts: seq<Action>, i: nat)
    requires Behaviour(cat, boCode, ss, acts) && i < |ss|
    ensures var s := ss[i];
      && OneWinner(s)
      && (forall t :: t in s.txns && s.txns[t].pc.Done? ==> AnsweredFrom(s.db, s.txns[t].req, s.txns[t].pc.reply))
      && BodiesAgree(s)
      && KeysWon(ss[0].db, s)
  {
    BehaviourKeepsSafe(cat, boCode, ss, acts, i);
    forall t | t in ss[i].txns && ss[i].txns[t].pc.Done? ensures AnsweredFrom(ss[i].db, ss[i].txns[t].req, ss[i].txns[t].pc.reply) {
      assert TxnOk(cat, boCode, ss[i].db, ss[i].seqNo, ss[i].txns[t]);
    }
  }

  /** After a lost insert the re-read always finds its answer. */
  lemma LostInsertFindsAnswer(cat: Catalog, boCode: string, ss: seq<Sys>, acts: seq<Action>, i: nat, t: nat)
    requires Behaviour(cat, boCode, ss, acts) && i < |ss| && t in ss[i].txns && ss[i].txns[t].pc.Lost?
    ensures var r := ss[i].txns[t].req; var pc := Rereading(ss[i], r);
      && Next(cat, boCode, ss[i], Reread(t), At(ss[i], t, pc))
      && pc.Done? && (Keyed(r) ==> r.key in ss[i].db.keys && pc.reply == ReplayReply(ss[i].db.keys[r.key], BodyOf(r)))
      && (!Keyed(r) ==> r.number in ss[i].db.numbers && pc.reply == Ingested(ss[i].db.numbers[r.number], false))
  {
    BehaviourKeepsSafe(cat, boCode, ss, acts, i);
    assert TxnOk(cat, boCode, ss[i].db, ss[i].seqNo, ss[i].txns[t]);
  }

  /** After a commit, a later request under the key is answered by its warm read, as the handler would. */
  lemma CommittedKeyAnswersAtOnce(cat: Catalog, boCode: string, ss: seq<Sys>, acts: seq<Action>, i: nat)
    requires Behaviour(cat, boCode, ss, acts) && i < |acts| && acts[i].WarmRead?
    ensures acts[i].t in ss[i].txns && acts[i].t in ss[i + 1].txns
    ensures var r := ss[i].txns[acts[i].t].req; Keyed(r) ==>
      ss[i + 1].txns[acts[i].t].pc == if r.key in ss[i].db.keys then Done(ReplayReply(ss[i].db.keys[r.key], BodyOf(r))) else Cleared
  {
    BehaviourKeepsSafe(cat, boCode, ss, acts, i);
    assert Next(cat, boCode, ss[i], acts[i], ss[i + 1]);
  }

  /** A failed attempt leaves its key free: the next insert under it goes through if its number does. */
  lemma FailedKeyIsFree(cat: Catalog, boCode: string, ss: seq<Sys>, acts: seq<Action>, i: nat, t: nat)
    requires Behaviour(cat, boCode, ss, acts) && i < |ss| && t in ss[i].txns && ss[i].txns[t].pc.Drawn? && Keyed(ss[i].txns[t].req)
    requires forall u :: u in ss[i].txns && u != t && Keyed(ss[i].txns[u].req) && ss[i].txns[u].req.key == ss[i].txns[t].req.key ==>
      (ss[i].txns[u].pc.Done? || ss[i].txns[u].pc.GaveUp?) && !Won(ss[i].txns[u])
    requires ss[i].txns[t].req.key !in ss[0].db.keys
    ensures var x := ss[i].txns[t];
      && x.req.key !in ss[i].db.keys && FreeFor(ss[i], t, KeyLock(x.req.key))
      && (x.pc.plan.row.number !in ss[i].db.numbers && FreeFor(ss[i], t, NumberLock(x.pc.plan.row.number))
          ==> Next(cat, boCode, ss[i], Insert(t), At(ss[i], t, Linking(x.pc.plan))))
  {
    BehaviourKeepsSafe(cat, boCode, ss, acts, i);
    var k := ss[i].txns[t].req.key;
    assert forall u: nat :: !WonKey(ss[i], u, k);
    KeyUnheld(cat, boCode, ss[i], t, k);
    assert TxnOk(cat, boCode, ss[i].db, ss[i].seqNo, ss[i].txns[t]);
  }

  lemma KeyUnheld(cat: Catalog, boCode: string, s: Sys, t: nat, k: string)
    requires AllOk(cat, boCode, s)
    requires forall u :: u in s.txns && u != t && Keyed(s.txns[u].req) && s.txns[u].req.key == k ==> s.txns[u].pc.Done? || s.txns[u].pc.GaveUp?
    ensures FreeFor(s, t, KeyLock(k))
  {
    forall u | u in s.txns && u != t ensures !Holds(s.txns[u], KeyLock(k)) {
      assert TxnOk(cat, boCode, s.db, s.seqNo, s.txns[u]);
    }
  }

  /**
   * The count that numbers a child is read without a lock, yet no stale number gets
   * in: whoever is past the insert has the number a count taken now would give.
   */
  lemma ChildNumbersAreCurrent(cat: Catalog, boCode: string, ss: seq<Sys>, acts: seq<Action>, i: nat, t: nat)
    requires Behaviour(cat, boCode, ss, acts) && i < |ss| && t in ss[i].txns && Inserted(ss[i].txns[t].pc)
    ensures var row := ss[i].txns[t].pc.plan.row; var db := ss[i].db;
      && row.number !in db.numbers
      && (row.parent.Some? ==> row.parent.value in db.orders)
      && (row.parent.Some? ==> row.number == MintChild(db, row.parent.value, db.orders[row.parent.value].number, row.otype))
  {
    BehaviourKeepsSafe(cat, boCode, ss, acts, i);
    var x := ss[i].txns[t];
    assert TxnOk(cat, boCode, ss[i].db, ss[i].seqNo, x);
    PlanShape(cat, boCode, ss[i].db, x.req, x.pc.plan);
  }

  // ---------- Refusals ----------

  lemma GateRefusal(cat: Catalog, boCode: string, db: Db, r: ValidRequest)
    requires r.RefundReq? && r.key !in db.keys
    ensures var sale := Original(db, r.scope, r.r.original);
      if sale.None? then Step(cat, boCode, db, r) == (db, Rejected(OriginalNotFound))
      else UnderLock(cat, db, r, sale.value).Done? ==> Step(cat, boCode, db, r) == (db, UnderLock(cat, db, r, sale.value).reply)
  {
  }

  lemma PlanRefusal(cat: Catalog, boCode: string, db: Db, r: ValidRequest)
    requires r.CheckoutReq? && r.key !in db.keys
    ensures var p := CheckoutPlan(cat, boCode, db, r); p.Refusal? ==> Step(cat, boCode, db, r) == (db, Rejected(p.error))
  {
  }

  lemma StockRefusal(cat: Catalog, boCode: string, db: Db, seqNo: nat, r: ValidRequest, plan: Plan, next: nat, mine: Inventory)
    requires InFlight(cat, boCode, db, seqNo, r, plan, next, mine) && Apply(db.stock, plan.lines, plan.mode).None?
    ensures Step(cat, boCode, db, r) == (db, Rejected(NoStock(plan.mode)))
  {
    if r.CheckoutReq? {
      assert SaleStock(cat, db.stock, r.c).None?;
    } else if r.RefundReq? {
      var sale := plan.sale.value;
      var asked := Resolve(cat, RefundLines(db.orders[sale], r.r));
      assert Step(cat, boCode, db, r) == BookRefund(db, sale, r.key, r.r, asked, plan.fully, r.now, r.so);
    }
  }

  lemma LineRefusal(cat: Catalog, boCode: string, db: Db, seqNo: nat, r: ValidRequest, pc: Pc)
    requires TxnOk(cat, boCode, db, seqNo, Txn(r, pc)) && pc.Working? && pc.next < |pc.plan.lines| && Lining(db.stock, pc).Done?
    ensures Step(cat, boCode, db, r) == (db, Lining(db.stock, pc).reply)
  {
    ProgressGoesOn(db.stock, pc);
    FailedPrefixFails(db.stock, pc.plan.lines, pc.next + 1, pc.plan.mode);
    StockRefusal(cat, boCode, db, seqNo, r, pc.plan, pc.next, pc.mine);
  }

  /** The request's answer at this step is a refusal. */
  ghost predicate Refuses(a: Action, s: Sys, s': Sys, error: Error) {
    && a.t in s.txns && a.t in s'.txns && !s.txns[a.t].pc.Done? && s'.txns[a.t].pc == Done(Rejected(error))
  }

  /**
   * A refusal is the one the whole handler would give at that moment, unless a peer
   * has committed under the key since the warm read, or the insert ran into a number
   * taken since it was minted.
   */
  lemma RefusalsAreTheHandlers(cat: Catalog, boCode: string, ss: seq<Sys>, acts: seq<Action>, i: nat, error: Error)
    requires Behaviour(cat, boCode, ss, acts) && i < |acts| && Refuses(acts[i], ss[i], ss[i + 1], error)
    ensures var s := ss[i]; var r := ss[i + 1].txns[acts[i].t].req;
      || Step(cat, boCode, s.db, r) == (s.db, Rejected(error))
      || (Keyed(r) && r.key in s.db.keys)
      || (error == NumberTaken && s.txns[acts[i].t].pc.Drawn? && s.txns[acts[i].t].pc.plan.row.number in s.db.numbers)
  {
    BehaviourKeepsSafe(cat, boCode, ss, acts, i);
    var s, s', a := ss[i], ss[i + 1], acts[i];
    assert Next(cat, boCode, s, a, s');
    var x := s.txns[a.t];
    var r := s'.txns[a.t].req;
    assert TxnOk(cat, boCode, s.db, s.seqNo, x);
    if !(Keyed(r) && r.key in s.db.keys) {
      match a
      case LockSale(t) => GateRefusal(cat, boCode, s.db, r);
      case Draw(t) => DrawRefusal(cat, boCode, s.db, s.seqNo, x, r);
      case Line(t) => LineRefusal(cat, boCode, s.db, s.seqNo, x.req, x.pc);
      case _ =>
    }
  }

  lemma DrawRefusal(cat: Catalog, boCode: string, db: Db, seqNo: nat, x: Txn, r: ValidRequest)
    requires TxnOk(cat, boCode, db, seqNo, x) && r == WithId(x.req, seqNo) && (Keyed(r) ==> r.key !in db.keys)
    requires if x.req.RefundReq? then x.pc.SaleLocked? else x.pc == Cleared
    ensures var pc := Drawing(cat, boCode, db, r, x.pc); pc.Done? ==> Step(cat, boCode, db, r) == (db, pc.reply)
  {
    if r.CheckoutReq? { PlanRefusal(cat, boCode, db, r); }
  }
}
