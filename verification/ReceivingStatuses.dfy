// Order statuses under racing cancels. The status a cancel writes was worked out from
// order lines it read without a lock, so another write to the order in between can leave
// a status behind that no longer says what the lines say.

module ReceivingStatuses {
  import opened Wrappers
  import opened Receiving
  import opened ReceivingLedger
  import opened ReceivingRaces

  // ---------- The lines of one order ----------

  /** The lines of order `p` after one reversal. */
  function Less(lines: map<nat, Line>, p: nat, r: Receipt): map<nat, Line> {
    if r.po == Some(p) && r.item in lines then
      var received := Clamp(lines[r.item].received - r.qty);
      lines[r.item := lines[r.item].(received := received, status := LineStatusOf(received, lines[r.item].ordered))]
    else lines
  }

  function LessAll(lines: map<nat, Line>, p: nat, seen: seq<Read>): map<nat, Line> {
    if seen == [] then lines else Less(LessAll(lines, p, seen[..|seen| - 1]), p, seen[|seen| - 1].r)
  }

  lemma {:induction false} ReverseSeenOrder(db: Db, seen: seq<Read>, p: nat)
    requires p in db.pos
    ensures ReverseSeen(db, seen).pos.Keys == db.pos.Keys
    ensures ReverseSeen(db, seen).pos[p] == db.pos[p].(lines := LessAll(db.pos[p].lines, p, seen))
  {
    if seen != [] { ReverseSeenOrder(db, seen[..|seen| - 1], p); }
  }

  lemma {:induction false} UnconcernedLines(lines: map<nat, Line>, p: nat, seen: seq<Read>)
    requires forall i :: 0 <= i < |seen| ==> seen[i].r.po != Some(p)
    ensures LessAll(lines, p, seen) == lines
  {
    if seen != [] { UnconcernedLines(lines, p, seen[..|seen| - 1]); }
  }

  /** The order after a commit. */
  lemma FinishedOrder(db: Db, x: Txn, p: nat)
    requires x.status.Some? && p in db.pos
    ensures Finished(db, x).pos.Keys == db.pos.Keys
    ensures Finished(db, x).pos[p] == db.pos[p].(
      lines := LessAll(db.pos[p].lines, p, x.seen),
      status := if p in x.status.value then x.status.value[p] else db.pos[p].status)
  {
    ReverseSeenOrder(db, x.seen, p);
  }

  /** The status recorded for order `p` is still what its lines will say after the commit. */
  ghost predicate Current(db: Db, x: Txn, p: nat) {
    && x.status.Some? && p in x.status.value && p in db.pos
    && x.status.value[p] == PoStatusOf(LessAll(db.pos[p].lines, p, x.seen))
  }

  lemma SettledIsCurrent(db: Db, x: Txn, p: nat)
    requires p in db.pos && Concerns(x, p)
    ensures Current(db, x.(status := Some(Statuses(db, x))), p)
  {
    ReverseSeenOrder(db, x.seen, p);
  }

  /** A commit leaves the order settled exactly when the status it recorded is current. */
  lemma CommitSettlesExactly(db: Db, x: Txn, p: nat)
    requires x.status.Some? && p in x.status.value && p in db.pos
    ensures Settled(Finished(db, x), p) <==> Current(db, x, p)
  {
    FinishedOrder(db, x, p);
  }

  // ---------- Lines keep to their rule, whatever races ----------

  predicate LineTold(line: Line) {
    line.ordered > 0 && line.received >= 0 && line.status == LineStatusOf(line.received, line.ordered)
  }

  ghost predicate LinesTold(db: Db) {
    forall p, item :: p in db.pos && item in db.pos[p].lines ==> LineTold(db.pos[p].lines[item])
  }

  lemma ConsistentIsTold(db: Db)
    requires Consistent(db)
    ensures LinesTold(db)
  {
    forall p, item | p in db.pos && item in db.pos[p].lines ensures LineTold(db.pos[p].lines[item]) {
      assert LineOk(db.receipts, p, item, db.pos[p].lines[item]);
      LineNotNegative(db, p, item);
    }
  }

  lemma {:induction false} ReversalsKeepTold(lines: map<nat, Line>, p: nat, seen: seq<Read>)
    requires forall i :: i in lines ==> LineTold(lines[i])
    ensures forall i :: i in LessAll(lines, p, seen) ==> LineTold(LessAll(lines, p, seen)[i])
  {
    if seen != [] { ReversalsKeepTold(lines, p, seen[..|seen| - 1]); }
  }

  lemma CommitKeepsTold(db: Db, x: Txn)
    requires LinesTold(db) && x.status.Some?
    ensures LinesTold(Finished(db, x))
  {
    var db' := Finished(db, x);
    forall p, item | p in db'.pos && item in db'.pos[p].lines ensures LineTold(db'.pos[p].lines[item]) {
      FinishedKeys(db, x);
      FinishedOrder(db, x, p);
      ReversalsKeepTold(db.pos[p].lines, p, x.seen);
    }
  }

  lemma FinishedKeys(db: Db, x: Txn)
    requires x.status.Some?
    ensures Finished(db, x).pos.Keys == db.pos.Keys
  {
    ReverseSeenKeys(db, x.seen);
  }

  lemma {:induction false} ReverseSeenKeys(db: Db, seen: seq<Read>)
    ensures ReverseSeen(db, seen).pos.Keys == db.pos.Keys
  {
    if seen != [] { ReverseSeenKeys(db, seen[..|seen| - 1]); }
  }

  lemma {:induction false} ReceiveAllKeepsTold(db: Db, po: nat, entries: seq<Entry>, allowOver: bool)
    requires LinesTold(db) && po in db.pos && ReceiveAll(db, po, entries, allowOver).Ok?
    requires forall i :: 0 <= i < |entries| ==> entries[i].qty > 0
    ensures var db' := ReceiveAll(db, po, entries, allowOver).value;
      && LinesTold(db') && db'.pos.Keys == db.pos.Keys && (forall p :: p in db.pos && p != po ==> db'.pos[p] == db.pos[p])
      && (entries != [] ==> exists item :: item in db'.pos[po].lines && db'.pos[po].lines[item].received > 0)
  {
    if entries != [] {
      var n := |entries| - 1;
      ReceiveAllKeepsTold(db, po, entries[..n], allowOver);
      ReceiveOneKeepsTold(ReceiveAll(db, po, entries[..n], allowOver).value, po, entries[n], allowOver);
    }
  }

  lemma ReceiveOneKeepsTold(db: Db, po: nat, e: Entry, allowOver: bool)
    requires LinesTold(db) && po in db.pos && ReceiveOne(db, po, e, allowOver).Ok? && e.qty > 0
    ensures var db' := ReceiveOne(db, po, e, allowOver).value;
      && LinesTold(db') && db'.pos.Keys == db.pos.Keys && (forall p :: p in db.pos && p != po ==> db'.pos[p] == db.pos[p])
      && e.item in db'.pos[po].lines && db'.pos[po].lines[e.item].received > 0
  {
    assert LineTold(db.pos[po].lines[e.item]);
  }

  /** A receive settles its own order and leaves every other alone. */
  lemma ReceiveSettles(db: Db, scope: Scope, po: nat, entries: seq<Entry>, allowOver: bool)
    requires LinesTold(db) && ValidEntries(entries) && Receive(db, scope, po, entries, allowOver).Ok?
    ensures var db' := Receive(db, scope, po, entries, allowOver).value;
      LinesTold(db') && Settled(db', po) && db'.pos.Keys == db.pos.Keys && forall p :: p in db.pos && p != po ==> db'.pos[p] == db.pos[p]
  {
    ReceiveAllKeepsTold(db, po, entries, allowOver);
    var lines := ReceiveAll(db, po, entries, allowOver).value.pos[po].lines;
    forall i | i in lines ensures lines[i].status == LineReceived <==> lines[i].received >= lines[i].ordered {
      assert LineTold(lines[i]);
    }
  }

  // ---------- Runs ----------

  /** A cancel records a status for exactly the orders it concerns. */
  ghost predicate Recorded(db: Db, x: Txn) {
    x.status.Some? ==> forall p :: p in x.status.value <==> p in db.pos && Concerns(x, p)
  }

  ghost predicate ToldInv(w: World) {
    LinesTold(w.db) && forall t :: t in w.txns ==> Recorded(w.db, w.txns[t])
  }

  lemma BookKeepsTold(db: Db, scope: Scope, po: nat, entries: seq<Entry>, allowOver: bool)
    requires LinesTold(db) && ValidEntries(entries)
    ensures var db' := Step(db, DoReceive(scope, po, entries, allowOver));
      && LinesTold(db') && db'.pos.Keys == db.pos.Keys && (Settled(db, po) ==> Settled(db', po))
      && forall p :: p in db.pos && p != po ==> db'.pos[p] == db.pos[p]
  {
    if Receive(db, scope, po, entries, allowOver).Ok? { ReceiveSettles(db, scope, po, entries, allowOver); }
  }

  lemma NextKeepsLinesTold(w: World, a: Action, w': World)
    requires LinesTold(w.db) && Next(w, a, w')
    ensures LinesTold(w'.db) && w'.db.pos.Keys == w.db.pos.Keys
  {
    match a
    case Commit(t) =>
      CommitKeepsTold(w.db, w.txns[t]);
      FinishedKeys(w.db, w.txns[t]);
    case Book(scope, po, entries, allowOver) => BookKeepsTold(w.db, scope, po, entries, allowOver);
    case _ =>
  }

  lemma StatusesRecorded(db: Db, x: Txn)
    ensures Recorded(db, x.(status := Some(Statuses(db, x))))
  {
    ReverseSeenKeys(db, x.seen);
  }

  lemma NextKeepsTold(w: World, a: Action, w': World)
    requires ToldInv(w) && Next(w, a, w')
    ensures ToldInv(w')
  {
    NextKeepsLinesTold(w, a, w');
    forall t | t in w'.txns ensures Recorded(w'.db, w'.txns[t]) {
      if t in w.txns { assert Recorded(w.db, w.txns[t]); }
      if a.Settle? && a.t == t { StatusesRecorded(w.db, w.txns[t]); }
    }
  }

  /** At step `j` another cancel commits, or a receive runs, on order `p` while `t` is past its status read. */
  ghost predicate Overtakes(ws: seq<World>, acts: seq<Action>, j: nat, t: nat, p: nat) {
    && j < |acts| && j < |ws| && t in ws[j].txns && HoldsRows(ws[j].txns[t]) && Concerns(ws[j].txns[t], p)
    && match acts[j]
       case Commit(u) => u != t && u in ws[j].txns && Concerns(ws[j].txns[u], p)
       case Book(_, po, _, _) => po == p
       case _ => false
  }

  /** The order is settled, and so will be every commit that is under way. */
  ghost predicate SettledInv(w: World, p: nat) {
    && ToldInv(w) && Settled(w.db, p)
    && forall t :: t in w.txns && HoldsRows(w.txns[t]) && Concerns(w.txns[t], p) ==> Current(w.db, w.txns[t], p)
  }

  /** A step that overtakes no one. */
  ghost predicate Undisturbing(w: World, a: Action, p: nat) {
    forall t :: t in w.txns && HoldsRows(w.txns[t]) && Concerns(w.txns[t], p) ==>
      match a
      case Commit(u) => u != t && u in w.txns ==> !Concerns(w.txns[u], p)
      case Book(_, po, _, _) => po != p
      case _ => true
  }

  lemma CommitElsewhere(db: Db, x: Txn, p: nat)
    requires x.status.Some? && p in db.pos && Recorded(db, x) && !Concerns(x, p)
    ensures p in Finished(db, x).pos && Finished(db, x).pos[p] == db.pos[p]
  {
    FinishedOrder(db, x, p);
    UnconcernedLines(db.pos[p].lines, p, x.seen);
  }

  lemma NextKeepsOrderSettled(w: World, a: Action, w': World, p: nat)
    requires SettledInv(w, p) && Next(w, a, w')
    ensures Settled(w'.db, p)
  {
    match a
    case Commit(t) =>
      assert Recorded(w.db, w.txns[t]);
      if Concerns(w.txns[t], p) {
        CommitSettlesExactly(w.db, w.txns[t], p);
      } else {
        CommitElsewhere(w.db, w.txns[t], p);
      }
    case Book(scope, po, entries, allowOver) => BookKeepsTold(w.db, scope, po, entries, allowOver);
    case _ =>
  }

  lemma NextKeepsCurrent(w: World, a: Action, w': World, p: nat, t: nat)
    requires SettledInv(w, p) && Next(w, a, w') && Undisturbing(w, a, p)
    requires t in w'.txns && HoldsRows(w'.txns[t]) && Concerns(w'.txns[t], p)
    ensures Current(w'.db, w'.txns[t], p)
  {
    match a
    case Settle(u) => if u == t { SettledIsCurrent(w.db, w.txns[t], p); }
    case Commit(u) =>
      assert Recorded(w.db, w.txns[u]);
      CommitElsewhere(w.db, w.txns[u], p);
    case Book(scope, po, entries, allowOver) => BookKeepsTold(w.db, scope, po, entries, allowOver);
    case _ =>
  }

  lemma NextKeepsSettled(w: World, a: Action, w': World, p: nat)
    requires SettledInv(w, p) && Next(w, a, w') && Undisturbing(w, a, p)
    ensures SettledInv(w', p)
  {
    NextKeepsTold(w, a, w');
    NextKeepsOrderSettled(w, a, w', p);
    forall t | t in w'.txns && HoldsRows(w'.txns[t]) && Concerns(w'.txns[t], p) ensures Current(w'.db, w'.txns[t], p) {
      NextKeepsCurrent(w, a, w', p, t);
    }
  }

  lemma NotOvertaken(ws: seq<World>, acts: seq<Action>, j: nat, p: nat)
    requires j < |acts| && j < |ws| && forall t :: !Overtakes(ws, acts, j, t, p)
    ensures Undisturbing(ws[j], acts[j], p)
  {
    forall t | t in ws[j].txns && HoldsRows(ws[j].txns[t]) && Concerns(ws[j].txns[t], p)
      ensures match acts[j]
        case Commit(u) => u != t && u in ws[j].txns ==> !Concerns(ws[j].txns[u], p)
        case Book(_, po, _, _) => po != p
        case _ => true
    {
      assert !Overtakes(ws, acts, j, t, p);
    }
  }

  /**
   * In every interleaving, also one in which cancels race for receipts, a settled order
   * stays settled as long as nothing else writes to it between a cancel's status read and
   * its commit.
   */
  lemma {:induction false} StatusesStayRight(ws: seq<World>, acts: seq<Action>, n: nat, p: nat)
    requires Behaviour(ws, acts) && n < |ws| && Settled(ws[0].db, p)
    requires forall j: nat, t: nat :: j < n ==> !Overtakes(ws, acts, j, t, p)
    ensures SettledInv(ws[n], p)
  {
    if n > 0 {
      StatusesStayRight(ws, acts, n - 1, p);
      NotOvertaken(ws, acts, n - 1, p);
      NextKeepsSettled(ws[n - 1], acts[n - 1], ws[n], p);
    } else {
      ConsistentIsTold(ws[0].db);
    }
  }

  // ---------- Two cancels of one order ----------

  /** The lines of the order after the reversals that have committed. */
  function LinesAfter(lines: map<nat, Line>, po: nat, ra: Receipt, rb: Receipt, a: bool, b: bool): map<nat, Line> {
    var first := if a then Less(lines, po, ra) else lines;
    if b then Less(first, po, rb) else first
  }

  /** Reversals commute, on one line and on two. */
  lemma LessCommutes(lines: map<nat, Line>, po: nat, r: Receipt, q: Receipt)
    ensures Less(Less(lines, po, r), po, q) == Less(Less(lines, po, q), po, r)
  {
  }

  /**
   * Both receipts are of one line, so that the second cancel waits for the first; or the
   * order has the same status with either or both reversed.
   */
  ghost predicate NoneMisled(lines: map<nat, Line>, po: nat, ra: Receipt, rb: Receipt) {
    || ra.item == rb.item
    || PoStatusOf(LinesAfter(lines, po, ra, rb, true, false)) == PoStatusOf(LinesAfter(lines, po, ra, rb, true, true))
         == PoStatusOf(LinesAfter(lines, po, ra, rb, false, true))
  }

  /** A cancel of one receipt, at any point of its life. */
  ghost predicate OneCancel(x: Txn, po: nat, id: nat, r: Receipt) {
    && x.scope == Admin && x.po == po && x.ids == [id] && x.next <= 1
    && x.seen == (if x.next == 1 then [Read(id, r)] else [])
    && (x.status.Some? ==> x.next == 1) && (x.done ==> x.status.Some?)
  }

  ghost predicate Done(w: World, t: nat) {
    t in w.txns && w.txns[t].done
  }

  ghost predicate Holds(w: World, t: nat) {
    t in w.txns && HoldsRows(w.txns[t])
  }

  ghost predicate PairTxns(db: Db, po: nat, a: nat, b: nat, w: World)
    requires a in db.receipts && b in db.receipts
  {
    && (forall t :: t in w.txns ==> t == 0 || t == 1)
    && (0 in w.txns ==> OneCancel(w.txns[0], po, a, db.receipts[a]))
    && (1 in w.txns ==> OneCancel(w.txns[1], po, b, db.receipts[b]))
    && (db.receipts[a].item == db.receipts[b].item ==> !(Holds(w, 0) && Holds(w, 1)))
  }

  ghost predicate PairReceipts(db: Db, a: nat, b: nat, w: World)
    requires a in db.receipts && b in db.receipts
  {
    && (!Done(w, 0) ==> a in w.db.receipts && w.db.receipts[a] == db.receipts[a])
    && (!Done(w, 1) ==> b in w.db.receipts && w.db.receipts[b] == db.receipts[b])
  }

  ghost predicate PairOrder(db: Db, po: nat, a: nat, b: nat, w: World)
    requires a in db.receipts && b in db.receipts && po in db.pos
  {
    && Settled(w.db, po)
    && w.db.pos[po].lines == LinesAfter(db.pos[po].lines, po, db.receipts[a], db.receipts[b], Done(w, 0), Done(w, 1))
    && (Holds(w, 0) ==> Current(w.db, w.txns[0], po))
    && (Holds(w, 1) ==> Current(w.db, w.txns[1], po))
  }

  lemma OneSeenLines(lines: map<nat, Line>, po: nat, x: Txn, id: nat, r: Receipt)
    requires OneCancel(x, po, id, r) && x.next == 1
    ensures LessAll(lines, po, x.seen) == Less(lines, po, r)
  {
    assert x.seen[..0] == [];
    assert LessAll(lines, po, []) == lines;
  }

  lemma LookKeepsOne(db: Db, x: Txn, po: nat, id: nat, r: Receipt)
    requires OneCancel(x, po, id, r) && x.status.None? && x.next < |x.ids| && id in db.receipts && db.receipts[id] == r
    ensures OneCancel(Looked(db, x), po, id, r)
  {
  }

  lemma FirstStaysOne(db: Db, po: nat, a: nat, b: nat, w: World, act: Action, w': World)
    requires a in db.receipts && b in db.receipts && 0 in w'.txns
    requires PairTxns(db, po, a, b, w) && PairReceipts(db, a, b, w) && Next(w, act, w') && act in PairActions(po, a, b)
    ensures OneCancel(w'.txns[0], po, a, db.receipts[a])
  {
    if act == Look(0) { LookKeepsOne(w.db, w.txns[0], po, a, db.receipts[a]); }
  }

  lemma SecondStaysOne(db: Db, po: nat, a: nat, b: nat, w: World, act: Action, w': World)
    requires a in db.receipts && b in db.receipts && 1 in w'.txns
    requires PairTxns(db, po, a, b, w) && PairReceipts(db, a, b, w) && Next(w, act, w') && act in PairActions(po, a, b)
    ensures OneCancel(w'.txns[1], po, b, db.receipts[b])
  {
    if act == Look(1) { LookKeepsOne(w.db, w.txns[1], po, b, db.receipts[b]); }
  }

  lemma PairKeepsTxns(db: Db, po: nat, a: nat, b: nat, w: World, act: Action, w': World)
    requires a in db.receipts && b in db.receipts && db.receipts[a].po == db.receipts[b].po == Some(po)
    requires PairTxns(db, po, a, b, w) && PairReceipts(db, a, b, w) && Next(w, act, w') && act in PairActions(po, a, b)
    ensures PairTxns(db, po, a, b, w')
  {
    if 0 in w'.txns { FirstStaysOne(db, po, a, b, w, act, w'); }
    if 1 in w'.txns { SecondStaysOne(db, po, a, b, w, act, w'); }
    if act.Settle? && db.receipts[a].item == db.receipts[b].item { SettleWaits(db, po, a, b, w, act, w', act.t); }
  }

  lemma SettleWaits(db: Db, po: nat, a: nat, b: nat, w: World, act: Action, w': World, t: nat)
    requires a in db.receipts && b in db.receipts && db.receipts[a].po == db.receipts[b].po == Some(po)
    requires db.receipts[a].item == db.receipts[b].item
    requires PairTxns(db, po, a, b, w) && Next(w, act, w') && act == Settle(t)
    ensures !(Holds(w', 0) && Holds(w', 1))
  {
    var u := 1 - t;
    if Holds(w, u) {
      assert SharesRow(w.txns[t].seen[0].r, w.txns[u].seen[0].r);
    }
  }

  lemma OthersStay(db: Db, x: Txn, id: nat)
    requires x.status.Some? && id in db.receipts && !HasRead(x.seen, id)
    ensures id in Finished(db, x).receipts && Finished(db, x).receipts[id] == db.receipts[id]
  {
    ReverseSeenReceipts(db, x.seen);
  }

  lemma PairKeepsReceipts(db: Db, po: nat, a: nat, b: nat, w: World, act: Action, w': World)
    requires a in db.receipts && b in db.receipts && a != b
    requires PairTxns(db, po, a, b, w) && PairReceipts(db, a, b, w) && Next(w, act, w') && act in PairActions(po, a, b)
    ensures PairReceipts(db, a, b, w')
  {
    if act == Commit(0) {
      if !Done(w, 1) { OthersStay(w.db, w.txns[0], b); }
    } else if act == Commit(1) {
      if !Done(w, 0) { OthersStay(w.db, w.txns[1], a); }
    }
  }

  ghost predicate PairInv(db: Db, po: nat, a: nat, b: nat, w: World)
    requires a in db.receipts && b in db.receipts && po in db.pos
  {
    PairTxns(db, po, a, b, w) && PairReceipts(db, a, b, w) && PairOrder(db, po, a, b, w)
  }

  lemma FirstCommitKeepsOrder(db: Db, po: nat, a: nat, b: nat, w: World, w': World)
    requires a in db.receipts && b in db.receipts && po in db.pos
    requires PairInv(db, po, a, b, w) && Next(w, Commit(0), w')
    requires NoneMisled(db.pos[po].lines, po, db.receipts[a], db.receipts[b])
    ensures PairOrder(db, po, a, b, w')
  {
    var x, lines := w.txns[0], db.pos[po].lines;
    FinishedOrder(w.db, x, po);
    OneSeenLines(w.db.pos[po].lines, po, x, a, db.receipts[a]);
    LessCommutes(lines, po, db.receipts[a], db.receipts[b]);
    if Holds(w, 1) {
      OneSeenLines(w.db.pos[po].lines, po, w.txns[1], b, db.receipts[b]);
      OneSeenLines(w'.db.pos[po].lines, po, w.txns[1], b, db.receipts[b]);
    }
  }

  lemma SecondCommitKeepsOrder(db: Db, po: nat, a: nat, b: nat, w: World, w': World)
    requires a in db.receipts && b in db.receipts && po in db.pos
    requires PairInv(db, po, a, b, w) && Next(w, Commit(1), w')
    requires NoneMisled(db.pos[po].lines, po, db.receipts[a], db.receipts[b])
    ensures PairOrder(db, po, a, b, w')
  {
    var y, lines := w.txns[1], db.pos[po].lines;
    FinishedOrder(w.db, y, po);
    OneSeenLines(w.db.pos[po].lines, po, y, b, db.receipts[b]);
    LessCommutes(lines, po, db.receipts[a], db.receipts[b]);
    if Holds(w, 0) {
      OneSeenLines(w.db.pos[po].lines, po, w.txns[0], a, db.receipts[a]);
      OneSeenLines(w'.db.pos[po].lines, po, w.txns[0], a, db.receipts[a]);
    }
  }

  lemma SettleKeepsOrder(db: Db, po: nat, a: nat, b: nat, w: World, t: nat, w': World)
    requires a in db.receipts && b in db.receipts && po in db.pos && (t == 0 || t == 1)
    requires PairInv(db, po, a, b, w) && Next(w, Settle(t), w')
    ensures PairOrder(db, po, a, b, w')
  {
    SettledIsCurrent(w.db, w.txns[t], po);
  }

  lemma BeginOrLookKeepsOrder(db: Db, po: nat, a: nat, b: nat, w: World, act: Action, w': World)
    requires a in db.receipts && b in db.receipts && po in db.pos
    requires PairInv(db, po, a, b, w) && Next(w, act, w') && (act.Begin? || act.Look?)
    ensures PairOrder(db, po, a, b, w')
  {
    assert w'.db == w.db && Done(w', 0) == Done(w, 0) && Done(w', 1) == Done(w, 1);
  }

  lemma PairKeepsOrder(db: Db, po: nat, a: nat, b: nat, w: World, act: Action, w': World)
    requires a in db.receipts && b in db.receipts && po in db.pos
    requires PairInv(db, po, a, b, w) && Next(w, act, w') && act in PairActions(po, a, b)
    requires NoneMisled(db.pos[po].lines, po, db.receipts[a], db.receipts[b])
    ensures PairOrder(db, po, a, b, w')
  {
    if act == Commit(0) {
      FirstCommitKeepsOrder(db, po, a, b, w, w');
    } else if act == Commit(1) {
      SecondCommitKeepsOrder(db, po, a, b, w, w');
    } else if act.Settle? {
      SettleKeepsOrder(db, po, a, b, w, act.t, w');
    } else {
      BeginOrLookKeepsOrder(db, po, a, b, w, act, w');
    }
  }

  lemma PairStep(db: Db, po: nat, a: nat, b: nat, w: World, act: Action, w': World)
    requires a in db.receipts && b in db.receipts && po in db.pos && a != b && db.receipts[a].po == db.receipts[b].po == Some(po)
    requires PairInv(db, po, a, b, w) && Next(w, act, w') && act in PairActions(po, a, b)
    requires NoneMisled(db.pos[po].lines, po, db.receipts[a], db.receipts[b])
    ensures PairInv(db, po, a, b, w')
  {
    PairKeepsTxns(db, po, a, b, w, act, w');
    PairKeepsReceipts(db, po, a, b, w, act, w');
    PairKeepsOrder(db, po, a, b, w, act, w');
  }

  ghost predicate PairRun(ws: seq<World>, acts: seq<Action>, db: Db, po: nat, a: nat, b: nat) {
    Behaviour(ws, acts) && ws[0].db == db && forall i :: 0 <= i < |acts| ==> acts[i] in PairActions(po, a, b)
  }

  ghost predicate StaysSettled(ws: seq<World>, po: nat) {
    forall n :: 0 <= n < |ws| ==> Settled(ws[n].db, po)
  }

  lemma {:induction false} PairInvSpreads(ws: seq<World>, db: Db, po: nat, a: nat, b: nat, n: nat)
    requires a in db.receipts && b in db.receipts && po in db.pos && n < |ws| && PairInv(db, po, a, b, ws[0])
    requires forall i :: 0 <= i < |ws| - 1 && PairInv(db, po, a, b, ws[i]) ==> PairInv(db, po, a, b, ws[i + 1])
    ensures PairInv(db, po, a, b, ws[n])
  {
    if n > 0 { PairInvSpreads(ws, db, po, a, b, n - 1); }
  }

  lemma PairMoves(ws: seq<World>, acts: seq<Action>, db: Db, po: nat, a: nat, b: nat, i: nat)
    requires a in db.receipts && b in db.receipts && po in db.pos && a != b && db.receipts[a].po == db.receipts[b].po == Some(po)
    requires NoneMisled(db.pos[po].lines, po, db.receipts[a], db.receipts[b])
    requires PairRun(ws, acts, db, po, a, b) && i < |acts| && PairInv(db, po, a, b, ws[i])
    ensures PairInv(db, po, a, b, ws[i + 1])
  {
    PairStep(db, po, a, b, ws[i], acts[i], ws[i + 1]);
  }

  lemma PairStarts(db: Db, po: nat, a: nat, b: nat, w: World)
    requires a in db.receipts && b in db.receipts && Settled(db, po) && w == World(db, map[])
    ensures PairInv(db, po, a, b, w)
  {
  }

  lemma UnmisledStaysSettled(ws: seq<World>, acts: seq<Action>, db: Db, po: nat, a: nat, b: nat)
    requires a in db.receipts && b in db.receipts && Settled(db, po) && a != b && db.receipts[a].po == db.receipts[b].po == Some(po)
    requires NoneMisled(db.pos[po].lines, po, db.receipts[a], db.receipts[b]) && PairRun(ws, acts, db, po, a, b)
    ensures StaysSettled(ws, po)
  {
    PairStarts(db, po, a, b, ws[0]);
    forall i | 0 <= i < |ws| - 1 && PairInv(db, po, a, b, ws[i]) ensures PairInv(db, po, a, b, ws[i + 1]) {
      PairMoves(ws, acts, db, po, a, b, i);
    }
    forall n | 0 <= n < |ws| ensures Settled(ws[n].db, po) {
      PairInvSpreads(ws, db, po, a, b, n);
    }
  }

  /** Both cancels read the order's status before either commits. */
  lemma BothSettle(db: Db, po: nat, a: nat, b: nat)
    requires Consistent(db) && a in db.receipts && b in db.receipts && db.receipts[a].po == db.receipts[b].po == Some(po)
    requires db.receipts[a].item != db.receipts[b].item
    ensures Reaches(db, PairActions(po, a, b),
      Two(db, SettledAt(db, po, a, db.receipts[a]), SettledAt(db, po, b, db.receipts[b])))
  {
    var x, y := Ready(po, a, db.receipts[a]), Ready(po, b, db.receipts[b]);
    PairReads(db, po, a, b);
    FirstSettles(db, db, PairActions(po, a, b), x, y);
    SecondSettles(db, db, PairActions(po, a, b), SettledAt(db, po, a, db.receipts[a]), y);
  }

  /** The order once both have committed, `a` last: the lines of both, the status of `a` alone. */
  lemma LastWriterMisleads(db: Db, po: nat, a: nat, ra: Receipt, mid: Db, lines: map<nat, Line>)
    requires po in db.pos && po in mid.pos && mid.pos[po].lines == lines
    ensures var end := Finished(mid, SettledAt(db, po, a, ra));
      && po in end.pos && end.pos[po].lines == Less(lines, po, ra)
      && end.pos[po].status == PoStatusOf(Less(db.pos[po].lines, po, ra))
  {
    var x := SettledAt(db, po, a, ra);
    OneSeenLines(lines, po, x, a, ra);
    OneSeenLines(db.pos[po].lines, po, x, a, ra);
    SettledIsCurrent(db, Ready(po, a, ra), po);
    FinishedOrder(mid, x, po);
  }

  lemma FirstLastEnd(db: Db, po: nat, a: nat, b: nat) returns (end: World)
    requires Consistent(db) && a in db.receipts && b in db.receipts && db.receipts[a].po == db.receipts[b].po == Some(po)
    requires db.receipts[a].item != db.receipts[b].item && po in db.pos
    ensures Reaches(db, PairActions(po, a, b), end) && Done(end, 0) && Done(end, 1) && po in end.db.pos
    ensures end.db.pos[po].lines == LinesAfter(db.pos[po].lines, po, db.receipts[a], db.receipts[b], true, true)
    ensures end.db.pos[po].status == PoStatusOf(LinesAfter(db.pos[po].lines, po, db.receipts[a], db.receipts[b], true, false))
  {
    var x, y := SettledAt(db, po, a, db.receipts[a]), SettledAt(db, po, b, db.receipts[b]);
    BothSettle(db, po, a, b);
    SecondCommits(db, db, PairActions(po, a, b), x, y);
    var mid := Finished(db, y);
    FirstCommits(db, mid, PairActions(po, a, b), x, Over(y));
    end := Two(Finished(mid, x), Over(x), Over(y));
    LastWriterMisleads(db, po, b, db.receipts[b], db, db.pos[po].lines);
    LastWriterMisleads(db, po, a, db.receipts[a], mid, mid.pos[po].lines);
    LessCommutes(db.pos[po].lines, po, db.receipts[a], db.receipts[b]);
  }

  lemma SecondLastEnd(db: Db, po: nat, a: nat, b: nat) returns (end: World)
    requires Consistent(db) && a in db.receipts && b in db.receipts && db.receipts[a].po == db.receipts[b].po == Some(po)
    requires db.receipts[a].item != db.receipts[b].item && po in db.pos
    ensures Reaches(db, PairActions(po, a, b), end) && Done(end, 0) && Done(end, 1) && po in end.db.pos
    ensures end.db.pos[po].lines == LinesAfter(db.pos[po].lines, po, db.receipts[a], db.receipts[b], true, true)
    ensures end.db.pos[po].status == PoStatusOf(LinesAfter(db.pos[po].lines, po, db.receipts[a], db.receipts[b], false, true))
  {
    var x, y := SettledAt(db, po, a, db.receipts[a]), SettledAt(db, po, b, db.receipts[b]);
    BothSettle(db, po, a, b);
    FirstCommits(db, db, PairActions(po, a, b), x, y);
    var mid := Finished(db, x);
    SecondCommits(db, mid, PairActions(po, a, b), Over(x), y);
    end := Two(Finished(mid, y), Over(x), Over(y));
    LastWriterMisleads(db, po, a, db.receipts[a], db, db.pos[po].lines);
    LastWriterMisleads(db, po, b, db.receipts[b], mid, mid.pos[po].lines);
  }

  lemma MisledEnd(db: Db, po: nat, a: nat, b: nat) returns (ws: seq<World>, acts: seq<Action>)
    requires Consistent(db) && a in db.receipts && b in db.receipts && db.receipts[a].po == db.receipts[b].po == Some(po)
    requires po in db.pos && !NoneMisled(db.pos[po].lines, po, db.receipts[a], db.receipts[b])
    ensures PairRun(ws, acts, db, po, a, b) && !StaysSettled(ws, po)
  {
    var end: World;
    var lines, ra, rb := db.pos[po].lines, db.receipts[a], db.receipts[b];
    if PoStatusOf(LinesAfter(lines, po, ra, rb, true, false)) != PoStatusOf(LinesAfter(lines, po, ra, rb, true, true)) {
      end := FirstLastEnd(db, po, a, b);
    } else {
      end := SecondLastEnd(db, po, a, b);
    }
    ws, acts :| LeadsTo(db, PairActions(po, a, b), ws, acts, end);
    assert !Settled(ws[|ws| - 1].db, po);
  }

  /**
   * Of two cancels of one order, each of a receipt of its own, no run leaves the order's
   * status wrong exactly when the receipts are of one line or the status is the same with
   * either or both reversed.
   */
  lemma TwoCancelsSettleExactly(db: Db, po: nat, a: nat, b: nat)
    requires Consistent(db) && Settled(db, po) && a in db.receipts && b in db.receipts && a != b
    requires db.receipts[a].po == db.receipts[b].po == Some(po)
    ensures (forall ws: seq<World>, acts: seq<Action> :: PairRun(ws, acts, db, po, a, b) ==> StaysSettled(ws, po))
      <==> NoneMisled(db.pos[po].lines, po, db.receipts[a], db.receipts[b])
  {
    if NoneMisled(db.pos[po].lines, po, db.receipts[a], db.receipts[b]) {
      forall ws: seq<World>, acts: seq<Action> | PairRun(ws, acts, db, po, a, b) ensures StaysSettled(ws, po) {
        UnmisledStaysSettled(ws, acts, db, po, a, b);
      }
    } else {
      var ws, acts := MisledEnd(db, po, a, b);
    }
  }

  function Brought(item: nat, r: Receipt): nat {
    if r.item == item then r.qty else 0
  }

  /** The last two receipts of an order, on lines of their own. */
  ghost predicate LastTwo(db: Db, po: nat, a: nat, b: nat) {
    && a in db.receipts && b in db.receipts && db.receipts[a].po == db.receipts[b].po == Some(po) && po in db.pos
    && db.receipts[a].item != db.receipts[b].item && db.receipts[a].qty > 0 && db.receipts[b].qty > 0
    && forall item :: item in db.pos[po].lines ==>
         db.pos[po].lines[item].received == Brought(item, db.receipts[a]) + Brought(item, db.receipts[b])
  }

  lemma OneLeftIsPartial(db: Db, po: nat, a: nat, b: nat)
    requires Consistent(db) && LastTwo(db, po, a, b)
    ensures PoStatusOf(LinesAfter(db.pos[po].lines, po, db.receipts[a], db.receipts[b], true, false)) == Partial
  {
    var ra, rb := db.receipts[a], db.receipts[b];
    assert ReceiptOk(db, ra) && ReceiptOk(db, rb);
    var left := LinesAfter(db.pos[po].lines, po, ra, rb, true, false);
    assert left[rb.item].received > 0;
    assert LineOk(db.receipts, po, ra.item, db.pos[po].lines[ra.item]);
    assert left[ra.item].received < left[ra.item].ordered;
  }

  lemma BothGoneIsZero(lines: map<nat, Line>, po: nat, ra: Receipt, rb: Receipt)
    requires ra.po == rb.po == Some(po) && ra.item != rb.item
    requires forall item :: item in lines ==> lines[item].received == Brought(item, ra) + Brought(item, rb)
    ensures var left := LinesAfter(lines, po, ra, rb, true, true); forall item :: item in left ==> left[item].received == 0
  {
  }

  /** Cancelled side by side, they leave every line at zero and the order PARTIAL. */
  lemma EmptyOrderStaysPartial(db: Db, po: nat, a: nat, b: nat) returns (end: World)
    requires Consistent(db) && LastTwo(db, po, a, b)
    ensures Reaches(db, PairActions(po, a, b), end) && Done(end, 0) && Done(end, 1)
    ensures po in end.db.pos && end.db.pos[po].status == Partial
    ensures forall item :: item in end.db.pos[po].lines ==> end.db.pos[po].lines[item].received == 0
  {
    end := FirstLastEnd(db, po, a, b);
    OneLeftIsPartial(db, po, a, b);
    BothGoneIsZero(db.pos[po].lines, po, db.receipts[a], db.receipts[b]);
  }
}
