// GET /api/v1/events of api/routes/polling.py: one page of the event table, and a
// client that follows next_cursor from page to page.

module Polling {
  import opened Wrappers

  /** The visibility gate, in seconds. */
  const GATE: int := 2

  /**
   * One integration_events row over its whole life: `stamped` is the visible_at its
   * trigger wrote, `committed` the time its transaction committed, None if it never did.
   */
  datatype Event = Event(id: nat, warehouse: nat, kind: string, stamped: int, committed: Option<int>)

  datatype Token = Token(connector: Option<string>, warehouses: set<nat>, kinds: set<string>)

  /** Token scope, request filter and group subscription; an empty filter or subscription lets all through. */
  datatype Filter = Filter(
    token: Token, warehouse: Option<nat>, kinds: set<string>, subWarehouses: set<nat>, subKinds: set<string>)

  predicate InTokenScope(e: Event, token: Token) {
    e.warehouse in token.warehouses && e.kind in token.kinds
  }

  predicate Matches(e: Event, f: Filter) {
    && InTokenScope(e, f.token)
    && (f.warehouse.Some? ==> e.warehouse == f.warehouse.value)
    && (f.kinds != {} ==> e.kind in f.kinds)
    && (f.subWarehouses != {} ==> e.warehouse in f.subWarehouses)
    && (f.subKinds != {} ==> e.kind in f.subKinds)
  }

  /** A reader at time `now` sees the row and it is past the gate. */
  predicate Readable(e: Event, now: int) {
    e.committed.Some? && e.committed.value <= now && e.stamped <= now - GATE
  }

  /** The first moment a row is readable. */
  function ReadableAt(e: Event): int
    requires e.committed.Some?
  {
    if e.committed.value <= e.stamped + GATE then e.stamped + GATE else e.committed.value
  }

  // ---------- One page ----------

  function Select(log: seq<Event>, f: Filter, after: int, now: int): seq<Event> {
    if log == [] then []
    else if log[0].id > after && Readable(log[0], now) && Matches(log[0], f) then [log[0]] + Select(log[1..], f, after, now)
    else Select(log[1..], f, after, now)
  }

  function Page(log: seq<Event>, f: Filter, after: int, now: int, limit: nat): seq<Event> {
    var rows := Select(log, f, after, now);
    if |rows| <= limit then rows else rows[..limit]
  }

  function NextCursor(page: seq<Event>, after: int): int {
    if page == [] then after else page[|page| - 1].id
  }

  datatype Query = Query(after: int, warehouse: Option<nat>, kinds: set<string>, limit: nat)
  datatype Group = Group(connector: string, cursor: int, subWarehouses: set<nat>, subKinds: set<string>)
  datatype Reply = Ok(events: seq<Event>, cursor: int) | ScopeViolation(field: string) | GroupNotFound

  /** The whole handler; `group` is None in client-cursor mode, Some(row lookup) in consumer-group mode. */
  function Poll(log: seq<Event>, token: Token, q: Query, group: Option<Option<Group>>, now: int): Reply {
    if q.warehouse.Some? && q.warehouse.value !in token.warehouses then ScopeViolation("warehouse_id")
    else if !(q.kinds <= token.kinds) then ScopeViolation("types")
    else if group == Some(None) then GroupNotFound
    else
      var (after, subs) := if group.None? then (q.after, ({}, {}))
                           else (group.value.value.cursor, (group.value.value.subWarehouses, group.value.value.subKinds));
      var page := Page(log, Filter(token, q.warehouse, q.kinds, subs.0, subs.1), after, now, q.limit);
      Ok(page, NextCursor(page, after))
  }

  // ---------- A client following next_cursor ----------

  /** One poll: when, and with which limit. */
  datatype Visit = Visit(now: int, limit: nat)

  ghost predicate ValidVisits(visits: seq<Visit>) {
    forall i :: 0 <= i < |visits| ==> 1 <= visits[i].limit
  }

  /** All events received so far, and the cursor. */
  function Follow(log: seq<Event>, f: Filter, start: int, visits: seq<Visit>): (seq<Event>, int) {
    if visits == [] then ([], start)
    else
      var n := |visits| - 1;
      var (got, cursor) := Follow(log, f, start, visits[..n]);
      var page := Page(log, f, cursor, visits[n].now, visits[n].limit);
      (got + page, NextCursor(page, cursor))
  }

  /** Every event the client should have: committed ones in scope with start < id <= cursor, in table order. */
  function Expected(log: seq<Event>, f: Filter, start: int, cursor: int): seq<Event> {
    if log == [] then []
    else if start < log[0].id <= cursor && log[0].committed.Some? && Matches(log[0], f) then
      [log[0]] + Expected(log[1..], f, start, cursor)
    else Expected(log[1..], f, start, cursor)
  }

  /** The primary key: the table in event_id order. */
  ghost predicate ById(log: seq<Event>) {
    forall i, j :: 0 <= i < j < |log| ==> log[i].id < log[j].id
  }

  /** Events become readable in id order. */
  ghost predicate InOrder(log: seq<Event>, f: Filter) {
    forall i, j :: 0 <= i < j < |log| && Counts(log[i], f) && Counts(log[j], f) ==> ReadableAt(log[i]) <= ReadableAt(log[j])
  }

  predicate Counts(e: Event, f: Filter) {
    e.committed.Some? && Matches(e, f)
  }

  ghost predicate MissesNothing(log: seq<Event>, f: Filter, start: int, visits: seq<Visit>) {
    Follow(log, f, start, visits).0 == Expected(log, f, start, Follow(log, f, start, visits).1)
  }

  // ---------- Lemmas on selections ----------

  lemma {:induction false} InSelect(log: seq<Event>, f: Filter, after: int, now: int, e: Event)
    ensures e in Select(log, f, after, now) <==> e in log && e.id > after && Readable(e, now) && Matches(e, f)
  {
    if log != [] {
      InSelect(log[1..], f, after, now, e);
      assert e in log <==> e == log[0] || e in log[1..];
    }
  }

  lemma {:induction false} InExpected(log: seq<Event>, f: Filter, start: int, cursor: int, e: Event)
    ensures e in Expected(log, f, start, cursor) <==> e in log && start < e.id <= cursor && Counts(e, f)
  {
    if log != [] {
      InExpected(log[1..], f, start, cursor, e);
      assert e in log <==> e == log[0] || e in log[1..];
    }
  }

  lemma {:induction false} SelectById(log: seq<Event>, f: Filter, after: int, now: int)
    requires ById(log)
    ensures ById(Select(log, f, after, now))
  {
    if log != [] {
      SelectById(log[1..], f, after, now);
      forall e | e in Select(log[1..], f, after, now) ensures log[0].id < e.id {
        InSelect(log[1..], f, after, now, e);
      }
    }
  }

  lemma {:induction false} ExpectedById(log: seq<Event>, f: Filter, start: int, cursor: int)
    requires ById(log)
    ensures ById(Expected(log, f, start, cursor)) && |Expected(log, f, start, cursor)| <= |log|
  {
    if log != [] {
      ExpectedById(log[1..], f, start, cursor);
      forall e | e in Expected(log[1..], f, start, cursor) ensures log[0].id < e.id {
        InExpected(log[1..], f, start, cursor, e);
      }
    }
  }

  lemma {:induction false} ExpectedSplits(log: seq<Event>, f: Filter, a: int, b: int, c: int)
    requires ById(log) && a <= b <= c
    ensures Expected(log, f, a, c) == Expected(log, f, a, b) + Expected(log, f, b, c)
  {
    if log != [] {
      ExpectedSplits(log[1..], f, a, b, c);
      if b < log[0].id {
        var early := Expected(log[1..], f, a, b);
        if early != [] { InExpected(log[1..], f, a, b, early[0]); }
      }
    }
  }

  /** Two lists in id order with the same members are the same list. */
  lemma {:induction false} SameMembers(xs: seq<Event>, ys: seq<Event>)
    requires ById(xs) && ById(ys) && forall e :: e in xs <==> e in ys
    ensures xs == ys
  {
    assert ys != [] ==> ys[0] in ys;
    if xs != [] {
      assert xs[0] in ys && ys[0] in xs;
      assert xs[0] == ys[0];
      forall e ensures e in xs[1..] <==> e in ys[1..] {
        assert e in xs <==> e == xs[0] || e in xs[1..];
        assert e in ys <==> e == ys[0] || e in ys[1..];
      }
      SameMembers(xs[1..], ys[1..]);
    }
  }

  lemma {:induction false} EmptyExpected(log: seq<Event>, f: Filter, a: int)
    ensures Expected(log, f, a, a) == []
  {
    if log != [] { EmptyExpected(log[1..], f, a); }
  }

  /** A page holds exactly the readable rows up to its own next_cursor. */
  lemma InPage(log: seq<Event>, f: Filter, after: int, now: int, limit: nat, e: Event)
    requires ById(log) && 1 <= limit
    ensures var page := Page(log, f, after, now, limit);
      e in page <==> e in log && after < e.id <= NextCursor(page, after) && Readable(e, now) && Matches(e, f)
  {
    var rows := Select(log, f, after, now);
    var page := Page(log, f, after, now, limit);
    InSelect(log, f, after, now, e);
    SelectById(log, f, after, now);
    if page != [] {
      assert page[|page| - 1] == rows[|page| - 1];
      if e in rows {
        var i :| 0 <= i < |rows| && rows[i] == e;
        if i < |page| {
          assert page[i] == e;
        } else {
          assert rows[|page| - 1].id < rows[i].id;
        }
      }
    } else {
      assert rows == [];
    }
  }

  lemma CursorRises(log: seq<Event>, f: Filter, after: int, now: int, limit: nat)
    ensures var page := Page(log, f, after, now, limit);
      after <= NextCursor(page, after) && (page != [] ==> after < NextCursor(page, after))
  {
    var page := Page(log, f, after, now, limit);
    if page != [] {
      assert page[|page| - 1] in Select(log, f, after, now);
      InSelect(log, f, after, now, page[|page| - 1]);
    }
  }

  lemma InOrderEvents(log: seq<Event>, f: Filter, e: Event, later: Event)
    requires ById(log) && InOrder(log, f) && e in log && later in log && Counts(e, f) && Counts(later, f) && e.id <= later.id
    ensures ReadableAt(e) <= ReadableAt(later)
  {
    var i :| 0 <= i < |log| && log[i] == e;
    var j :| 0 <= j < |log| && log[j] == later;
    if j < i { assert log[j].id < log[i].id; }
  }

  /** With events readable in id order, a page skips nothing below its next_cursor. */
  lemma PageIsExpected(log: seq<Event>, f: Filter, after: int, now: int, limit: nat)
    requires ById(log) && InOrder(log, f) && 1 <= limit
    ensures var page := Page(log, f, after, now, limit); page == Expected(log, f, after, NextCursor(page, after))
  {
    var page := Page(log, f, after, now, limit);
    var cursor := NextCursor(page, after);
    SelectById(log, f, after, now);
    ExpectedById(log, f, after, cursor);
    forall e ensures e in page <==> e in Expected(log, f, after, cursor) {
      InPage(log, f, after, now, limit, e);
      InExpected(log, f, after, cursor, e);
      if e in Expected(log, f, after, cursor) {
        var last := page[|page| - 1];
        InPage(log, f, after, now, limit, last);
        InOrderEvents(log, f, e, last);
      }
    }
    SameMembers(page, Expected(log, f, after, cursor));
  }

  // ---------- The main results ----------

  /** Exactly once and in id order, for every page limit and every polling rhythm. */
  lemma {:induction false} ReceivedExactlyOnce(log: seq<Event>, f: Filter, start: int, visits: seq<Visit>)
    requires ById(log) && InOrder(log, f) && ValidVisits(visits)
    ensures MissesNothing(log, f, start, visits)
    ensures start <= Follow(log, f, start, visits).1
    ensures ById(Follow(log, f, start, visits).0)
  {
    if visits == [] {
      EmptyExpected(log, f, start);
    } else {
      var n := |visits| - 1;
      ReceivedExactlyOnce(log, f, start, visits[..n]);
      var cursor := Follow(log, f, start, visits[..n]).1;
      CursorRises(log, f, cursor, visits[n].now, visits[n].limit);
      PageIsExpected(log, f, cursor, visits[n].now, visits[n].limit);
      var page := Page(log, f, cursor, visits[n].now, visits[n].limit);
      ExpectedSplits(log, f, start, cursor, NextCursor(page, cursor));
    }
    ExpectedById(log, f, start, Follow(log, f, start, visits).1);
  }

  /**
   * The exact condition: no client, whatever its start, limits and poll times, ever misses
   * or repeats an event if and only if events in its scope become readable in id order.
   */
  lemma NothingMissedExactlyWhenInOrder(log: seq<Event>, f: Filter)
    requires ById(log)
    ensures InOrder(log, f) <==> forall start, visits :: ValidVisits(visits) ==> MissesNothing(log, f, start, visits)
  {
    if InOrder(log, f) {
      forall start, visits | ValidVisits(visits) ensures MissesNothing(log, f, start, visits) {
        ReceivedExactlyOnce(log, f, start, visits);
      }
    } else {
      var i, j :| 0 <= i < j < |log| && Counts(log[i], f) && Counts(log[j], f) && ReadableAt(log[i]) > ReadableAt(log[j]);
      var visits := [Visit(ReadableAt(log[j]), 1)];
      assert ValidVisits(visits);
      OvertakenIsMissed(log, f, i, j);
    }
  }

  /** A poll between the moments of two events that become readable out of order loses the earlier one for good. */
  lemma OvertakenIsMissed(log: seq<Event>, f: Filter, i: nat, j: nat)
    requires ById(log) && i < j < |log| && Counts(log[i], f) && Counts(log[j], f) && ReadableAt(log[i]) > ReadableAt(log[j])
    ensures !MissesNothing(log, f, log[i].id - 1, [Visit(ReadableAt(log[j]), 1)])
  {
    var start, now := log[i].id - 1, ReadableAt(log[j]);
    var visits := [Visit(now, 1)];
    assert visits[..0] == [];
    var page := Page(log, f, start, now, 1);
    InSelect(log, f, start, now, log[j]);
    var cursor := NextCursor(page, start);
    InPage(log, f, start, now, 1, page[0]);
    InPage(log, f, start, now, 1, log[i]);
    InExpected(log, f, start, cursor, log[i]);
    assert Follow(log, f, start, visits).0 == page;
  }

  /** Stamps that never fall as ids rise, and commits inside the gate, are enough. */
  lemma GateGivesOrder(log: seq<Event>, f: Filter)
    requires forall i, j :: 0 <= i < j < |log| ==> log[i].stamped <= log[j].stamped
    requires forall i :: 0 <= i < |log| && log[i].committed.Some? ==> log[i].committed.value <= log[i].stamped + GATE
    ensures InOrder(log, f)
  {
    forall i, j | 0 <= i < j < |log| && Counts(log[i], f) && Counts(log[j], f) ensures ReadableAt(log[i]) <= ReadableAt(log[j]) {
      assert log[i].stamped <= log[j].stamped;
    }
  }

  /** A partial page means caught up: everything readable at that moment has been received. */
  lemma PartialPageMeansCaughtUp(log: seq<Event>, f: Filter, start: int, visits: seq<Visit>, e: Event)
    requires ById(log) && InOrder(log, f) && ValidVisits(visits) && visits != []
    requires e in log && start < e.id && Matches(e, f) && Readable(e, visits[|visits| - 1].now)
    requires var n := |visits| - 1;
      |Page(log, f, Follow(log, f, start, visits[..n]).1, visits[n].now, visits[n].limit)| < visits[n].limit
    ensures e in Follow(log, f, start, visits).0
  {
    var n := |visits| - 1;
    ReceivedExactlyOnce(log, f, start, visits[..n]);
    var (got, cursor) := Follow(log, f, start, visits[..n]);
    if e.id <= cursor {
      InExpected(log, f, start, cursor, e);
    } else {
      InSelect(log, f, cursor, visits[n].now, e);
    }
  }

  /** A client that keeps polling catches up, whatever its limits: one poll more than there are rows is enough. */
  lemma PollingCatchesUp(log: seq<Event>, f: Filter, start: int, visits: seq<Visit>, t: int, e: Event)
    requires ById(log) && InOrder(log, f) && ValidVisits(visits) && |visits| > |log|
    requires forall i :: 0 <= i < |visits| ==> t <= visits[i].now
    requires e in log && start < e.id && Matches(e, f) && Readable(e, t)
    ensures e in Follow(log, f, start, visits).0
  {
    ProgressOrDone(log, f, start, visits, t, e);
    ReceivedExactlyOnce(log, f, start, visits);
    var cursor := Follow(log, f, start, visits).1;
    ExpectedById(log, f, start, cursor);
    InExpected(log, f, start, cursor, e);
  }

  lemma {:induction false} ProgressOrDone(log: seq<Event>, f: Filter, start: int, visits: seq<Visit>, t: int, e: Event)
    requires ById(log) && InOrder(log, f) && ValidVisits(visits)
    requires forall i :: 0 <= i < |visits| ==> t <= visits[i].now
    requires e in log && start < e.id && Matches(e, f) && Readable(e, t)
    ensures e.id <= Follow(log, f, start, visits).1 || |Follow(log, f, start, visits).0| >= |visits|
  {
    if visits != [] {
      var n := |visits| - 1;
      ProgressOrDone(log, f, start, visits[..n], t, e);
      var cursor := Follow(log, f, start, visits[..n]).1;
      CursorRises(log, f, cursor, visits[n].now, visits[n].limit);
      if cursor < e.id {
        InSelect(log, f, cursor, visits[n].now, e);
      }
    }
  }

  /**
   * The gate alone is not enough: event 1 is stamped and committed after event 2,
   * both at the very moment of their stamp, and a poll in between loses event 1.
   */
  lemma GateAloneIsNotEnough(token: Token)
    requires 1 in token.warehouses && "receipt.completed" in token.kinds
    ensures var log := [Event(1, 1, "receipt.completed", 10, Some(10)), Event(2, 1, "receipt.completed", 5, Some(5))];
      !MissesNothing(log, Filter(token, None, {}, {}, {}), 0, [Visit(7, 1)])
  {
    var log := [Event(1, 1, "receipt.completed", 10, Some(10)), Event(2, 1, "receipt.completed", 5, Some(5))];
    OvertakenIsMissed(log, Filter(token, None, {}, {}, {}), 0, 1);
  }

  /** A filter outside the token's scope is refused, never silently intersected; an accepted page holds only what was asked. */
  lemma NoSilentIntersection(log: seq<Event>, token: Token, q: Query, now: int)
    ensures var asked := (q.warehouse.Some? ==> q.warehouse.value in token.warehouses) && q.kinds <= token.kinds;
      && Poll(log, token, q, None, now).ScopeViolation? == !asked
      && (asked ==> forall e :: e in Poll(log, token, q, None, now).events ==>
            InTokenScope(e, token) && (q.warehouse.Some? ==> e.warehouse == q.warehouse.value) && (q.kinds != {} ==> e.kind in q.kinds))
  {
    var f := Filter(token, q.warehouse, q.kinds, {}, {});
    forall e | e in Page(log, f, q.after, now, q.limit) ensures Matches(e, f) {
      InSelect(log, f, q.after, now, e);
    }
  }
}
