// POST /api/v1/events/ack of api/routes/polling.py: the statements of racing acks
// interleaved with each other and with commits to the event table.

module Acks {
  import opened Wrappers
  import opened Polling

  /** `cursor` is the event id the consumer says it has finished with. */
  datatype Ack = Ack(group: string, cursor: int, token: Token)

  datatype Error = GroupNotFound | OtherConnector | BeyondHorizon | OutOfScope
  datatype Reply = Acked(cursor: int) | Refused(error: Error)

  // ---------- The handler's statements ----------

  /** The greatest committed event id, 0 on an empty table. */
  function Horizon(events: seq<Event>): (h: int)
    ensures 0 <= h && forall e :: e in events ==> e.id <= h
  {
    if events == [] then 0
    else
      var rest := Horizon(events[..|events| - 1]);
      var last := events[|events| - 1];
      assert forall e :: e in events <==> e in events[..|events| - 1] || e == last;
      if last.id > rest then last.id else rest
  }

  ghost predicate AllInScope(events: seq<Event>, above: int, upTo: int, token: Token) {
    forall e :: e in events && above < e.id <= upTo ==> InTokenScope(e, token)
  }

  predicate Owns(token: Token, g: Group) {
    token.connector.None? || token.connector.value == g.connector
  }

  function Advance(g: Group, cursor: int): Group {
    if g.cursor <= cursor then g.(cursor := cursor) else g
  }

  /** The whole handler with nothing else running. */
  ghost function Handle(events: seq<Event>, groups: map<string, Group>, a: Ack): (map<string, Group>, Reply) {
    if a.group !in groups then (groups, Refused(Error.GroupNotFound))
    else
      var g := groups[a.group];
      if !Owns(a.token, g) then (groups, Refused(OtherConnector))
      else if a.cursor > g.cursor && a.cursor > Horizon(events) then (groups, Refused(BeyondHorizon))
      else if a.cursor > g.cursor && !AllInScope(events, g.cursor, a.cursor, a.token) then (groups, Refused(OutOfScope))
      else (groups[a.group := Advance(g, a.cursor)], Acked(Advance(g, a.cursor).cursor))
  }

  class Outbox {
    var events: seq<Event>
    var groups: map<string, Group>

    /** The EXISTS query: some event in (above, upTo] is outside the token's scope. */
    method AnyOutOfScope(above: int, upTo: int, token: Token) returns (found: bool)
      ensures found == !AllInScope(events, above, upTo, token)
    {
      found := false;
      for i := 0 to |events|
        invariant found == exists k :: 0 <= k < i && above < events[k].id <= upTo && !InTokenScope(events[k], token)
      {
        if above < events[i].id <= upTo && !InTokenScope(events[i], token) { found := true; }
      }
    }

    method AckCursor(a: Ack) returns (reply: Reply)
      modifies this`groups
      ensures (groups, reply) == Handle(events, old(groups), a)
    {
      if a.group !in groups { return Refused(Error.GroupNotFound); }
      var row := groups[a.group];
      if a.token.connector.Some? && a.token.connector.value != row.connector { return Refused(OtherConnector); }
      if a.cursor > row.cursor {
        var horizon := Horizon(events);
        if a.cursor > horizon { return Refused(BeyondHorizon); }
        var outOfScope := AnyOutOfScope(row.cursor, a.cursor, a.token);
        if outOfScope { return Refused(OutOfScope); }
      }
      if groups[a.group].cursor <= a.cursor {
        groups := groups[a.group := groups[a.group].(cursor := a.cursor)];
      } else {
        assert groups == groups[a.group := row];
      }
      return Acked(groups[a.group].cursor);
    }
  }

  // ---------- The interleaved machine ----------

  /** Where a request is; `last` is the cursor it read from its group's row. */
  datatype Pc =
    | Start
    | Loaded(last: int)
    | WithinHorizon(last: int)
    | Cleared(last: int)
    | Done(reply: Reply)

  datatype Request = Request(ack: Ack, pc: Pc)

  /** An accepted ack: it vouches for every event with after < id <= upTo. */
  datatype Cover = Cover(group: string, token: Token, after: int, upTo: int)

  /** `late` are the events committed below an id already committed; `covers` the accepted acks. */
  datatype World = World(
    events: seq<Event>, groups: map<string, Group>, requests: map<nat, Request>, late: set<Event>, covers: seq<Cover>)

  datatype Action =
    | Commit(e: Event)
    | Arrive(r: nat, ack: Ack)
    | Load(r: nat)
    | CheckHorizon(r: nat)
    | CheckScope(r: nat)
    | Update(r: nat)

  function At(w: World, r: nat, pc: Pc): World
    requires r in w.requests
  {
    w.(requests := w.requests[r := w.requests[r].(pc := pc)])
  }

  function LoadPc(groups: map<string, Group>, a: Ack): Pc {
    if a.group !in groups then Done(Refused(Error.GroupNotFound))
    else if !Owns(a.token, groups[a.group]) then Done(Refused(OtherConnector))
    else if a.cursor > groups[a.group].cursor then Loaded(groups[a.group].cursor)
    else Cleared(groups[a.group].cursor)
  }

  function Updated(w: World, r: nat): World
    requires r in w.requests && w.requests[r].pc.Cleared? && w.requests[r].ack.group in w.groups
  {
    var a := w.requests[r].ack;
    var g := Advance(w.groups[a.group], a.cursor);
    At(w, r, Done(Acked(g.cursor))).(
      groups := w.groups[a.group := g],
      covers := w.covers + [Cover(a.group, a.token, w.requests[r].pc.last, a.cursor)])
  }

  ghost predicate Next(w: World, x: Action, w': World) {
    match x
    case Commit(e) =>
      w' == w.(events := w.events + [e], late := if e.id <= Horizon(w.events) then w.late + {e} else w.late)
    case Arrive(r, ack) => r !in w.requests && w' == w.(requests := w.requests[r := Request(ack, Start)])
    case Load(r) => r in w.requests && w.requests[r].pc == Start && w' == At(w, r, LoadPc(w.groups, w.requests[r].ack))
    case CheckHorizon(r) =>
      && r in w.requests && w.requests[r].pc.Loaded?
      && w' == At(w, r, if w.requests[r].ack.cursor > Horizon(w.events) then Done(Refused(BeyondHorizon))
                        else WithinHorizon(w.requests[r].pc.last))
    case CheckScope(r) =>
      && r in w.requests && w.requests[r].pc.WithinHorizon?
      && (var last := w.requests[r].pc.last;
          w' == At(w, r, if AllInScope(w.events, last, w.requests[r].ack.cursor, w.requests[r].ack.token) then Cleared(last)
                         else Done(Refused(OutOfScope))))
    case Update(r) =>
      && r in w.requests && w.requests[r].pc.Cleared? && w.requests[r].ack.group in w.groups
      && w' == Updated(w, r)
  }

  // ---------- The invariant ----------

  /** Some accepted ack of the group, by a token that may read the event, covered it. */
  ghost predicate Covered(covers: seq<Cover>, group: string, e: Event) {
    exists c :: c in covers && c.group == group && c.after < e.id <= c.upTo && InTokenScope(e, c.token)
  }

  /** The greater of the start and every accepted ack. */
  function Furthest(start: int, covers: seq<Cover>, group: string): int {
    if covers == [] then start
    else
      var n := |covers| - 1;
      var rest := Furthest(start, covers[..n], group);
      if covers[n].group == group && covers[n].upTo > rest then covers[n].upTo else rest
  }

  ghost predicate RequestOk(w: World, q: Request) {
    && (q.pc.Loaded? || q.pc.WithinHorizon? || q.pc.Cleared? ==>
          q.ack.group in w.groups && Owns(q.ack.token, w.groups[q.ack.group]) && q.pc.last <= w.groups[q.ack.group].cursor)
    && (q.pc.WithinHorizon? || q.pc.Cleared? ==> q.ack.cursor <= Horizon(w.events))
    && (q.pc.Cleared? ==> forall e :: e in w.events && q.pc.last < e.id <= q.ack.cursor ==>
          InTokenScope(e, q.ack.token) || e in w.late)
  }

  /** Every event with after < id <= upTo is covered by an accepted ack, or late. */
  ghost predicate Accounted(w: World, name: string, after: int, upTo: int) {
    forall e :: e in w.events && after < e.id <= upTo ==> Covered(w.covers, name, e) || e in w.late
  }

  ghost predicate GroupOk(start: map<string, Group>, w: World, name: string)
    requires name in w.groups && name in start
  {
    var g := w.groups[name];
    && g == start[name].(cursor := g.cursor)
    && g.cursor <= Horizon(w.events)
    && g.cursor == Furthest(start[name].cursor, w.covers, name)
    && Accounted(w, name, start[name].cursor, g.cursor)
  }

  ghost predicate Inv(start: map<string, Group>, w: World) {
    && w.groups.Keys == start.Keys
    && (forall name :: name in w.groups ==> GroupOk(start, w, name))
    && (forall r :: r in w.requests ==> RequestOk(w, w.requests[r]))
    && (forall c :: c in w.covers ==> c.group in start && Owns(c.token, start[c.group]))
  }

  ghost predicate Initial(w: World) {
    && w.requests == map[] && w.late == {} && w.covers == []
    && forall name :: name in w.groups ==> w.groups[name].cursor <= Horizon(w.events)
  }

  lemma CommitStep(start: map<string, Group>, w: World, e: Event, w': World)
    requires Inv(start, w) && Next(w, Commit(e), w')
    ensures Inv(start, w')
  {
    assert w'.events[..|w.events|] == w.events;
    forall name | name in w'.groups ensures GroupOk(start, w', name) {
      assert GroupOk(start, w, name);
    }
    forall r | r in w'.requests ensures RequestOk(w', w'.requests[r]) {
      assert RequestOk(w, w.requests[r]);
    }
  }

  /** A request moves without touching the groups. */
  lemma LocalStep(start: map<string, Group>, w: World, r: nat, q: Request)
    requires Inv(start, w) && RequestOk(w, q)
    ensures Inv(start, w.(requests := w.requests[r := q]))
  {
    var w' := w.(requests := w.requests[r := q]);
    forall name | name in w'.groups ensures GroupOk(start, w', name) {
      assert GroupOk(start, w, name);
    }
    forall u | u in w'.requests ensures RequestOk(w', w'.requests[u]) {
      if u != r { assert RequestOk(w, w.requests[u]); }
    }
  }

  lemma CoveredGrows(covers: seq<Cover>, c: Cover, name: string, e: Event)
    requires Covered(covers, name, e) || (c.group == name && c.after < e.id <= c.upTo && InTokenScope(e, c.token))
    ensures Covered(covers + [c], name, e)
  {
    assert c in covers + [c];
    if Covered(covers, name, e) {
      var d :| d in covers && d.group == name && d.after < e.id <= d.upTo && InTokenScope(e, d.token);
      assert d in covers + [c];
    }
  }

  /** The update of one ack keeps a group's account of the events it passed. */
  lemma UpdateKeepsAccount(start: map<string, Group>, w: World, r: nat, w': World, name: string)
    requires Next(w, Update(r), w') && RequestOk(w, w.requests[r])
    requires name in w.groups && name in start && Accounted(w, name, start[name].cursor, w.groups[name].cursor)
    ensures Accounted(w', name, start[name].cursor, w'.groups[name].cursor)
  {
    var q := w.requests[r];
    forall e | e in w.events && start[name].cursor < e.id <= w'.groups[name].cursor && e !in w.late
      ensures Covered(w'.covers, name, e)
    {
      CoveredGrows(w.covers, Cover(q.ack.group, q.ack.token, q.pc.last, q.ack.cursor), name, e);
    }
  }

  lemma FurthestSnoc(start: int, covers: seq<Cover>, c: Cover, name: string)
    ensures var rest := Furthest(start, covers, name);
      Furthest(start, covers + [c], name) == if c.group == name && c.upTo > rest then c.upTo else rest
  {
    assert (covers + [c])[..|covers|] == covers;
  }

  lemma UpdateKeepsGroup(start: map<string, Group>, w: World, r: nat, w': World, name: string)
    requires Next(w, Update(r), w') && RequestOk(w, w.requests[r])
    requires name in w.groups && name in start && GroupOk(start, w, name)
    ensures GroupOk(start, w', name)
  {
    UpdateKeepsAccount(start, w, r, w', name);
    var q := w.requests[r];
    FurthestSnoc(start[name].cursor, w.covers, Cover(q.ack.group, q.ack.token, q.pc.last, q.ack.cursor), name);
  }

  lemma UpdateKeepsRequests(start: map<string, Group>, w: World, r: nat, w': World, u: nat)
    requires Inv(start, w) && Next(w, Update(r), w') && u in w'.requests
    ensures RequestOk(w', w'.requests[u])
  {
    assert RequestOk(w, w.requests[u]) && RequestOk(w, w.requests[r]);
  }

  lemma UpdateStep(start: map<string, Group>, w: World, r: nat, w': World)
    requires Inv(start, w) && Next(w, Update(r), w')
    ensures Inv(start, w')
  {
    var q := w.requests[r];
    assert RequestOk(w, q) && GroupOk(start, w, q.ack.group);
    assert w'.groups.Keys == start.Keys;
    forall name | name in w'.groups ensures GroupOk(start, w', name) {
      assert GroupOk(start, w, name);
      UpdateKeepsGroup(start, w, r, w', name);
    }
    forall u | u in w'.requests ensures RequestOk(w', w'.requests[u]) {
      UpdateKeepsRequests(start, w, r, w', u);
    }
    forall c | c in w'.covers ensures c.group in start && Owns(c.token, start[c.group]) {
      assert c in w.covers || c == Cover(q.ack.group, q.ack.token, q.pc.last, q.ack.cursor);
    }
  }

  lemma NextKeepsInv(start: map<string, Group>, w: World, x: Action, w': World)
    requires Inv(start, w) && Next(w, x, w')
    ensures Inv(start, w')
  {
    match x
    case Commit(e) => CommitStep(start, w, e, w');
    case Update(r) => UpdateStep(start, w, r, w');
    case Arrive(r, ack) => LocalStep(start, w, r, Request(ack, Start));
    case _ =>
      assert RequestOk(w, w.requests[x.r]);
      LocalStep(start, w, x.r, w'.requests[x.r]);
  }

  ghost predicate Behaviour(ws: seq<World>, acts: seq<Action>) {
    && |ws| == |acts| + 1 && Initial(ws[0])
    && forall i :: 0 <= i < |acts| ==> Next(ws[i], acts[i], ws[i + 1])
  }

  lemma {:induction false} BehaviourKeepsInv(ws: seq<World>, acts: seq<Action>, i: nat)
    requires Behaviour(ws, acts) && i < |ws|
    ensures Inv(ws[0].groups, ws[i])
  {
    if i > 0 {
      BehaviourKeepsInv(ws, acts, i - 1);
      NextKeepsInv(ws[0].groups, ws[i - 1], acts[i - 1], ws[i]);
    }
  }

  // ---------- The main results ----------

  lemma StepKeepsCursor(w: World, x: Action, w': World, name: string)
    requires Next(w, x, w') && name in w.groups
    ensures name in w'.groups && w.groups[name].cursor <= w'.groups[name].cursor
  {
  }

  /** A stored cursor never goes back, whatever runs in between. */
  lemma {:induction false} CursorsNeverGoBack(ws: seq<World>, acts: seq<Action>, i: nat, j: nat, name: string)
    requires Behaviour(ws, acts) && i <= j < |ws| && name in ws[i].groups
    ensures name in ws[j].groups && ws[i].groups[name].cursor <= ws[j].groups[name].cursor
  {
    if i < j {
      CursorsNeverGoBack(ws, acts, i, j - 1, name);
      assert Next(ws[j - 1], acts[j - 1], ws[j]);
      StepKeepsCursor(ws[j - 1], acts[j - 1], ws[j], name);
    }
  }

  /**
   * In every interleaving a group's cursor is the greatest of its start and the accepted
   * acks, it never passes the greatest event id, and nothing but the cursor changes.
   */
  lemma CursorIsFurthestAck(ws: seq<World>, acts: seq<Action>, n: nat, name: string)
    requires Behaviour(ws, acts) && n < |ws| && name in ws[0].groups
    ensures name in ws[n].groups
    ensures ws[n].groups[name] == ws[0].groups[name].(cursor := Furthest(ws[0].groups[name].cursor, ws[n].covers, name))
    ensures ws[n].groups[name].cursor <= Horizon(ws[n].events)
  {
    BehaviourKeepsInv(ws, acts, n);
    assert GroupOk(ws[0].groups, ws[n], name);
  }

  /**
   * You can only ack what you can read: every event a cursor passed was within the scope of
   * a token whose ack covered it, unless it was committed below an id already committed.
   */
  lemma OnlyReadableIsPassed(ws: seq<World>, acts: seq<Action>, n: nat, name: string, e: Event)
    requires Behaviour(ws, acts) && n < |ws| && name in ws[0].groups && name in ws[n].groups
    requires e in ws[n].events && ws[0].groups[name].cursor < e.id <= ws[n].groups[name].cursor
    ensures Covered(ws[n].covers, name, e) || e in ws[n].late
  {
    BehaviourKeepsInv(ws, acts, n);
    assert GroupOk(ws[0].groups, ws[n], name);
  }

  /** Over an append-only event table, ids rising in commit order, there is no exception. */
  lemma {:induction false} NothingIsLate(ws: seq<World>, acts: seq<Action>, n: nat)
    requires Behaviour(ws, acts) && n < |ws|
    requires forall i :: 0 <= i < n && acts[i].Commit? ==> acts[i].e.id > Horizon(ws[i].events)
    ensures ws[n].late == {}
  {
    if n > 0 {
      NothingIsLate(ws, acts, n - 1);
      assert Next(ws[n - 1], acts[n - 1], ws[n]);
    }
  }

  /** A token bound to one connector never moves another connector's group. */
  lemma ConnectorsAreIsolated(ws: seq<World>, acts: seq<Action>, n: nat, c: Cover)
    requires Behaviour(ws, acts) && n < |ws| && c in ws[n].covers && c.token.connector.Some?
    ensures c.group in ws[0].groups && ws[0].groups[c.group].connector == c.token.connector.value
  {
    BehaviourKeepsInv(ws, acts, n);
  }

  // ---------- Exactly when nothing escapes ----------

  /** A run over a commit order: what is committed at its end is an initial part of the order. */
  ghost predicate Over(order: seq<Event>, ws: seq<World>, acts: seq<Action>) {
    Behaviour(ws, acts) && ws[|ws| - 1].events <= order
  }

  ghost predicate AcksBy(acts: seq<Action>, token: Token) {
    forall i :: 0 <= i < |acts| && acts[i].Arrive? ==> acts[i].ack.token == token
  }

  /** During the run the group's cursor moved past the event. */
  ghost predicate Passes(ws: seq<World>, name: string, e: Event)
    requires ws != []
  {
    var w := ws[|ws| - 1];
    name in w.groups && name in ws[0].groups && e in w.events && ws[0].groups[name].cursor < e.id <= w.groups[name].cursor
  }

  /** The j-th commit falls below an id already committed. */
  ghost predicate LateAt(order: seq<Event>, j: nat) {
    j < |order| && order[j].id <= Horizon(order[..j])
  }

  ghost predicate DistinctIds(order: seq<Event>) {
    forall i, j :: 0 <= i < j < |order| ==> order[i].id != order[j].id
  }

  lemma {:induction false} LateIsLateInOrder(ws: seq<World>, acts: seq<Action>, n: nat, e: Event)
    requires Behaviour(ws, acts) && n < |ws| && e in ws[n].late
    ensures exists j: nat :: LateAt(ws[n].events, j) && ws[n].events[j] == e
  {
    if n > 0 {
      var w, w' := ws[n - 1], ws[n];
      assert Next(w, acts[n - 1], w');
      if e in w.late {
        LateIsLateInOrder(ws, acts, n - 1, e);
        var j: nat :| LateAt(w.events, j) && w.events[j] == e;
        assert w'.events[..j] == w.events[..j];
        assert LateAt(w'.events, j);
      } else {
        assert w'.events[..|w.events|] == w.events;
        assert LateAt(w'.events, |w.events|);
      }
    }
  }

  /** A request keeps the token it came with, and a cover is some request's. */
  ghost predicate OnlyBy(w: World, token: Token) {
    && (forall r :: r in w.requests ==> w.requests[r].ack.token == token)
    && (forall c :: c in w.covers ==> c.token == token)
  }

  lemma {:induction false} CoversAreBy(ws: seq<World>, acts: seq<Action>, n: nat, token: Token)
    requires Behaviour(ws, acts) && AcksBy(acts, token) && n < |ws|
    ensures OnlyBy(ws[n], token)
  {
    if n > 0 {
      CoversAreBy(ws, acts, n - 1, token);
      assert Next(ws[n - 1], acts[n - 1], ws[n]);
    }
  }

  /** What a run over the order passes was covered by an ack in scope, or is late in the order. */
  lemma PassedIsCoveredOrLate(order: seq<Event>, ws: seq<World>, acts: seq<Action>, name: string, e: Event)
    requires Over(order, ws, acts) && Passes(ws, name, e)
    ensures Covered(ws[|ws| - 1].covers, name, e) || exists j: nat :: LateAt(order, j) && order[j] == e
  {
    var n := |ws| - 1;
    OnlyReadableIsPassed(ws, acts, n, name, e);
    if e in ws[n].late {
      LateIsLateInOrder(ws, acts, n, e);
      var j: nat :| LateAt(ws[n].events, j) && ws[n].events[j] == e;
      assert order[..j] == ws[n].events[..j];
      assert LateAt(order, j) && order[j] == e;
    }
  }

  /** An ack of the late event's own id, checked just before the event commits. */
  function CheckedWorld(order: seq<Event>, j: nat, g: Group, a: Ack, pc: Pc): World
    requires j < |order|
  {
    World(order[..j], map[a.group := g], map[0 := Request(a, pc)], {}, [])
  }

  function LateRun(order: seq<Event>, j: nat, g: Group, a: Ack): seq<World>
    requires j < |order|
  {
    var checked := CheckedWorld(order, j, g, a, Cleared(g.cursor));
    var late := checked.(events := order[..j] + [order[j]], late := {order[j]});
    [World(order[..j], map[a.group := g], map[], {}, []), CheckedWorld(order, j, g, a, Start),
     CheckedWorld(order, j, g, a, Loaded(g.cursor)), CheckedWorld(order, j, g, a, WithinHorizon(g.cursor)),
     checked, late, Updated(late, 0)]
  }

  function LateActions(a: Ack, e: Event): seq<Action> {
    [Arrive(0, a), Load(0), CheckHorizon(0), CheckScope(0), Commit(e), Update(0)]
  }

  /** The group stands just below the late event, and the ack is for the event alone. */
  ghost predicate AcksLate(order: seq<Event>, j: nat, g: Group, a: Ack) {
    LateAt(order, j) && DistinctIds(order) && a.cursor == order[j].id && g.cursor == order[j].id - 1 && Owns(a.token, g)
  }

  /** Before the late event is there, nothing stands against acking its id. */
  lemma ChecksPass(order: seq<Event>, j: nat, g: Group, a: Ack)
    requires AcksLate(order, j, g, a)
    ensures var at := (pc: Pc) => CheckedWorld(order, j, g, a, pc);
      && Next(at(Start), Load(0), at(Loaded(g.cursor))) && Next(at(Loaded(g.cursor)), CheckHorizon(0), at(WithinHorizon(g.cursor)))
      && Next(at(WithinHorizon(g.cursor)), CheckScope(0), at(Cleared(g.cursor)))
  {
    assert AllInScope(order[..j], g.cursor, a.cursor, a.token);
    forall q, pc ensures map[0 := Request(a, q)][0 := Request(a, pc)] == map[0 := Request(a, pc)] {
    }
  }

  lemma LateRunIsBehaviour(order: seq<Event>, j: nat, g: Group, a: Ack)
    requires AcksLate(order, j, g, a)
    ensures Behaviour(LateRun(order, j, g, a), LateActions(a, order[j]))
  {
    ChecksPass(order, j, g, a);
    var ws, acts := LateRun(order, j, g, a), LateActions(a, order[j]);
    assert Next(ws[0], acts[0], ws[1]) && Next(ws[4], acts[4], ws[5]) && Next(ws[5], acts[5], ws[6]);
  }

  /** Any event committed below an id already there is passed by an ack of any token that never saw it. */
  lemma LateEventEscapes(order: seq<Event>, j: nat, token: Token) returns (ws: seq<World>, acts: seq<Action>)
    requires LateAt(order, j) && DistinctIds(order)
    ensures Over(order, ws, acts) && AcksBy(acts, token) && Passes(ws, "erp", order[j])
    ensures ws[|ws| - 1].covers == [Cover("erp", token, order[j].id - 1, order[j].id)]
  {
    var g := Group(if token.connector.Some? then token.connector.value else "", order[j].id - 1, {}, {});
    var a := Ack("erp", order[j].id, token);
    ws, acts := LateRun(order, j, g, a), LateActions(a, order[j]);
    LateRunIsBehaviour(order, j, g, a);
    assert order[..j] + [order[j]] == order[..j + 1];
    assert order[j] in ws[6].events;
  }

  /** Every event the run passed is within the token's scope. */
  ghost predicate PassesOnlyReadable(ws: seq<World>, token: Token)
    requires ws != []
  {
    forall name, e :: Passes(ws, name, e) ==> InTokenScope(e, token)
  }

  /**
   * Whatever the interleaving and the start, no token can ack past an event it may not
   * read exactly when every event committed below an id already committed is in its scope.
   */
  lemma OnlyReadableExactly(order: seq<Event>, token: Token)
    requires DistinctIds(order)
    ensures (forall ws: seq<World>, acts: seq<Action> :: Over(order, ws, acts) && AcksBy(acts, token) ==> PassesOnlyReadable(ws, token))
      <==> (forall j: nat :: LateAt(order, j) ==> InTokenScope(order[j], token))
  {
    if j: nat :| LateAt(order, j) && !InTokenScope(order[j], token) {
      var ws, acts := LateEventEscapes(order, j, token);
      assert !PassesOnlyReadable(ws, token);
    } else {
      forall ws: seq<World>, acts: seq<Action> | Over(order, ws, acts) && AcksBy(acts, token) ensures PassesOnlyReadable(ws, token) {
        CoversAreBy(ws, acts, |ws| - 1, token);
        forall name, e | Passes(ws, name, e) ensures InTokenScope(e, token) {
          PassedIsCoveredOrLate(order, ws, acts, name, e);
        }
      }
    }
  }

  /** Every event the run passed was covered by an ack of a token that may read it. */
  ghost predicate PassesOnlyCovered(ws: seq<World>)
    requires ws != []
  {
    forall name, e :: Passes(ws, name, e) ==> Covered(ws[|ws| - 1].covers, name, e)
  }

  /** With acks of any tokens: no run passes an event unread exactly when ids rise in commit order. */
  lemma NothingEscapesExactly(order: seq<Event>)
    requires DistinctIds(order)
    ensures (forall ws: seq<World>, acts: seq<Action> :: Over(order, ws, acts) ==> PassesOnlyCovered(ws)) <==> (forall j: nat :: !LateAt(order, j))
  {
    if j: nat :| LateAt(order, j) {
      var ws, acts := LateEventEscapes(order, j, Token(None, {}, {}));
      assert Passes(ws, "erp", order[j]) && !Covered(ws[|ws| - 1].covers, "erp", order[j]);
      assert !PassesOnlyCovered(ws);
    } else {
      forall ws: seq<World>, acts: seq<Action> | Over(order, ws, acts) ensures PassesOnlyCovered(ws) {
        forall name, e | Passes(ws, name, e) ensures Covered(ws[|ws| - 1].covers, name, e) {
          PassedIsCoveredOrLate(order, ws, acts, name, e);
        }
      }
    }
  }

  /**
   * Acking a page's next_cursor: with no one else running it is accepted exactly when the
   * token could have read every event in between, whatever the subscription filtered out.
   */
  lemma AckOfAPage(events: seq<Event>, groups: map<string, Group>, name: string, token: Token, q: Query, log: seq<Event>, now: int)
    requires name in groups && Owns(token, groups[name]) && (forall e :: e in log && e.committed.Some? && e.committed.value <= now ==> e in events)
    requires groups[name].cursor <= Horizon(events) && Poll(log, token, q, Some(Some(groups[name])), now).Ok?
    ensures var next := Poll(log, token, q, Some(Some(groups[name])), now).cursor;
      var (groups', reply) := Handle(events, groups, Ack(name, next, token));
      if AllInScope(events, groups[name].cursor, next, token) then
        reply == Acked(next) && groups' == groups[name := groups[name].(cursor := next)]
      else reply == Refused(OutOfScope) && groups' == groups
  {
    var g := groups[name];
    var f := Filter(token, q.warehouse, q.kinds, g.subWarehouses, g.subKinds);
    var page := Page(log, f, g.cursor, now, q.limit);
    CursorRises(log, f, g.cursor, now, q.limit);
    if page != [] {
      var last := page[|page| - 1];
      assert last in Select(log, f, g.cursor, now);
      InSelect(log, f, g.cursor, now, last);
      assert last in events;
    }
  }
}
