// First pages of snapshot scans racing each other. The handler counts the token's
// scans in flight, inserts and commits a pending row, and polls until the keeper
// has promoted it; nothing is locked in between.

module SnapshotRaces {
  import opened Wrappers
  import opened Snapshot
  import opened SnapshotScans

  /** Snapshots the keeper holds open at once. */
  const POOL_SIZE := 4

  datatype Pc =
    | Start
    | Counted
    | Waiting(id: string)
    | Serving(id: string, rows: map<nat, Table>)
    | Answered(reply: Reply)
    | Died

  /** A first-page request, past its scope check. */
  datatype Request = Request(token: nat, warehouse: nat, limit: nat, pc: Pc)

  /** `held` are the scans whose exporting transaction the keeper keeps open, `used` the ids ever drawn. */
  datatype World = World(scans: Scans, requests: map<nat, Request>, held: set<string>, used: set<string>)

  datatype Action =
    | Arrive(t: nat, token: nat, warehouse: nat, limit: nat)
    | Count(t: nat)
    | Insert(t: nat, id: string)
    | Poll(t: nat)
    | TimeOut(t: nat)
    | Finish(t: nat)
    | Die(t: nat)
    | NextPage(token: nat, warehouse: nat, raw: string, limit: nat)
    | Promote(id: string, rows: map<nat, Table>)
    | Reap(id: string)
    | Restart

  function At(w: World, t: nat, pc: Pc): World
    requires t in w.requests
  {
    w.(requests := w.requests[t := w.requests[t].(pc := pc)])
  }

  /** The page is cut from the imported snapshot; the mark goes to the row if it is still active. */
  function Served(codec: Codec, w: World, t: nat): World
    requires t in w.requests && w.requests[t].pc.Serving? && 1 <= w.requests[t].limit
  {
    var r := w.requests[t];
    var id := r.pc.id;
    var page := Page(if r.warehouse in r.pc.rows then r.pc.rows[r.warehouse] else [], FIRST, r.limit);
    if |page| < r.limit then
      At(w, t, Answered(Reply.Served(page, None))).(
        scans := if id in w.scans && w.scans[id].status == Active then w.scans[id := w.scans[id].(status := Status.Done)] else w.scans)
    else At(w, t, Answered(Reply.Served(page, Some(ScanCursor(codec, id, r.warehouse, KeyOf(page[|page| - 1]))))))
  }

  /** What a keeper finds active when it comes up belongs to transactions that died with its predecessor. */
  function Orphaned(scans: Scans): Scans {
    map s | s in scans :: if scans[s].status == Active then scans[s].(status := Aborted) else scans[s]
  }

  ghost predicate Next(codec: Codec, w: World, a: Action, w': World) {
    match a
    case Arrive(t, token, warehouse, limit) =>
      t !in w.requests && 1 <= limit && w' == w.(requests := w.requests[t := Request(token, warehouse, limit, Start)])
    case Count(t) =>
      && t in w.requests && w.requests[t].pc == Start
      && w' == At(w, t, if |InFlight(w.scans, w.requests[t].token)| >= MAX_CONCURRENT_SCANS_PER_TOKEN then Answered(SnapshotInFlight) else Counted)
    case Insert(t, id) =>
      && t in w.requests && w.requests[t].pc == Counted && id !in w.used && id !in w.scans
      && w' == At(w, t, Waiting(id)).(scans := w.scans[id := Scan(Pending, w.requests[t].token, map[])], used := w.used + {id})
    case Poll(t) =>
      && t in w.requests && w.requests[t].pc.Waiting? && w.requests[t].pc.id in w.scans && w.scans[w.requests[t].pc.id].status == Active
      && w' == At(w, t, Serving(w.requests[t].pc.id, w.scans[w.requests[t].pc.id].rows))
    case TimeOut(t) =>
      && t in w.requests && w.requests[t].pc.Waiting?
      && w' == At(w, t, Answered(KeeperUnavailable)).(scans := w.scans - {w.requests[t].pc.id})
    case Finish(t) => t in w.requests && w.requests[t].pc.Serving? && 1 <= w.requests[t].limit && w' == Served(codec, w, t)
    case Die(t) => t in w.requests && !w.requests[t].pc.Answered? && w' == At(w, t, Died)
    case NextPage(token, warehouse, raw, limit) => 1 <= limit && w' == w.(scans := Continue(codec, w.scans, token, warehouse, raw, limit).0)
    case Promote(id, rows) =>
      && id in w.scans && w.scans[id].status == Pending && |w.held| < POOL_SIZE
      && w' == w.(scans := w.scans[id := Scan(Active, w.scans[id].token, rows)], held := w.held + {id})
    case Reap(id) => id in w.held && w' == w.(scans := w.scans - {id}, held := w.held - {id})
    case Restart => w' == w.(scans := Orphaned(w.scans), held := {})
  }

  ghost predicate Behaviour(codec: Codec, ws: seq<World>, acts: seq<Action>) {
    && |ws| == |acts| + 1 && ws[0].requests == map[] && ws[0].held == {} && (forall s :: s in ws[0].scans ==> ws[0].scans[s].status != Active)
    && forall i :: 0 <= i < |acts| ==> Next(codec, ws[i], acts[i], ws[i + 1])
  }

  // ---------- Scans in flight against requests that overlap ----------

  /** The token's requests that have counted and not yet inserted. */
  function Counting(w: World, token: nat): set<nat> {
    set t | t in w.requests && w.requests[t].token == token && w.requests[t].pc == Counted
  }

  /** The largest number of the token's first-page requests between count and insert at one time, so far. */
  ghost function Overlap(ws: seq<World>, token: nat, n: nat): nat
    requires n < |ws|
  {
    var now := |Counting(ws[n], token)|;
    if n == 0 then now else if Overlap(ws, token, n - 1) > now then Overlap(ws, token, n - 1) else now
  }

  lemma SubsetIsSmaller<T>(a: set<T>, b: set<T>)
    requires a <= b
    ensures |a| <= |b|
  {
    assert b == a + (b - a);
  }

  /** All steps but the three below start no scan and count no request. */
  lemma OtherStepsShrink(codec: Codec, w: World, a: Action, w': World, token: nat)
    requires Next(codec, w, a, w') && !a.Count? && !a.Insert?
    ensures InFlight(w'.scans, token) <= InFlight(w.scans, token) && Counting(w', token) <= Counting(w, token)
  {
  }

  /** A request moves on from the count only when it counted nothing. */
  lemma CountStep(codec: Codec, w: World, t: nat, w': World, token: nat)
    requires Next(codec, w, Count(t), w')
    ensures InFlight(w'.scans, token) == InFlight(w.scans, token)
    ensures Counting(w', token) <= Counting(w, token) || InFlight(w.scans, token) == {}
  {
    if InFlight(w.scans, w.requests[t].token) != {} {
      var s :| s in InFlight(w.scans, w.requests[t].token);
      SubsetIsSmaller({s}, InFlight(w.scans, w.requests[t].token));
    }
  }

  lemma InsertedScan(scans: Scans, id: string, owner: nat, token: nat)
    requires id !in scans
    ensures |InFlight(scans[id := Scan(Pending, owner, map[])], token)| == |InFlight(scans, token)| + (if owner == token then 1 else 0)
  {
    var scans' := scans[id := Scan(Pending, owner, map[])];
    assert InFlight(scans', token) == if owner == token then InFlight(scans, token) + {id} else InFlight(scans, token);
    assert id !in InFlight(scans, token);
  }

  lemma NoLongerCounting(w: World, t: nat, pc: Pc, token: nat)
    requires t in w.requests && w.requests[t].pc == Counted && pc != Counted
    ensures |Counting(At(w, t, pc), token)| == |Counting(w, token)| - (if w.requests[t].token == token then 1 else 0)
  {
    var w' := At(w, t, pc);
    assert Counting(w', token) == if w.requests[t].token == token then Counting(w, token) - {t} else Counting(w, token);
    assert w.requests[t].token == token ==> t in Counting(w, token);
  }

  /** An insert turns a counting request into a scan in flight. */
  lemma InsertStep(codec: Codec, w: World, t: nat, id: string, w': World, token: nat)
    requires Next(codec, w, Insert(t, id), w')
    ensures |InFlight(w'.scans, token)| + |Counting(w', token)| == |InFlight(w.scans, token)| + |Counting(w, token)|
  {
    InsertedScan(w.scans, id, w.requests[t].token, token);
    NoLongerCounting(w, t, Waiting(id), token);
    assert Counting(w', token) == Counting(At(w, t, Waiting(id)), token);
  }

  function Max(a: nat, b: nat): nat {
    if a < b then b else a
  }

  /** Scans in flight and requests about to add one, together. */
  lemma {:induction false} InFlightAndComing(codec: Codec, ws: seq<World>, acts: seq<Action>, n: nat, token: nat)
    requires Behaviour(codec, ws, acts) && n < |ws|
    ensures |InFlight(ws[n].scans, token)| + |Counting(ws[n], token)| <= Max(|InFlight(ws[0].scans, token)|, Overlap(ws, token, n))
  {
    if n == 0 {
      assert Counting(ws[0], token) == {};
    } else {
      InFlightAndComing(codec, ws, acts, n - 1, token);
      var w, a, w' := ws[n - 1], acts[n - 1], ws[n];
      assert Next(codec, w, a, w');
      match a
      case Count(t) => {
        CountStep(codec, w, t, w', token);
        if Counting(w', token) <= Counting(w, token) { SubsetIsSmaller(Counting(w', token), Counting(w, token)); }
      }
      case Insert(t, id) => InsertStep(codec, w, t, id, w', token);
      case _ => {
        OtherStepsShrink(codec, w, a, w', token);
        SubsetIsSmaller(InFlight(w'.scans, token), InFlight(w.scans, token));
        SubsetIsSmaller(Counting(w', token), Counting(w, token));
      }
    }
  }

  /**
   * In every interleaving, keeper included, a token has no more scans in flight than the
   * largest number of its first-page requests that were between count and insert at once,
   * or than it had at the start.
   */
  lemma InFlightWithinOverlap(codec: Codec, ws: seq<World>, acts: seq<Action>, n: nat, token: nat)
    requires Behaviour(codec, ws, acts) && n < |ws|
    ensures |InFlight(ws[n].scans, token)| <= Max(|InFlight(ws[0].scans, token)|, Overlap(ws, token, n))
  {
    InFlightAndComing(codec, ws, acts, n, token);
  }

  // ---------- Every overlap can show ----------

  function Id(j: nat): string {
    if j == 0 then "" else Id(j - 1) + "x"
  }

  lemma {:induction false} IdsDiffer(j: nat)
    ensures |Id(j)| == j
  {
    if j > 0 { IdsDiffer(j - 1); }
  }

  function Asking(token: nat, j: nat, i: nat): Request {
    Request(token, 0, 1, if j < i then Counted else Start)
  }

  /** `k` requests of one token; the first `i` have counted, nothing being in flight. */
  function HaveCounted(token: nat, k: nat, i: nat): World {
    World(map[], map j: nat | 0 <= j < k :: Asking(token, j, i), {}, {})
  }

  function Pendings(token: nat, i: nat): Scans {
    if i == 0 then map[] else Pendings(token, i - 1)[Id(i - 1) := Scan(Pending, token, map[])]
  }

  function Adding(token: nat, j: nat, i: nat): Request {
    Request(token, 0, 1, if j < i then Waiting(Id(j)) else Counted)
  }

  /** All have counted and the first `i` have inserted. */
  function HaveInserted(token: nat, k: nat, i: nat): World {
    World(Pendings(token, i), map j: nat | 0 <= j < k :: Adding(token, j, i), {}, Pendings(token, i).Keys)
  }

  lemma {:induction false} PendingsAre(token: nat, i: nat)
    ensures forall s :: s in Pendings(token, i) ==> |s| < i && Pendings(token, i)[s] == Scan(Pending, token, map[])
  {
    if i > 0 {
      PendingsAre(token, i - 1);
      IdsDiffer(i - 1);
    }
  }

  lemma {:induction false} PendingsInFlight(token: nat, i: nat)
    ensures |InFlight(Pendings(token, i), token)| == i
  {
    if i == 0 {
      assert InFlight(Pendings(token, i), token) == {};
    } else {
      PendingsInFlight(token, i - 1);
      PendingsAre(token, i - 1);
      IdsDiffer(i - 1);
      InsertedScan(Pendings(token, i - 1), Id(i - 1), token, token);
    }
  }

  /** A run from an empty table that ends in `w`, in which never more than `k` requests of the token overlap. */
  ghost predicate LeadsTo(codec: Codec, token: nat, k: nat, ws: seq<World>, acts: seq<Action>, w: World) {
    && Behaviour(codec, ws, acts) && ws[0].scans == map[] && ws[|ws| - 1] == w
    && forall n :: 0 <= n < |ws| ==> |Counting(ws[n], token)| <= k
  }

  ghost predicate Reaches(codec: Codec, token: nat, k: nat, w: World) {
    exists ws, acts :: LeadsTo(codec, token, k, ws, acts, w)
  }

  lemma OneMore(codec: Codec, token: nat, k: nat, w: World, a: Action, w': World)
    requires Reaches(codec, token, k, w) && Next(codec, w, a, w') && |Counting(w', token)| <= k
    ensures Reaches(codec, token, k, w')
  {
    var ws, acts :| LeadsTo(codec, token, k, ws, acts, w);
    var vs, bs := ws + [w'], acts + [a];
    forall i | 0 <= i < |bs| ensures Next(codec, vs[i], bs[i], vs[i + 1]) {
      if i < |acts| { assert Next(codec, ws[i], acts[i], ws[i + 1]); }
    }
    assert LeadsTo(codec, token, k, vs, bs, w');
  }

  lemma {:induction false} FewRequests(ts: set<nat>, k: nat)
    requires forall t :: t in ts ==> t < k
    ensures |ts| <= k
  {
    if k > 0 {
      FewRequests(ts - {k - 1}, k - 1);
    } else {
      assert ts == {};
    }
  }

  lemma {:induction false} AllArrive(codec: Codec, token: nat, k: nat, i: nat)
    requires i <= k
    ensures Reaches(codec, token, k, HaveCounted(token, i, 0))
  {
    if i == 0 {
      assert HaveCounted(token, 0, 0).requests == map[];
      assert Counting(HaveCounted(token, 0, 0), token) == {};
      assert LeadsTo(codec, token, k, [HaveCounted(token, 0, 0)], [], HaveCounted(token, 0, 0));
    } else {
      AllArrive(codec, token, k, i - 1);
      var w, w' := HaveCounted(token, i - 1, 0), HaveCounted(token, i, 0);
      assert w'.requests == w.requests[i - 1 := Request(token, 0, 1, Start)];
      assert Counting(w', token) == {};
      OneMore(codec, token, k, w, Arrive(i - 1, token, 0, 1), w');
    }
  }

  lemma {:induction false} AllCount(codec: Codec, token: nat, k: nat, i: nat)
    requires i <= k
    ensures Reaches(codec, token, k, HaveCounted(token, k, i))
  {
    if i == 0 {
      AllArrive(codec, token, k, k);
    } else {
      AllCount(codec, token, k, i - 1);
      var w, w' := HaveCounted(token, k, i - 1), HaveCounted(token, k, i);
      assert InFlight(w.scans, token) == {};
      assert w'.requests == w.requests[i - 1 := Request(token, 0, 1, Counted)];
      FewRequests(Counting(w', token), k);
      OneMore(codec, token, k, w, Count(i - 1), w');
    }
  }

  lemma NextInserts(codec: Codec, token: nat, k: nat, i: nat)
    requires i < k && Reaches(codec, token, k, HaveInserted(token, k, i))
    ensures Reaches(codec, token, k, HaveInserted(token, k, i + 1))
  {
    OneInserts(codec, token, k, i);
    var w, w' := HaveInserted(token, k, i), HaveInserted(token, k, i + 1);
    FewRequests(Counting(w', token), k);
    OneMore(codec, token, k, w, Insert(i, Id(i)), w');
  }

  lemma {:induction false} AllInsert(codec: Codec, token: nat, k: nat, i: nat)
    requires i <= k
    ensures Reaches(codec, token, k, HaveInserted(token, k, i))
  {
    if i == 0 {
      AllCount(codec, token, k, k);
      NoneInserted(token, k);
    } else {
      AllInsert(codec, token, k, i - 1);
      NextInserts(codec, token, k, i - 1);
    }
  }

  lemma NoneInserted(token: nat, k: nat)
    ensures HaveInserted(token, k, 0) == HaveCounted(token, k, k)
  {
    var a, b := HaveInserted(token, k, 0).requests, HaveCounted(token, k, k).requests;
    assert forall j: nat :: j < k ==> Adding(token, j, 0) == Asking(token, j, k);
    assert a == b;
    assert Pendings(token, 0).Keys == {};
  }

  lemma OneInserts(codec: Codec, token: nat, k: nat, i: nat)
    requires i < k
    ensures Next(codec, HaveInserted(token, k, i), Insert(i, Id(i)), HaveInserted(token, k, i + 1))
  {
    PendingsAre(token, i);
    IdsDiffer(i);
    var w, w' := HaveInserted(token, k, i), HaveInserted(token, k, i + 1);
    assert w'.requests == w.requests[i := Request(token, 0, 1, Waiting(Id(i)))];
    assert w'.used == w.used + {Id(i)};
  }

  /** `k` requests that all count before the first one inserts end up with `k` scans in flight. */
  lemma OverlapShows(codec: Codec, token: nat, k: nat) returns (ws: seq<World>, acts: seq<Action>)
    ensures Behaviour(codec, ws, acts) && ws[0].scans == map[] && OverlapsAtMost(ws, token, k)
    ensures |InFlight(ws[|ws| - 1].scans, token)| == k
  {
    AllInsert(codec, token, k, k);
    PendingsInFlight(token, k);
    ws, acts :| LeadsTo(codec, token, k, ws, acts, HaveInserted(token, k, k));
  }

  // ---------- The cap, exactly ----------

  ghost predicate OverlapsAtMost(ws: seq<World>, token: nat, k: nat) {
    forall n :: 0 <= n < |ws| ==> |Counting(ws[n], token)| <= k
  }

  ghost predicate InFlightAtMost(ws: seq<World>, token: nat, c: nat) {
    forall n :: 0 <= n < |ws| ==> |InFlight(ws[n].scans, token)| <= c
  }

  lemma {:induction false} OverlapIsLargest(ws: seq<World>, token: nat, k: nat, n: nat)
    requires n < |ws| && OverlapsAtMost(ws, token, k)
    ensures Overlap(ws, token, n) <= k
  {
    if n > 0 { OverlapIsLargest(ws, token, k, n - 1); }
  }

  /**
   * The per-token cap: from an empty table, a token keeps to `c` scans in flight in every
   * run in which at most `k` of its first-page requests overlap between count and insert
   * exactly when `k` is at most `c`.
   */
  lemma CapHoldsExactly(codec: Codec, token: nat, k: nat, c: nat)
    ensures (forall ws: seq<World>, acts: seq<Action> ::
               Behaviour(codec, ws, acts) && ws[0].scans == map[] && OverlapsAtMost(ws, token, k) ==> InFlightAtMost(ws, token, c))
      <==> k <= c
  {
    if k <= c {
      forall ws: seq<World>, acts: seq<Action> | Behaviour(codec, ws, acts) && ws[0].scans == map[] && OverlapsAtMost(ws, token, k)
        ensures InFlightAtMost(ws, token, c)
      {
        assert InFlight(ws[0].scans, token) == {};
        forall n | 0 <= n < |ws| ensures |InFlight(ws[n].scans, token)| <= c {
          InFlightWithinOverlap(codec, ws, acts, n, token);
          OverlapIsLargest(ws, token, k, n);
        }
      }
    } else {
      var ws, acts := OverlapShows(codec, token, k);
      assert |InFlight(ws[|ws| - 1].scans, token)| > c;
      assert !InFlightAtMost(ws, token, c);
    }
  }

  /** The documented cap of one: it is kept in every run exactly when no two such requests ever overlap. */
  lemma OneScanPerToken(codec: Codec, token: nat, k: nat)
    ensures (forall ws: seq<World>, acts: seq<Action> ::
               Behaviour(codec, ws, acts) && ws[0].scans == map[] && OverlapsAtMost(ws, token, k)
               ==> InFlightAtMost(ws, token, MAX_CONCURRENT_SCANS_PER_TOKEN))
      <==> k < 2
  {
    CapHoldsExactly(codec, token, k, MAX_CONCURRENT_SCANS_PER_TOKEN);
  }

  // ---------- The pool ----------

  /** Every active scan is one whose transaction the keeper holds. */
  ghost predicate PoolOk(w: World) {
    |w.held| <= POOL_SIZE && forall s :: s in w.scans && w.scans[s].status == Active ==> s in w.held
  }

  lemma NextKeepsPool(codec: Codec, w: World, a: Action, w': World)
    requires PoolOk(w) && Next(codec, w, a, w')
    ensures PoolOk(w')
  {
    if a.Reap? { SubsetIsSmaller(w'.held, w.held); }
  }

  lemma {:induction false} PoolIsBounded(codec: Codec, ws: seq<World>, acts: seq<Action>, n: nat)
    requires Behaviour(codec, ws, acts) && n < |ws|
    ensures PoolOk(ws[n])
  {
    if n > 0 {
      PoolIsBounded(codec, ws, acts, n - 1);
      NextKeepsPool(codec, ws[n - 1], acts[n - 1], ws[n]);
    }
  }

  /** In every interleaving at most four scans are active, and each of them has its exporting transaction open. */
  lemma ActiveScansAreHeld(codec: Codec, ws: seq<World>, acts: seq<Action>, n: nat)
    requires Behaviour(codec, ws, acts) && n < |ws|
    ensures var active := set s | s in ws[n].scans && ws[n].scans[s].status == Active; active <= ws[n].held && |active| <= POOL_SIZE
  {
    PoolIsBounded(codec, ws, acts, n);
    var active := set s | s in ws[n].scans && ws[n].scans[s].status == Active;
    SubsetIsSmaller(active, ws[n].held);
  }

  // ---------- One request on its own ----------

  /** The states of a first page nobody disturbs, from its arrival to the keeper's answer. */
  function Alone(w: World, t: nat, token: nat, warehouse: nat, limit: nat, pc: Pc): World {
    w.(requests := w.requests[t := Request(token, warehouse, limit, pc)])
  }

  function WithRow(w: World, id: string, scan: Scan, held: set<string>): World {
    w.(scans := w.scans[id := scan], used := w.used + {id}, held := held)
  }

  /** The steps of a first page that is neither refused nor kept waiting, one after the other. */
  function SoloStates(codec: Codec, w: World, t: nat, token: nat, warehouse: nat, id: string, rows: map<nat, Table>, limit: nat): seq<World>
    requires 1 <= limit
  {
    var active := WithRow(w, id, Scan(Active, token, rows), w.held + {id});
    [w, Alone(w, t, token, warehouse, limit, Start), Alone(w, t, token, warehouse, limit, Counted),
     Alone(WithRow(w, id, Scan(Pending, token, map[]), w.held), t, token, warehouse, limit, Waiting(id)),
     Alone(active, t, token, warehouse, limit, Waiting(id)), Alone(active, t, token, warehouse, limit, Serving(id, rows)),
     Served(codec, Alone(active, t, token, warehouse, limit, Serving(id, rows)), t)]
  }

  function SoloActions(t: nat, token: nat, warehouse: nat, id: string, rows: map<nat, Table>, limit: nat): seq<Action> {
    [Arrive(t, token, warehouse, limit), Count(t), Insert(t, id), Promote(id, rows), Poll(t), Finish(t)]
  }

  lemma Restated(w: World, t: nat, token: nat, warehouse: nat, limit: nat, a: Pc, b: Pc)
    ensures At(Alone(w, t, token, warehouse, limit, a), t, b) == Alone(w, t, token, warehouse, limit, b)
  {
    var r := Request(token, warehouse, limit, a);
    assert w.requests[t := r][t := r.(pc := b)] == w.requests[t := r.(pc := b)];
  }

  /** Arrival, count and insert. */
  lemma SoloBegins(codec: Codec, w: World, t: nat, token: nat, warehouse: nat, id: string, rows: map<nat, Table>, limit: nat)
    requires 1 <= limit && t !in w.requests && InFlight(w.scans, token) == {} && id !in w.used && id !in w.scans
    ensures var ws, acts := SoloStates(codec, w, t, token, warehouse, id, rows, limit), SoloActions(t, token, warehouse, id, rows, limit);
      Next(codec, ws[0], acts[0], ws[1]) && Next(codec, ws[1], acts[1], ws[2]) && Next(codec, ws[2], acts[2], ws[3])
  {
    Restated(w, t, token, warehouse, limit, Start, Counted);
    Restated(w, t, token, warehouse, limit, Counted, Waiting(id));
  }

  /** Promotion, poll and page. */
  lemma SoloEnds(codec: Codec, w: World, t: nat, token: nat, warehouse: nat, id: string, rows: map<nat, Table>, limit: nat)
    requires 1 <= limit && |w.held| < POOL_SIZE
    ensures var ws, acts := SoloStates(codec, w, t, token, warehouse, id, rows, limit), SoloActions(t, token, warehouse, id, rows, limit);
      Next(codec, ws[3], acts[3], ws[4]) && Next(codec, ws[4], acts[4], ws[5]) && Next(codec, ws[5], acts[5], ws[6])
  {
    var active := WithRow(w, id, Scan(Active, token, rows), w.held + {id});
    Restated(active, t, token, warehouse, limit, Waiting(id), Serving(id, rows));
    assert w.scans[id := Scan(Pending, token, map[])][id := Scan(Active, token, rows)] == active.scans;
  }

  /**
   * Run on its own the machine's first page is the handler's: the steps can be taken, and
   * they end with the scans and the reply of the first-page specification.
   */
  lemma SoloRunIsBegin(codec: Codec, w: World, t: nat, token: nat, warehouse: nat, id: string, rows: map<nat, Table>, limit: nat)
    requires 1 <= limit && t !in w.requests && InFlight(w.scans, token) == {} && id !in w.used && id !in w.scans && |w.held| < POOL_SIZE
    ensures var ws, acts := SoloStates(codec, w, t, token, warehouse, id, rows, limit), SoloActions(t, token, warehouse, id, rows, limit);
      && (forall i :: 0 <= i < |acts| ==> Next(codec, ws[i], acts[i], ws[i + 1]))
      && (var (scans, reply) := Begin(codec, w.scans, token, warehouse, id, Some(rows), limit);
          ws[6].scans == scans && ws[6].requests == w.requests[t := Request(token, warehouse, limit, Answered(reply))])
  {
    var ws, acts := SoloStates(codec, w, t, token, warehouse, id, rows, limit), SoloActions(t, token, warehouse, id, rows, limit);
    SoloBegins(codec, w, t, token, warehouse, id, rows, limit);
    SoloEnds(codec, w, t, token, warehouse, id, rows, limit);
    forall i | 0 <= i < |acts| ensures Next(codec, ws[i], acts[i], ws[i + 1]) {
      assert i == 0 || i == 1 || i == 2 || i == 3 || i == 4 || i == 5;
    }
    SoloAnswer(codec, w, t, token, warehouse, id, rows, limit);
  }

  lemma SoloAnswer(codec: Codec, w: World, t: nat, token: nat, warehouse: nat, id: string, rows: map<nat, Table>, limit: nat)
    requires 1 <= limit && InFlight(w.scans, token) == {} && id !in w.scans
    ensures var active := WithRow(w, id, Scan(Active, token, rows), w.held + {id});
      var end := Served(codec, Alone(active, t, token, warehouse, limit, Serving(id, rows)), t);
      var (scans, reply) := Begin(codec, w.scans, token, warehouse, id, Some(rows), limit);
      end.scans == scans && end.requests == w.requests[t := Request(token, warehouse, limit, Answered(reply))]
  {
    var active := WithRow(w, id, Scan(Active, token, rows), w.held + {id});
    var reply := Begin(codec, w.scans, token, warehouse, id, Some(rows), limit).1;
    Restated(active, t, token, warehouse, limit, Serving(id, rows), Answered(reply));
  }
}
