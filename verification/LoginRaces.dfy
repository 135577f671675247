// Logins that overlap. The rate limit is read, the password is checked, and only then is
// the failure recorded: in between, other logins of the same key pass the same check.

module LoginRaces {
  import opened Wrappers
  import opened LoginLockout

  /** A login whose password is being checked; one that dies there stays in flight. */
  datatype Flight = Flight(ip: string, user: string, correct: bool)

  datatype World = World(rows: Rows, flights: map<nat, Flight>)

  /** The unlocked read of the limit; the outcome written under the row's lock; the cleanup. */
  datatype Move =
    | Check(now: real, t: nat, ip: string, user: string, correct: bool)
    | Record(now: real, t: nat)
    | Clean(now: real)

  function KeyOf(sha: string -> string, f: Flight): string {
    LockKey(sha, f.ip, f.user)
  }

  /** The login gets past the limit. */
  predicate Passes(sha: string -> string, w: World, m: Move) {
    m.Check? && m.t !in w.flights && !Locked(w.rows, LockKey(sha, m.ip, m.user), m.now)
  }

  /** What a login writes once its password has been checked. */
  function Recorded(cfg: Config, sha: string -> string, rows: Rows, f: Flight, now: real): Rows {
    var userKey, lockKey := UserKey(sha, f.user), KeyOf(sha, f);
    if f.correct then rows - {userKey} - {lockKey}
    else Failed(cfg, Failed(cfg, rows, userKey, now, false), lockKey, now, true)
  }

  function MoveStep(cfg: Config, sha: string -> string, w: World, m: Move): World {
    match m
    case Check(now, t, ip, user, correct) =>
      if Passes(sha, w, m) then w.(flights := w.flights[t := Flight(ip, user, correct)]) else w
    case Record(now, t) =>
      if t in w.flights then World(Recorded(cfg, sha, w.rows, w.flights[t], now), w.flights - {t}) else w
    case Clean(now) => w.(rows := CleanupStep(cfg, w.rows, now))
  }

  function Outcome(cfg: Config, sha: string -> string, rows: Rows, moves: seq<Move>): World {
    if moves == [] then World(rows, map[])
    else MoveStep(cfg, sha, Outcome(cfg, sha, rows, moves[..|moves| - 1]), moves[|moves| - 1])
  }

  // ---------- Checks, and logins in flight ----------

  predicate Counts(cfg: Config, sha: string -> string, w: World, m: Move, key: string, start: real) {
    Passes(sha, w, m) && LockKey(sha, m.ip, m.user) == key && InWindow(cfg, start, m.now)
  }

  /** The passwords checked for one lock key from `start` until a lockout length later. */
  function PasswordChecks(cfg: Config, sha: string -> string, rows: Rows, moves: seq<Move>, key: string, start: real): nat {
    if moves == [] then 0
    else
      var n := |moves| - 1;
      PasswordChecks(cfg, sha, rows, moves[..n], key, start) +
      (if Counts(cfg, sha, Outcome(cfg, sha, rows, moves[..n]), moves[n], key, start) then 1 else 0)
  }

  function InFlight(sha: string -> string, w: World, key: string): set<nat> {
    set t | t in w.flights && KeyOf(sha, w.flights[t]) == key
  }

  function Max(a: nat, b: nat): nat {
    if a < b then b else a
  }

  /** The most logins of the key that were in flight at one time within the window. */
  function Peak(cfg: Config, sha: string -> string, rows: Rows, moves: seq<Move>, key: string, start: real): nat {
    if moves == [] then 0
    else
      var n := |moves| - 1;
      var before := Peak(cfg, sha, rows, moves[..n], key, start);
      if InWindow(cfg, start, moves[n].now) then Max(before, |InFlight(sha, Outcome(cfg, sha, rows, moves), key)|) else before
  }

  /** A successful login of the key is recorded in the window. */
  predicate Resets(cfg: Config, sha: string -> string, w: World, m: Move, key: string, start: real) {
    m.Record? && m.t in w.flights && KeyOf(sha, w.flights[m.t]) == key && w.flights[m.t].correct && InWindow(cfg, start, m.now)
  }

  predicate NoResets(cfg: Config, sha: string -> string, rows: Rows, moves: seq<Move>, key: string, start: real) {
    moves != [] ==>
      var n := |moves| - 1;
      NoResets(cfg, sha, rows, moves[..n], key, start) && !Resets(cfg, sha, Outcome(cfg, sha, rows, moves[..n]), moves[n], key, start)
  }

  predicate Ordered(moves: seq<Move>) {
    |moves| > 1 ==> Ordered(moves[..|moves| - 1]) && moves[|moves| - 2].now <= moves[|moves| - 1].now
  }

  /** No login counts under the key by its user name. */
  ghost predicate Apart(sha: string -> string, moves: seq<Move>, key: string) {
    forall i :: 0 <= i < |moves| && moves[i].Check? ==> UserKey(sha, moves[i].user) != key
  }

  /** Counters are counts; and the key is not one that a user name counts under. */
  ghost predicate Fair(sha: string -> string, rows: Rows, moves: seq<Move>, key: string) {
    && Ordered(moves)
    && (forall k :: k in rows ==> 0 <= rows[k].attempts)
    && Apart(sha, moves, key)
  }

  // ---------- The bound ----------

  /** Failures recorded since the window opened, as far as they still matter. */
  function Tally(cfg: Config, rows: Rows, key: string, start: real): int {
    if key in rows && start <= rows[key].last then
      if rows[key].attempts < Bound(cfg) then rows[key].attempts else Bound(cfg) - 1
    else 0
  }

  ghost predicate LockedOut(cfg: Config, rows: Rows, key: string, start: real) {
    key in rows && rows[key].lockedUntil.Some? && rows[key].lockedUntil.value >= start + cfg.lockout
  }

  /** While the window is open. */
  ghost predicate OpenInv(cfg: Config, sha: string -> string, w: World, key: string, start: real, made: nat, peak: nat) {
    || made == 0
    || (LockedOut(cfg, w.rows, key, start) && made <= Bound(cfg) + peak - 1)
    || (made <= Tally(cfg, w.rows, key, start) + |InFlight(sha, w, key)| && |InFlight(sha, w, key)| <= peak)
  }

  ghost predicate WorldOk(sha: string -> string, w: World, key: string) {
    && (forall k :: k in w.rows ==> 0 <= w.rows[k].attempts)
    && (forall t :: t in w.flights ==> UserKey(sha, w.flights[t].user) != key)
  }

  lemma TakesOff(sha: string -> string, w: World, t: nat, f: Flight, key: string)
    requires t !in w.flights
    ensures InFlight(sha, w.(flights := w.flights[t := f]), key) == InFlight(sha, w, key) + (if KeyOf(sha, f) == key then {t} else {})
  {
  }

  lemma Lands(sha: string -> string, w: World, rows: Rows, t: nat, key: string)
    requires t in w.flights
    ensures InFlight(sha, World(rows, w.flights - {t}), key) == InFlight(sha, w, key) - {t}
    ensures t in InFlight(sha, w, key) <==> KeyOf(sha, w.flights[t]) == key
  {
  }

  lemma CheckKeepsBound(
    cfg: Config, sha: string -> string, w: World, m: Move, key: string, start: real, made: nat, peak: nat)
    requires m.Check? && InWindow(cfg, start, m.now) && WorldOk(sha, w, key) && OpenInv(cfg, sha, w, key, start, made, peak)
    ensures var w' := MoveStep(cfg, sha, w, m);
      OpenInv(cfg, sha, w', key, start, if Counts(cfg, sha, w, m, key, start) then made + 1 else made,
        Max(peak, |InFlight(sha, w', key)|))
  {
    if Passes(sha, w, m) {
      TakesOff(sha, w, m.t, Flight(m.ip, m.user, m.correct), key);
      assert m.t !in InFlight(sha, w, key);
    }
  }

  /** The key's row after one more failure: locked past the window, or one more on the tally. */
  lemma FailureCounts(cfg: Config, sha: string -> string, rows: Rows, f: Flight, now: real, key: string, start: real)
    requires KeyOf(sha, f) == key && UserKey(sha, f.user) != key && !f.correct && start <= now
    requires key in rows ==> 0 <= rows[key].attempts
    ensures var rows' := Recorded(cfg, sha, rows, f, now);
      || LockedOut(cfg, rows', key, start)
      || Tally(cfg, rows', key, start) >= Tally(cfg, rows, key, start) + 1
    ensures LockedOut(cfg, rows, key, start) ==> LockedOut(cfg, Recorded(cfg, sha, rows, f, now), key, start)
  {
  }

  lemma OtherKeysRow(cfg: Config, sha: string -> string, rows: Rows, f: Flight, now: real, key: string)
    requires KeyOf(sha, f) != key && UserKey(sha, f.user) != key
    ensures var rows' := Recorded(cfg, sha, rows, f, now);
      (key in rows' <==> key in rows) && (key in rows ==> rows'[key] == rows[key])
  {
  }

  lemma RecordKeepsBound(
    cfg: Config, sha: string -> string, w: World, m: Move, key: string, start: real, made: nat, peak: nat)
    requires m.Record? && InWindow(cfg, start, m.now) && WorldOk(sha, w, key) && OpenInv(cfg, sha, w, key, start, made, peak)
    requires !Resets(cfg, sha, w, m, key, start)
    ensures var w' := MoveStep(cfg, sha, w, m);
      OpenInv(cfg, sha, w', key, start, made, Max(peak, |InFlight(sha, w', key)|))
  {
    if m.t in w.flights {
      var f := w.flights[m.t];
      var rows := Recorded(cfg, sha, w.rows, f, m.now);
      Lands(sha, w, rows, m.t, key);
      if KeyOf(sha, f) == key {
        FailureCounts(cfg, sha, w.rows, f, m.now, key, start);
      } else {
        OtherKeysRow(cfg, sha, w.rows, f, m.now, key);
        assert InFlight(sha, w, key) - {m.t} == InFlight(sha, w, key);
      }
    }
  }

  lemma CleanKeepsBound(
    cfg: Config, sha: string -> string, w: World, m: Move, key: string, start: real, made: nat, peak: nat)
    requires cfg.lockout <= cfg.retention || cfg.maxAttempts <= 1
    requires 0.0 <= cfg.retention && m.Clean? && InWindow(cfg, start, m.now) && OpenInv(cfg, sha, w, key, start, made, peak)
    requires WorldOk(sha, w, key)
    ensures var w' := MoveStep(cfg, sha, w, m);
      OpenInv(cfg, sha, w', key, start, made, Max(peak, |InFlight(sha, w', key)|))
  {
    assert InFlight(sha, MoveStep(cfg, sha, w, m), key) == InFlight(sha, w, key);
  }

  lemma MoveKeepsBound(
    cfg: Config, sha: string -> string, w: World, m: Move, key: string, start: real, made: nat, peak: nat)
    requires cfg.lockout <= cfg.retention || cfg.maxAttempts <= 1
    requires 0.0 <= cfg.retention && InWindow(cfg, start, m.now) && WorldOk(sha, w, key)
    requires OpenInv(cfg, sha, w, key, start, made, peak) && !Resets(cfg, sha, w, m, key, start)
    ensures var w' := MoveStep(cfg, sha, w, m);
      OpenInv(cfg, sha, w', key, start, if Counts(cfg, sha, w, m, key, start) then made + 1 else made,
        Max(peak, |InFlight(sha, w', key)|))
  {
    match m
    case Check(_, _, _, _, _) => CheckKeepsBound(cfg, sha, w, m, key, start, made, peak);
    case Record(_, _) => RecordKeepsBound(cfg, sha, w, m, key, start, made, peak);
    case Clean(_) => CleanKeepsBound(cfg, sha, w, m, key, start, made, peak);
  }

  lemma MoveKeepsOk(cfg: Config, sha: string -> string, w: World, m: Move, key: string)
    requires WorldOk(sha, w, key) && (m.Check? ==> UserKey(sha, m.user) != key)
    ensures WorldOk(sha, MoveStep(cfg, sha, w, m), key)
  {
  }

  lemma FairBefore(sha: string -> string, rows: Rows, moves: seq<Move>, key: string)
    requires Fair(sha, rows, moves, key) && moves != []
    ensures Fair(sha, rows, moves[..|moves| - 1], key)
  {
  }

  lemma {:induction false} WorldStaysOk(cfg: Config, sha: string -> string, rows: Rows, moves: seq<Move>, key: string)
    requires Fair(sha, rows, moves, key)
    ensures WorldOk(sha, Outcome(cfg, sha, rows, moves), key)
  {
    if moves != [] {
      var n := |moves| - 1;
      FairBefore(sha, rows, moves, key);
      WorldStaysOk(cfg, sha, rows, moves[..n], key);
      MoveKeepsOk(cfg, sha, Outcome(cfg, sha, rows, moves[..n]), moves[n], key);
    }
  }

  lemma OpenIsBounded(cfg: Config, sha: string -> string, w: World, key: string, start: real, made: nat, peak: nat)
    requires OpenInv(cfg, sha, w, key, start, made, peak)
    ensures made <= Bound(cfg) + Max(peak, 1) - 1
  {
  }

  /** Every check so far is covered, and no check comes before the window. */
  lemma {:induction false} RacesAreBounded(
    cfg: Config, sha: string -> string, rows: Rows, moves: seq<Move>, key: string, start: real)
    requires cfg.lockout <= cfg.retention || cfg.maxAttempts <= 1
    requires 0.0 <= cfg.retention && Fair(sha, rows, moves, key) && NoResets(cfg, sha, rows, moves, key, start)
    ensures var made, peak := PasswordChecks(cfg, sha, rows, moves, key, start), Peak(cfg, sha, rows, moves, key, start);
      && made <= Bound(cfg) + Max(peak, 1) - 1
      && (made > 0 ==> start <= moves[|moves| - 1].now)
      && (moves == [] || moves[|moves| - 1].now < start + cfg.lockout ==> OpenInv(cfg, sha, Outcome(cfg, sha, rows, moves), key, start, made, peak))
  {
    if moves != [] {
      var n := |moves| - 1;
      RacesAreBounded(cfg, sha, rows, moves[..n], key, start);
      WorldStaysOk(cfg, sha, rows, moves[..n], key);
      var made, peak := PasswordChecks(cfg, sha, rows, moves[..n], key, start), Peak(cfg, sha, rows, moves[..n], key, start);
      if InWindow(cfg, start, moves[n].now) {
        var w := Outcome(cfg, sha, rows, moves[..n]);
        MoveKeepsBound(cfg, sha, w, moves[n], key, start, made, peak);
        OpenIsBounded(cfg, sha, MoveStep(cfg, sha, w, moves[n]), key, start,
          PasswordChecks(cfg, sha, rows, moves, key, start), Peak(cfg, sha, rows, moves, key, start));
      }
    }
  }

  // ---------- Logins one after the other ----------

  /** A login that overlaps no other is the whole handler. */
  lemma AloneIsTheHandler(cfg: Config, sha: string -> string, w: World, e: Event, t: nat)
    requires e.Login? && t !in w.flights
    ensures var w' := MoveStep(cfg, sha, MoveStep(cfg, sha, w, Check(e.now, t, e.ip, e.user, e.correct)), Record(e.now, t));
      w'.rows == LoginStep(cfg, sha, w.rows, e).0 && w'.flights == w.flights
  {
    var m := Check(e.now, t, e.ip, e.user, e.correct);
    if Passes(sha, w, m) {
      assert w.flights[t := Flight(e.ip, e.user, e.correct)] - {t} == w.flights;
    }
  }

  /** The same logins, none overlapping another. */
  function InTurn(trace: seq<Event>): seq<Move> {
    if trace == [] then []
    else
      var e := trace[|trace| - 1];
      InTurn(trace[..|trace| - 1]) +
      match e
      case Login(now, ip, user, correct) => [Check(now, 0, ip, user, correct), Record(now, 0)]
      case Cleanup(now) => [Clean(now)]
  }

  lemma OneMoreMove(
    cfg: Config, sha: string -> string, rows: Rows, moves: seq<Move>, m: Move, key: string, start: real)
    ensures var w, w' := Outcome(cfg, sha, rows, moves), Outcome(cfg, sha, rows, moves + [m]);
      && w' == MoveStep(cfg, sha, w, m)
      && PasswordChecks(cfg, sha, rows, moves + [m], key, start)
           == PasswordChecks(cfg, sha, rows, moves, key, start) + (if Counts(cfg, sha, w, m, key, start) then 1 else 0)
      && Peak(cfg, sha, rows, moves + [m], key, start)
           == (if InWindow(cfg, start, m.now) then Max(Peak(cfg, sha, rows, moves, key, start), |InFlight(sha, w', key)|)
               else Peak(cfg, sha, rows, moves, key, start))
      && (NoResets(cfg, sha, rows, moves + [m], key, start) <==>
            NoResets(cfg, sha, rows, moves, key, start) && !Resets(cfg, sha, w, m, key, start))
      && (Ordered(moves + [m]) <==> Ordered(moves) && (moves != [] ==> moves[|moves| - 1].now <= m.now))
  {
    assert (moves + [m])[..|moves|] == moves;
  }

  /** No two logins overlap within the window, none resets the key, and all are over by `now`. */
  ghost predicate Calm(cfg: Config, sha: string -> string, rows: Rows, moves: seq<Move>, key: string, start: real, now: real) {
    && Peak(cfg, sha, rows, moves, key, start) <= 1 && NoResets(cfg, sha, rows, moves, key, start)
    && Ordered(moves) && (moves != [] ==> moves[|moves| - 1].now <= now)
  }

  lemma OneInFlight(sha: string -> string, w: World, key: string)
    requires forall t :: t in w.flights ==> t == 0
    ensures |InFlight(sha, w, key)| <= 1
  {
    var fs := InFlight(sha, w, key);
    if fs != {} { assert fs == {0}; }
  }

  lemma StaysCalm(cfg: Config, sha: string -> string, rows: Rows, moves: seq<Move>, m: Move, key: string, start: real)
    requires Calm(cfg, sha, rows, moves, key, start, m.now)
    requires !Resets(cfg, sha, Outcome(cfg, sha, rows, moves), m, key, start)
    requires forall t :: t in MoveStep(cfg, sha, Outcome(cfg, sha, rows, moves), m).flights ==> t == 0
    ensures Calm(cfg, sha, rows, moves + [m], key, start, m.now)
  {
    OneMoreMove(cfg, sha, rows, moves, m, key, start);
    OneInFlight(sha, MoveStep(cfg, sha, Outcome(cfg, sha, rows, moves), m), key);
  }

  lemma CleanInTurn(cfg: Config, sha: string -> string, rows: Rows, moves: seq<Move>, now: real, key: string, start: real)
    requires Calm(cfg, sha, rows, moves, key, start, now) && Outcome(cfg, sha, rows, moves).flights == map[]
    ensures var moves' := moves + [Clean(now)]; var w := Outcome(cfg, sha, rows, moves);
      && Calm(cfg, sha, rows, moves', key, start, now)
      && Outcome(cfg, sha, rows, moves') == World(CleanupStep(cfg, w.rows, now), map[])
      && PasswordChecks(cfg, sha, rows, moves', key, start) == PasswordChecks(cfg, sha, rows, moves, key, start)
  {
    OneMoreMove(cfg, sha, rows, moves, Clean(now), key, start);
    StaysCalm(cfg, sha, rows, moves, Clean(now), key, start);
  }

  lemma CheckInTurn(cfg: Config, sha: string -> string, rows: Rows, moves: seq<Move>, e: Event, key: string, start: real)
    requires e.Login? && Calm(cfg, sha, rows, moves, key, start, e.now) && Outcome(cfg, sha, rows, moves).flights == map[]
    ensures var check := Check(e.now, 0, e.ip, e.user, e.correct); var w := Outcome(cfg, sha, rows, moves);
      && Calm(cfg, sha, rows, moves + [check], key, start, e.now)
      && Outcome(cfg, sha, rows, moves + [check]) == MoveStep(cfg, sha, w, check)
      && PasswordChecks(cfg, sha, rows, moves + [check], key, start) == PasswordChecks(cfg, sha, rows, moves, key, start)
           + (if For(sha, e, key) && InWindow(cfg, start, e.now) && !Locked(w.rows, key, e.now) then 1 else 0)
  {
    var check := Check(e.now, 0, e.ip, e.user, e.correct);
    OneMoreMove(cfg, sha, rows, moves, check, key, start);
    StaysCalm(cfg, sha, rows, moves, check, key, start);
  }

  lemma LoginInTurn(cfg: Config, sha: string -> string, rows: Rows, moves: seq<Move>, e: Event, key: string, start: real)
    requires e.Login? && Calm(cfg, sha, rows, moves, key, start, e.now) && Outcome(cfg, sha, rows, moves).flights == map[]
    requires !(For(sha, e, key) && InWindow(cfg, start, e.now) && e.correct)
    ensures var moves' := moves + [Check(e.now, 0, e.ip, e.user, e.correct), Record(e.now, 0)]; var w := Outcome(cfg, sha, rows, moves);
      && Calm(cfg, sha, rows, moves', key, start, e.now)
      && Outcome(cfg, sha, rows, moves') == World(LoginStep(cfg, sha, w.rows, e).0, map[])
      && PasswordChecks(cfg, sha, rows, moves', key, start) == PasswordChecks(cfg, sha, rows, moves, key, start)
           + (if For(sha, e, key) && InWindow(cfg, start, e.now) && !Locked(w.rows, key, e.now) then 1 else 0)
  {
    var check, record := Check(e.now, 0, e.ip, e.user, e.correct), Record(e.now, 0);
    assert moves + [check, record] == (moves + [check]) + [record];
    CheckInTurn(cfg, sha, rows, moves, e, key, start);
    AloneIsTheHandler(cfg, sha, Outcome(cfg, sha, rows, moves), e, 0);
    OneMoreMove(cfg, sha, rows, moves + [check], record, key, start);
    StaysCalm(cfg, sha, rows, moves + [check], record, key, start);
  }

  lemma TraceBefore(cfg: Config, sha: string -> string, rows: Rows, trace: seq<Event>, key: string, start: real)
    requires trace != [] && InTimeOrder(trace) && NoSuccess(cfg, sha, trace, key, start)
    ensures var n := |trace| - 1;
      && InTimeOrder(trace[..n]) && NoSuccess(cfg, sha, trace[..n], key, start)
      && (n > 0 ==> trace[..n][n - 1].now <= trace[n].now)
  {
  }

  /** Taken in turn, the logins leave the same rows and check the same passwords as the handlers do. */
  lemma {:induction false} InTurnAgrees(
    cfg: Config, sha: string -> string, rows: Rows, trace: seq<Event>, key: string, start: real)
    requires InTimeOrder(trace) && NoSuccess(cfg, sha, trace, key, start)
    ensures Outcome(cfg, sha, rows, InTurn(trace)) == World(Run(cfg, sha, rows, trace), map[])
    ensures PasswordChecks(cfg, sha, rows, InTurn(trace), key, start) == Checks(cfg, sha, rows, trace, key, start)
    ensures trace != [] ==> Calm(cfg, sha, rows, InTurn(trace), key, start, trace[|trace| - 1].now)
  {
    if trace != [] {
      var n := |trace| - 1;
      TraceBefore(cfg, sha, rows, trace, key, start);
      InTurnAgrees(cfg, sha, rows, trace[..n], key, start);
      EventInTurn(cfg, sha, rows, trace, key, start);
    }
  }

  lemma EventInTurn(cfg: Config, sha: string -> string, rows: Rows, trace: seq<Event>, key: string, start: real)
    requires trace != [] && NoSuccess(cfg, sha, trace, key, start)
    requires var n := |trace| - 1;
      && Outcome(cfg, sha, rows, InTurn(trace[..n])) == World(Run(cfg, sha, rows, trace[..n]), map[])
      && PasswordChecks(cfg, sha, rows, InTurn(trace[..n]), key, start) == Checks(cfg, sha, rows, trace[..n], key, start)
      && Calm(cfg, sha, rows, InTurn(trace[..n]), key, start, trace[n].now)
    ensures Outcome(cfg, sha, rows, InTurn(trace)) == World(Run(cfg, sha, rows, trace), map[])
    ensures PasswordChecks(cfg, sha, rows, InTurn(trace), key, start) == Checks(cfg, sha, rows, trace, key, start)
    ensures Calm(cfg, sha, rows, InTurn(trace), key, start, trace[|trace| - 1].now)
  {
    var n := |trace| - 1;
    var e, moves := trace[n], InTurn(trace[..n]);
    match e
    case Login(_, _, _, _) => LoginInTurn(cfg, sha, rows, moves, e, key, start);
    case Cleanup(now) => CleanInTurn(cfg, sha, rows, moves, now, key, start);
  }

  lemma {:induction false} InTurnUsers(sha: string -> string, trace: seq<Event>, key: string)
    requires forall i :: 0 <= i < |trace| && trace[i].Login? ==> UserKey(sha, trace[i].user) != key
    ensures Apart(sha, InTurn(trace), key)
  {
    if trace != [] { InTurnUsers(sha, trace[..|trace| - 1], key); }
  }

  // ---------- Main results ----------

  /** At most MAX_LOGIN_ATTEMPTS checks, and one for each further login in flight at the busiest time. */
  ghost predicate RacesBounded(cfg: Config, sha: string -> string) {
    forall rows, moves, key, start :: Fair(sha, rows, moves, key) && NoResets(cfg, sha, rows, moves, key, start) ==>
      PasswordChecks(cfg, sha, rows, moves, key, start) <= Bound(cfg) + Max(Peak(cfg, sha, rows, moves, key, start), 1) - 1
  }

  lemma EagerCleanupBreaksIt(cfg: Config, sha: string -> string)
    requires 0.0 <= cfg.retention < cfg.lockout && 1 < cfg.maxAttempts
    ensures !RacesBounded(cfg, sha)
  {
    var at, key := (cfg.retention + cfg.lockout) / 2.0, LockKey(sha, "1", "bo");
    var trace := EagerTrace(cfg, at);
    EagerTraceChecks(cfg, sha, at);
    EagerTraceIsFair(cfg, sha, at);
    InTurnAgrees(cfg, sha, map[], trace, key, 0.0);
    InTurnUsers(sha, trace, key);
    assert trace != [] by { FailuresAre(cfg.maxAttempts, at); }
    assert Fair(sha, map[], InTurn(trace), key);
    assert NoResets(cfg, sha, map[], InTurn(trace), key, 0.0);
  }

  /**
   * In any half-open window of the lockout length without a recorded success, at most
   * MAX_LOGIN_ATTEMPTS passwords are checked for one key and one more for each further
   * login in flight at the busiest time, however logins and the cleanup interleave, exactly
   * when the cleanup retains rows for at least the lockout (or one failure already locks).
   */
  lemma RacesBoundedExactly(cfg: Config, sha: string -> string)
    requires 0.0 <= cfg.retention
    ensures RacesBounded(cfg, sha) <==> cfg.lockout <= cfg.retention || cfg.maxAttempts <= 1
  {
    if cfg.lockout <= cfg.retention || cfg.maxAttempts <= 1 {
      forall rows, moves, key, start | Fair(sha, rows, moves, key) && NoResets(cfg, sha, rows, moves, key, start)
        ensures PasswordChecks(cfg, sha, rows, moves, key, start) <= Bound(cfg) + Max(Peak(cfg, sha, rows, moves, key, start), 1) - 1
      {
        RacesAreBounded(cfg, sha, rows, moves, key, start);
      }
    } else {
      EagerCleanupBreaksIt(cfg, sha);
    }
  }

  /** Then `k` logins that all pass the limit before any of them is recorded. */
  function Volley(base: seq<Move>, k: nat): seq<Move> {
    if k == 0 then base else Volley(base, k - 1) + [Check(0.0, k - 1, "1", "bo", false)]
  }

  ghost predicate Airborne(sha: string -> string, w: World, k: nat) {
    && (forall t: nat :: t in w.flights <==> t < k)
    && (forall t :: t in w.flights ==> w.flights[t] == Flight("1", "bo", false))
    && |InFlight(sha, w, LockKey(sha, "1", "bo"))| == k
  }

  lemma OneMoreAirborne(sha: string -> string, cfg: Config, w: World, k: nat)
    requires Airborne(sha, w, k) && !Locked(w.rows, LockKey(sha, "1", "bo"), 0.0)
    ensures var w' := MoveStep(cfg, sha, w, Check(0.0, k, "1", "bo", false)); w'.rows == w.rows && Airborne(sha, w', k + 1)
  {
    var key := LockKey(sha, "1", "bo");
    TakesOff(sha, w, k, Flight("1", "bo", false), key);
    assert k !in InFlight(sha, w, key);
  }

  /** `made` checks in turn, then `k` at once. */
  ghost predicate Massed(cfg: Config, sha: string -> string, moves: seq<Move>, rows: Rows, made: nat, k: nat) {
    var key, w := LockKey(sha, "1", "bo"), Outcome(cfg, sha, map[], moves);
    && w.rows == rows && Airborne(sha, w, k) && PasswordChecks(cfg, sha, map[], moves, key, 0.0) == made + k
    && (Peak(cfg, sha, map[], moves, key, 0.0) == k || (k == 0 && Peak(cfg, sha, map[], moves, key, 0.0) == 1))
    && NoResets(cfg, sha, map[], moves, key, 0.0) && Ordered(moves) && (moves != [] ==> moves[|moves| - 1].now <= 0.0)
  }

  lemma OneMoreMassed(cfg: Config, sha: string -> string, moves: seq<Move>, rows: Rows, made: nat, k: nat)
    requires Massed(cfg, sha, moves, rows, made, k) && !Locked(rows, LockKey(sha, "1", "bo"), 0.0) && cfg.lockout > 0.0
    ensures Massed(cfg, sha, moves + [Check(0.0, k, "1", "bo", false)], rows, made, k + 1)
  {
    OneMoreMove(cfg, sha, map[], moves, Check(0.0, k, "1", "bo", false), LockKey(sha, "1", "bo"), 0.0);
    OneMoreAirborne(sha, cfg, Outcome(cfg, sha, map[], moves), k);
  }

  lemma {:induction false} VolleyPasses(cfg: Config, sha: string -> string, base: seq<Move>, rows: Rows, made: nat, k: nat)
    requires Massed(cfg, sha, base, rows, made, 0) && !Locked(rows, LockKey(sha, "1", "bo"), 0.0) && cfg.lockout > 0.0
    ensures Massed(cfg, sha, Volley(base, k), rows, made, k)
  {
    if k > 0 {
      VolleyPasses(cfg, sha, base, rows, made, k - 1);
      OneMoreMassed(cfg, sha, Volley(base, k - 1), rows, made, k - 1);
    }
  }

  lemma {:induction false} VolleyUsers(sha: string -> string, base: seq<Move>, k: nat, key: string)
    requires UserKey(sha, "bo") != key && Apart(sha, base, key)
    ensures Apart(sha, Volley(base, k), key)
  {
    if k > 0 { VolleyUsers(sha, base, k - 1, key); }
  }

  /** All but one of the allowed failures in turn, then `k` logins at once. */
  function Rush(cfg: Config, k: nat): seq<Move> {
    Volley(InTurn(Failures(Bound(cfg) - 1, 0.0)), k)
  }

  lemma FailuresRun(cfg: Config, sha: string -> string, n: nat)
    requires cfg.lockout > 0.0 && (n == 0 || n < cfg.maxAttempts)
    ensures var key, first := LockKey(sha, "1", "bo"), Failures(n, 0.0);
      && !Locked(Run(cfg, sha, map[], first), key, 0.0) && Checks(cfg, sha, map[], first, key, 0.0) == n
  {
    if n > 0 {
      assert [] + Failures(n, 0.0) == Failures(n, 0.0);
      FailuresAreChecked(cfg, sha, [], n, 0.0);
    }
  }

  lemma FailuresInTurn(cfg: Config, sha: string -> string, n: nat)
    requires cfg.lockout > 0.0 && (n == 0 || n < cfg.maxAttempts)
    ensures var first := Failures(n, 0.0); Massed(cfg, sha, InTurn(first), Run(cfg, sha, map[], first), n, 0)
  {
    var key, first := LockKey(sha, "1", "bo"), Failures(n, 0.0);
    FailuresAre(n, 0.0);
    FailuresRun(cfg, sha, n);
    InTurnAgrees(cfg, sha, map[], first, key, 0.0);
    assert InFlight(sha, World(Run(cfg, sha, map[], first), map[]), key) == {};
    if n == 0 {
      assert InTurn(first) == [];
    } else {
      assert Calm(cfg, sha, map[], InTurn(first), key, 0.0, 0.0);
    }
  }

  lemma RushUsers(cfg: Config, sha: string -> string, k: nat)
    ensures Apart(sha, Rush(cfg, k), LockKey(sha, "1", "bo"))
  {
    var n := Bound(cfg) - 1;
    BoKeysDiffer(sha);
    FailuresAre(n, 0.0);
    InTurnUsers(sha, Failures(n, 0.0), LockKey(sha, "1", "bo"));
    VolleyUsers(sha, InTurn(Failures(n, 0.0)), k, LockKey(sha, "1", "bo"));
  }

  /** The bound is reached for every number of logins in flight. */
  lemma BoundIsReached(cfg: Config, sha: string -> string, k: nat)
    requires cfg.lockout > 0.0 && 1 <= k
    ensures var key, moves := LockKey(sha, "1", "bo"), Rush(cfg, k);
      && Fair(sha, map[], moves, key) && NoResets(cfg, sha, map[], moves, key, 0.0)
      && Peak(cfg, sha, map[], moves, key, 0.0) == k
      && PasswordChecks(cfg, sha, map[], moves, key, 0.0) == Bound(cfg) + k - 1
  {
    var n := Bound(cfg) - 1;
    FailuresRun(cfg, sha, n);
    FailuresInTurn(cfg, sha, n);
    VolleyPasses(cfg, sha, InTurn(Failures(n, 0.0)), Run(cfg, sha, map[], Failures(n, 0.0)), n, k);
    RushUsers(cfg, sha, k);
  }
}
