// The login rate limit of api/routes/auth.py with the cleanup of login_attempts in
// api/jobs/cleanup_tasks.py. Times are seconds.

module LoginLockout {
  import opened Wrappers

  /** MAX_LOGIN_ATTEMPTS, LOGIN_LOCKOUT_MINUTES and LOGIN_ATTEMPTS_RETENTION. */
  datatype Config = Config(maxAttempts: int, lockout: real, retention: real)

  datatype Row = Row(attempts: int, lockedUntil: Option<real>, last: real)
  type Rows = map<string, Row>

  // ---------- Keys ----------

  const KEY_MAX_LEN := 64

  function Normalize(sha: string -> string, key: string): string {
    if |key| <= KEY_MAX_LEN then key else sha(key)
  }

  function UserKey(sha: string -> string, user: string): string {
    Normalize(sha, "user:" + user)
  }

  function LockKey(sha: string -> string, ip: string, user: string): string {
    Normalize(sha, "ip:" + ip + "|user:" + user)
  }

  predicate IsHex(c: char) {
    '0' <= c <= '9' || 'a' <= c <= 'f'
  }

  /** A hex digest of 64 characters. */
  ghost predicate IsHexDigest(sha: string -> string) {
    forall s :: |sha(s)| == 64 && IsHex(sha(s)[0])
  }

  /** A username key is never an (IP, username) key, hashed or not. */
  lemma UserAndLockKeysDiffer(sha: string -> string, ip: string, user: string, other: string)
    requires IsHexDigest(sha)
    requires sha("user:" + other) == sha("ip:" + ip + "|user:" + user) ==> "user:" + other == "ip:" + ip + "|user:" + user
    ensures UserKey(sha, other) != LockKey(sha, ip, user)
  {
    var u, l := "user:" + other, "ip:" + ip + "|user:" + user;
    assert u[0] == 'u' && l[0] == 'i';
    assert IsHex(sha(u)[0]) && IsHex(sha(l)[0]);
  }

  /** Addresses hold no '|', so different (IP, username) pairs have different keys. */
  lemma LockKeysDiffer(sha: string -> string, ip: string, user: string, ip': string, user': string)
    requires IsHexDigest(sha) && '|' !in ip && '|' !in ip'
    requires sha("ip:" + ip + "|user:" + user) == sha("ip:" + ip' + "|user:" + user') ==>
      "ip:" + ip + "|user:" + user == "ip:" + ip' + "|user:" + user'
    requires LockKey(sha, ip, user) == LockKey(sha, ip', user')
    ensures ip == ip' && user == user'
  {
    var a, b := "ip:" + ip + "|user:" + user, "ip:" + ip' + "|user:" + user';
    assert a[0] == 'i' && b[0] == 'i';
    assert IsHex(sha(a)[0]) && IsHex(sha(b)[0]);
    assert a == b;
    BarAt(ip, user);
    BarAt(ip', user');
    assert ip == a[3..3 + |ip|] && ip' == b[3..3 + |ip'|];
    assert user == a[9 + |ip|..] && user' == b[9 + |ip'|..];
  }

  /** The first '|' of a lock key ends the address. */
  lemma BarAt(ip: string, user: string)
    requires '|' !in ip
    ensures var k := "ip:" + ip + "|user:" + user;
      |k| == 9 + |ip| + |user| && k[3 + |ip|] == '|' && forall i :: 0 <= i < 3 + |ip| ==> k[i] != '|'
  {
    var k := "ip:" + ip + "|user:" + user;
    assert forall i :: 3 <= i < 3 + |ip| ==> k[i] == ip[i - 3];
  }

  // ---------- The three helpers and the handler ----------

  predicate Locked(rows: Rows, key: string, now: real) {
    key in rows && rows[key].lockedUntil.Some? && rows[key].lockedUntil.value > now
  }

  /** The counter after one more failure. */
  function Counted(rows: Rows, key: string): int {
    if key in rows then rows[key].attempts + 1 else 1
  }

  function Failed(cfg: Config, rows: Rows, key: string, now: real, allowLockout: bool): Rows {
    var until := if key in rows then rows[key].lockedUntil else None;
    if allowLockout && Counted(rows, key) >= cfg.maxAttempts then rows[key := Row(0, Some(now + cfg.lockout), now)]
    else rows[key := Row(Counted(rows, key), until, now)]
  }

  datatype Reply = TooMany | Denied | Welcome

  datatype Event =
    | Login(now: real, ip: string, user: string, correct: bool)
    | Cleanup(now: real)

  function LoginStep(cfg: Config, sha: string -> string, rows: Rows, e: Event): (Rows, Reply)
    requires e.Login?
  {
    var userKey, lockKey := UserKey(sha, e.user), LockKey(sha, e.ip, e.user);
    if Locked(rows, lockKey, e.now) then (rows, TooMany)
    else if e.correct then (rows - {userKey} - {lockKey}, Welcome)
    else
      var counted := Failed(cfg, rows, userKey, e.now, false);
      (Failed(cfg, counted, lockKey, e.now, true), if Counted(counted, lockKey) >= cfg.maxAttempts then TooMany else Denied)
  }

  predicate Expired(cfg: Config, row: Row, now: real) {
    row.last < now - cfg.retention && (row.lockedUntil.None? || row.lockedUntil.value < now - cfg.retention)
  }

  function CleanupStep(cfg: Config, rows: Rows, now: real): Rows {
    map k | k in rows && !Expired(cfg, rows[k], now) :: rows[k]
  }

  class LoginAttempts {
    var rows: Rows
    const cfg: Config
    const sha: string -> string

    constructor (cfg: Config, sha: string -> string)
      ensures rows == map[] && this.cfg == cfg && this.sha == sha
    {
      this.rows, this.cfg, this.sha := map[], cfg, sha;
    }

    method CheckRateLimit(key: string, now: real) returns (locked: bool)
      ensures locked == Locked(rows, Normalize(sha, key), now)
    {
      var k := Normalize(sha, key);
      if k !in rows || rows[k].lockedUntil.None? { return false; }
      return rows[k].lockedUntil.value > now;
    }

    method RecordFailure(key: string, now: real, allowLockout: bool) returns (locked: bool, remaining: int)
      modifies this`rows
      ensures rows == Failed(cfg, old(rows), Normalize(sha, key), now, allowLockout)
      ensures var attempts := Counted(old(rows), Normalize(sha, key));
        locked == (allowLockout && attempts >= cfg.maxAttempts) && remaining == if locked then 0 else cfg.maxAttempts - attempts
    {
      var k := Normalize(sha, key);
      if k in rows {
        rows := rows[k := rows[k].(attempts := rows[k].attempts + 1, last := now)];
      } else {
        rows := rows[k := Row(1, None, now)];
      }
      var row := rows[k];
      if allowLockout && row.attempts >= cfg.maxAttempts {
        rows := rows[k := row.(lockedUntil := Some(now + cfg.lockout), attempts := 0)];
        assert rows == old(rows)[k := rows[k]];
        return true, 0;
      }
      assert rows == old(rows)[k := row];
      return false, cfg.maxAttempts - row.attempts;
    }

    method ResetAttempts(key: string)
      modifies this`rows
      ensures rows == old(rows) - {Normalize(sha, key)}
    {
      rows := rows - {Normalize(sha, key)};
    }

    method Authenticate(e: Event) returns (reply: Reply)
      requires e.Login?
      modifies this`rows
      ensures (rows, reply) == LoginStep(cfg, sha, old(rows), e)
    {
      var userKey := "user:" + e.user;
      var lockKey := "ip:" + e.ip + "|user:" + e.user;
      var locked := CheckRateLimit(lockKey, e.now);
      if locked { return TooMany; }
      if !e.correct {
        var _, _ := RecordFailure(userKey, e.now, false);
        var remaining;
        locked, remaining := RecordFailure(lockKey, e.now, true);
        return if locked then TooMany else Denied;
      }
      ResetAttempts(userKey);
      ResetAttempts(lockKey);
      return Welcome;
    }

    /** The DELETE statement: its WHERE clause picks the rows, the rest stay untouched. */
    method CleanUp(now: real) returns (deleted: nat)
      modifies this`rows
      ensures forall k :: k in rows <==> k in old(rows) && !Expired(cfg, old(rows)[k], now)
      ensures forall k :: k in rows ==> rows[k] == old(rows)[k]
      ensures deleted == |old(rows)| - |rows|
      ensures rows == CleanupStep(cfg, old(rows), now)
    {
      var gone := set k | k in rows && Expired(cfg, rows[k], now);
      RowsWithout(rows, gone);
      deleted := |gone|;
      rows := rows - gone;
    }
  }

  lemma RowsWithout(rows: Rows, gone: set<string>)
    requires gone <= rows.Keys
    ensures |rows - gone| == |rows| - |gone|
  {
    assert (rows - gone).Keys == rows.Keys - gone;
    assert |rows.Keys| == |rows|;
    assert |(rows - gone).Keys| == |rows - gone|;
  }

  // ---------- Traces ----------

  function Step(cfg: Config, sha: string -> string, rows: Rows, e: Event): Rows {
    match e
    case Login(_, _, _, _) => LoginStep(cfg, sha, rows, e).0
    case Cleanup(now) => CleanupStep(cfg, rows, now)
  }

  function Run(cfg: Config, sha: string -> string, rows: Rows, trace: seq<Event>): Rows {
    if trace == [] then rows else Step(cfg, sha, Run(cfg, sha, rows, trace[..|trace| - 1]), trace[|trace| - 1])
  }

  ghost predicate InTimeOrder(trace: seq<Event>) {
    forall i, j :: 0 <= i < j < |trace| ==> trace[i].now <= trace[j].now
  }

  predicate InWindow(cfg: Config, start: real, now: real) {
    start <= now < start + cfg.lockout
  }

  predicate For(sha: string -> string, e: Event, key: string) {
    e.Login? && LockKey(sha, e.ip, e.user) == key
  }

  /** The password checks made for one lock key from `start` until a lockout length later. */
  function Checks(cfg: Config, sha: string -> string, rows: Rows, trace: seq<Event>, key: string, start: real): nat {
    if trace == [] then 0
    else
      var n := |trace| - 1;
      var before := Run(cfg, sha, rows, trace[..n]);
      Checks(cfg, sha, rows, trace[..n], key, start) +
      (if For(sha, trace[n], key) && InWindow(cfg, start, trace[n].now) && !Locked(before, key, trace[n].now) then 1 else 0)
  }

  function Bound(cfg: Config): int {
    if cfg.maxAttempts < 1 then 1 else cfg.maxAttempts
  }

  /** Counters are counts; and the key is not one that a username counts under. */
  ghost predicate Sound(sha: string -> string, rows: Rows, trace: seq<Event>, key: string) {
    && InTimeOrder(trace)
    && (forall k :: k in rows ==> 0 <= rows[k].attempts)
    && (forall i :: 0 <= i < |trace| && trace[i].Login? ==> UserKey(sha, trace[i].user) != key)
  }

  ghost predicate NoSuccess(cfg: Config, sha: string -> string, trace: seq<Event>, key: string, start: real) {
    forall i :: 0 <= i < |trace| && For(sha, trace[i], key) && InWindow(cfg, start, trace[i].now) ==> !trace[i].correct
  }

  /** After `made` checks in the window: the key is locked to its end, or its counter holds them all. */
  ghost predicate Guarded(cfg: Config, rows: Rows, key: string, start: real, made: int) {
    && key in rows
    && (|| (rows[key].lockedUntil.Some? && rows[key].lockedUntil.value >= start + cfg.lockout)
        || (made <= rows[key].attempts < cfg.maxAttempts && start <= rows[key].last))
  }

  lemma {:induction false} CountersAreCounts(cfg: Config, sha: string -> string, rows: Rows, trace: seq<Event>)
    requires forall k :: k in rows ==> 0 <= rows[k].attempts
    ensures forall k :: k in Run(cfg, sha, rows, trace) ==> 0 <= Run(cfg, sha, rows, trace)[k].attempts
  {
    if trace != [] { CountersAreCounts(cfg, sha, rows, trace[..|trace| - 1]); }
  }

  /** One event, while the window is open. */
  lemma StepKeepsGuard(cfg: Config, sha: string -> string, rows: Rows, e: Event, key: string, start: real, made: nat)
    requires cfg.lockout <= cfg.retention || cfg.maxAttempts <= 1
    requires 0.0 <= cfg.retention && e.now < start + cfg.lockout
    requires e.Login? ==> UserKey(sha, e.user) != key
    requires For(sha, e, key) && start <= e.now ==> !e.correct
    requires forall k :: k in rows ==> 0 <= rows[k].attempts
    requires made > 0 ==> start <= e.now && Guarded(cfg, rows, key, start, made) && made <= Bound(cfg)
    ensures var checked := For(sha, e, key) && InWindow(cfg, start, e.now) && !Locked(rows, key, e.now);
      var made' := if checked then made + 1 else made;
      made' > 0 ==> Guarded(cfg, Step(cfg, sha, rows, e), key, start, made') && made' <= Bound(cfg)
  {
  }

  ghost predicate GuardedAtEnd(cfg: Config, sha: string -> string, rows: Rows, trace: seq<Event>, key: string, start: real, made: nat) {
    && trace != [] && start <= trace[|trace| - 1].now
    && (trace[|trace| - 1].now < start + cfg.lockout ==> Guarded(cfg, Run(cfg, sha, rows, trace), key, start, made))
  }

  lemma {:induction false} ChecksAreGuarded(cfg: Config, sha: string -> string, rows: Rows, trace: seq<Event>, key: string, start: real)
    requires cfg.lockout <= cfg.retention || cfg.maxAttempts <= 1
    requires 0.0 <= cfg.retention && Sound(sha, rows, trace, key) && NoSuccess(cfg, sha, trace, key, start)
    ensures Checks(cfg, sha, rows, trace, key, start) <= Bound(cfg)
    ensures var made := Checks(cfg, sha, rows, trace, key, start);
      made > 0 ==> GuardedAtEnd(cfg, sha, rows, trace, key, start, made)
  {
    if trace != [] {
      var n := |trace| - 1;
      ChecksAreGuarded(cfg, sha, rows, trace[..n], key, start);
      var before := Run(cfg, sha, rows, trace[..n]);
      var made := Checks(cfg, sha, rows, trace[..n], key, start);
      CountersAreCounts(cfg, sha, rows, trace[..n]);
      if made > 0 { assert trace[n - 1].now <= trace[n].now; }
      if trace[n].now < start + cfg.lockout {
        StepKeepsGuard(cfg, sha, before, trace[n], key, start, made);
      }
    }
  }

  // ---------- Main results ----------

  /** The sliding-window bound as a statement about one configuration: every trace, every window, every key. */
  ghost predicate WindowBounded(cfg: Config, sha: string -> string) {
    forall rows, trace, key, start :: Sound(sha, rows, trace, key) && NoSuccess(cfg, sha, trace, key, start) ==>
      Checks(cfg, sha, rows, trace, key, start) <= Bound(cfg)
  }

  /**
   * In any half-open window of the lockout length without a successful login, at most
   * MAX_LOGIN_ATTEMPTS passwords are checked for one key, with the cleanup interleaved at
   * will, exactly when the cleanup retains rows for at least the lockout (or one failure
   * already locks).
   */
  lemma WindowBoundedExactly(cfg: Config, sha: string -> string)
    requires 0.0 <= cfg.retention
    ensures WindowBounded(cfg, sha) <==> cfg.lockout <= cfg.retention || cfg.maxAttempts <= 1
  {
    if cfg.lockout <= cfg.retention || cfg.maxAttempts <= 1 {
      forall rows, trace, key, start | Sound(sha, rows, trace, key) && NoSuccess(cfg, sha, trace, key, start)
        ensures Checks(cfg, sha, rows, trace, key, start) <= Bound(cfg)
      {
        ChecksAreGuarded(cfg, sha, rows, trace, key, start);
      }
    } else {
      EarlyCleanupForgets(cfg, sha);
    }
  }

  function Failures(n: nat, now: real): seq<Event> {
    if n == 0 then [] else Failures(n - 1, now) + [Login(now, "1", "bo", false)]
  }

  lemma {:induction false} FailuresAre(n: nat, now: real)
    ensures |Failures(n, now)| == n && forall i :: 0 <= i < n ==> Failures(n, now)[i] == Login(now, "1", "bo", false)
  {
    if n > 0 { FailuresAre(n - 1, now); }
  }

  lemma BoKeysDiffer(sha: string -> string)
    ensures UserKey(sha, "bo") != LockKey(sha, "1", "bo")
  {
    assert "ip:" + "1" + "|user:" + "bo" == "ip:1|user:bo" && "user:" + "bo" == "user:bo";
    assert "user:bo"[0] != "ip:1|user:bo"[0];
  }

  /** The row of a key after `n` failures on a key that had none. */
  predicate Holds(cfg: Config, rows: Rows, key: string, n: nat, now: real) {
    if n == 0 then key !in rows else n < cfg.maxAttempts ==> key in rows && rows[key] == Row(n, None, now)
  }

  lemma OneFailure(cfg: Config, sha: string -> string, rows: Rows, n: nat, now: real)
    requires n < cfg.maxAttempts && Holds(cfg, rows, LockKey(sha, "1", "bo"), n, now)
    ensures Holds(cfg, Step(cfg, sha, rows, Login(now, "1", "bo", false)), LockKey(sha, "1", "bo"), n + 1, now)
    ensures !Locked(rows, LockKey(sha, "1", "bo"), now)
  {
    BoKeysDiffer(sha);
  }

  lemma OneMoreEvent(cfg: Config, sha: string -> string, trace: seq<Event>, e: Event, key: string)
    ensures Run(cfg, sha, map[], trace + [e]) == Step(cfg, sha, Run(cfg, sha, map[], trace), e)
    ensures Checks(cfg, sha, map[], trace + [e], key, 0.0) == Checks(cfg, sha, map[], trace, key, 0.0) +
      (if For(sha, e, key) && InWindow(cfg, 0.0, e.now) && !Locked(Run(cfg, sha, map[], trace), key, e.now) then 1 else 0)
  {
    assert (trace + [e])[..|trace|] == trace;
  }

  lemma {:induction false} FailuresAreChecked(cfg: Config, sha: string -> string, base: seq<Event>, n: nat, now: real)
    requires n <= cfg.maxAttempts && LockKey(sha, "1", "bo") !in Run(cfg, sha, map[], base)
    requires 0.0 <= now < cfg.lockout
    ensures var key := LockKey(sha, "1", "bo"); var trace := base + Failures(n, now);
      && Checks(cfg, sha, map[], trace, key, 0.0) == Checks(cfg, sha, map[], base, key, 0.0) + n
      && Holds(cfg, Run(cfg, sha, map[], trace), key, n, now)
  {
    if n == 0 {
      assert base + Failures(n, now) == base;
    } else {
      var e := Login(now, "1", "bo", false);
      FailuresAreChecked(cfg, sha, base, n - 1, now);
      var before := base + Failures(n - 1, now);
      assert base + Failures(n, now) == before + [e];
      OneMoreEvent(cfg, sha, before, e, LockKey(sha, "1", "bo"));
      OneFailure(cfg, sha, Run(cfg, sha, map[], before), n - 1, now);
    }
  }

  lemma CleanupBetween(cfg: Config, sha: string -> string, at: real)
    requires 0.0 <= cfg.retention < at < cfg.lockout && 1 < cfg.maxAttempts
    ensures var key := LockKey(sha, "1", "bo"); var base := Failures(cfg.maxAttempts - 1, 0.0) + [Cleanup(at)];
      key !in Run(cfg, sha, map[], base) && Checks(cfg, sha, map[], base, key, 0.0) == cfg.maxAttempts - 1
  {
    var first := Failures(cfg.maxAttempts - 1, 0.0);
    FailuresAreChecked(cfg, sha, [], cfg.maxAttempts - 1, 0.0);
    assert [] + first == first;
    OneMoreEvent(cfg, sha, first, Cleanup(at), LockKey(sha, "1", "bo"));
  }

  /** Failures, a cleanup, and one failure more than before it. */
  function EagerTrace(cfg: Config, at: real): seq<Event>
    requires 1 < cfg.maxAttempts
  {
    Failures(cfg.maxAttempts - 1, 0.0) + [Cleanup(at)] + Failures(cfg.maxAttempts, at)
  }

  lemma EagerTraceIsFair(cfg: Config, sha: string -> string, at: real)
    requires 1 < cfg.maxAttempts && 0.0 <= at
    ensures var key := LockKey(sha, "1", "bo");
      Sound(sha, map[], EagerTrace(cfg, at), key) && NoSuccess(cfg, sha, EagerTrace(cfg, at), key, 0.0)
  {
    BoKeysDiffer(sha);
    FailuresAre(cfg.maxAttempts - 1, 0.0);
    FailuresAre(cfg.maxAttempts, at);
    var trace := EagerTrace(cfg, at);
    var n := cfg.maxAttempts - 1;
    forall i | 0 <= i < |trace| ensures trace[i] == if i == n then Cleanup(at) else Login(if i < n then 0.0 else at, "1", "bo", false) {
    }
  }

  lemma EagerTraceChecks(cfg: Config, sha: string -> string, at: real)
    requires 0.0 <= cfg.retention < at < cfg.lockout && 1 < cfg.maxAttempts
    ensures Checks(cfg, sha, map[], EagerTrace(cfg, at), LockKey(sha, "1", "bo"), 0.0) == 2 * cfg.maxAttempts - 1
  {
    CleanupBetween(cfg, sha, at);
    FailuresAreChecked(cfg, sha, Failures(cfg.maxAttempts - 1, 0.0) + [Cleanup(at)], cfg.maxAttempts, at);
  }

  lemma OneTraceIsEnough(cfg: Config, sha: string -> string, trace: seq<Event>, key: string)
    requires Sound(sha, map[], trace, key) && NoSuccess(cfg, sha, trace, key, 0.0)
    requires Checks(cfg, sha, map[], trace, key, 0.0) > Bound(cfg)
    ensures !WindowBounded(cfg, sha)
  {
  }

  /** A cleanup that is too eager allows nearly twice the bound in one window. */
  lemma EarlyCleanupForgets(cfg: Config, sha: string -> string)
    requires 0.0 <= cfg.retention < cfg.lockout && 1 < cfg.maxAttempts
    ensures !WindowBounded(cfg, sha)
  {
    var at := (cfg.retention + cfg.lockout) / 2.0;
    EagerTraceChecks(cfg, sha, at);
    EagerTraceIsFair(cfg, sha, at);
    OneTraceIsEnough(cfg, sha, EagerTrace(cfg, at), LockKey(sha, "1", "bo"));
  }

  /** A key that no login locks on is never locked; a username key is such a key. */
  lemma {:induction false} OnlyLockKeysLock(cfg: Config, sha: string -> string, rows: Rows, trace: seq<Event>, key: string, now: real)
    requires forall i :: 0 <= i < |trace| ==> !For(sha, trace[i], key)
    requires key in rows ==> rows[key].lockedUntil.None?
    ensures key in Run(cfg, sha, rows, trace) ==> Run(cfg, sha, rows, trace)[key].lockedUntil.None?
    ensures !Locked(Run(cfg, sha, rows, trace), key, now)
  {
    if trace != [] {
      OnlyLockKeysLock(cfg, sha, rows, trace[..|trace| - 1], key, now);
    }
  }

  /**
   * Failures elsewhere never lock this account at this address: whatever other (IP, username)
   * pairs do, the pair's row is untouched or, once past its retention, deleted.
   */
  lemma {:induction false} OthersCannotLock(cfg: Config, sha: string -> string, rows: Rows, trace: seq<Event>, key: string)
    requires forall i :: 0 <= i < |trace| ==> !For(sha, trace[i], key)
    requires forall i :: 0 <= i < |trace| && trace[i].Login? ==> UserKey(sha, trace[i].user) != key
    ensures var rows' := Run(cfg, sha, rows, trace);
      key in rows' ==> key in rows && rows'[key] == rows[key]
    ensures key in rows && key !in Run(cfg, sha, rows, trace) ==>
      exists i :: 0 <= i < |trace| && trace[i].Cleanup? && Expired(cfg, rows[key], trace[i].now)
  {
    if trace != [] {
      var n := |trace| - 1;
      OthersCannotLock(cfg, sha, rows, trace[..n], key);
      if key in rows && key !in Run(cfg, sha, rows, trace[..n]) {
        var i :| 0 <= i < n && trace[..n][i].Cleanup? && Expired(cfg, rows[key], trace[..n][i].now);
        assert trace[i] == trace[..n][i];
      }
    }
  }
}
