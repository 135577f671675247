// BaseConnector.make_request of api/connectors/base.py with the circuit breaker and
// rate-limit state of api/connectors/rate_limiter.py. Times and waits are seconds.

module Connector {
  import opened Wrappers

  const MAX_RETRIES_PER_CALL: nat := 3

  datatype Config = Config(threshold: int, cooldown: real, slowdownAt: real)

  datatype Breaker = Breaker(failures: nat, openedAt: Option<real>)
  datatype Rate = Rate(remaining: Option<int>, limit: Option<int>, retryAfter: Option<real>)
  datatype State = State(breaker: Breaker, rate: Rate)

  /** What the network does with one attempt, at which time; header values are None where absent or unparsable. */
  datatype Attempt =
    | NetworkError(at: real, backoff: real)
    | Answer(at: real, backoff: real, status: int, remaining: Option<int>, limit: Option<int>, retryAfter: Option<real>)

  datatype Outcome = CircuitOpen | Returned(status: int) | Raised | FellThrough

  /** A call's result: how it ended, the requests it sent, the sleeps it made. */
  datatype Result = Result(state: State, outcome: Outcome, requests: nat, waits: seq<real>)

  // ---------- Breaker and rate limit ----------

  function RecordSuccess(b: Breaker): Breaker {
    Breaker(0, None)
  }

  function RecordFailure(cfg: Config, b: Breaker, now: real): Breaker {
    var failures := b.failures + 1;
    if b.openedAt.Some? || failures >= cfg.threshold then Breaker(failures, Some(now)) else Breaker(failures, None)
  }

  predicate Refuses(cfg: Config, b: Breaker, now: real) {
    b.openedAt.Some? && now - b.openedAt.value < cfg.cooldown
  }

  function Newer<T>(header: Option<T>, stored: Option<T>): Option<T> {
    if header.Some? then header else stored
  }

  function Update(rate: Rate, a: Attempt): Rate
    requires a.Answer?
  {
    Rate(Newer(a.remaining, rate.remaining), Newer(a.limit, rate.limit), Newer(a.retryAfter, rate.retryAfter))
  }

  function Slowdown(cfg: Config, rate: Rate): real
    requires cfg.slowdownAt > 0.0
  {
    if rate.remaining.None? || rate.limit.None? || rate.limit.value <= 0 then 0.0
    else
      var ratio := rate.remaining.value as real / rate.limit.value as real;
      if ratio > cfg.slowdownAt then 0.0
      else
        var delay := 2.0 * (1.0 - ratio / cfg.slowdownAt);
        if delay > 0.1 then delay else 0.1
  }

  predicate Due(rate: Rate) {
    rate.retryAfter.Some? && rate.retryAfter.value > 0.0
  }

  // ---------- One call ----------

  predicate Retryable(status: int) {
    status == 429 || status == 503
  }

  /** The retry loop from attempt `i` on; `raised` when some attempt so far ended in a network error. */
  function Try(cfg: Config, st: State, script: seq<Attempt>, i: nat, raised: bool): Result
    requires |script| == MAX_RETRIES_PER_CALL && i <= |script|
    decreases |script| - i
  {
    if i == |script| then
      Result(st.(breaker := RecordFailure(cfg, st.breaker, script[i - 1].at)), if raised then Raised else FellThrough, 0, [])
    else
      var a := script[i];
      var more := i + 1 < MAX_RETRIES_PER_CALL;
      if a.NetworkError? then
        var r := Try(cfg, st.(breaker := RecordFailure(cfg, st.breaker, a.at)), script, i + 1, true);
        r.(requests := r.requests + 1, waits := (if more then [a.backoff] else []) + r.waits)
      else
        var rate := Update(st.rate, a);
        if Retryable(a.status) && more then
          var due := Due(rate);
          var delay := if due then rate.retryAfter.value else a.backoff;
          var r := Try(cfg, st.(rate := if due then rate.(retryAfter := None) else rate), script, i + 1, raised);
          r.(requests := r.requests + 1, waits := [delay] + r.waits)
        else
          var breaker := if a.status < 500 then RecordSuccess(st.breaker) else RecordFailure(cfg, st.breaker, a.at);
          Result(State(breaker, rate), Returned(a.status), 1, [])
  }

  function Call(cfg: Config, st: State, start: real, script: seq<Attempt>): Result
    requires |script| == MAX_RETRIES_PER_CALL && cfg.slowdownAt > 0.0
  {
    if Refuses(cfg, st.breaker, start) then Result(st, CircuitOpen, 0, [])
    else
      var slow := Slowdown(cfg, st.rate);
      var due := Due(st.rate);
      var r := Try(cfg, if due then st.(rate := st.rate.(retryAfter := None)) else st, script, 0, false);
      r.(waits := (if slow > 0.0 then [slow] else []) + (if due then [st.rate.retryAfter.value] else []) + r.waits)
  }

  class BaseConnector {
    const cfg: Config
    var failures: nat
    var openedAt: Option<real>
    var rate: Rate

    constructor (cfg: Config)
      ensures this.cfg == cfg && Current() == State(Breaker(0, None), Rate(None, None, None))
    {
      this.cfg, failures, openedAt, rate := cfg, 0, None, Rate(None, None, None);
    }

    function Current(): State
      reads this
    {
      State(Breaker(failures, openedAt), rate)
    }

    method NoteFailure(now: real)
      modifies this`failures, this`openedAt
      ensures Breaker(failures, openedAt) == RecordFailure(cfg, old(Breaker(failures, openedAt)), now)
    {
      failures := failures + 1;
      if failures >= cfg.threshold && openedAt.None? {
        openedAt := Some(now);
      } else if openedAt.Some? {
        openedAt := Some(now);
      }
    }

    /** One attempt's answer; None when the loop goes on, after the wait it made. */
    method TakeAnswer(a: Attempt, last: bool) returns (status: Option<int>, waits: seq<real>)
      requires a.Answer?
      modifies this
      ensures var updated := Update(old(rate), a);
        if Retryable(a.status) && !last then
          && status == None && (failures, openedAt) == (old(failures), old(openedAt))
          && rate == (if Due(updated) then updated.(retryAfter := None) else updated)
          && waits == [if Due(updated) then updated.retryAfter.value else a.backoff]
        else
          && status == Some(a.status) && waits == [] && rate == updated
          && Breaker(failures, openedAt) ==
               (if a.status < 500 then RecordSuccess(old(Current()).breaker) else RecordFailure(cfg, old(Current()).breaker, a.at))
    {
      rate := Update(rate, a);
      if a.status in {429, 503} && !last {
        var delay := a.backoff;
        if Due(rate) {
          delay := rate.retryAfter.value;
          rate := rate.(retryAfter := None);
        }
        return None, [delay];
      }
      if a.status < 500 {
        failures, openedAt := 0, None;
      } else {
        NoteFailure(a.at);
      }
      return Some(a.status), [];
    }

    method RetryLoop(script: seq<Attempt>) returns (outcome: Outcome, requests: nat, waits: seq<real>)
      requires |script| == MAX_RETRIES_PER_CALL
      modifies this
      ensures Result(Current(), outcome, requests, waits) == Try(cfg, old(Current()), script, 0, false)
    {
      requests, waits := 0, [];
      var lastException := false;
      ghost var whole := Try(cfg, Current(), script, 0, false);
      for i := 0 to MAX_RETRIES_PER_CALL
        invariant requests == i && Continues(whole, Try(cfg, Current(), script, i, lastException), i, waits)
      {
        var a := script[i];
        var last := i + 1 == MAX_RETRIES_PER_CALL;
        ghost var rest := Try(cfg, Current(), script, i, lastException);
        requests := requests + 1;
        var slept := [];
        if a.NetworkError? {
          lastException := true;
          NoteFailure(a.at);
          if !last { slept := [a.backoff]; }
        } else {
          var status;
          status, slept := TakeAnswer(a, last);
          if status.Some? {
            assert rest == Result(Current(), Returned(status.value), 1, []);
            return Returned(status.value), requests, waits;
          }
        }
        ContinuesOn(whole, rest, i, waits, Try(cfg, Current(), script, i + 1, lastException), slept);
        waits := waits + slept;
      }
      NoteFailure(script[MAX_RETRIES_PER_CALL - 1].at);
      return if lastException then Raised else FellThrough, requests, waits;
    }

    /** `script` is what the network would answer to each attempt. */
    method MakeRequest(start: real, script: seq<Attempt>) returns (outcome: Outcome, requests: nat, waits: seq<real>)
      requires |script| == MAX_RETRIES_PER_CALL && cfg.slowdownAt > 0.0
      modifies this
      ensures Result(Current(), outcome, requests, waits) == Call(cfg, old(Current()), start, script)
      ensures outcome != FellThrough
    {
      NeverFallsThrough(cfg, Current(), start, script);
      if openedAt.Some? && start - openedAt.value < cfg.cooldown { return CircuitOpen, 0, []; }
      var before := [];
      var slow := Slowdown(cfg, rate);
      if slow > 0.0 { before := before + [slow]; }
      if Due(rate) {
        before := before + [rate.retryAfter.value];
        rate := rate.(retryAfter := None);
      }
      outcome, requests, waits := RetryLoop(script);
      waits := before + waits;
    }
  }

  /** `rest` is the result of the remaining attempts of a call that made `done` attempts and `waits` so far. */
  ghost predicate Continues(whole: Result, rest: Result, done: nat, waits: seq<real>) {
    whole.state == rest.state && whole.outcome == rest.outcome && whole.requests == done + rest.requests && whole.waits == waits + rest.waits
  }

  lemma ContinuesOn(whole: Result, rest: Result, done: nat, waits: seq<real>, next: Result, slept: seq<real>)
    requires Continues(whole, rest, done, waits)
    requires rest == next.(requests := next.requests + 1, waits := slept + next.waits)
    ensures Continues(whole, next, done + 1, waits + slept)
  {
  }

  // ---------- Single calls ----------

  /** The retry loop runs out only after a network error: the return behind it is never taken. */
  lemma NeverFallsThrough(cfg: Config, st: State, start: real, script: seq<Attempt>)
    requires |script| == MAX_RETRIES_PER_CALL && cfg.slowdownAt > 0.0
    ensures Call(cfg, st, start, script).outcome != FellThrough
    ensures Call(cfg, st, start, script).requests <= MAX_RETRIES_PER_CALL
  {
    if !Refuses(cfg, st.breaker, start) {
      TryNeverFallsThrough(cfg, if Due(st.rate) then st.(rate := st.rate.(retryAfter := None)) else st, script, 0, false);
    }
  }

  lemma {:induction false} TryNeverFallsThrough(cfg: Config, st: State, script: seq<Attempt>, i: nat, raised: bool)
    requires |script| == MAX_RETRIES_PER_CALL && i <= |script| && (i == |script| ==> raised)
    ensures Try(cfg, st, script, i, raised).outcome != FellThrough
    ensures Try(cfg, st, script, i, raised).requests <= |script| - i
    decreases |script| - i
  {
    if i < |script| {
      var a := script[i];
      if a.NetworkError? {
        TryNeverFallsThrough(cfg, st.(breaker := RecordFailure(cfg, st.breaker, a.at)), script, i + 1, true);
      } else if Retryable(a.status) && i + 1 < MAX_RETRIES_PER_CALL {
        var rate := Update(st.rate, a);
        TryNeverFallsThrough(cfg, st.(rate := if Due(rate) then rate.(retryAfter := None) else rate), script, i + 1, raised);
      }
    }
  }

  /** One sleep between any two requests of a call, and none after the last. */
  lemma {:induction false} OneWaitPerRetry(cfg: Config, st: State, script: seq<Attempt>, i: nat, raised: bool)
    requires |script| == MAX_RETRIES_PER_CALL && i < |script|
    ensures var r := Try(cfg, st, script, i, raised); r.requests >= 1 && |r.waits| == r.requests - 1
    decreases |script| - i
  {
    var a := script[i];
    if i + 1 < |script| {
      if a.NetworkError? {
        OneWaitPerRetry(cfg, st.(breaker := RecordFailure(cfg, st.breaker, a.at)), script, i + 1, true);
      } else if Retryable(a.status) {
        var rate := Update(st.rate, a);
        OneWaitPerRetry(cfg, st.(rate := if Due(rate) then rate.(retryAfter := None) else rate), script, i + 1, raised);
      }
    }
  }

  /** The attempt is a network error or a 5xx. */
  predicate Fails(a: Attempt) {
    a.NetworkError? || a.status >= 500
  }

  predicate AllFail(script: seq<Attempt>) {
    forall i :: 0 <= i < |script| ==> Fails(script[i])
  }

  predicate InOrder(start: real, script: seq<Attempt>) {
    forall i :: 0 <= i < |script| ==> start <= script[i].at
  }

  /** The network errors met from attempt `i` on, before a 5xx other than 503 ends the call. */
  function NetworkErrors(script: seq<Attempt>, i: nat): nat
    requires i <= |script|
    decreases |script| - i
  {
    if i == |script| then 0
    else if script[i].NetworkError? then 1 + NetworkErrors(script, i + 1)
    else if Retryable(script[i].status) then NetworkErrors(script, i + 1)
    else 0
  }

  /** Against a failing server the loop records one failure per network error and one for the call; it opens no earlier than it starts. */
  lemma {:induction false} TryFails(cfg: Config, st: State, script: seq<Attempt>, i: nat, raised: bool, start: real)
    requires |script| == MAX_RETRIES_PER_CALL && i <= |script|
    requires AllFail(script) && InOrder(start, script)
    ensures var b := Try(cfg, st, script, i, raised).state.breaker;
      && b.failures == st.breaker.failures + NetworkErrors(script, i) + 1
      && (b.openedAt.Some? <==> st.breaker.openedAt.Some? || b.failures >= cfg.threshold)
      && (b.openedAt.Some? ==> b.openedAt.value >= start)
    decreases |script| - i
  {
    if i < |script| {
      var a := script[i];
      assert Fails(a);
      if a.NetworkError? {
        TryFails(cfg, st.(breaker := RecordFailure(cfg, st.breaker, a.at)), script, i + 1, true, start);
      } else if Retryable(a.status) && i + 1 < MAX_RETRIES_PER_CALL {
        var rate := Update(st.rate, a);
        TryFails(cfg, st.(rate := if Due(rate) then rate.(retryAfter := None) else rate), script, i + 1, raised, start);
      }
    }
  }

  /** Failures are counted per network error and per call, so three network errors count four and three 503 answers one. */
  lemma FailedCallCounts(cfg: Config, st: State, start: real, script: seq<Attempt>)
    requires |script| == MAX_RETRIES_PER_CALL && cfg.slowdownAt > 0.0 && AllFail(script) && InOrder(start, script)
    requires !Refuses(cfg, st.breaker, start)
    ensures var r := Call(cfg, st, start, script);
      && r.state.breaker.failures == st.breaker.failures + NetworkErrors(script, 0) + 1
      && (r.state.breaker.openedAt.Some? <==> st.breaker.openedAt.Some? || r.state.breaker.failures >= cfg.threshold)
      && (r.state.breaker.openedAt.Some? ==> r.state.breaker.openedAt.value >= start)
  {
    TryFails(cfg, if Due(st.rate) then st.(rate := st.rate.(retryAfter := None)) else st, script, 0, false, start);
  }

  /** A call still rate limited on its last attempt closes the breaker: 429 counts as a success. */
  lemma ExhaustedRateLimitClosesBreaker(cfg: Config, st: State, start: real, script: seq<Attempt>)
    requires |script| == MAX_RETRIES_PER_CALL && cfg.slowdownAt > 0.0 && !Refuses(cfg, st.breaker, start)
    requires forall i :: 0 <= i < |script| ==> script[i].Answer? && script[i].status == 429
    ensures Call(cfg, st, start, script).outcome == Returned(429)
    ensures Call(cfg, st, start, script).state.breaker == Breaker(0, None)
    ensures Call(cfg, st, start, script).requests == MAX_RETRIES_PER_CALL
  {
    assert script[0].status == 429 && script[1].status == 429 && script[2].status == 429;
    var s0 := if Due(st.rate) then st.(rate := st.rate.(retryAfter := None)) else st;
    var rate1 := Update(s0.rate, script[0]);
    var s1 := s0.(rate := if Due(rate1) then rate1.(retryAfter := None) else rate1);
    var rate2 := Update(s1.rate, script[1]);
    var s2 := s1.(rate := if Due(rate2) then rate2.(retryAfter := None) else rate2);
    assert Try(cfg, s2, script, 2, false).outcome == Returned(429);
    assert Try(cfg, s1, script, 1, false).outcome == Returned(429);
  }

  // ---------- Runs ----------

  /** One make_request: when it starts and what the network would answer. */
  datatype Visit = Visit(start: real, script: seq<Attempt>)

  ghost predicate ValidVisits(visits: seq<Visit>) {
    && (forall i :: 0 <= i < |visits| ==> |visits[i].script| == MAX_RETRIES_PER_CALL && InOrder(visits[i].start, visits[i].script))
    && (forall i, j :: 0 <= i < j < |visits| ==> visits[i].start <= visits[j].start)
  }

  function Run(cfg: Config, st: State, visits: seq<Visit>): State
    requires cfg.slowdownAt > 0.0 && forall i :: 0 <= i < |visits| ==> |visits[i].script| == MAX_RETRIES_PER_CALL
  {
    if visits == [] then st
    else
      var n := |visits| - 1;
      Call(cfg, Run(cfg, st, visits[..n]), visits[n].start, visits[n].script).state
  }

  /** Calls let through by the breaker, and the requests they send. */
  function Admitted(cfg: Config, st: State, visits: seq<Visit>): (nat, nat)
    requires cfg.slowdownAt > 0.0 && forall i :: 0 <= i < |visits| ==> |visits[i].script| == MAX_RETRIES_PER_CALL
  {
    if visits == [] then (0, 0)
    else
      var n := |visits| - 1;
      var (calls, requests) := Admitted(cfg, st, visits[..n]);
      var before := Run(cfg, st, visits[..n]);
      ((if Refuses(cfg, before.breaker, visits[n].start) then calls else calls + 1),
       requests + Call(cfg, before, visits[n].start, visits[n].script).requests)
  }

  predicate OpenAtThreshold(cfg: Config, b: Breaker) {
    b.openedAt.Some? <==> b.failures >= cfg.threshold
  }

  lemma {:induction false} TryKeepsOpenAtThreshold(cfg: Config, st: State, script: seq<Attempt>, i: nat, raised: bool)
    requires |script| == MAX_RETRIES_PER_CALL && i <= |script| && cfg.threshold >= 1 && OpenAtThreshold(cfg, st.breaker)
    ensures OpenAtThreshold(cfg, Try(cfg, st, script, i, raised).state.breaker)
    decreases |script| - i
  {
    if i < |script| {
      var a := script[i];
      if a.NetworkError? {
        TryKeepsOpenAtThreshold(cfg, st.(breaker := RecordFailure(cfg, st.breaker, a.at)), script, i + 1, true);
      } else if Retryable(a.status) && i + 1 < MAX_RETRIES_PER_CALL {
        var rate := Update(st.rate, a);
        TryKeepsOpenAtThreshold(cfg, st.(rate := if Due(rate) then rate.(retryAfter := None) else rate), script, i + 1, raised);
      }
    }
  }

  ghost predicate AlwaysOpenAtThreshold(cfg: Config)
    requires cfg.slowdownAt > 0.0
  {
    forall visits :: ValidVisits(visits) ==> OpenAtThreshold(cfg, Run(cfg, State(Breaker(0, None), Rate(None, None, None)), visits).breaker)
  }

  /** In every run the breaker is open exactly when its failures reach the threshold, provided the threshold is at least one. */
  lemma OpenAtThresholdExactly(cfg: Config)
    requires cfg.slowdownAt > 0.0
    ensures AlwaysOpenAtThreshold(cfg) <==> cfg.threshold >= 1
  {
    var initial := State(Breaker(0, None), Rate(None, None, None));
    if cfg.threshold >= 1 {
      forall visits | ValidVisits(visits) ensures OpenAtThreshold(cfg, Run(cfg, initial, visits).breaker) {
        RunKeepsOpenAtThreshold(cfg, initial, visits);
      }
    } else {
      assert ValidVisits([]);
      assert !OpenAtThreshold(cfg, Run(cfg, initial, []).breaker);
    }
  }

  lemma {:induction false} RunKeepsOpenAtThreshold(cfg: Config, st: State, visits: seq<Visit>)
    requires cfg.slowdownAt > 0.0 && cfg.threshold >= 1 && ValidVisits(visits) && OpenAtThreshold(cfg, st.breaker)
    ensures OpenAtThreshold(cfg, Run(cfg, st, visits).breaker)
  {
    if visits != [] {
      var n := |visits| - 1;
      RunKeepsOpenAtThreshold(cfg, st, visits[..n]);
      var before := Run(cfg, st, visits[..n]);
      if !Refuses(cfg, before.breaker, visits[n].start) {
        TryKeepsOpenAtThreshold(cfg, if Due(before.rate) then before.(rate := before.rate.(retryAfter := None)) else before, visits[n].script, 0, false);
      }
    }
  }

  function AtLeastOne(threshold: int): int {
    if threshold < 1 then 1 else threshold
  }

  /** `since` and `k` cooldowns. */
  function Mark(cfg: Config, since: real, k: nat): real {
    if k == 0 then since else Mark(cfg, since, k - 1) + cfg.cooldown
  }

  lemma {:induction false} MarkIs(cfg: Config, since: real, k: nat)
    ensures Mark(cfg, since, k) == since + k as real * cfg.cooldown
  {
    if k > 0 {
      MarkIs(cfg, since, k - 1);
      assert k as real * cfg.cooldown == (k - 1) as real * cfg.cooldown + cfg.cooldown;
    }
  }

  /** Calls beyond the threshold. */
  function Over(cfg: Config, calls: nat): nat {
    if calls > AtLeastOne(cfg.threshold) then calls - AtLeastOne(cfg.threshold) else 0
  }

  /** Calls counted so far against the breaker: closed, they are all on its counter; open, they are spaced by the cooldown. */
  ghost predicate Spaced(cfg: Config, b: Breaker, since: real, calls: nat) {
    if b.openedAt.None? then calls <= b.failures < AtLeastOne(cfg.threshold)
    else calls == 0 || b.openedAt.value >= Mark(cfg, since, Over(cfg, calls))
  }

  /** A call let through starts late enough for its number, and leaves the breaker spaced. */
  lemma NextCallIsSpaced(cfg: Config, st: State, since: real, calls: nat, start: real, script: seq<Attempt>)
    requires cfg.slowdownAt > 0.0 && Spaced(cfg, st.breaker, since, calls) && since <= start && !Refuses(cfg, st.breaker, start)
    requires |script| == MAX_RETRIES_PER_CALL && AllFail(script) && InOrder(start, script)
    ensures start >= Mark(cfg, since, Over(cfg, calls + 1))
    ensures Spaced(cfg, Call(cfg, st, start, script).state.breaker, since, calls + 1)
  {
    FailedCallCounts(cfg, st, start, script);
    assert Over(cfg, calls + 1) == 0 || Over(cfg, calls + 1) == Over(cfg, calls) + 1;
  }

  lemma {:induction false} CallsAreSpaced(cfg: Config, st: State, visits: seq<Visit>, since: real)
    requires cfg.slowdownAt > 0.0 && ValidVisits(visits)
    requires st.breaker.openedAt.None? ==> st.breaker.failures < AtLeastOne(cfg.threshold)
    requires forall i :: 0 <= i < |visits| ==> AllFail(visits[i].script) && since <= visits[i].start
    ensures var (calls, requests) := Admitted(cfg, st, visits);
      && Spaced(cfg, Run(cfg, st, visits).breaker, since, calls)
      && requests <= MAX_RETRIES_PER_CALL * calls
      && (Over(cfg, calls) > 0 ==> visits != [] && visits[|visits| - 1].start >= Mark(cfg, since, Over(cfg, calls)))
  {
    if visits != [] {
      var n := |visits| - 1;
      CallsAreSpaced(cfg, st, visits[..n], since);
      var before := Run(cfg, st, visits[..n]);
      NeverFallsThrough(cfg, before, visits[n].start, visits[n].script);
      var calls := Admitted(cfg, st, visits[..n]).0;
      if !Refuses(cfg, before.breaker, visits[n].start) {
        NextCallIsSpaced(cfg, before, since, calls, visits[n].start, visits[n].script);
      } else if n > 0 {
        assert visits[n - 1].start <= visits[n].start;
      }
    }
  }

  /**
   * Against a server whose every attempt is a network error or a 5xx, calls starting within
   * a stretch of length `length` send at most three times (threshold + length / cooldown) requests.
   */
  lemma FailingServerIsSpared(cfg: Config, st: State, visits: seq<Visit>, since: real, length: real)
    requires cfg.slowdownAt > 0.0 && cfg.cooldown > 0.0 && ValidVisits(visits)
    requires st.breaker.openedAt.None? ==> st.breaker.failures < AtLeastOne(cfg.threshold)
    requires forall i :: 0 <= i < |visits| ==> AllFail(visits[i].script) && since <= visits[i].start <= since + length
    requires 0.0 <= length
    ensures var (calls, requests) := Admitted(cfg, st, visits);
      && calls as real <= AtLeastOne(cfg.threshold) as real + length / cfg.cooldown
      && requests <= MAX_RETRIES_PER_CALL * calls
  {
    CallsAreSpaced(cfg, st, visits, since);
    var k := Over(cfg, Admitted(cfg, st, visits).0);
    CooldownsFit(cfg, since, length, k, if k > 0 then visits[|visits| - 1].start else since);
  }

  lemma CooldownsFit(cfg: Config, since: real, length: real, k: nat, start: real)
    requires cfg.cooldown > 0.0 && Mark(cfg, since, k) <= start <= since + length
    ensures k as real <= length / cfg.cooldown
  {
    MarkIs(cfg, since, k);
    QuotientBounds(k as real, cfg.cooldown, length);
  }

  lemma QuotientBounds(k: real, cooldown: real, length: real)
    requires cooldown > 0.0 && k * cooldown <= length
    ensures k <= length / cooldown
  {
    var q := length / cooldown;
    assert q * cooldown == length;
    if k > q { assert (k - q) * cooldown > 0.0; }
  }
}
