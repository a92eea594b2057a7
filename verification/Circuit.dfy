/**
 Per-agent circuit breakers: the manager that updates them, and what a breaker's state
 says about the history of calls that led to it. Time is an explicit integer clock.
 */
module Circuit {
  import opened Options

  datatype State = Closed | Open | HalfOpen

  datatype Breaker = Breaker(
    agentID: string,
    state: State,
    failures: nat,
    successes: nat,
    threshold: int,
    resetTimeout: int,
    openedAt: Option<int>,
    lastFailure: Option<int>
  )

  type Breakers = map<string, Breaker>

  datatype Config = Config(threshold: int, resetTimeout: int)

  const DEFAULT_THRESHOLD := 5
  const DEFAULT_RESET_TIMEOUT := 30_000_000_000

  datatype Kind = Success | Failure | Admission | Reset | Lookup | Deletion

  /** One call on the manager, for one agent, at one instant. */
  datatype Call = Call(kind: Kind, agent: string, now: int)

  function Created(cfg: Config, agent: string): Breaker {
    Breaker(agent, Closed, 0, 0, cfg.threshold, cfg.resetTimeout, None, None)
  }

  function GetOrCreate(cfg: Config, bs: Breakers, agent: string): Breaker {
    if agent in bs then bs[agent] else Created(cfg, agent)
  }

  function OnSuccess(b: Breaker): Breaker {
    var b' := b.(successes := b.successes + 1, failures := 0);
    if b.state.HalfOpen? then b'.(state := Closed, openedAt := None) else b'
  }

  function OnFailure(b: Breaker, now: int): Breaker {
    var b' := b.(failures := b.failures + 1, lastFailure := Some(now));
    if (b.state.Closed? && b'.failures >= b.threshold) || b.state.HalfOpen?
    then b'.(state := Open, openedAt := Some(now))
    else b'
  }

  /** Whether the breaker lets a request through at `now`. */
  predicate Admits(b: Breaker, now: int) {
    b.state.Open? ==> b.openedAt.Some? && now - b.openedAt.value >= b.resetTimeout
  }

  function OnAdmission(b: Breaker, now: int): Breaker {
    if b.state.Open? && Admits(b, now) then b.(state := HalfOpen) else b
  }

  function Apply(cfg: Config, bs: Breakers, c: Call): Breakers {
    var b := GetOrCreate(cfg, bs, c.agent);
    match c.kind
    case Success => bs[c.agent := OnSuccess(b)]
    case Failure => bs[c.agent := OnFailure(b, c.now)]
    case Admission => bs[c.agent := OnAdmission(b, c.now)]
    case Reset => bs[c.agent := b.(state := Closed, failures := 0, openedAt := None)]
    case Lookup => bs[c.agent := b]
    case Deletion => bs - {c.agent}
  }

  // ----- the manager

  class Manager {
    var breakers: Breakers
    const cfg: Config

    constructor (threshold: int, resetTimeout: int)
      ensures breakers == map[]
      ensures cfg.threshold == if threshold <= 0 then 5 else threshold
      ensures cfg.resetTimeout == if resetTimeout <= 0 then 30_000_000_000 else resetTimeout
      ensures Normal(cfg)
    {
      breakers := map[];
      cfg := Config(if threshold <= 0 then DEFAULT_THRESHOLD else threshold,
                    if resetTimeout <= 0 then DEFAULT_RESET_TIMEOUT else resetTimeout);
    }

    method Fetch(agent: string) returns (b: Breaker)
      modifies this
      ensures b == GetOrCreate(cfg, old(breakers), agent)
      ensures breakers == Apply(cfg, old(breakers), Call(Lookup, agent, 0))
    {
      if agent !in breakers {
        breakers := breakers[agent := Created(cfg, agent)];
      }
      b := breakers[agent];
    }

    method RecordSuccess(agent: string, now: int)
      modifies this
      ensures breakers == Apply(cfg, old(breakers), Call(Success, agent, now))
    {
      var b := Fetch(agent);
      b := b.(successes := b.successes + 1, failures := 0);
      if b.state.HalfOpen? {
        b := b.(state := Closed, openedAt := None);
      }
      breakers := breakers[agent := b];
    }

    method RecordFailure(agent: string, now: int) returns (state: State)
      modifies this
      ensures breakers == Apply(cfg, old(breakers), Call(Failure, agent, now))
      ensures state == breakers[agent].state
    {
      var b := Fetch(agent);
      b := b.(failures := b.failures + 1, lastFailure := Some(now));
      if b.state.Closed? && b.failures >= b.threshold {
        b := b.(state := Open, openedAt := Some(now));
      } else if b.state.HalfOpen? {
        b := b.(state := Open, openedAt := Some(now));
      }
      breakers := breakers[agent := b];
      state := b.state;
    }

    method Allow(agent: string, now: int) returns (ok: bool)
      modifies this
      ensures ok == Admits(GetOrCreate(cfg, old(breakers), agent), now)
      ensures breakers == Apply(cfg, old(breakers), Call(Admission, agent, now))
    {
      var b := Fetch(agent);
      match b.state
      case Closed =>
        ok := true;
      case Open =>
        ok := b.openedAt.Some? && now - b.openedAt.value >= b.resetTimeout;
        if ok {
          breakers := breakers[agent := b.(state := HalfOpen)];
        }
      case HalfOpen =>
        ok := true;
    }

    method Reset(agent: string, now: int)
      modifies this
      ensures breakers == Apply(cfg, old(breakers), Call(Kind.Reset, agent, now))
    {
      var b := Fetch(agent);
      breakers := breakers[agent := b.(state := Closed, failures := 0, openedAt := None)];
    }

    method Delete(agent: string, now: int)
      modifies this
      ensures breakers == Apply(cfg, old(breakers), Call(Deletion, agent, now))
    {
      breakers := breakers - {agent};
    }

    method Perform(c: Call)
      modifies this
      ensures breakers == Apply(cfg, old(breakers), c)
    {
      match c.kind
      case Success => RecordSuccess(c.agent, c.now);
      case Failure => var _ := RecordFailure(c.agent, c.now);
      case Admission => var _ := Allow(c.agent, c.now);
      case Reset => Reset(c.agent, c.now);
      case Lookup => var _ := Fetch(c.agent);
      case Deletion => Delete(c.agent, c.now);
    }

    /** What others do to the breakers while someone is not looking. */
    method PerformAll(calls: seq<Call>)
      modifies this
      ensures breakers == Continue(cfg, old(breakers), calls)
    {
      for i := 0 to |calls|
        invariant breakers == Continue(cfg, old(breakers), calls[..i])
      {
        assert calls[..i + 1][..i] == calls[..i];
        Perform(calls[i]);
      }
      assert calls[..|calls|] == calls;
    }
  }

  // ----- histories

  predicate Normal(cfg: Config) { cfg.threshold > 0 && cfg.resetTimeout > 0 }

  /** The breakers after some more calls. */
  function Continue(cfg: Config, bs: Breakers, calls: seq<Call>): Breakers {
    if calls == [] then bs
    else Apply(cfg, Continue(cfg, bs, calls[..|calls| - 1]), calls[|calls| - 1])
  }

  /** The breakers after a history of calls on a new manager. */
  function After(cfg: Config, calls: seq<Call>): Breakers {
    if calls == [] then map[]
    else Apply(cfg, After(cfg, calls[..|calls| - 1]), calls[|calls| - 1])
  }

  lemma {:induction false} AfterMore(cfg: Config, calls: seq<Call>, more: seq<Call>)
    ensures Continue(cfg, After(cfg, calls), more) == After(cfg, calls + more)
    decreases more
  {
    if more == [] {
      assert calls + more == calls;
    } else {
      var n := |more| - 1;
      AfterMore(cfg, calls, more[..n]);
      assert (calls + more)[..|calls| + n] == calls + more[..n];
    }
  }

  /** Failures of the agent since its last success, reset or deletion. */
  function RecentFailures(calls: seq<Call>, agent: string): nat {
    if calls == [] then 0
    else
      var c := calls[|calls| - 1];
      var before := RecentFailures(calls[..|calls| - 1], agent);
      if c.agent != agent then before
      else if c.kind.Success? || c.kind.Reset? || c.kind.Deletion? then 0
      else if c.kind.Failure? then before + 1
      else before
  }

  /** Successes of the agent since its last deletion. */
  function Successes(calls: seq<Call>, agent: string): nat {
    if calls == [] then 0
    else
      var c := calls[|calls| - 1];
      var before := Successes(calls[..|calls| - 1], agent);
      if c.agent != agent then before
      else if c.kind.Deletion? then 0
      else if c.kind.Success? then before + 1
      else before
  }

  /** When the agent last failed since its last deletion. */
  function LatestFailure(calls: seq<Call>, agent: string): Option<int> {
    if calls == [] then None
    else
      var c := calls[|calls| - 1];
      if c.agent != agent then LatestFailure(calls[..|calls| - 1], agent)
      else if c.kind.Deletion? then None
      else if c.kind.Failure? then Some(c.now)
      else LatestFailure(calls[..|calls| - 1], agent)
  }

  /** Whether the agent was called about since its last deletion. */
  predicate Known(calls: seq<Call>, agent: string) {
    calls != [] &&
    var c := calls[|calls| - 1];
    if c.agent == agent then !c.kind.Deletion? else Known(calls[..|calls| - 1], agent)
  }

  /** A breaker's counters and state are what its history says, in every run. */
  lemma {:induction false} StateIsHistory(cfg: Config, calls: seq<Call>, agent: string)
    requires Normal(cfg)
    ensures agent in After(cfg, calls) <==> Known(calls, agent)
    ensures !Known(calls, agent) ==>
              RecentFailures(calls, agent) == 0 && Successes(calls, agent) == 0 && LatestFailure(calls, agent) == None
    ensures Known(calls, agent) ==>
              var b := After(cfg, calls)[agent];
              && b.agentID == agent && b.threshold == cfg.threshold && b.resetTimeout == cfg.resetTimeout
              && b.failures == RecentFailures(calls, agent)
              && b.successes == Successes(calls, agent) && b.lastFailure == LatestFailure(calls, agent)
              && (b.state.Closed? ==> b.failures < b.threshold)
              && (b.openedAt.None? <==> b.state.Closed?)
  {
    if calls != [] {
      StateIsHistory(cfg, calls[..|calls| - 1], agent);
    }
  }

  ghost predicate IsOpen(bs: Breakers, agent: string) {
    agent in bs && bs[agent].state.Open?
  }

  /** The `i`-th call trips the agent's breaker. */
  ghost predicate Trips(cfg: Config, calls: seq<Call>, i: nat, agent: string)
    requires i < |calls|
  {
    !IsOpen(After(cfg, calls[..i]), agent) && IsOpen(After(cfg, calls[..i + 1]), agent)
  }

  /** A trip happens on a failure of that agent, and stamps the breaker with its time. */
  lemma TripStamps(cfg: Config, calls: seq<Call>, i: nat, agent: string)
    requires Normal(cfg) && i < |calls| && Trips(cfg, calls, i, agent)
    ensures calls[i].agent == agent && calls[i].kind.Failure?
    ensures After(cfg, calls[..i + 1])[agent].openedAt == Some(calls[i].now)
    ensures After(cfg, calls[..i + 1])[agent].resetTimeout == cfg.resetTimeout
  {
    assert calls[..i + 1][..i] == calls[..i];
    StateIsHistory(cfg, calls[..i + 1], agent);
    StateIsHistory(cfg, calls[..i], agent);
  }

  ghost function StateAfter(cfg: Config, calls: seq<Call>, agent: string): State {
    GetOrCreate(cfg, After(cfg, calls), agent).state
  }

  /** Exactly what moves a breaker between its states, in terms of the history: it trips on
      a failure that is a failed probe or reaches the threshold of failures in a row; it goes
      half open on a request after the timeout; it closes on a successful probe, on a reset,
      and when it is deleted. Nothing else moves it. */
  lemma TransitionsExactly(cfg: Config, calls: seq<Call>, c: Call, agent: string)
    requires Normal(cfg)
    ensures var was, now := StateAfter(cfg, calls, agent), StateAfter(cfg, calls + [c], agent);
            && (was != Open && now == Open <==>
                  c.agent == agent && c.kind.Failure? &&
                  (was == HalfOpen || (was == Closed && RecentFailures(calls + [c], agent) >= cfg.threshold)))
            && (was != HalfOpen && now == HalfOpen <==>
                  c.agent == agent && c.kind.Admission? && was == Open && Admits(GetOrCreate(cfg, After(cfg, calls), agent), c.now))
            && (was != Closed && now == Closed <==>
                  c.agent == agent && was != Closed && (c.kind.Reset? || c.kind.Deletion? || (c.kind.Success? && was == HalfOpen)))
  {
    assert (calls + [c])[..|calls|] == calls;
    StateIsHistory(cfg, calls, agent);
    StateIsHistory(cfg, calls + [c], agent);
  }

  /** Between two calls the agent's breaker is neither reset nor deleted, nor asked for
      admission at `limit` or later. Other calls, and calls about others, may come at any time. */
  ghost predicate Undisturbed(calls: seq<Call>, i: nat, j: nat, agent: string, limit: int) {
    forall k :: i < k < j && k < |calls| && calls[k].agent == agent ==>
      && !calls[k].kind.Reset? && !calls[k].kind.Deletion?
      && (calls[k].kind.Admission? ==> calls[k].now < limit)
  }

  ghost predicate TrippedAt(cfg: Config, bs: Breakers, agent: string, at: int) {
    && IsOpen(bs, agent)
    && bs[agent].openedAt == Some(at) && bs[agent].resetTimeout == cfg.resetTimeout
  }

  lemma CallKeepsTripped(cfg: Config, bs: Breakers, c: Call, agent: string, at: int)
    requires TrippedAt(cfg, bs, agent, at)
    requires c.agent == agent ==>
               !c.kind.Reset? && !c.kind.Deletion? && (c.kind.Admission? ==> c.now < at + cfg.resetTimeout)
    ensures TrippedAt(cfg, Apply(cfg, bs, c), agent, at)
  {
  }

  lemma {:induction false} StaysTripped(cfg: Config, calls: seq<Call>, i: nat, j: nat, agent: string)
    requires Normal(cfg) && i < j <= |calls| && Trips(cfg, calls, i, agent)
    requires Undisturbed(calls, i, j, agent, calls[i].now + cfg.resetTimeout)
    ensures TrippedAt(cfg, After(cfg, calls[..j]), agent, calls[i].now)
    decreases j
  {
    if j == i + 1 {
      TripStamps(cfg, calls, i, agent);
    } else {
      assert calls[..j][..j - 1] == calls[..j - 1];
      StaysTripped(cfg, calls, i, j - 1, agent);
      CallKeepsTripped(cfg, After(cfg, calls[..j - 1]), calls[j - 1], agent, calls[i].now);
    }
  }

  /** After a trip, with no reset, deletion or admission of that agent since, a request is
      admitted exactly when the reset timeout has run out. */
  lemma {:induction false} AdmittedExactlyAfterTimeout(cfg: Config, calls: seq<Call>, i: nat, j: nat, agent: string, now: int)
    requires Normal(cfg) && i < j <= |calls| && Trips(cfg, calls, i, agent)
    requires Undisturbed(calls, i, j, agent, calls[i].now + cfg.resetTimeout)
    ensures Admits(GetOrCreate(cfg, After(cfg, calls[..j]), agent), now) <==>
            now >= calls[i].now + cfg.resetTimeout
  {
    StaysTripped(cfg, calls, i, j, agent);
  }

  ghost predicate ClockAdvances(calls: seq<Call>) {
    forall i, j :: 0 <= i <= j < |calls| ==> calls[i].now <= calls[j].now
  }

  /** On a clock that never goes back, every request within the reset timeout of the last
      trip is refused, unless the breaker was reset or deleted in between. */
  lemma RefusedWithinTimeout(cfg: Config, calls: seq<Call>, i: nat, j: nat, agent: string)
    requires Normal(cfg) && ClockAdvances(calls) && i < j < |calls|
    requires Trips(cfg, calls, i, agent)
    requires calls[j] == Call(Admission, agent, calls[j].now) && calls[j].now < calls[i].now + cfg.resetTimeout
    requires forall k :: i < k < j && calls[k].agent == agent ==> !calls[k].kind.Reset? && !calls[k].kind.Deletion?
    ensures !Admits(GetOrCreate(cfg, After(cfg, calls[..j]), agent), calls[j].now)
  {
    assert forall k :: i < k < j ==> calls[k].now <= calls[j].now;
    AdmittedExactlyAfterTimeout(cfg, calls, i, j, agent, calls[j].now);
  }

  // ----- the probe phase

  /** The `k`-th call asks for admission of the agent. */
  predicate Asks(calls: seq<Call>, k: nat, agent: string)
    requires k < |calls|
  {
    calls[k].agent == agent && calls[k].kind.Admission?
  }

  /** It does, and is let through. */
  ghost predicate Passes(cfg: Config, calls: seq<Call>, k: nat, agent: string)
    requires k < |calls|
  {
    Asks(calls, k, agent) && Admits(GetOrCreate(cfg, After(cfg, calls[..k]), agent), calls[k].now)
  }

  /** The call settles the agent's probe phase, one way or the other. */
  predicate Settles(c: Call, agent: string) {
    c.agent == agent && (c.kind.Success? || c.kind.Failure? || c.kind.Reset? || c.kind.Deletion?)
  }

  /** A half-open breaker stays half open, whatever is asked and however often, until a call
      settles it. */
  lemma {:induction false} StaysHalfOpen(cfg: Config, calls: seq<Call>, i: nat, j: nat, agent: string)
    requires i <= j <= |calls| && StateAfter(cfg, calls[..i], agent) == HalfOpen
    requires forall k :: i <= k < j ==> !Settles(calls[k], agent)
    ensures StateAfter(cfg, calls[..j], agent) == HalfOpen
    decreases j - i
  {
    if i < j {
      StaysHalfOpen(cfg, calls, i, j - 1, agent);
      assert calls[..j][..j - 1] == calls[..j - 1];
    }
  }

  /** While half open every request passes, at whatever time: the code does not keep to a
      single probe. */
  lemma HalfOpenAdmitsAll(cfg: Config, calls: seq<Call>, i: nat, k: nat, agent: string)
    requires i <= k < |calls| && StateAfter(cfg, calls[..i], agent) == HalfOpen && Asks(calls, k, agent)
    requires forall m :: i <= m < k ==> !Settles(calls[m], agent)
    ensures Passes(cfg, calls, k, agent) && StateAfter(cfg, calls[..k + 1], agent) == HalfOpen
  {
    StaysHalfOpen(cfg, calls, i, k, agent);
    assert calls[..k + 1][..k] == calls[..k];
  }

  /** The `i`-th call starts a probe phase: the breaker was open and the request passes. */
  ghost predicate StartsProbe(cfg: Config, calls: seq<Call>, i: nat, agent: string)
    requires i < |calls|
  {
    StateAfter(cfg, calls[..i], agent) == Open && Passes(cfg, calls, i, agent)
  }

  ghost predicate AtMostOnePasses(cfg: Config, calls: seq<Call>, i: nat, j: nat, agent: string)
    requires j <= |calls|
  {
    forall k, m :: i <= k < m < j ==> !(Passes(cfg, calls, k, agent) && Passes(cfg, calls, m, agent))
  }

  /** From the start of a probe phase until it is settled, at most one request passes if and
      only if only one is made. */
  lemma SingleProbeIff(cfg: Config, calls: seq<Call>, i: nat, j: nat, agent: string)
    requires i < j <= |calls| && StartsProbe(cfg, calls, i, agent)
    requires forall k :: i < k < j ==> !Settles(calls[k], agent)
    ensures AtMostOnePasses(cfg, calls, i, j, agent) <==> forall k :: i < k < j ==> !Asks(calls, k, agent)
  {
    assert calls[..i + 1][..i] == calls[..i];
    if AtMostOnePasses(cfg, calls, i, j, agent) {
      forall k | i < k < j ensures !Asks(calls, k, agent) {
        if Asks(calls, k, agent) {
          HalfOpenAdmitsAll(cfg, calls, i + 1, k, agent);
        }
      }
    }
  }

  /** A breaker that opens at the first failure. */
  lemma FirstFailureOpens(agent: string, calls: seq<Call>)
    requires |calls| > 0 && calls[0] == Call(Failure, agent, 0)
    ensures var b := GetOrCreate(Config(1, 10), After(Config(1, 10), calls[..1]), agent);
            b.state == Open && b.openedAt == Some(0) && b.resetTimeout == 10
  {
    var one := [Call(Failure, agent, 0)];
    assert calls[..1] == one && one[..0] == [];
    assert After(Config(1, 10), []) == map[];
    assert After(Config(1, 10), one) == Apply(Config(1, 10), map[], one[0]);
  }

  /** The code lets a second request through: one failure, and two requests after the timeout. */
  lemma SecondProbePasses(agent: string)
    ensures var cfg := Config(1, 10);
            var calls := [Call(Failure, agent, 0), Call(Admission, agent, 10), Call(Admission, agent, 11)];
            && StartsProbe(cfg, calls, 1, agent) && !AtMostOnePasses(cfg, calls, 1, 3, agent)
  {
    var cfg := Config(1, 10);
    var calls := [Call(Failure, agent, 0), Call(Admission, agent, 10), Call(Admission, agent, 11)];
    FirstFailureOpens(agent, calls);
    hide After;
    assert StartsProbe(cfg, calls, 1, agent);
    assert Asks(calls, 2, agent);
    SingleProbeIff(cfg, calls, 1, 3, agent);
  }
}
