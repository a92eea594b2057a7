/**
 The scheduler as a step system. Every schedule may have a runner, a concurrent loop that
 on each tick takes a snapshot of its schedule, submits a job from it, and accounts for the
 run, in three steps between which anything else may happen. Creation, updates, deletion
 and loading each take one step, under the manager's lock.
 */
module Scheduler {
  import opened Options
  import opened Ids

  const SCHED_ID_PREFIX := "sched-"
  const MIN_INTERVAL := 50_000_000

  /** What a submission takes from a schedule. */
  datatype Template = Template(tenant: string, agentID: string, capability: string, payload: string)

  datatype Schedule = Schedule(
    id: string,
    name: string,
    template: Template,
    interval: int,
    active: bool,
    lastRun: Option<int>,
    runCount: nat
  )

  /** A schedule and the handle that cancels its runner, if it has one. */
  datatype Entry = Entry(sched: Schedule, cancel: Option<nat>)

  /** Where a runner's loop stands: waiting for a tick, holding a snapshot, holding none
      because its schedule was gone or paused, or having submitted. */
  datatype Phase = Waiting | Ready(snapshot: Template) | Skipped | Posted

  /** A runner ticks at the interval its schedule had when it was started. */
  datatype Runner = Runner(sched: string, interval: int, cancelled: bool, phase: Phase)

  type Runners = map<nat, Runner>

  predicate Finishing(p: Phase) { p.Posted? || p.Skipped? }

  /** Runners of `id` between their submission (or the lack of one) and its accounting. */
  function InFlight(rs: Runners, id: string): set<nat> {
    set r | r in rs && rs[r].sched == id && Finishing(rs[r].phase)
  }

  /** What had been counted for an id when a schedule came in under it. */
  datatype Mark = Mark(runCount: nat, posted: nat, skipped: nat, inFlight: nat)

  /** The manager's state, its runners, and what has happened so far: the jobs posted and ticks
      skipped per id, the counts when each schedule came in, and whether everything was stopped. */
  datatype State = State(
    schedules: map<string, Entry>,
    counter: nat,
    runners: Runners,
    nextRunner: nat,
    posted: multiset<string>,
    skipped: multiset<string>,
    marks: map<string, Mark>,
    stopped: bool
  )

  const INITIAL := State(map[], 0, map[], 0, multiset{}, multiset{}, map[], false)

  datatype Params = Params(
    name: Option<string>,
    agentID: Option<string>,
    capability: Option<string>,
    payload: Option<string>,
    interval: Option<int>,
    active: Option<bool>
  )

  datatype Event =
    | Add(name: string, template: Template, interval: int)
    | Update(tenant: string, id: string, params: Params)
    | Delete(id: string)
    | Load(sched: Schedule)
    | StopAll
    | Exit(runner: nat)
    | Snapshot(runner: nat)
    | Post(runner: nat)
    | Account(runner: nat, now: int)

  // ----- steps

  function Start(st: State, id: string): State
    requires id in st.schedules
  {
    st.(schedules := st.schedules[id := st.schedules[id].(cancel := Some(st.nextRunner))],
        runners := st.runners[st.nextRunner := Runner(id, st.schedules[id].sched.interval, false, Waiting)],
        nextRunner := st.nextRunner + 1)
  }

  function Cancelled(rs: Runners, r: nat): Runners {
    if r in rs then rs[r := rs[r].(cancelled := true)] else rs
  }

  function Stop(st: State, id: string): State
    requires id in st.schedules
  {
    match st.schedules[id].cancel
    case None => st
    case Some(r) =>
      st.(schedules := st.schedules[id := st.schedules[id].(cancel := None)],
          runners := Cancelled(st.runners, r))
  }

  /** A schedule comes in, new or loaded, without a runner yet. */
  function Enter(st: State, s: Schedule, counter: nat): State {
    st.(schedules := st.schedules[s.id := Entry(s, None)],
        counter := counter,
        marks := st.marks[s.id := Mark(s.runCount, st.posted[s.id], st.skipped[s.id], |InFlight(st.runners, s.id)|)])
  }

  function DoAdd(st: State, name: string, template: Template, interval: int): State {
    if name == "" || interval < MIN_INTERVAL then st
    else
      var n := st.counter + 1;
      var id := FormatId(SCHED_ID_PREFIX, n);
      Start(Enter(st, Schedule(id, name, template, interval, true, None, 0), n), id)
  }

  function DoLoad(st: State, s: Schedule): State {
    var n := ParseNum(SCHED_ID_PREFIX, s.id);
    var st' := Enter(st, s, if n > st.counter then n else st.counter);
    if s.active then Start(st', s.id) else st'
  }

  /** The field edits of an update, up to the first one that is refused. */
  function Edited(s: Schedule, p: Params): Schedule {
    if p.name == Some("") then s
    else
      var t := Template(s.template.tenant, Or(p.agentID, s.template.agentID),
                        Or(p.capability, s.template.capability), Or(p.payload, s.template.payload));
      var s' := s.(name := Or(p.name, s.name), template := t);
      if p.interval.Some? && p.interval.value < MIN_INTERVAL then s'
      else s'.(interval := Or(p.interval, s.interval), active := Or(p.active, s.active))
  }

  predicate Refused(p: Params) {
    p.name == Some("") || (p.interval.Some? && p.interval.value < MIN_INTERVAL)
  }

  function DoUpdate(st: State, tenant: string, id: string, p: Params): State {
    if id !in st.schedules || (tenant != "" && st.schedules[id].sched.template.tenant != tenant) then st
    else
      var was := st.schedules[id].sched;
      var now := Edited(was, p);
      var st' := st.(schedules := st.schedules[id := st.schedules[id].(sched := now)]);
      if Refused(p) then st'
      else if was.active && !now.active then Stop(st', id)
      else if !was.active && now.active then Start(st', id)
      else if was.active && now.active && was.interval != now.interval then Start(Stop(st', id), id)
      else st'
  }

  function DoDelete(st: State, id: string): State {
    if id !in st.schedules then st
    else
      var st' := Stop(st, id);
      st'.(schedules := st'.schedules - {id})
  }

  ghost predicate IsHandle(schedules: map<string, Entry>, r: nat) {
    exists id :: id in schedules && schedules[id].cancel == Some(r)
  }

  ghost function DoStopAll(st: State): State {
    st.(schedules := map id | id in st.schedules :: st.schedules[id].(cancel := None),
        runners := map r | r in st.runners ::
                     if IsHandle(st.schedules, r) then st.runners[r].(cancelled := true) else st.runners[r],
        stopped := true)
  }

  function SetPhase(rs: Runners, r: nat, phase: Phase): Runners
    requires r in rs
  {
    rs[r := rs[r].(phase := phase)]
  }

  function SnapshotOf(st: State, id: string): Option<Template> {
    if id in st.schedules && st.schedules[id].sched.active then Some(st.schedules[id].sched.template) else None
  }

  function DoSnapshot(st: State, r: nat): State
    requires r in st.runners
  {
    var id := st.runners[r].sched;
    match SnapshotOf(st, id)
    case Some(t) => st.(runners := SetPhase(st.runners, r, Ready(t)))
    case None => st.(runners := SetPhase(st.runners, r, Skipped), skipped := st.skipped + multiset{id})
  }

  function DoPost(st: State, r: nat): State
    requires r in st.runners && st.runners[r].phase.Ready?
  {
    var id := st.runners[r].sched;
    st.(runners := SetPhase(st.runners, r, Posted),
        posted := st.posted + multiset{id})
  }

  function DoAccount(st: State, r: nat, now: int): State
    requires r in st.runners
  {
    var id := st.runners[r].sched;
    var st' := st.(runners := SetPhase(st.runners, r, Waiting));
    if id !in st.schedules then st'
    else
      var e := st.schedules[id];
      st'.(schedules := st.schedules[id := e.(sched := e.sched.(lastRun := Some(now), runCount := e.sched.runCount + 1))])
  }

  /** Loading under this id replaces no entry that has a runner. */
  predicate Loadable(st: State, id: string) {
    id in st.schedules ==> st.schedules[id].cancel.None?
  }

  /** When a step can be taken. */
  predicate Enabled(st: State, ev: Event) {
    match ev
    case Add(_, _, _) => st.counter + 1 < UINT64_LIMIT
    case Load(s) => Loadable(st, s.id)
    case Exit(r) => r in st.runners && st.runners[r].cancelled && st.runners[r].phase.Waiting?
    case Snapshot(r) => r in st.runners && st.runners[r].phase.Waiting?
    case Post(r) => r in st.runners && st.runners[r].phase.Ready?
    case Account(r, _) => r in st.runners && (st.runners[r].phase.Posted? || st.runners[r].phase.Skipped?)
    case _ => true
  }

  ghost function Next(st: State, ev: Event): State
    requires Enabled(st, ev)
  {
    match ev
    case Add(name, template, interval) => DoAdd(st, name, template, interval)
    case Update(tenant, id, params) => DoUpdate(st, tenant, id, params)
    case Delete(id) => DoDelete(st, id)
    case Load(s) => DoLoad(st, s)
    case StopAll => DoStopAll(st)
    case Exit(r) => st.(runners := st.runners - {r})
    case Snapshot(r) => DoSnapshot(st, r)
    case Post(r) => DoPost(st, r)
    case Account(r, now) => DoAccount(st, r, now)
  }

  // ----- accepted and refused updates

  /** The update asks for nothing that is refused: an empty name, or less than 50 milliseconds. */
  predicate Acceptable(p: Params) {
    p.name != Some("") && (p.interval.Some? ==> p.interval.value >= 50_000_000)
  }

  /** Field by field: what the update gives is set, and the rest stays. */
  predicate Applied(s: Schedule, p: Params, s': Schedule) {
    && s'.name == (if p.name.Some? then p.name.value else s.name)
    && s'.template.agentID == (if p.agentID.Some? then p.agentID.value else s.template.agentID)
    && s'.template.capability == (if p.capability.Some? then p.capability.value else s.template.capability)
    && s'.template.payload == (if p.payload.Some? then p.payload.value else s.template.payload)
    && s'.interval == (if p.interval.Some? then p.interval.value else s.interval)
    && s'.active == (if p.active.Some? then p.active.value else s.active)
    && s'.id == s.id && s'.template.tenant == s.template.tenant && s'.lastRun == s.lastRun && s'.runCount == s.runCount
  }

  lemma EditedIsApplied(s: Schedule, p: Params)
    requires Acceptable(p)
    ensures Applied(s, p, Edited(s, p)) && !Refused(p)
  {
  }

  /** What an accepted update does: it is applied to its schedule, and no other changes. */
  lemma AcceptedUpdate(st: State, tenant: string, id: string, p: Params)
    requires Owns(st, tenant, id) && Acceptable(p)
    ensures var st' := DoUpdate(st, tenant, id, p);
            && id in st'.schedules && Applied(st.schedules[id].sched, p, st'.schedules[id].sched)
            && st'.counter == st.counter && st'.stopped == st.stopped
            && forall other :: other != id ==>
                 (other in st'.schedules <==> other in st.schedules) &&
                 (other in st.schedules && other in st'.schedules ==> st'.schedules[other] == st.schedules[other])
  {
    EditedIsApplied(st.schedules[id].sched, p);
    hide Cancelled, Edited, Refused, Acceptable, Applied;
  }

  predicate Owns(st: State, tenant: string, id: string) {
    id in st.schedules && (tenant == "" || st.schedules[id].sched.template.tenant == tenant)
  }

  /** The edit is not asked for, or asks for what is there already. */
  predicate Idle<T(==)>(o: Option<T>, present: T) { o.Some? ==> o.value == present }

  /** The edits that come before the interval is looked at change nothing. */
  predicate IdleEdits(s: Schedule, p: Params) {
    && Idle(p.name, s.name) && Idle(p.agentID, s.template.agentID)
    && Idle(p.capability, s.template.capability) && Idle(p.payload, s.template.payload)
  }

  /** A refused update leaves everything as it was if and only if it is refused for its name, or
      the edits that come before the refusal are none. */
  lemma RefusedUpdateIff(st: State, tenant: string, id: string, p: Params)
    requires Owns(st, tenant, id) && Refused(p)
    ensures DoUpdate(st, tenant, id, p) == st <==> p.name == Some("") || IdleEdits(st.schedules[id].sched, p)
  {
    var e := st.schedules[id];
    var e' := e.(sched := Edited(e.sched, p));
    assert DoUpdate(st, tenant, id, p).schedules == st.schedules[id := e'];
    assert st.schedules[id := e'] == st.schedules <==> e' == e;
  }

  /** A refused update that renames: a new name and an interval that is too short. */
  lemma RefusedUpdateRenames(st: State, id: string, name: string)
    requires id in st.schedules && name != "" && name != st.schedules[id].sched.name
    ensures var p := Params(Some(name), None, None, None, Some(0), None);
            var st' := DoUpdate(st, "", id, p);
            Refused(p) && id in st'.schedules && st'.schedules[id].sched.name == name && st' != st
  {
    RefusedUpdateIff(st, "", id, Params(Some(name), None, None, None, Some(0), None));
  }

  // ----- one live runner per active schedule

  /** Cancellation handles and uncancelled runners are in one-to-one correspondence. */
  ghost predicate Handled(st: State) {
    && (forall r :: r in st.runners ==> r < st.nextRunner)
    && (forall id :: id in st.schedules && st.schedules[id].cancel.Some? ==>
          var r := st.schedules[id].cancel.value;
          r in st.runners && st.runners[r].sched == id && !st.runners[r].cancelled)
    && (forall r :: r in st.runners && !st.runners[r].cancelled ==>
          var id := st.runners[r].sched;
          id in st.schedules && st.schedules[id].cancel == Some(r))
  }

  ghost predicate ActiveHaveHandles(st: State) {
    forall id :: id in st.schedules ==>
      && (st.schedules[id].cancel.Some? ==> st.schedules[id].sched.active)
      && (!st.stopped && st.schedules[id].sched.active ==> st.schedules[id].cancel.Some?)
  }

  /** Schedules are stored under their own id, and the counter is at least every number used. */
  ghost predicate Named(st: State) {
    forall id :: id in st.schedules ==>
      st.schedules[id].sched.id == id && id in st.marks && ParseNum(SCHED_ID_PREFIX, id) <= st.counter
  }

  /** Every live runner ticks at its schedule's present interval. */
  ghost predicate InTempo(st: State) {
    forall id :: id in st.schedules && st.schedules[id].cancel.Some? ==>
      var r := st.schedules[id].cancel.value;
      r in st.runners ==> st.runners[r].interval == st.schedules[id].sched.interval
  }

  ghost predicate Core(st: State) {
    Handled(st) && ActiveHaveHandles(st) && Named(st)
  }

  /** The invariant of the step system. */
  ghost predicate Live(st: State) {
    Core(st) && InTempo(st)
  }

  ghost function LiveRunners(st: State, id: string): set<nat> {
    set r | r in st.runners && st.runners[r].sched == id && !st.runners[r].cancelled
  }

  /** Before everything is stopped: exactly one live runner per active schedule, none per
      paused or absent one. */
  lemma OneRunnerPerActive(st: State, id: string)
    requires Live(st) && !st.stopped
    ensures |LiveRunners(st, id)| == if id in st.schedules && st.schedules[id].sched.active then 1 else 0
  {
    if id in st.schedules && st.schedules[id].sched.active {
      assert LiveRunners(st, id) == {st.schedules[id].cancel.value};
    } else {
      assert LiveRunners(st, id) == {};
    }
  }

  // The invariant, step by step. A live runner without a handle is a stray; the invariant says
  // there is none, and only a load over an entry that has a runner makes one.

  function WithSchedule(st: State, id: string, s: Schedule): State
    requires id in st.schedules
  {
    st.(schedules := st.schedules[id := st.schedules[id].(sched := s)])
  }

  lemma FreshAdd(st: State)
    requires Named(st) && st.counter + 1 < UINT64_LIMIT
    ensures var id := FormatId(SCHED_ID_PREFIX, st.counter + 1);
            id !in st.schedules && ParseNum(SCHED_ID_PREFIX, id) == st.counter + 1
  {
    ParseFormat(SCHED_ID_PREFIX, st.counter + 1);
  }

  lemma UpdateKeepsHandles(st: State, tenant: string, id: string, p: Params)
    requires ActiveHaveHandles(st)
    ensures ActiveHaveHandles(DoUpdate(st, tenant, id, p))
  {
    if id in st.schedules { RefusedKeepsActive(st.schedules[id].sched, p); }
    hide Edited, Refused;
  }

  lemma RefusedKeepsActive(s: Schedule, p: Params)
    ensures Refused(p) ==> Edited(s, p).active == s.active && Edited(s, p).interval == s.interval
  {
  }

  predicate Possible(st: State, ev: Event) { ev.Load? || Enabled(st, ev) }

  ghost function Step(st: State, ev: Event): State
    requires Possible(st, ev)
  {
    if ev.Load? then DoLoad(st, ev.sched) else Next(st, ev)
  }

  /** Every handle is that of a live runner of its schedule, and ids are in order. */
  ghost predicate Held(st: State) {
    && (forall r :: r in st.runners ==> r < st.nextRunner)
    && (forall id :: id in st.schedules && st.schedules[id].cancel.Some? ==>
          var r := st.schedules[id].cancel.value;
          r in st.runners && st.runners[r].sched == id && !st.runners[r].cancelled)
    && Named(st)
  }

  /** A live runner that nothing has the handle of. */
  ghost predicate Stray(st: State, r: nat) {
    r in st.runners && !st.runners[r].cancelled && !IsHandle(st.schedules, r)
  }

  /** The load replaces the entry whose handle is that of `r`. */
  predicate Leaks(st: State, ev: Event, r: nat) {
    ev.Load? && ev.sched.id in st.schedules && st.schedules[ev.sched.id].cancel == Some(r)
  }

  /** A schedule comes in and is started if it is active. */
  function Entered(st: State, s: Schedule, counter: nat): State {
    if s.active then Start(Enter(st, s, counter), s.id) else Enter(st, s, counter)
  }

  /** The counter covers the schedule's number. */
  predicate Covers(st: State, s: Schedule, counter: nat) {
    st.counter <= counter && ParseNum(SCHED_ID_PREFIX, s.id) <= counter
  }

  /** Both ways in, as one: a schedule comes in, or nothing happens. */
  lemma ComesIn(st: State, ev: Event) returns (s: Schedule, counter: nat)
    requires Named(st) && Possible(st, ev) && (ev.Add? || ev.Load?)
    ensures Step(st, ev) == Entered(st, s, counter) || (ev.Add? && Step(st, ev) == st)
    ensures Covers(st, s, counter)
    ensures if ev.Load? then s == ev.sched else s.id !in st.schedules
  {
    match ev
    case Add(name, template, interval) =>
      FreshAdd(st);
      counter := st.counter + 1;
      s := Schedule(FormatId(SCHED_ID_PREFIX, counter), name, template, interval, true, None, 0);
    case Load(sched) =>
      var n := ParseNum(SCHED_ID_PREFIX, sched.id);
      s, counter := sched, if n > st.counter then n else st.counter;
  }

  lemma StartHeld(st: State, id: string)
    requires Held(st) && id in st.schedules
    ensures Held(Start(st, id))
  {
  }

  lemma StopHeld(st: State, id: string)
    requires Held(st) && id in st.schedules
    ensures Held(Stop(st, id)) && id in Stop(st, id).schedules
  {
  }

  lemma EditHeld(st: State, id: string, s: Schedule)
    requires Held(st) && id in st.schedules && s.id == id
    ensures Held(WithSchedule(st, id, s))
  {
    hide ParseNum;
  }

  lemma EnterHeld(st: State, s: Schedule, counter: nat)
    requires Held(st) && Covers(st, s, counter)
    ensures Held(Enter(st, s, counter)) && s.id in Enter(st, s, counter).schedules && Held(Entered(st, s, counter))
  {
    var st' := Enter(st, s, counter);
    assert Held(st') by { hide ParseNum, InFlight; }
    StartHeld(st', s.id);
    hide Held, Enter, Start;
  }

  lemma UpdateHeld(st: State, tenant: string, id: string, p: Params)
    requires Held(st)
    ensures Held(DoUpdate(st, tenant, id, p))
  {
    if id in st.schedules {
      var now := Edited(st.schedules[id].sched, p);
      assert now.id == id;
      hide Held, Edited, Refused, Start, Stop;
      EditHeld(st, id, now);
      var st' := WithSchedule(st, id, now);
      StopHeld(st', id);
      StartHeld(st', id);
      StartHeld(Stop(st', id), id);
    }
  }

  lemma RunnerStepHeld(st: State, ev: Event)
    requires Held(st) && Enabled(st, ev) && (ev.Exit? || ev.Snapshot? || ev.Post? || ev.Account?)
    ensures Held(Next(st, ev))
  {
    hide ParseNum;
    match ev
    case Exit(_) =>
    case Snapshot(r) =>
      hide Held;
      PhaseHeld(st, r, DoSnapshot(st, r).runners[r].phase);
    case Post(r) =>
      hide Held;
      PhaseHeld(st, r, Posted);
    case Account(r, now) =>
      hide Held, DoAccount;
      AccountHeld(st, r, now);
  }

  lemma AccountHeld(st: State, r: nat, now: int)
    requires Held(st) && r in st.runners
    ensures Held(DoAccount(st, r, now))
  {
    var id := st.runners[r].sched;
    assert id in st.schedules ==> st.schedules[id].sched.id == id;
    hide Held, Named, SetPhase;
    var st' := st.(runners := SetPhase(st.runners, r, Waiting));
    PhaseHeld(st, r, Waiting);
    if id in st.schedules {
      var s := st.schedules[id].sched;
      var s' := s.(lastRun := Some(now), runCount := s.runCount + 1);
      EditHeld(st', id, s');
      assert DoAccount(st, r, now) == WithSchedule(st', id, s');
    }
  }

  lemma PhaseHeld(st: State, r: nat, phase: Phase)
    requires Held(st) && r in st.runners
    ensures var st' := st.(runners := SetPhase(st.runners, r, phase));
            && Held(st') && (forall m :: Held(st'.(posted := m))) && forall m :: Held(st'.(skipped := m))
  {
  }

  lemma StepHeld(st: State, ev: Event)
    requires Held(st) && Possible(st, ev)
    ensures Held(Step(st, ev))
  {
    if ev.Add? || ev.Load? {
      var s, counter := ComesIn(st, ev);
      EnterHeld(st, s, counter);
      hide Held, Entered, Step;
      return;
    }
    match ev
    case Update(tenant, id, params) =>
      hide Held, DoUpdate;
      UpdateHeld(st, tenant, id, params);
    case Delete(id) =>
      hide ParseNum;
      if id in st.schedules { StopHeld(st, id); }
    case StopAll => hide ParseNum;
    case _ =>
      hide Held, Next;
      RunnerStepHeld(st, ev);
  }

  // How the building blocks change who is stray.

  lemma StartStray(st: State, id: string, r: nat)
    requires Held(st) && id in st.schedules && st.schedules[id].cancel.None?
    ensures Stray(Start(st, id), r) <==> Stray(st, r)
  {
    var st' := Start(st, id);
    SameHandles(st.schedules, st'.schedules, id, r);
    if r == st.nextRunner { assert st'.schedules[id].cancel == Some(r); }
  }

  lemma SameHandles(a: map<string, Entry>, b: map<string, Entry>, id: string, r: nat)
    requires forall k :: k != id ==> (k in a <==> k in b) && (k in a && k in b ==> a[k].cancel == b[k].cancel)
    ensures !(id in a && a[id].cancel == Some(r)) && !(id in b && b[id].cancel == Some(r)) ==> (IsHandle(a, r) <==> IsHandle(b, r))
    ensures id in a && a[id].cancel == Some(r) ==> IsHandle(a, r)
    ensures id in b && b[id].cancel == Some(r) ==> IsHandle(b, r)
  {
    if IsHandle(a, r) && !(id in a && a[id].cancel == Some(r)) {
      var k :| k in a && a[k].cancel == Some(r);
      assert k in b && b[k].cancel == Some(r);
    }
    if IsHandle(b, r) && !(id in b && b[id].cancel == Some(r)) {
      var k :| k in b && b[k].cancel == Some(r);
      assert k in a && a[k].cancel == Some(r);
    }
  }

  lemma StopStray(st: State, id: string, r: nat)
    requires Held(st) && id in st.schedules
    ensures id in Stop(st, id).schedules && Stop(st, id).schedules[id].cancel.None?
    ensures Stray(Stop(st, id), r) <==> Stray(st, r)
  {
    SameHandles(st.schedules, Stop(st, id).schedules, id, r);
  }

  lemma EditStray(st: State, id: string, s: Schedule, r: nat)
    requires id in st.schedules
    ensures Stray(WithSchedule(st, id, s), r) <==> Stray(st, r)
  {
    SameHandles(st.schedules, WithSchedule(st, id, s).schedules, id, r);
  }

  /** An entry that is replaced leaves its runner stray, and nothing else changes. */
  lemma EnterStray(st: State, s: Schedule, counter: nat, r: nat)
    requires Held(st) && Covers(st, s, counter)
    ensures Stray(Entered(st, s, counter), r) <==>
            Stray(st, r) || (s.id in st.schedules && st.schedules[s.id].cancel == Some(r))
  {
    var st' := Enter(st, s, counter);
    EnterHeld(st, s, counter);
    SameHandles(st.schedules, st'.schedules, s.id, r);
    assert Stray(st', r) <==> Stray(st, r) || (s.id in st.schedules && st.schedules[s.id].cancel == Some(r));
    assert st'.schedules[s.id].cancel.None?;
    hide Held, Stray, Enter, Start, Covers;
    StartStray(st', s.id, r);
  }

  lemma UpdateStray(st: State, tenant: string, id: string, p: Params, r: nat)
    requires Held(st) && ActiveHaveHandles(st)
    ensures Stray(DoUpdate(st, tenant, id, p), r) <==> Stray(st, r)
  {
    if id in st.schedules {
      var was := st.schedules[id].sched;
      var now := Edited(was, p);
      assert (!was.active ==> st.schedules[id].cancel.None?) && now.id == id;
      hide Held, Stray, Edited, Refused, Start, Stop, ActiveHaveHandles;
      EditHeld(st, id, now);
      EditStray(st, id, now, r);
      var st' := WithSchedule(st, id, now);
      StopHeld(st', id);
      StopStray(st', id, r);
      StartStray(Stop(st', id), id, r);
      if !was.active { StartStray(st', id, r); }
    }
  }

  lemma DeleteStray(st: State, id: string, r: nat)
    requires Held(st)
    ensures Stray(DoDelete(st, id), r) <==> Stray(st, r)
  {
    if id in st.schedules {
      StopStray(st, id, r);
      SameHandles(Stop(st, id).schedules, DoDelete(st, id).schedules, id, r);
    }
  }

  lemma StopAllStray(st: State, r: nat)
    ensures Stray(DoStopAll(st), r) <==> Stray(st, r)
  {
    assert !IsHandle(DoStopAll(st).schedules, r);
  }

  lemma RunnerStepStray(st: State, ev: Event, r: nat)
    requires Enabled(st, ev) && (ev.Exit? || ev.Snapshot? || ev.Post? || ev.Account?)
    ensures Stray(Next(st, ev), r) <==> Stray(st, r)
  {
    if ev.Account? {
      var id := st.runners[ev.runner].sched;
      SameHandles(st.schedules, Next(st, ev).schedules, id, r);
    }
  }

  /** What every step keeps, loads over anything included. */
  ghost predicate Loose(st: State) { Held(st) && ActiveHaveHandles(st) }

  /** Exactly how runners go stray: by a load over the entry that has their handle, and by
      nothing else; and once stray they stay so. No update, deletion or stop of everything
      cancels them, and they never exit. */
  lemma StrayIff(st: State, ev: Event, r: nat)
    requires Loose(st) && Possible(st, ev)
    ensures Stray(Step(st, ev), r) <==> Stray(st, r) || Leaks(st, ev, r)
  {
    if ev.Add? || ev.Load? {
      var s, counter := ComesIn(st, ev);
      EnterStray(st, s, counter, r);
      hide Held, ActiveHaveHandles, Stray, Entered, Step;
      return;
    }
    hide Held, ActiveHaveHandles, Stray, DoUpdate, DoDelete, DoStopAll;
    match ev
    case Update(tenant, id, params) => UpdateStray(st, tenant, id, params, r);
    case Delete(id) => DeleteStray(st, id, r);
    case StopAll => StopAllStray(st, r);
    case _ =>
      hide Next;
      RunnerStepStray(st, ev, r);
  }

  lemma EnterKeepsHandles(st: State, s: Schedule, counter: nat)
    requires ActiveHaveHandles(st)
    ensures ActiveHaveHandles(Entered(st, s, counter))
  {
    hide InFlight;
  }

  lemma RestKeepsHandles(st: State, ev: Event)
    requires ActiveHaveHandles(st) && Enabled(st, ev) && !ev.Add? && !ev.Load? && !ev.Update?
    ensures ActiveHaveHandles(Next(st, ev))
  {
  }

  lemma StepKeepsLoose(st: State, ev: Event)
    requires Loose(st) && Possible(st, ev)
    ensures Loose(Step(st, ev))
  {
    StepHeld(st, ev);
    if ev.Add? || ev.Load? {
      var s, counter := ComesIn(st, ev);
      EnterKeepsHandles(st, s, counter);
      hide Held, ActiveHaveHandles, Entered, Step;
      return;
    }
    match ev
    case Update(tenant, id, params) =>
      hide Held, ActiveHaveHandles, DoUpdate;
      UpdateKeepsHandles(st, tenant, id, params);
    case _ =>
      hide Held, ActiveHaveHandles, Next;
      RestKeepsHandles(st, ev);
  }

  lemma CoreIff(st: State)
    ensures Core(st) <==> Loose(st) && forall r: nat :: !Stray(st, r)
  {
    hide ParseNum;
    if Loose(st) && forall r: nat :: !Stray(st, r) {
      forall r | r in st.runners && !st.runners[r].cancelled
        ensures var id := st.runners[r].sched; id in st.schedules && st.schedules[id].cancel == Some(r)
      {
        assert !Stray(st, r);
      }
    }
    if Core(st) {
      forall r: nat ensures !Stray(st, r) {
        if r in st.runners && !st.runners[r].cancelled {
          assert st.schedules[st.runners[r].sched].cancel == Some(r);
        }
      }
    }
  }

  lemma StepKeepsCore(st: State, ev: Event)
    requires Core(st) && Enabled(st, ev)
    ensures Core(Next(st, ev))
  {
    assert forall r: nat :: !Leaks(st, ev, r);
    hide Core, Loose, Stray, Leaks, Next, Enabled;
    CoreIff(st);
    AsStep(st, ev);
    StepKeepsLoose(st, ev);
    forall r: nat ensures !Stray(Next(st, ev), r) {
      StrayIff(st, ev, r);
    }
    CoreIff(Next(st, ev));
  }

  lemma AsStep(st: State, ev: Event)
    requires Enabled(st, ev)
    ensures Possible(st, ev) && Step(st, ev) == Next(st, ev)
  {
  }

  lemma StopAllCancels(st: State)
    requires Core(st)
    ensures forall r :: r in DoStopAll(st).runners ==> DoStopAll(st).runners[r].cancelled
  {
    forall r | r in st.runners && !st.runners[r].cancelled ensures IsHandle(st.schedules, r) {
      assert st.schedules[st.runners[r].sched].cancel == Some(r);
    }
  }

  // The tempo part.

  lemma StartInTempo(st: State, id: string)
    requires Held(st) && InTempo(st) && id in st.schedules
    ensures InTempo(Start(st, id))
  {
  }

  lemma StopInTempo(st: State, id: string)
    requires InTempo(st) && id in st.schedules
    ensures InTempo(Stop(st, id))
  {
  }

  /** Edits that leave the interval alone, or that hit a schedule without a runner. */
  lemma EditInTempo(st: State, id: string, s: Schedule)
    requires InTempo(st) && id in st.schedules
    requires s.interval == st.schedules[id].sched.interval || st.schedules[id].cancel.None?
    ensures InTempo(WithSchedule(st, id, s))
  {
  }

  /** A schedule edited and stopped is one stopped and edited. */
  lemma StopEditCommute(st: State, id: string, s: Schedule)
    requires id in st.schedules
    ensures Stop(WithSchedule(st, id, s), id) == WithSchedule(Stop(st, id), id, s)
  {
  }

  lemma UpdateInTempo(st: State, tenant: string, id: string, p: Params)
    requires Live(st)
    ensures InTempo(DoUpdate(st, tenant, id, p))
  {
    assert Held(st);
    if id in st.schedules {
      var was := st.schedules[id].sched;
      var now := Edited(was, p);
      RefusedKeepsActive(was, p);
      assert st.schedules[id].cancel.Some? ==> was.active;
      assert now.id == id;
      hide Live, Held, InTempo, Edited, Refused, Start, Stop;
      EditAndStop(st, id, now);
      if now.interval == was.interval || st.schedules[id].cancel.None? {
        EditAndStart(st, id, now);
      }
    }
  }

  /** An edit followed by a stop, and by a start. */
  lemma EditAndStop(st: State, id: string, now: Schedule)
    requires Held(st) && InTempo(st) && id in st.schedules && now.id == id
    ensures var edited := WithSchedule(st, id, now);
            id in Stop(edited, id).schedules && InTempo(Stop(edited, id)) && InTempo(Start(Stop(edited, id), id))
  {
    var stopped := Stop(st, id);
    StopHeld(st, id);
    StopInTempo(st, id);
    assert stopped.schedules[id].cancel.None?;
    StopEditCommute(st, id, now);
    hide Held, InTempo, Start, Stop;
    EditInTempo(stopped, id, now);
    EditHeld(stopped, id, now);
    StartInTempo(WithSchedule(stopped, id, now), id);
  }

  lemma EditAndStart(st: State, id: string, now: Schedule)
    requires Held(st) && InTempo(st) && id in st.schedules && now.id == id
    requires now.interval == st.schedules[id].sched.interval || st.schedules[id].cancel.None?
    ensures InTempo(WithSchedule(st, id, now)) && InTempo(Start(WithSchedule(st, id, now), id))
  {
    hide Held, InTempo, Start;
    EditInTempo(st, id, now);
    EditHeld(st, id, now);
    StartInTempo(WithSchedule(st, id, now), id);
  }

  lemma EnterInTempo(st: State, s: Schedule, counter: nat)
    requires Live(st) && Loadable(st, s.id) && Covers(st, s, counter)
    ensures InTempo(Entered(st, s, counter))
  {
    var st' := Enter(st, s, counter);
    EnterHeld(st, s, counter);
    assert InTempo(st');
    StartInTempo(st', s.id);
  }

  lemma RunnerStepInTempo(st: State, ev: Event)
    requires Live(st) && Enabled(st, ev) && (ev.Exit? || ev.Snapshot? || ev.Post? || ev.Account?)
    ensures InTempo(Next(st, ev))
  {
    hide Named, ActiveHaveHandles;
  }

  lemma StepKeepsTempo(st: State, ev: Event)
    requires Live(st) && Enabled(st, ev)
    ensures InTempo(Next(st, ev))
  {
    AsStep(st, ev);
    LiveIsInTempo(st);
    if ev.Add? || ev.Load? {
      var s, counter := ComesIn(st, ev);
      assert Loadable(st, s.id);
      EnterInTempo(st, s, counter);
      hide Live, InTempo, Entered, Step;
      return;
    }
    match ev
    case Update(tenant, id, params) => UpdateInTempo(st, tenant, id, params);
    case Delete(id) =>
      hide Live;
      if id in st.schedules { StopInTempo(st, id); }
    case StopAll =>
    case _ =>
      hide InTempo, Core, Next;
      RunnerStepInTempo(st, ev);
  }

  lemma LiveIsInTempo(st: State)
    requires Live(st)
    ensures InTempo(st)
  {
  }

  /** Every step keeps the invariant, updates that fail half way and cancelled runners included. */
  lemma StepKeepsLive(st: State, ev: Event)
    requires Live(st) && Enabled(st, ev)
    ensures Live(Next(st, ev))
  {
    hide Core, InTempo, Next, Enabled;
    StepKeepsCore(st, ev);
    StepKeepsTempo(st, ev);
  }

  /** Loading keeps runners and handles matched exactly when it replaces no entry with a runner,
      which before everything is stopped means no active one. */
  lemma LoadOverExistingIff(st: State, s: Schedule)
    requires Live(st)
    ensures Handled(DoLoad(st, s)) <==> Loadable(st, s.id)
    ensures !st.stopped ==> (Loadable(st, s.id) <==> !(s.id in st.schedules && st.schedules[s.id].sched.active))
  {
    var st' := DoLoad(st, s);
    CoreIff(st);
    CoreIff(st');
    StepKeepsLoose(st, Load(s));
    hide Loose, Stray, Named, DoLoad, InTempo, Held;
    forall r: nat ensures Stray(st', r) <==> s.id in st.schedules && st.schedules[s.id].cancel == Some(r) {
      StrayIff(st, Load(s), r);
    }
    CoreParts(st');
  }

  lemma CoreParts(st: State)
    requires Loose(st)
    ensures Core(st) <==> Handled(st)
  {
    hide Handled;
  }

  predicate Active(st: State, id: string) { id in st.schedules && st.schedules[id].sched.active }

  /** How many live runners a load leaves: the one of the entry it replaces is never cancelled,
      and the loaded schedule gets its own, so the two active flags add up. */
  lemma RunnersAfterLoad(st: State, s: Schedule)
    requires Live(st) && !st.stopped
    ensures |LiveRunners(DoLoad(st, s), s.id)| == (if Active(st, s.id) then 1 else 0) + if s.active then 1 else 0
  {
    OneRunnerPerActive(st, s.id);
    LoadAddsRunner(st, s);
    hide Live, LiveRunners, DoLoad;
  }

  lemma LoadAddsRunner(st: State, s: Schedule)
    requires Live(st)
    ensures st.nextRunner !in LiveRunners(st, s.id)
    ensures LiveRunners(DoLoad(st, s), s.id) == LiveRunners(st, s.id) + if s.active then {st.nextRunner} else {}
  {
  }
}
