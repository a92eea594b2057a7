/**
 The schedule manager itself: its methods and its runners' steps, updating the schedules
 in place, each proved to take exactly the step of the system in `Scheduler`.
 */
module SchedulerManager {
  import opened Options
  import opened Ids
  import opened Scheduler

  class Manager {
    var schedules: map<string, Entry>
    var counter: nat
    var runners: Runners
    var nextRunner: nat
    // what has happened so far; nothing the manager does depends on it
    ghost var posted: multiset<string>
    ghost var skipped: multiset<string>
    ghost var marks: map<string, Mark>
    ghost var stopped: bool

    ghost function View(): State
      reads this
    {
      State(schedules, counter, runners, nextRunner, posted, skipped, marks, stopped)
    }

    constructor ()
      ensures View() == INITIAL
    {
      schedules, counter, runners, nextRunner := map[], 0, map[], 0;
      posted, skipped, marks, stopped := multiset{}, multiset{}, map[], false;
    }

    method StartLocked(id: string)
      requires id in schedules
      modifies this
      ensures View() == Start(old(View()), id)
    {
      schedules := schedules[id := schedules[id].(cancel := Some(nextRunner))];
      runners := runners[nextRunner := Runner(id, schedules[id].sched.interval, false, Waiting)];
      nextRunner := nextRunner + 1;
    }

    method StopLocked(id: string)
      requires id in schedules
      modifies this
      ensures View() == Stop(old(View()), id)
    {
      if schedules[id].cancel.None? { return; }
      runners := Scheduler.Cancelled(runners, schedules[id].cancel.value);
      schedules := schedules[id := schedules[id].(cancel := None)];
    }

    method Add(name: string, template: Template, interval: int) returns (id: Option<string>)
      modifies this
      ensures View() == DoAdd(old(View()), name, template, interval)
      ensures id.None? <==> name == "" || interval < 50_000_000
      ensures id.Some? ==>
                && counter == old(counter) + 1 && id.value == FormatId("sched-", counter) && id.value in schedules
                && schedules[id.value].sched == Schedule(id.value, name, template, interval, true, None, 0)
    {
      hide FormatId, InFlight;
      if name == "" { return None; }
      if interval < MIN_INTERVAL { return None; }
      counter := counter + 1;
      var s := Schedule(FormatId(SCHED_ID_PREFIX, counter), name, template, interval, true, None, 0);
      schedules := schedules[s.id := Entry(s, None)];
      marks := marks[s.id := Mark(s.runCount, posted[s.id], skipped[s.id], |InFlight(runners, s.id)|)];
      StartLocked(s.id);
      id := Some(s.id);
    }

    /** Re-arm the persisted schedules of a tenant, in the order they were read. */
    method LoadAll(loaded: seq<Schedule>)
      modifies this
      ensures View() == Loaded(old(View()), loaded)
    {
      for i := 0 to |loaded|
        invariant Loaded(View(), loaded[i..]) == Loaded(old(View()), loaded)
      {
        assert loaded[i..][1..] == loaded[i + 1..];
        LoadOne(loaded[i]);
      }
    }

    method LoadOne(s: Schedule)
      modifies this
      ensures View() == DoLoad(old(View()), s)
    {
      hide ParseNum, InFlight;
      var n := ParseNum(SCHED_ID_PREFIX, s.id);
      if n > counter {
        counter := n;
      }
      schedules := schedules[s.id := Entry(s, None)];
      marks := marks[s.id := Mark(s.runCount, posted[s.id], skipped[s.id], |InFlight(runners, s.id)|)];
      if s.active {
        StartLocked(s.id);
      }
    }

    method Update(tenant: string, id: string, p: Params) returns (found: bool, ok: bool)
      modifies this
      ensures View() == DoUpdate(old(View()), tenant, id, p)
      ensures found == (id in old(schedules) && (tenant == "" || old(schedules)[id].sched.template.tenant == tenant))
      ensures ok == (found && Acceptable(p))
      ensures ok ==> id in schedules && Applied(old(schedules)[id].sched, p, schedules[id].sched)
    {
      if id !in schedules || (tenant != "" && schedules[id].sched.template.tenant != tenant) { return false, false; }
      ghost var st := View();
      if Acceptable(p) { AcceptedUpdate(st, tenant, id, p); }
      ok := Rearm(tenant, id, p);
      found := true;
    }

    /** The part of an update after the look-up. */
    method Rearm(tenant: string, id: string, p: Params) returns (ok: bool)
      requires id in schedules && (tenant == "" || schedules[id].sched.template.tenant == tenant)
      modifies this
      ensures View() == DoUpdate(old(View()), tenant, id, p)
      ensures ok == Acceptable(p)
    {
      hide Edited, Refused, Acceptable;
      var wasActive := schedules[id].sched.active;
      var s, refused, intervalChanged := EditFields(schedules[id].sched, p);
      EditInPlace(id, s);
      if refused { return false; }
      if wasActive && !s.active {
        StopLocked(id);
      } else if !wasActive && s.active {
        StartLocked(id);
      } else if wasActive && s.active && intervalChanged {
        StopLocked(id);
        StartLocked(id);
      }
      ok := true;
    }

    /** The edits one after the other, up to the first that is refused. */
    method EditFields(was: Schedule, p: Params) returns (s: Schedule, refused: bool, intervalChanged: bool)
      ensures s == Edited(was, p) && refused == Refused(p) == !Acceptable(p)
      ensures !refused ==> intervalChanged == (s.interval != was.interval)
    {
      s, refused, intervalChanged := was, false, false;
      if p.name.Some? {
        if p.name.value == "" { return s, true, false; }
        s := s.(name := p.name.value);
      }
      var t := s.template;
      if p.agentID.Some? { t := t.(agentID := p.agentID.value); }
      if p.capability.Some? { t := t.(capability := p.capability.value); }
      if p.payload.Some? { t := t.(payload := p.payload.value); }
      s := s.(template := t);
      if p.interval.Some? {
        if p.interval.value < MIN_INTERVAL { return s, true, false; }
        if s.interval != p.interval.value {
          s := s.(interval := p.interval.value);
          intervalChanged := true;
        }
      }
      if p.active.Some? { s := s.(active := p.active.value); }
    }

    method EditInPlace(id: string, s: Schedule)
      requires id in schedules
      modifies this`schedules
      ensures schedules == old(schedules)[id := old(schedules)[id].(sched := s)]
    {
      schedules := schedules[id := schedules[id].(sched := s)];
    }

    method Delete(id: string) returns (ok: bool)
      modifies this
      ensures View() == DoDelete(old(View()), id)
      ensures ok == (id in old(schedules)) && schedules.Keys == old(schedules).Keys - {id}
    {
      if id !in schedules { return false; }
      StopLocked(id);
      schedules := schedules - {id};
      ok := true;
    }

    method StopAll()
      modifies this
      ensures View() == DoStopAll(old(View()))
    {
      ghost var was := View();
      StopNone(was);
      var todo := schedules.Keys;
      while todo != {}
        invariant todo <= was.schedules.Keys == schedules.Keys
        invariant View() == StopSome(was, was.schedules.Keys - todo)
        decreases |todo|
      {
        var id :| id in todo;
        StopOneMore(was, was.schedules.Keys - todo, id);
        assert was.schedules.Keys - (todo - {id}) == was.schedules.Keys - todo + {id};
        hide StopSome;
        StopLocked(id);
        todo := todo - {id};
      }
      assert was.schedules.Keys - todo == was.schedules.Keys;
      StopEvery(was);
      stopped := true;
    }

    /** A tick: the runner looks up its schedule. */
    method TakeSnapshot(r: nat) returns (ok: bool)
      requires Enabled(View(), Snapshot(r))
      modifies this
      ensures View() == DoSnapshot(old(View()), r)
      ensures r in runners && ok == runners[r].phase.Ready?
      ensures var id := old(runners)[r].sched;
              && ok == (id in schedules && schedules[id].sched.active)
              && (ok ==> runners[r].phase == Ready(schedules[id].sched.template))
    {
      var id := runners[r].sched;
      if id !in schedules || !schedules[id].sched.active {
        runners := SetPhase(runners, r, Skipped);
        skipped := skipped + multiset{id};
        return false;
      }
      runners := SetPhase(runners, r, Ready(schedules[id].sched.template));
      ok := true;
    }

    /** The submission: what is handed to the job queue is the snapshot. */
    method Submit(r: nat) returns (job: Template)
      requires Enabled(View(), Post(r))
      modifies this
      ensures View() == DoPost(old(View()), r)
      ensures old(runners)[r].phase == Ready(job)
    {
      job := runners[r].phase.snapshot;
      posted := posted + multiset{runners[r].sched};
      runners := SetPhase(runners, r, Posted);
    }

    method AccountRun(r: nat, now: int)
      requires Enabled(View(), Account(r, now))
      modifies this
      ensures View() == DoAccount(old(View()), r, now)
      ensures var id := old(runners)[r].sched;
              id in old(schedules) ==>
                && id in schedules
                && schedules[id].sched == old(schedules)[id].sched.(lastRun := Some(now), runCount := old(schedules)[id].sched.runCount + 1)
    {
      var id := runners[r].sched;
      runners := SetPhase(runners, r, Waiting);
      if id in schedules {
        var s := schedules[id].sched;
        EditInPlace(id, s.(lastRun := Some(now), runCount := s.runCount + 1));
      }
    }
  }

  /** The state in which the schedules of `done` have been stopped. */
  ghost function StopSome(st: State, done: set<string>): State {
    st.(schedules := map id | id in st.schedules ::
                       if id in done then st.schedules[id].(cancel := None) else st.schedules[id],
        runners := map r | r in st.runners ::
                     if StoppedBy(st, done, r) then st.runners[r].(cancelled := true) else st.runners[r])
  }

  ghost predicate StoppedBy(st: State, done: set<string>, r: nat) {
    exists id :: id in st.schedules && id in done && st.schedules[id].cancel == Some(r)
  }

  lemma StopNone(st: State)
    ensures StopSome(st, {}) == st
  {
    assert StopSome(st, {}).schedules == st.schedules;
    assert StopSome(st, {}).runners == st.runners;
  }

  lemma StopEvery(st: State)
    ensures StopSome(st, st.schedules.Keys).(stopped := true) == DoStopAll(st)
  {
    forall r: nat ensures StoppedBy(st, st.schedules.Keys, r) <==> IsHandle(st.schedules, r) {
    }
    assert StopSome(st, st.schedules.Keys).schedules == DoStopAll(st).schedules;
    assert StopSome(st, st.schedules.Keys).runners == DoStopAll(st).runners;
  }

  lemma StopOneMore(st: State, done: set<string>, id: string)
    requires id in st.schedules && id !in done
    ensures Stop(StopSome(st, done), id) == StopSome(st, done + {id})
  {
    var a, b := Stop(StopSome(st, done), id), StopSome(st, done + {id});
    forall r: nat ensures StoppedBy(st, done + {id}, r) <==> StoppedBy(st, done, r) || st.schedules[id].cancel == Some(r) {
    }
    assert a.schedules == b.schedules;
    assert a.runners == b.runners;
  }

  function Loaded(st: State, ss: seq<Schedule>): State
    decreases ss
  {
    if ss == [] then st else Loaded(DoLoad(st, ss[0]), ss[1..])
  }
}
