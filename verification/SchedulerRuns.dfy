/**
 What holds over whole runs of the scheduler: one live runner per active schedule, run
 counts that cover every submission, and pausing as a barrier to new submissions.
 */
module SchedulerRuns {
  import opened Options
  import opened Ids
  import opened Scheduler

  // ----- conservation of ticks

  /** Runners of `id` that hold a snapshot they have not submitted yet. */
  function Holding(rs: Runners, id: string): set<nat> {
    set r | r in rs && rs[r].sched == id && rs[r].phase.Ready?
  }

  ghost predicate BalancedFor(st: State, id: string)
    requires id in st.schedules
  {
    id in st.marks &&
    var m := st.marks[id];
    && m.posted <= st.posted[id] && m.skipped <= st.skipped[id]
    && st.posted[id] - m.posted + (st.skipped[id] - m.skipped) + m.inFlight
       == st.schedules[id].sched.runCount - m.runCount + |InFlight(st.runners, id)|
  }

  ghost predicate Balanced(st: State) {
    forall id :: id in st.schedules ==> BalancedFor(st, id)
  }

  /** Nothing that the balance of `id` counts differs between the two states. */
  ghost predicate SameTally(st: State, st': State, id: string)
    requires id in st.schedules && id in st'.schedules
  {
    && id in st'.marks && id in st.marks && st'.marks[id] == st.marks[id]
    && st'.posted[id] == st.posted[id] && st'.skipped[id] == st.skipped[id]
    && st'.schedules[id].sched.runCount == st.schedules[id].sched.runCount
    && InFlight(st'.runners, id) == InFlight(st.runners, id)
    && Holding(st'.runners, id) == Holding(st.runners, id)
  }

  lemma StartTallyAny(st: State, id: string)
    requires (forall r :: r in st.runners ==> r < st.nextRunner) && id in st.schedules
    ensures forall other :: InFlight(Start(st, id).runners, other) == InFlight(st.runners, other)
    ensures forall other :: Holding(Start(st, id).runners, other) == Holding(st.runners, other)
  {
  }

  lemma StopTallyAny(st: State, id: string)
    requires id in st.schedules
    ensures forall other :: InFlight(Stop(st, id).runners, other) == InFlight(st.runners, other)
    ensures forall other :: Holding(Stop(st, id).runners, other) == Holding(st.runners, other)
    ensures forall r :: r in Stop(st, id).runners <==> r in st.runners
  {
  }

  ghost predicate Comparable(st: State, other: string) {
    && other in st.schedules && other in st.marks
    && forall r :: r in st.runners ==> r < st.nextRunner
  }

  lemma EditTally(st: State, id: string, s: Schedule, other: string)
    requires Comparable(st, other) && id in st.schedules && s.runCount == st.schedules[id].sched.runCount
    ensures Comparable(WithSchedule(st, id, s), other) && SameTally(st, WithSchedule(st, id, s), other)
  {
  }

  lemma StopTally(st: State, id: string, other: string)
    requires Comparable(st, other) && id in st.schedules
    ensures id in Stop(st, id).schedules && Comparable(Stop(st, id), other) && SameTally(st, Stop(st, id), other)
  {
    StopTallyAny(st, id);
    hide InFlight, Holding;
  }

  lemma StartTally(st: State, id: string, other: string)
    requires Comparable(st, other) && id in st.schedules
    ensures Comparable(Start(st, id), other) && SameTally(st, Start(st, id), other)
  {
    StartTallyAny(st, id);
    hide InFlight, Holding;
  }

  lemma UpdateTally(st: State, tenant: string, id: string, p: Params, other: string)
    requires Live(st) && other in st.schedules
    ensures other in DoUpdate(st, tenant, id, p).schedules
    ensures SameTally(st, DoUpdate(st, tenant, id, p), other)
  {
    LiveFacts(st);
    hide Live, InFlight, Holding, Edited, Refused, Start, Stop;
    if id in st.schedules {
      var now := Edited(st.schedules[id].sched, p);
      EditedKeepsCount(st.schedules[id].sched, p);
      var st' := WithSchedule(st, id, now);
      EditTally(st, id, now, other);
      StopTally(st', id, other);
      StartTally(st', id, other);
      StartTally(Stop(st', id), id, other);
    }
  }

  lemma LiveFacts(st: State)
    requires Live(st)
    ensures forall r :: r in st.runners ==> r < st.nextRunner
    ensures forall id :: id in st.schedules ==> id in st.marks
  {
  }

  lemma EditedKeepsCount(s: Schedule, p: Params)
    ensures Edited(s, p).runCount == s.runCount
  {
  }

  lemma StopAllTally(st: State, other: string)
    requires Live(st) && other in st.schedules
    ensures other in DoStopAll(st).schedules && SameTally(st, DoStopAll(st), other)
  {
    var st' := DoStopAll(st);
    assert forall r :: r in st'.runners <==> r in st.runners;
    assert InFlight(st'.runners, other) == InFlight(st.runners, other);
    assert Holding(st'.runners, other) == Holding(st.runners, other);
  }

  lemma DeleteTally(st: State, id: string, other: string)
    requires Live(st) && other in st.schedules && other != id
    ensures other in DoDelete(st, id).schedules && SameTally(st, DoDelete(st, id), other)
  {
    if id in st.schedules { StopTallyAny(st, id); }
  }

  /** A schedule that comes in starts balanced, and leaves the others' tallies alone. */
  lemma EnteredIsBalanced(st: State, s: Schedule, counter: nat)
    requires Live(st)
    ensures var st' := Entered(st, s, counter);
            && s.id in st'.schedules && BalancedFor(st', s.id)
            && forall other :: other in st.schedules && other != s.id ==> other in st'.schedules && SameTally(st, st', other)
  {
    EnteredSameRunners(st, s, counter);
    hide InFlight, Holding;
  }

  lemma EnteredSameRunners(st: State, s: Schedule, counter: nat)
    requires Live(st)
    ensures var st' := Entered(st, s, counter);
            && st'.posted == st.posted
            && forall id :: InFlight(st'.runners, id) == InFlight(st.runners, id) && Holding(st'.runners, id) == Holding(st.runners, id)
  {
    StartTallyAny(Enter(st, s, counter), s.id);
  }

  lemma TallyKeepsBalance(st: State, st': State, id: string)
    requires id in st.schedules && id in st'.schedules && SameTally(st, st', id) && BalancedFor(st, id)
    ensures BalancedFor(st', id)
  {
    hide InFlight, Holding;
  }

  lemma EnteredIds(st: State, s: Schedule, counter: nat, id: string)
    requires id in Entered(st, s, counter).schedules && id != s.id
    ensures id in st.schedules
  {
  }

  lemma EnteredKeepsBalance(st: State, s: Schedule, counter: nat)
    requires Live(st) && Balanced(st)
    ensures Balanced(Entered(st, s, counter))
  {
    EnteredIsBalanced(st, s, counter);
    var st' := Entered(st, s, counter);
    forall id | id in st'.schedules ensures BalancedFor(st', id) {
      hide Live, Entered, BalancedFor, SameTally;
      if id != s.id {
        EnteredIds(st, s, counter, id);
        TallyKeepsBalance(st, st', id);
      }
    }
  }

  /** One runner changes phase: how the two sets of every id change. */
  lemma PhaseTally(rs: Runners, r: nat, phase: Phase, id: string)
    requires r in rs
    ensures var rs' := SetPhase(rs, r, phase);
            if rs[r].sched != id then InFlight(rs', id) == InFlight(rs, id) && Holding(rs', id) == Holding(rs, id)
            else
              && InFlight(rs', id) == (if Finishing(phase) then InFlight(rs, id) + {r} else InFlight(rs, id) - {r})
              && Holding(rs', id) == (if phase.Ready? then Holding(rs, id) + {r} else Holding(rs, id) - {r})
              && (r in InFlight(rs, id) <==> Finishing(rs[r].phase))
              && (r in Holding(rs, id) <==> rs[r].phase.Ready?)
  {
  }

  lemma SnapshotKeepsBalance(st: State, r: nat, id: string)
    requires id in st.schedules && BalancedFor(st, id) && r in st.runners && st.runners[r].phase.Waiting?
    ensures BalancedFor(DoSnapshot(st, r), id)
  {
    hide InFlight, Holding;
    PhaseTally(st.runners, r, DoSnapshot(st, r).runners[r].phase, id);
  }

  lemma PostKeepsBalance(st: State, r: nat, id: string)
    requires id in st.schedules && BalancedFor(st, id) && r in st.runners && st.runners[r].phase.Ready?
    ensures BalancedFor(DoPost(st, r), id)
  {
    hide InFlight, Holding;
    PhaseTally(st.runners, r, Posted, id);
  }

  lemma AccountKeepsBalance(st: State, r: nat, now: int, id: string)
    requires id in st.schedules && BalancedFor(st, id) && r in st.runners && Finishing(st.runners[r].phase)
    ensures BalancedFor(DoAccount(st, r, now), id)
  {
    hide InFlight, Holding;
    PhaseTally(st.runners, r, Waiting, id);
  }

  lemma ExitTally(st: State, r: nat, other: string)
    requires Live(st) && r in st.runners && st.runners[r].phase.Waiting? && other in st.schedules
    ensures SameTally(st, st.(runners := st.runners - {r}), other)
  {
  }

  /** Every step keeps the balance. */
  lemma {:induction false} StepKeepsBalance(st: State, ev: Event)
    requires Live(st) && Balanced(st) && Enabled(st, ev)
    ensures Balanced(Next(st, ev))
  {
    assert Named(st);
    AsStep(st, ev);
    hide Live, Named, Step, DoUpdate, DoDelete, DoAdd, DoLoad, DoStopAll, DoSnapshot, DoPost, DoAccount, InFlight, Holding, Entered;
    var st' := Next(st, ev);
    if ev.Add? || ev.Load? {
      var s, counter := ComesIn(st, ev);
      EnteredKeepsBalance(st, s, counter);
    } else {
      forall id | id in st'.schedules ensures BalancedFor(st', id) {
        KeepsId(st, ev, id);
        assert BalancedFor(st, id);
        match ev
        case Update(tenant, u, params) => UpdateTally(st, tenant, u, params, id);
        case Delete(d) => DeleteTally(st, d, id);
        case StopAll => StopAllTally(st, id);
        case Exit(r) => ExitTally(st, r, id);
        case Snapshot(r) => SnapshotKeepsBalance(st, r, id);
        case Post(r) => PostKeepsBalance(st, r, id);
        case Account(r, now) => AccountKeepsBalance(st, r, now, id);
      }
    }
  }

  lemma KeepsId(st: State, ev: Event, id: string)
    requires Enabled(st, ev) && !ev.Add? && !ev.Load? && id in Next(st, ev).schedules
    ensures id in st.schedules && (ev.Delete? ==> id != ev.id)
  {
    hide Edited, Refused, SnapshotOf, Cancelled;
  }

  // ----- runs

  ghost predicate Run(sts: seq<State>, evs: seq<Event>) {
    && |sts| == |evs| + 1
    && sts[0] == INITIAL
    && forall i :: 0 <= i < |evs| ==> Enabled(sts[i], evs[i]) && sts[i + 1] == Next(sts[i], evs[i])
  }

  lemma {:induction false} RunIsLive(sts: seq<State>, evs: seq<Event>, i: nat)
    requires Run(sts, evs) && i < |sts|
    ensures Live(sts[i]) && Balanced(sts[i])
  {
    if i > 0 {
      RunIsLive(sts, evs, i - 1);
      var ev := evs[i - 1];
      assert Enabled(sts[i - 1], ev) && sts[i - 1 + 1] == Next(sts[i - 1], ev);
      hide Live, Balanced, Next, Enabled;
      StepKeepsLive(sts[i - 1], ev);
      StepKeepsBalance(sts[i - 1], ev);
    }
  }

  /** In every state of every run, before everything is stopped, an active schedule has
      exactly one live runner and a paused or absent one has none; and a live runner ticks at
      the interval its schedule has now. */
  lemma OneRunnerAlways(sts: seq<State>, evs: seq<Event>, i: nat, id: string)
    requires Run(sts, evs) && i < |sts| && !sts[i].stopped
    ensures |LiveRunners(sts[i], id)| == if id in sts[i].schedules && sts[i].schedules[id].sched.active then 1 else 0
    ensures forall r :: r in LiveRunners(sts[i], id) ==>
              id in sts[i].schedules && sts[i].runners[r].interval == sts[i].schedules[id].sched.interval
  {
    RunIsLive(sts, evs, i);
    OneRunnerPerActive(sts[i], id);
  }

  /** In every run, before everything is stopped: after an accepted pause the schedule has no live
      runner, and after an accepted resume exactly one. */
  lemma PauseAndResume(sts: seq<State>, evs: seq<Event>, i: nat, tenant: string, id: string, p: Params)
    requires Run(sts, evs) && i < |evs| && |sts| == |evs| + 1 && evs[i] == Update(tenant, id, p)
    requires Owns(sts[i], tenant, id) && Acceptable(p) && p.active.Some? && !sts[i].stopped
    ensures |LiveRunners(sts[i + 1], id)| == if p.active.value then 1 else 0
  {
    RunStep(sts, evs, i);
    AcceptedUpdate(sts[i], tenant, id, p);
    assert sts[i + 1] == DoUpdate(sts[i], tenant, id, p);
    hide Run, DoUpdate, LiveRunners, Owns, Acceptable;
    OneRunnerAlways(sts, evs, i + 1, id);
  }

  /** In every state of every run, the jobs submitted for a schedule since it came in are at
      most the growth of its run count plus the runners between submission and accounting; the
      difference is exactly the ticks on which nothing was submitted, and the runners an earlier
      schedule of that id had left at that point. */
  lemma SubmissionsAreCounted(sts: seq<State>, evs: seq<Event>, i: nat, id: string)
    requires Run(sts, evs) && i < |sts| && id in sts[i].schedules
    ensures id in sts[i].marks
    ensures var m := sts[i].marks[id];
            var grown, posted, skipped := sts[i].schedules[id].sched.runCount - m.runCount,
                                          sts[i].posted[id] - m.posted, sts[i].skipped[id] - m.skipped;
            && 0 <= posted <= grown + |InFlight(sts[i].runners, id)| && 0 <= skipped
            && grown + |InFlight(sts[i].runners, id)| - posted == skipped + m.inFlight
  {
    RunIsLive(sts, evs, i);
    assert BalancedFor(sts[i], id);
  }

  ghost predicate Paused(st: State, id: string) {
    id in st.schedules && !st.schedules[id].sched.active
  }

  /** Jobs submitted for `id`, and those its runners are already bound to submit. */
  function Claims(st: State, id: string): nat {
    st.posted[id] + |Holding(st.runners, id)|
  }

  lemma RunnerStepWhilePaused(st: State, ev: Event, id: string)
    requires Enabled(st, ev) && Paused(st, id) && (ev.Snapshot? || ev.Post? || ev.Account?)
    ensures var st' := Next(st, ev);
            Claims(st', id) == Claims(st, id)
  {
    var r := ev.runner;
    var phase := Next(st, ev).runners[r].phase;
    assert Next(st, ev).runners == SetPhase(st.runners, r, phase);
    PhaseTally(st.runners, r, phase, id);
  }

  lemma {:induction false} StepWhilePaused(st: State, ev: Event, id: string)
    requires Live(st) && Enabled(st, ev) && Paused(st, id) && id in Next(st, ev).schedules
    ensures var st' := Next(st, ev);
            Claims(st', id) == Claims(st, id)
  {
    assert Named(st);
    AsStep(st, ev);
    hide Live, Named, Step, DoUpdate, DoDelete, DoAdd, DoLoad, DoStopAll, Entered;
    if ev.Add? || ev.Load? {
      var s, counter := ComesIn(st, ev);
      EnteredKeepsClaims(st, s, counter, id);
      return;
    }
    match ev
    case Update(tenant, u, params) => UpdateTally(st, tenant, u, params, id);
    case Delete(d) => KeepsId(st, ev, id); DeleteTally(st, d, id);
    case StopAll => StopAllTally(st, id);
    case Exit(r) => ExitTally(st, r, id);
    case _ => RunnerStepWhilePaused(st, ev, id);
  }

  lemma EnteredKeepsClaims(st: State, s: Schedule, counter: nat, id: string)
    requires Live(st)
    ensures Claims(Entered(st, s, counter), id) == Claims(st, id)
  {
    EnteredSameRunners(st, s, counter);
    hide Entered, InFlight, Holding;
  }

  lemma RunStep(sts: seq<State>, evs: seq<Event>, i: nat)
    requires Run(sts, evs) && i + 1 < |sts|
    ensures |sts| == |evs| + 1 && Enabled(sts[i], evs[i]) && sts[i + 1] == Next(sts[i], evs[i])
  {
  }

  lemma PausedIsPresent(st: State, id: string)
    requires Paused(st, id)
    ensures id in st.schedules
  {
  }

  lemma {:induction false} ClaimsFixedWhilePaused(sts: seq<State>, evs: seq<Event>, i: nat, j: nat, id: string)
    requires Run(sts, evs) && i <= j < |sts|
    requires forall k :: i <= k <= j ==> Paused(sts[k], id)
    ensures Claims(sts[j], id) == Claims(sts[i], id)
    decreases j - i
  {
    hide *;
    if i < j {
      ClaimsFixedWhilePaused(sts, evs, i, j - 1, id);
      RunIsLive(sts, evs, j - 1);
      RunStep(sts, evs, j - 1);
      var st, st' := sts[j - 1], sts[j];
      assert Paused(st, id) && Paused(st', id);
      PausedIsPresent(st', id);
      StepWhilePaused(st, evs[j - 1], id);
    }
  }

  /** While a schedule stays paused, the only jobs submitted for it come from snapshots that
      runners held when it was paused: at most one each, and nothing afterwards. */
  lemma PausedSubmitsOnlyHeld(sts: seq<State>, evs: seq<Event>, i: nat, j: nat, id: string)
    requires Run(sts, evs) && i <= j < |sts|
    requires forall k :: i <= k <= j ==> Paused(sts[k], id)
    ensures sts[j].posted[id] + |Holding(sts[j].runners, id)| == sts[i].posted[id] + |Holding(sts[i].runners, id)|
    ensures sts[j].posted[id] <= sts[i].posted[id] + |Holding(sts[i].runners, id)|
  {
    ClaimsFixedWhilePaused(sts, evs, i, j, id);
  }
}
