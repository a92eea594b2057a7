/**
 What happens when schedules are loaded over ids in use: the runner of the entry that is
 replaced has lost its handle. Runs here may load anything at any time.
 */
module SchedulerStrays {
  import opened Options
  import opened Ids
  import opened Scheduler

  ghost predicate Run(sts: seq<State>, evs: seq<Event>) {
    && |sts| == |evs| + 1
    && sts[0] == INITIAL
    && forall i :: 0 <= i < |evs| ==> Possible(sts[i], evs[i]) && sts[i + 1] == Step(sts[i], evs[i])
  }

  lemma RunStep(sts: seq<State>, evs: seq<Event>, i: nat)
    requires Run(sts, evs) && i < |evs|
    ensures |sts| == |evs| + 1 && Possible(sts[i], evs[i]) && sts[i + 1] == Step(sts[i], evs[i])
  {
  }

  lemma {:induction false} RunIsLoose(sts: seq<State>, evs: seq<Event>, i: nat)
    requires Run(sts, evs) && i < |sts|
    ensures Loose(sts[i])
  {
    if i > 0 {
      RunIsLoose(sts, evs, i - 1);
      RunStep(sts, evs, i - 1);
      hide *;
      StepKeepsLoose(sts[i - 1], evs[i - 1]);
    }
  }

  /** In every run with any loads: a runner is stray if and only if the entry that had its handle
      was loaded over at some point before. So nothing ever gets rid of one. */
  lemma {:induction false} StrayForever(sts: seq<State>, evs: seq<Event>, i: nat, r: nat)
    requires Run(sts, evs) && i < |sts| && |sts| == |evs| + 1
    ensures Stray(sts[i], r) <==> exists k :: 0 <= k < i && Leaks(sts[k], evs[k], r)
  {
    hide *;
    if i == 0 {
      NoStrayAtStart(sts, evs, r);
    } else {
      StrayForever(sts, evs, i - 1, r);
      RunStep(sts, evs, i - 1);
      RunIsLoose(sts, evs, i - 1);
      StrayIff(sts[i - 1], evs[i - 1], r);
      if Leaks(sts[i - 1], evs[i - 1], r) {
        assert exists k :: 0 <= k < i && Leaks(sts[k], evs[k], r);
      }
    }
  }

  lemma NoStrayAtStart(sts: seq<State>, evs: seq<Event>, r: nat)
    requires Run(sts, evs)
    ensures |sts| == |evs| + 1 && !Stray(sts[0], r)
  {
  }

  /** A stray runner goes on submitting: on a tick, whatever active schedule has its id by then. */
  lemma StrayPosts(st: State, r: nat)
    requires Stray(st, r) && st.runners[r].phase.Waiting? && Active(st, st.runners[r].sched)
    ensures var id := st.runners[r].sched;
            && Enabled(st, Snapshot(r))
            && var st' := Next(st, Snapshot(r));
               && Enabled(st', Post(r)) && st'.runners[r].phase == Ready(st.schedules[id].sched.template)
               && Next(st', Post(r)).posted == st.posted + multiset{id}
  {
  }

  ghost function Strays(st: State, id: string): set<nat> {
    set r | r in st.runners && st.runners[r].sched == id && Stray(st, r)
  }

  /** The live runners of an id are its strays and, before everything is stopped, one more if its
      schedule is active. */
  lemma RunnersAreHandleAndStrays(st: State, id: string)
    requires Loose(st) && !st.stopped
    ensures |LiveRunners(st, id)| == |Strays(st, id)| + if Active(st, id) then 1 else 0
  {
    if Active(st, id) {
      var r := st.schedules[id].cancel.value;
      assert IsHandle(st.schedules, r);
      forall q | q in LiveRunners(st, id) && q !in Strays(st, id) ensures q == r {
        var k :| k in st.schedules && st.schedules[k].cancel == Some(q);
      }
      assert LiveRunners(st, id) == Strays(st, id) + {r};
    } else {
      forall q | q in LiveRunners(st, id) ensures q in Strays(st, id) {
      }
      assert LiveRunners(st, id) == Strays(st, id);
    }
  }

  /** It happens: add a schedule, and load an active record over it. */
  lemma LoadOverActive(name: string, template: Template, s: Schedule)
    requires name != "" && s.id == FormatId(SCHED_ID_PREFIX, 1) && s.active
    ensures var st := DoAdd(INITIAL, name, template, MIN_INTERVAL);
            Stray(DoLoad(st, s), 0) && |LiveRunners(DoLoad(st, s), s.id)| == 2
  {
    var st := DoAdd(INITIAL, name, template, MIN_INTERVAL);
    assert Enabled(INITIAL, Add(name, template, MIN_INTERVAL));
    StepKeepsLive(INITIAL, Add(name, template, MIN_INTERVAL));
    assert s.id in st.schedules && st.schedules[s.id].cancel == Some(0) && Active(st, s.id) && !st.stopped;
    assert Loose(st);
    RunnersAfterLoad(st, s);
    StrayIff(st, Load(s), 0);
  }
}
