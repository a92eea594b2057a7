/**
 Multi-stage pipelines and their runs, while pipelines may be edited or deleted at any time.
 */
module Pipelines {
  import opened Options
  import opened Ids

  datatype Stage = Stage(name: string, agentID: string, capability: string)

  datatype Pipeline = Pipeline(id: string, tenant: string, name: string, stages: seq<Stage>)

  datatype Status = Running | Done | Failed

  datatype Run = Run(id: string, pipelineID: string, tenant: string, status: Status, currentStage: nat, jobIDs: seq<string>)

  datatype State = State(pipelines: map<string, Pipeline>, runs: map<string, Run>, pipelineCounter: nat, runCounter: nat)

  const INITIAL := State(map[], map[], 0, 0)

  /** At least one stage, and every stage names an agent or a capability. */
  predicate ValidStages(stages: seq<Stage>) {
    stages != [] && forall i :: 0 <= i < |stages| ==> stages[i].agentID != "" || stages[i].capability != ""
  }

  // ----- steps

  datatype Event =
    | Create(tenant: string, name: string, stages: seq<Stage>)
    | Edit(tenant: string, id: string, newName: Option<string>, newStages: Option<seq<Stage>>)
    | Delete(tenant: string, id: string)
    | Start(tenant: string, pipelineID: string)
    | Record(tenant: string, runID: string, jobID: string)
    | Advance(tenant: string, runID: string, failed: bool)
    | LoadPipeline(pipeline: Pipeline)
    | LoadRun(run: Run)

  function DoCreate(st: State, tenant: string, name: string, stages: seq<Stage>): State {
    if name == "" || !ValidStages(stages) then st
    else
      var id := FormatId("pipe-", st.pipelineCounter + 1);
      st.(pipelines := st.pipelines[id := Pipeline(id, tenant, name, stages)], pipelineCounter := st.pipelineCounter + 1)
  }

  predicate OwnsPipeline(st: State, tenant: string, id: string) {
    id in st.pipelines && st.pipelines[id].tenant == tenant
  }

  predicate OwnsRun(st: State, tenant: string, id: string) {
    id in st.runs && st.runs[id].tenant == tenant
  }

  /** A refused new name stops the edit; refused stages leave the new name in place. */
  function DoEdit(st: State, tenant: string, id: string, newName: Option<string>, newStages: Option<seq<Stage>>): State {
    if !OwnsPipeline(st, tenant, id) || newName == Some("") then st
    else
      var p := st.pipelines[id];
      var named := p.(name := if newName.Some? then newName.value else p.name);
      var edited := if newStages.Some? && ValidStages(newStages.value) then named.(stages := newStages.value) else named;
      st.(pipelines := st.pipelines[id := edited])
  }

  function DoDelete(st: State, tenant: string, id: string): State {
    if OwnsPipeline(st, tenant, id) then st.(pipelines := st.pipelines - {id}) else st
  }

  function DoStart(st: State, tenant: string, pipelineID: string): State {
    if !OwnsPipeline(st, tenant, pipelineID) then st
    else
      var id := FormatId("prun-", st.runCounter + 1);
      st.(runs := st.runs[id := Run(id, pipelineID, tenant, Running, 0, [])], runCounter := st.runCounter + 1)
  }

  function DoRecord(st: State, tenant: string, runID: string, jobID: string): State {
    if !OwnsRun(st, tenant, runID) then st
    else st.(runs := st.runs[runID := st.runs[runID].(jobIDs := st.runs[runID].jobIDs + [jobID])])
  }

  /** An advance goes through: the run is the tenant's, still running, and its pipeline is there. */
  predicate CanAdvance(st: State, tenant: string, runID: string) {
    OwnsRun(st, tenant, runID) && st.runs[runID].status.Running? && st.runs[runID].pipelineID in st.pipelines
  }

  function Advanced(r: Run, stages: seq<Stage>, failed: bool): Run {
    if failed then r.(status := Failed)
    else if r.currentStage + 1 >= |stages| then r.(status := Done)
    else r.(currentStage := r.currentStage + 1)
  }

  function DoAdvance(st: State, tenant: string, runID: string, failed: bool): State {
    if !CanAdvance(st, tenant, runID) then st
    else
      var r := st.runs[runID];
      st.(runs := st.runs[runID := Advanced(r, st.pipelines[r.pipelineID].stages, failed)])
  }

  function Max(a: nat, b: nat): nat { if a > b then a else b }

  /** A record read back from the store comes in under its own id, and the counter goes past it. */
  function DoLoadPipeline(st: State, p: Pipeline): State {
    st.(pipelines := st.pipelines[p.id := p], pipelineCounter := Max(ParseNum("pipe-", p.id), st.pipelineCounter))
  }

  function DoLoadRun(st: State, r: Run): State {
    st.(runs := st.runs[r.id := r], runCounter := Max(ParseNum("prun-", r.id), st.runCounter))
  }

  /** Records were written by this program: pipelines have valid stages. They are read back
      before their ids are in use. */
  predicate Enabled(st: State, ev: Event) {
    && st.runCounter + 1 < UINT64_LIMIT
    && (ev.LoadPipeline? ==> ValidStages(ev.pipeline.stages))
    && (ev.LoadRun? ==> ev.run.id !in st.runs)
  }

  function Next(st: State, ev: Event): State {
    match ev
    case LoadPipeline(p) => DoLoadPipeline(st, p)
    case LoadRun(r) => DoLoadRun(st, r)
    case Create(tenant, name, stages) => DoCreate(st, tenant, name, stages)
    case Edit(tenant, id, newName, newStages) => DoEdit(st, tenant, id, newName, newStages)
    case Delete(tenant, id) => DoDelete(st, tenant, id)
    case Start(tenant, pipelineID) => DoStart(st, tenant, pipelineID)
    case Record(tenant, runID, jobID) => DoRecord(st, tenant, runID, jobID)
    case Advance(tenant, runID, failed) => DoAdvance(st, tenant, runID, failed)
  }

  // ----- refused edits

  predicate RefusedEdit(newName: Option<string>, newStages: Option<seq<Stage>>) {
    newName == Some("") || (newStages.Some? && !ValidStages(newStages.value))
  }

  /** A refused edit leaves everything as it was if and only if the name it asks for is none, the
      empty one or the present one. */
  lemma RefusedEditIff(st: State, tenant: string, id: string, newName: Option<string>, newStages: Option<seq<Stage>>)
    requires OwnsPipeline(st, tenant, id) && RefusedEdit(newName, newStages)
    ensures DoEdit(st, tenant, id, newName, newStages) == st <==>
            newName == None || newName == Some("") || newName == Some(st.pipelines[id].name)
  {
    var p := st.pipelines[id];
    if newName != Some("") {
      var p' := p.(name := Or(newName, p.name));
      assert DoEdit(st, tenant, id, newName, newStages).pipelines == st.pipelines[id := p'];
      assert st.pipelines[id := p'] == st.pipelines <==> p' == p;
    }
  }

  /** A refused edit that renames: a new name and no stages. */
  lemma RefusedEditRenames(st: State, tenant: string, id: string, name: string)
    requires OwnsPipeline(st, tenant, id) && name != "" && name != st.pipelines[id].name
    ensures var st' := DoEdit(st, tenant, id, Some(name), Some([]));
            RefusedEdit(Some(name), Some([])) && id in st'.pipelines && st'.pipelines[id].name == name && st' != st
  {
    RefusedEditIff(st, tenant, id, Some(name), Some([]));
  }

  // ----- the manager

  /** Every stored pipeline has stages; runs are numbered up to the counter. */
  ghost predicate Sound(st: State) {
    && (forall id :: id in st.pipelines ==> ValidStages(st.pipelines[id].stages))
    && (forall id :: id in st.runs ==> ParseNum("prun-", id) <= st.runCounter && st.runs[id].id == id)
    && st.runCounter < UINT64_LIMIT
  }

  class Manager {
    var pipelines: map<string, Pipeline>
    var runs: map<string, Run>
    var pipelineCounter: nat
    var runCounter: nat

    function View(): State
      reads this
    {
      State(pipelines, runs, pipelineCounter, runCounter)
    }

    constructor ()
      ensures View() == INITIAL
    {
      pipelines, runs, pipelineCounter, runCounter := map[], map[], 0, 0;
    }

    /** Read the records of a tenant back, pipelines first. */
    method LoadFromStore(ps: seq<Pipeline>, rs: seq<Run>) returns (np: nat, nr: nat)
      modifies this
      ensures View() == LoadedRuns(LoadedPipelines(old(View()), ps), rs) && np == |ps| && nr == |rs|
    {
      for i := 0 to |ps|
        invariant LoadedPipelines(View(), ps[i..]) == LoadedPipelines(old(View()), ps)
      {
        assert ps[i..][1..] == ps[i + 1..];
        var n := ParseNum("pipe-", ps[i].id);
        if n > pipelineCounter {
          pipelineCounter := n;
        }
        pipelines := pipelines[ps[i].id := ps[i]];
      }
      ghost var between := View();
      for i := 0 to |rs|
        invariant LoadedRuns(View(), rs[i..]) == LoadedRuns(between, rs)
      {
        assert rs[i..][1..] == rs[i + 1..];
        var n := ParseNum("prun-", rs[i].id);
        if n > runCounter {
          runCounter := n;
        }
        runs := runs[rs[i].id := rs[i]];
      }
      np, nr := |ps|, |rs|;
    }

    method CheckStages(stages: seq<Stage>) returns (ok: bool)
      ensures ok == ValidStages(stages)
      ensures ok <==> |stages| > 0 && forall i :: 0 <= i < |stages| ==> stages[i].agentID != "" || stages[i].capability != ""
    {
      if |stages| == 0 { return false; }
      for i := 0 to |stages|
        invariant forall k :: 0 <= k < i ==> stages[k].agentID != "" || stages[k].capability != ""
      {
        if stages[i].agentID == "" && stages[i].capability == "" { return false; }
      }
      ok := true;
    }

    method CreatePipeline(tenant: string, name: string, stages: seq<Stage>) returns (r: Option<Pipeline>)
      modifies this
      ensures View() == DoCreate(old(View()), tenant, name, stages)
      ensures r.Some? <==> name != "" && ValidStages(stages)
      ensures r.Some? ==>
                && pipelineCounter == old(pipelineCounter) + 1
                && r.value == Pipeline(FormatId("pipe-", pipelineCounter), tenant, name, stages)
                && pipelines == old(pipelines)[r.value.id := r.value]
    {
      if name == "" { return None; }
      var ok := CheckStages(stages);
      if !ok { return None; }
      pipelineCounter := pipelineCounter + 1;
      var p := Pipeline(FormatId("pipe-", pipelineCounter), tenant, name, stages);
      pipelines := pipelines[p.id := p];
      r := Some(p);
    }

    method UpdatePipeline(tenant: string, id: string, newName: Option<string>, newStages: Option<seq<Stage>>)
      returns (found: bool, ok: bool)
      modifies this
      ensures View() == DoEdit(old(View()), tenant, id, newName, newStages)
      ensures found == OwnsPipeline(old(View()), tenant, id)
      ensures ok <==> found && newName != Some("") && (newStages.Some? ==> ValidStages(newStages.value))
      ensures ok ==>
                pipelines == old(pipelines)[id := old(pipelines)[id].(
                  name := if newName.Some? then newName.value else old(pipelines)[id].name,
                  stages := if newStages.Some? then newStages.value else old(pipelines)[id].stages)]
    {
      if id !in pipelines || pipelines[id].tenant != tenant { return false, false; }
      if newName == Some("") { return true, false; }
      if newName.Some? {
        pipelines := pipelines[id := pipelines[id].(name := newName.value)];
      }
      assert pipelines == old(pipelines)[id := pipelines[id]];
      if newStages.Some? {
        var valid := CheckStages(newStages.value);
        if !valid { return true, false; }
        pipelines := pipelines[id := pipelines[id].(stages := newStages.value)];
      }
      found, ok := true, true;
    }

    method DeletePipeline(tenant: string, id: string) returns (ok: bool)
      modifies this
      ensures View() == DoDelete(old(View()), tenant, id) && ok == OwnsPipeline(old(View()), tenant, id)
      ensures ok == (id in old(pipelines) && old(pipelines)[id].tenant == tenant)
      ensures pipelines == (if ok then old(pipelines) - {id} else old(pipelines)) && runs == old(runs)
    {
      if id !in pipelines || pipelines[id].tenant != tenant { return false; }
      pipelines := pipelines - {id};
      ok := true;
    }

    method StartRun(tenant: string, pipelineID: string) returns (r: Option<(Run, Stage)>)
      requires Sound(View())
      modifies this
      ensures View() == DoStart(old(View()), tenant, pipelineID)
      ensures r.Some? <==> OwnsPipeline(old(View()), tenant, pipelineID)
      ensures r.Some? <==> pipelineID in old(pipelines) && old(pipelines)[pipelineID].tenant == tenant
      ensures r.Some? ==>
                && runCounter == old(runCounter) + 1
                && r.value.0 == Run(FormatId("prun-", runCounter), pipelineID, tenant, Running, 0, [])
                && runs == old(runs)[r.value.0.id := r.value.0]
                && r.value.1 == pipelines[pipelineID].stages[0]
    {
      if pipelineID !in pipelines || pipelines[pipelineID].tenant != tenant { return None; }
      assert ValidStages(pipelines[pipelineID].stages);
      runCounter := runCounter + 1;
      var run := Run(FormatId("prun-", runCounter), pipelineID, tenant, Running, 0, []);
      runs := runs[run.id := run];
      r := Some((run, pipelines[pipelineID].stages[0]));
    }

    method RecordStageJob(tenant: string, runID: string, jobID: string) returns (ok: bool)
      modifies this
      ensures View() == DoRecord(old(View()), tenant, runID, jobID)
      ensures ok == (runID in old(runs) && old(runs)[runID].tenant == tenant)
      ensures ok ==> runs == old(runs)[runID := old(runs)[runID].(jobIDs := old(runs)[runID].jobIDs + [jobID])]
    {
      if runID !in runs || runs[runID].tenant != tenant { return false; }
      runs := runs[runID := runs[runID].(jobIDs := runs[runID].jobIDs + [jobID])];
      ok := true;
    }

    /** Advance a run; the next stage is returned when there is one, and is always in bounds,
        whatever was done to the pipeline in the meantime. */
    method AdvanceRun(tenant: string, runID: string, failed: bool) returns (ok: bool, next: Option<Stage>)
      modifies this
      ensures View() == DoAdvance(old(View()), tenant, runID, failed)
      ensures ok == (runID in old(runs) && var r := old(runs)[runID]; r.tenant == tenant && r.status == Running && r.pipelineID in pipelines)
      ensures !ok ==> runs == old(runs)
      ensures ok ==>
                var r := old(runs)[runID];
                var last := r.currentStage + 1 >= |pipelines[r.pipelineID].stages|;
                && (failed ==> runs == old(runs)[runID := r.(status := Failed)])
                && (!failed && last ==> runs == old(runs)[runID := r.(status := Done)])
                && (!failed && !last ==> runs == old(runs)[runID := r.(currentStage := r.currentStage + 1)])
      ensures next.Some? <==> ok && runs[runID].status.Running?
      ensures next.Some? ==>
                && runs[runID].currentStage == old(runs)[runID].currentStage + 1
                && runs[runID].currentStage < |pipelines[runs[runID].pipelineID].stages|
                && next.value == pipelines[runs[runID].pipelineID].stages[runs[runID].currentStage]
    {
      if runID !in runs || runs[runID].tenant != tenant { return false, None; }
      var r := runs[runID];
      if !r.status.Running? { return false, None; }
      if r.pipelineID !in pipelines { return false, None; }
      var stages := pipelines[r.pipelineID].stages;
      if failed {
        runs := runs[runID := r.(status := Failed)];
        return true, None;
      }
      var nextStage := r.currentStage + 1;
      if nextStage >= |stages| {
        runs := runs[runID := r.(status := Done)];
        return true, None;
      }
      runs := runs[runID := r.(currentStage := nextStage)];
      ok, next := true, Some(stages[nextStage]);
    }
  }

  function LoadedPipelines(st: State, ps: seq<Pipeline>): State
    decreases ps
  {
    if ps == [] then st else LoadedPipelines(DoLoadPipeline(st, ps[0]), ps[1..])
  }

  function LoadedRuns(st: State, rs: seq<Run>): State
    decreases rs
  {
    if rs == [] then st else LoadedRuns(DoLoadRun(st, rs[0]), rs[1..])
  }

  // ----- runs of the system

  predicate Trace(sts: seq<State>, evs: seq<Event>) {
    && |sts| == |evs| + 1
    && sts[0] == INITIAL
    && forall i :: 0 <= i < |evs| ==> Enabled(sts[i], evs[i]) && sts[i + 1] == Next(sts[i], evs[i])
  }

  lemma StepKeepsSound(st: State, ev: Event)
    requires Sound(st) && Enabled(st, ev)
    ensures Sound(Next(st, ev))
  {
    if ev.Start? { ParseFormat("prun-", st.runCounter + 1); }
  }

  lemma {:induction false} TraceIsSound(sts: seq<State>, evs: seq<Event>, i: nat)
    requires Trace(sts, evs) && i < |sts|
    ensures Sound(sts[i])
  {
    if i > 0 {
      TraceIsSound(sts, evs, i - 1);
      TraceStep(sts, evs, i - 1);
      hide Sound, Next, Enabled;
      StepKeepsSound(sts[i - 1], evs[i - 1]);
    }
  }

  /** One step of the system, as one run sees it: it stays, with its pipeline and tenant. */
  lemma StepKeepsRun(st: State, ev: Event, id: string)
    requires Sound(st) && Enabled(st, ev) && id in st.runs
    ensures id in Next(st, ev).runs
    ensures var r, r' := st.runs[id], Next(st, ev).runs[id];
            && r'.pipelineID == r.pipelineID && r'.tenant == r.tenant
            && (!(ev.Advance? && ev.runID == id && CanAdvance(st, ev.tenant, id)) ==>
                  r'.status == r.status && r'.currentStage == r.currentStage)
            && (!(ev.Record? && ev.runID == id && OwnsRun(st, ev.tenant, id)) ==> r'.jobIDs == r.jobIDs)
  {
    if ev.Start? { NextRunIsNew(st); }
    hide Sound, ValidStages, FormatId, ParseNum;
  }

  lemma NextRunIsNew(st: State)
    requires Sound(st) && st.runCounter + 1 < UINT64_LIMIT
    ensures FormatId("prun-", st.runCounter + 1) !in st.runs
  {
    ParseFormat("prun-", st.runCounter + 1);
  }

  lemma TraceStep(sts: seq<State>, evs: seq<Event>, i: nat)
    requires Trace(sts, evs) && i + 1 < |sts|
    ensures |sts| == |evs| + 1 && Enabled(sts[i], evs[i]) && sts[i + 1] == Next(sts[i], evs[i])
  {
  }

  /** The run has ended, with this status and at this stage. */
  predicate Ended(st: State, id: string, status: Status, stage: nat) {
    id in st.runs && st.runs[id].status == status && !status.Running? && st.runs[id].currentStage == stage
  }

  lemma EndedStep(st: State, ev: Event, id: string, status: Status, stage: nat)
    requires Sound(st) && Enabled(st, ev) && Ended(st, id, status, stage)
    ensures Ended(Next(st, ev), id, status, stage)
  {
    StepKeepsRun(st, ev, id);
  }

  /** Done and failed are absorbing, in every trace. */
  lemma {:induction false} EndedStaysEnded(sts: seq<State>, evs: seq<Event>, i: nat, j: nat,
                                           id: string, status: Status, stage: nat)
    requires Trace(sts, evs) && i <= j < |sts| && Ended(sts[i], id, status, stage)
    ensures Ended(sts[j], id, status, stage)
    decreases j - i
  {
    hide *;
    if i < j {
      EndedStaysEnded(sts, evs, i, j - 1, id, status, stage);
      TraceIsSound(sts, evs, j - 1);
      TraceStep(sts, evs, j - 1);
      EndedStep(sts[j - 1], evs[j - 1], id, status, stage);
    }
  }

  /** The event is an advance of the run that goes through and does not report failure. */
  predicate Succeeds(st: State, ev: Event, id: string) {
    ev.Advance? && ev.runID == id && !ev.failed && CanAdvance(st, ev.tenant, id)
  }

  /** Successful advances of the run between two states of a trace. */
  function Successes(sts: seq<State>, evs: seq<Event>, i: nat, j: nat, id: string): nat
    requires i <= j <= |evs| <= |sts|
    decreases j
  {
    if j == i then 0
    else Successes(sts, evs, i, j - 1, id) + if Succeeds(sts[j - 1], evs[j - 1], id) then 1 else 0
  }

  /** The run's pipeline is there with the same stages, and no advance reports failure. */
  predicate Undisturbed(st: State, ev: Event, id: string, stages: seq<Stage>) {
    && id in st.runs && st.runs[id].pipelineID in st.pipelines && st.pipelines[st.runs[id].pipelineID].stages == stages
    && !(ev.Advance? && ev.runID == id && ev.failed)
  }

  lemma UndisturbedStep(st: State, ev: Event, id: string, stages: seq<Stage>, k: nat)
    requires Sound(st) && Enabled(st, ev) && Undisturbed(st, ev, id, stages)
    requires Progressed(st, id, stages, k)
    ensures Progressed(Next(st, ev), id, stages, k + if Succeeds(st, ev, id) then 1 else 0)
  {
    StepKeepsRun(st, ev, id);
  }

  /** After `k` successes out of `|stages|`: running at stage `k`, or done at the last one. */
  predicate Progressed(st: State, id: string, stages: seq<Stage>, k: nat) {
    && id in st.runs && k <= |stages| && stages != []
    && st.runs[id].status == (if k < |stages| then Running else Done)
    && st.runs[id].currentStage == if k < |stages| then k else |stages| - 1
  }

  /** From its start, a run whose `n`-stage pipeline is left alone is done after exactly `n`
      successful advances, and before that its stage is the number of them so far. */
  lemma {:induction false} DoneAfterAllStages(sts: seq<State>, evs: seq<Event>, i: nat, j: nat, id: string, stages: seq<Stage>)
    requires Trace(sts, evs) && i <= j < |sts|
    requires Progressed(sts[i], id, stages, 0)
    requires forall k :: i <= k < j ==> Undisturbed(sts[k], evs[k], id, stages)
    ensures Progressed(sts[j], id, stages, Successes(sts, evs, i, j, id))
    decreases j
  {
    if i < j {
      DoneAfterAllStages(sts, evs, i, j - 1, id, stages);
      TraceIsSound(sts, evs, j - 1);
      TraceStep(sts, evs, j - 1);
      hide Sound, Next, Enabled, Progressed, Undisturbed, Succeeds;
      UndisturbedStep(sts[j - 1], evs[j - 1], id, stages, Successes(sts, evs, i, j - 1, id));
    }
  }

  // ----- one job per stage

  /** The event records a job for the run. */
  predicate Records(st: State, ev: Event, id: string) {
    ev.Record? && ev.runID == id && OwnsRun(st, ev.tenant, id)
  }

  /** A job was recorded since the last successful advance of the run. */
  predicate Pending(sts: seq<State>, evs: seq<Event>, i: nat, j: nat, id: string)
    requires i <= j <= |evs| <= |sts|
    decreases j
  {
    if j == i then false
    else if Records(sts[j - 1], evs[j - 1], id) then true
    else !Succeeds(sts[j - 1], evs[j - 1], id) && Pending(sts, evs, i, j - 1, id)
  }

  /** The jobs recorded for the run, in order. */
  function Recorded(sts: seq<State>, evs: seq<Event>, i: nat, j: nat, id: string): seq<string>
    requires i <= j <= |evs| <= |sts|
    decreases j
  {
    if j == i then []
    else Recorded(sts, evs, i, j - 1, id) + if Records(sts[j - 1], evs[j - 1], id) then [evs[j - 1].jobID] else []
  }

  /** At the `k`-th event recording and advancing take turns, recording first. */
  predicate InTurn(sts: seq<State>, evs: seq<Event>, i: nat, k: nat, id: string)
    requires i <= k < |evs| <= |sts|
  {
    && (Records(sts[k], evs[k], id) ==> !Pending(sts, evs, i, k, id))
    && (Succeeds(sts[k], evs[k], id) ==> Pending(sts, evs, i, k, id))
  }

  /** The run has these jobs: one per success so far, and one more if one is pending. */
  predicate Staffed(st: State, id: string, jobs: seq<string>, successes: nat, pending: bool) {
    id in st.runs && st.runs[id].jobIDs == jobs && |jobs| == successes + if pending then 1 else 0
  }

  lemma StaffedStep(st: State, ev: Event, id: string, jobs: seq<string>, n: nat, pending: bool)
    requires Sound(st) && Enabled(st, ev) && Staffed(st, id, jobs, n, pending)
    requires (Records(st, ev, id) ==> !pending) && (Succeeds(st, ev, id) ==> pending)
    ensures Staffed(Next(st, ev), id,
                    jobs + if Records(st, ev, id) then [ev.jobID] else [],
                    n + if Succeeds(st, ev, id) then 1 else 0,
                    if Records(st, ev, id) then true else !Succeeds(st, ev, id) && pending)
  {
    StepKeepsRun(st, ev, id);
    assert jobs + [] == jobs;
  }

  lemma TakesTurn(sts: seq<State>, evs: seq<Event>, i: nat, k: nat, id: string)
    requires i <= k < |evs| <= |sts| && InTurn(sts, evs, i, k, id)
    ensures Records(sts[k], evs[k], id) ==> !Pending(sts, evs, i, k, id)
    ensures Succeeds(sts[k], evs[k], id) ==> Pending(sts, evs, i, k, id)
  {
  }

  /** In every trace, with any events in between: from its start, and as long as recording and
      advancing a run take turns, its jobs are those recorded for it, one per successful advance
      and one more while one is pending. */
  lemma {:induction false} JobsMatchSuccesses(sts: seq<State>, evs: seq<Event>, i: nat, j: nat, id: string)
    requires Trace(sts, evs) && i <= j < |sts| && |sts| == |evs| + 1 && Staffed(sts[i], id, [], 0, false)
    requires forall k :: i <= k < j ==> InTurn(sts, evs, i, k, id)
    ensures Staffed(sts[j], id, Recorded(sts, evs, i, j, id), Successes(sts, evs, i, j, id), Pending(sts, evs, i, j, id))
    decreases j
  {
    hide Trace, Sound, Next, Staffed, Records, Succeeds, InTurn;
    if i < j {
      JobsMatchSuccesses(sts, evs, i, j - 1, id);
      TraceIsSound(sts, evs, j - 1);
      TraceStep(sts, evs, j - 1);
      assert InTurn(sts, evs, i, j - 1, id);
      TakesTurn(sts, evs, i, j - 1, id);
      StaffedStep(sts[j - 1], evs[j - 1], id, Recorded(sts, evs, i, j - 1, id), Successes(sts, evs, i, j - 1, id),
                  Pending(sts, evs, i, j - 1, id));
    }
  }

  /** If moreover its pipeline is left alone, a job is recorded at the place of the stage that
      is current, and once the run is done and no further job was recorded, it has exactly one
      job per stage. */
  lemma {:induction false} OneJobPerStage(sts: seq<State>, evs: seq<Event>, i: nat, j: nat, id: string, stages: seq<Stage>)
    requires Trace(sts, evs) && i <= j < |sts| && |sts| == |evs| + 1
    requires Progressed(sts[i], id, stages, 0) && sts[i].runs[id].jobIDs == []
    requires forall k :: i <= k < j ==> Undisturbed(sts[k], evs[k], id, stages) && InTurn(sts, evs, i, k, id)
    ensures id in sts[j].runs
    ensures var r := sts[j].runs[id];
            var pending := Pending(sts, evs, i, j, id);
            && r.jobIDs == Recorded(sts, evs, i, j, id)
            && (r.status.Running? ==> |r.jobIDs| == r.currentStage + if pending then 1 else 0)
            && (r.status.Done? ==> |r.jobIDs| == |stages| + if pending then 1 else 0)
            && (r.status.Done? <==> Successes(sts, evs, i, j, id) == |stages|)
  {
    assert forall k :: i <= k < j ==> InTurn(sts, evs, i, k, id);
    assert forall k :: i <= k < j ==> Undisturbed(sts[k], evs[k], id, stages);
    hide Trace, InTurn, Undisturbed, Pending, Recorded, Successes;
    JobsMatchSuccesses(sts, evs, i, j, id);
    DoneAfterAllStages(sts, evs, i, j, id, stages);
  }
}
