/**
 The job queue and its write-through mirror in the tenant store. Queue operations are
 atomic: each runs under the queue's lock. Store writes for a named tenant are taken to
 succeed, and a stored record decodes to the job that was encoded.
 */
module Jobs {
  import opened Options
  import opened Ids
  import opened Store

  const JOB_KEY_PREFIX := "job_"
  const JOB_ID_PREFIX := "job-"

  /** A status is one of five words, or any other word an update sets. */
  datatype AnyStatus = Pending | Running | Done | Failed | Cancelled | Other(text: string)

  type Status = s: AnyStatus | s.Other? ==> s.text !in {"pending", "running", "done", "failed", "cancelled"}
    witness Pending

  datatype Job = Job(
    id: string,
    tenant: string,
    agentID: string,
    capability: string,
    payload: string,
    priority: int,
    ttlSeconds: int,
    status: Status,
    result: string,
    error: string,
    createdAt: int,
    updatedAt: int,
    expiresAt: Option<int>
  )

  /** What a bucket holds under a key: a job record, or bytes that no job decodes from. */
  datatype Record = JobRecord(job: Job) | Foreign(raw: string)

  type View = map<string, map<string, Record>>

  const SECOND: int := 1_000_000_000

  /** A number of seconds as a duration in nanoseconds, in signed 64 bits: a TTL of more
      than some 292 years wraps around. */
  function TtlDuration(seconds: int): (d: int)
    ensures 0 <= seconds <= 9_223_372_036 ==> d == seconds * 1_000_000_000
  {
    (seconds * SECOND + 0x8000_0000_0000_0000) % 0x1_0000_0000_0000_0000 - 0x8000_0000_0000_0000
  }

  function JobKey(id: string): (key: string)
    ensures key == "job_" + id
  {
    JOB_KEY_PREFIX + id
  }

  // ----- the operations, as relations between queue contents

  type Table = map<string, Job>

  predicate Terminal(s: Status) { s.Done? || s.Failed? || s.Cancelled? }

  predicate Matches(j: Job, agentID: string, capability: string) {
    j.status.Pending? &&
    if agentID != "" then j.agentID == agentID
    else capability != "" && j.capability == capability
  }

  predicate MatchesForTenant(j: Job, tenant: string, agentID: string, capability: string) {
    && j.status.Pending?
    && j.tenant == tenant
    && (capability == "" || j.capability == capability)
    && (agentID == "" || j.agentID == "" || j.agentID == agentID)
  }

  /** `j` is claimed before `k`: higher priority, or the same and created earlier. */
  predicate Beats(j: Job, k: Job) {
    j.priority > k.priority || (j.priority == k.priority && j.createdAt < k.createdAt)
  }

  function Claimed(j: Job, agentID: string, now: int): Job {
    j.(agentID := if agentID != "" then agentID else j.agentID, status := Running, updatedAt := now)
  }

  predicate Stale(j: Job, now: int) {
    j.status.Pending? && j.expiresAt.Some? && now > j.expiresAt.value
  }

  function Expire(j: Job, now: int): (r: Job)
    ensures r.id == j.id && r.tenant == j.tenant
    ensures if Stale(j, now) then r.status.Failed? else r == j
    ensures r == if j.status == Pending && j.expiresAt.Some? && j.expiresAt.value < now
                 then j.(status := Failed, error := "ttl expired", updatedAt := now) else j
  {
    if Stale(j, now) then j.(status := Failed, error := "ttl expired", updatedAt := now) else j
  }

  predicate Prunable(j: Job, cutoff: int) { Terminal(j.status) && j.updatedAt < cutoff }

  /** The jobs the store can hold: it has no bucket for the empty tenant, and a job whose write
      is refused stays in memory alone. */
  function Durable(jobs: Table): Table {
    map id | id in jobs && jobs[id].tenant != "" :: jobs[id]
  }

  ghost predicate AboveAll(counter: nat, jobs: Table) {
    forall id :: id in jobs ==> ParseNum(JOB_ID_PREFIX, id) <= counter
  }

  ghost predicate HighestNumber(counter: nat, jobs: Table) {
    && AboveAll(counter, jobs)
    && (counter == 0 || exists id :: id in jobs && ParseNum(JOB_ID_PREFIX, id) == counter)
  }

  // ----- steps of the queue, as runs see them

  datatype Queued = Queued(jobs: Table, counter: nat)

  datatype Event =
    | Submit(id: string)
    | Claim(id: string)
    | Update(id: string, status: Status)
    | Cancel(id: string)
    | Expiry
    | Pruning
    | Restart
    | NoChange

  /** Only job `id` changes, and its new status is `status`. */
  ghost predicate Rewrites(q: Queued, id: string, status: Status, q': Queued) {
    && q'.counter == q.counter
    && id in q.jobs && id in q'.jobs && q'.jobs[id].status == status
    && q'.jobs == q.jobs[id := q'.jobs[id]]
  }

  ghost predicate Step(q: Queued, ev: Event, q': Queued) {
    match ev
    case Submit(id) =>
      && q'.counter == q.counter + 1 < UINT64_LIMIT
      && id == FormatId(JOB_ID_PREFIX, q'.counter)
      && id in q'.jobs && q'.jobs[id].status.Pending?
      && q'.jobs == q.jobs[id := q'.jobs[id]]
    case Claim(id) => id in q.jobs && q.jobs[id].status.Pending? && Rewrites(q, id, Running, q')
    case Update(id, status) => Rewrites(q, id, status, q')
    case Cancel(id) => id in q.jobs && !Terminal(q.jobs[id].status) && Rewrites(q, id, Cancelled, q')
    case Expiry =>
      && q'.counter == q.counter && q'.jobs.Keys == q.jobs.Keys
      && forall id :: id in q.jobs && q'.jobs[id] != q.jobs[id] ==>
           q.jobs[id].status.Pending? && q'.jobs[id].status.Failed?
    case Pruning =>
      && q'.counter == q.counter
      && (forall id :: id in q'.jobs ==> id in q.jobs && q'.jobs[id] == q.jobs[id])
      && (forall id :: id in q.jobs && id !in q'.jobs ==> Terminal(q.jobs[id].status))
    case Restart => q'.jobs == Durable(q.jobs) && HighestNumber(q'.counter, q'.jobs)
    case NoChange => q' == q
  }

  // ----- the mirror

  /** The job namespace of the store is the table, tenant by tenant, and nothing else. */
  ghost predicate Mirror(jobs: Table, view: View) {
    && "" !in view
    && (forall id :: id in jobs ==> jobs[id].id == id)
    && (forall id :: id in jobs && jobs[id].tenant != "" ==>
          && jobs[id].tenant in view
          && JobKey(id) in view[jobs[id].tenant]
          && view[jobs[id].tenant][JobKey(id)] == JobRecord(jobs[id]))
    && (forall t, k :: t in view && k in view[t] && JOB_KEY_PREFIX <= k ==>
          && view[t][k].JobRecord?
          && var j := view[t][k].job;
             k == JobKey(j.id) && j.tenant == t && j.id in jobs && jobs[j.id] == j)
  }

  /** Records outside the job namespace are the same in both views. */
  ghost predicate SameOutsideJobs(view: View, view': View) {
    && (forall t :: t in view ==> t in view')
    && (forall t, k :: t in view' && !(JOB_KEY_PREFIX <= k) ==>
          (k in view'[t] <==> k in BucketOf(view, t)) &&
          (k in view'[t] ==> view'[t][k] == BucketOf(view, t)[k]))
  }

  function Persisted(view: View, j: Job): View {
    if j.tenant == "" then view
    else view[j.tenant := (if j.tenant in view then view[j.tenant] else map[])[JobKey(j.id) := JobRecord(j)]]
  }

  function Unpersisted(view: View, j: Job): View {
    if j.tenant in view then view[j.tenant := view[j.tenant] - {JobKey(j.id)}] else view
  }

  lemma JobKeyInjective(a: string, b: string)
    requires JobKey(a) == JobKey(b)
    ensures a == b
  {
    assert JobKey(a)[|JOB_KEY_PREFIX|..] == a && JobKey(b)[|JOB_KEY_PREFIX|..] == b;
  }

  /** Writing a job through keeps the mirror, as long as a known id keeps its tenant. */
  lemma PersistKeepsMirror(jobs: Table, view: View, j: Job)
    requires Mirror(jobs, view) && (j.id in jobs ==> jobs[j.id].tenant == j.tenant)
    ensures Mirror(jobs[j.id := j], Persisted(view, j))
    ensures SameOutsideJobs(view, Persisted(view, j))
  {
    var jobs', view' := jobs[j.id := j], Persisted(view, j);
    assert JOB_KEY_PREFIX <= JobKey(j.id);
    forall id | id in jobs' && jobs'[id].tenant != ""
      ensures jobs'[id].tenant in view' && JobKey(id) in view'[jobs'[id].tenant]
      ensures view'[jobs'[id].tenant][JobKey(id)] == JobRecord(jobs'[id])
    {
      if id != j.id && JobKey(id) == JobKey(j.id) { JobKeyInjective(id, j.id); }
    }
    forall t, k | t in view' && k in view'[t] && JOB_KEY_PREFIX <= k
      ensures view'[t][k].JobRecord? &&
              var i := view'[t][k].job; k == JobKey(i.id) && i.tenant == t && i.id in jobs' && jobs'[i.id] == i
    {
      if !(t == j.tenant && k == JobKey(j.id)) {
        assert view[t][k].job.id != j.id;
      }
    }
  }

  lemma UnpersistKeepsMirror(jobs: Table, view: View, id: string)
    requires Mirror(jobs, view) && id in jobs
    ensures Mirror(jobs - {id}, Unpersisted(view, jobs[id]))
    ensures SameOutsideJobs(view, Unpersisted(view, jobs[id]))
  {
    var j := jobs[id];
    var jobs', view' := jobs - {id}, Unpersisted(view, j);
    assert JOB_KEY_PREFIX <= JobKey(j.id);
    forall i | i in jobs' && jobs'[i].tenant != ""
      ensures jobs'[i].tenant in view' && JobKey(i) in view'[jobs'[i].tenant]
      ensures view'[jobs'[i].tenant][JobKey(i)] == JobRecord(jobs'[i])
    {
      if JobKey(i) == JobKey(j.id) { JobKeyInjective(i, j.id); }
    }
    forall t, k | t in view' && k in view'[t] && JOB_KEY_PREFIX <= k
      ensures view'[t][k].JobRecord? &&
              var i := view'[t][k].job; k == JobKey(i.id) && i.tenant == t && i.id in jobs' && jobs'[i.id] == i
    {
      assert view'[t][k] == view[t][k];
      assert view[t][k].job.id != id;
    }
  }

  /** The job's number is not above the counter, and an id in use keeps its tenant. */
  predicate Fits(j: Job, jobs: Table, counter: nat) {
    ParseNum(JOB_ID_PREFIX, j.id) <= counter && (j.id in jobs ==> jobs[j.id].tenant == j.tenant)
  }

  /** A job under the next number: no job has it, and it fits. */
  lemma NextNumber(jobs: Table, counter: nat, j: Job)
    requires AboveAll(counter, jobs) && counter + 1 < UINT64_LIMIT
    requires j.id == FormatId(JOB_ID_PREFIX, counter + 1) && j.status.Pending?
    ensures j.id !in jobs && Fits(j, jobs, counter + 1) && AboveAll(counter + 1, jobs)
    ensures Step(Queued(jobs, counter), Submit(j.id), Queued(jobs[j.id := j], counter + 1))
  {
    ParseFormat(JOB_ID_PREFIX, counter + 1);
  }

  lemma SameOutsideJobsReflexive(a: View)
    ensures SameOutsideJobs(a, a)
  {
  }

  lemma SameOutsideJobsTransitive(a: View, b: View, c: View)
    requires SameOutsideJobs(a, b) && SameOutsideJobs(b, c)
    ensures SameOutsideJobs(a, c)
  {
  }

  // ----- loading

  function Decoded(es: seq<Entry<Record>>): seq<Job> {
    if es == [] then []
    else (if es[0].value.JobRecord? then [es[0].value.job] else []) + Decoded(es[1..])
  }

  function Insert(jobs: Table, js: seq<Job>): Table
    decreases js
  {
    if js == [] then jobs else Insert(jobs[js[0].id := js[0]], js[1..])
  }

  function RaiseAll(counter: nat, js: seq<Job>): nat
    decreases js
  {
    if js == [] then counter
    else
      var n := ParseNum(JOB_ID_PREFIX, js[0].id);
      RaiseAll(if n > counter then n else counter, js[1..])
  }

  function Load(jobs: Table, es: seq<Entry<Record>>): Table { Insert(jobs, Decoded(es)) }

  function Raise(counter: nat, es: seq<Entry<Record>>): nat { RaiseAll(counter, Decoded(es)) }

  /** The scan's callback: keep what decodes, in scan order. */
  method DecodeAll(scanned: seq<Entry<Record>>) returns (loaded: seq<Job>)
    ensures loaded == Decoded(scanned)
  {
    loaded := [];
    for i := 0 to |scanned|
      invariant loaded + Decoded(scanned[i..]) == Decoded(scanned)
    {
      assert scanned[i..][1..] == scanned[i + 1..];
      if scanned[i].value.JobRecord? {
        loaded := loaded + [scanned[i].value.job];
      }
    }
  }

  lemma ExpiryIsStep(jobs: Table, counter: nat, now: int)
    ensures Step(Queued(jobs, counter), Expiry, Queued(map id | id in jobs :: Expire(jobs[id], now), counter))
  {
  }

  function StaleIds(jobs: Table, now: int): set<string> {
    set id | id in jobs && Stale(jobs[id], now)
  }

  /** The expiry loop has gone over all jobs but those in `todo` and expired `n` of them. */
  ghost predicate ExpiredSoFar(was: Table, now: int, todo: set<string>, jobs: Table, n: nat) {
    && jobs.Keys == was.Keys
    && (forall id :: id in was ==> jobs[id] == if id in todo then was[id] else Expire(was[id], now))
    && n == |StaleIds(was, now) - todo|
  }

  lemma ExpiryStarts(was: Table, now: int)
    ensures ExpiredSoFar(was, now, was.Keys, was, 0)
  {
    assert StaleIds(was, now) - was.Keys == {};
  }

  lemma ExpiryGoesOn(was: Table, now: int, todo: set<string>, jobs: Table, n: nat, id: string)
    requires ExpiredSoFar(was, now, todo, jobs, n) && id in todo && id in jobs
    ensures ExpiredSoFar(was, now, todo - {id}, jobs[id := Expire(jobs[id], now)], n + if Stale(jobs[id], now) then 1 else 0)
  {
    StaleOneMore(was, now, todo, id);
    hide Expire, Stale, StaleIds;
  }

  lemma StaleOneMore(was: Table, now: int, todo: set<string>, id: string)
    requires id in was && id in todo
    ensures |StaleIds(was, now) - (todo - {id})| == |StaleIds(was, now) - todo| + if Stale(was[id], now) then 1 else 0
  {
    hide Stale;
    var before, after := StaleIds(was, now) - todo, StaleIds(was, now) - (todo - {id});
    assert after == if Stale(was[id], now) then before + {id} else before;
  }

  lemma ExpiryEnds(was: Table, now: int, jobs: Table, n: nat)
    requires ExpiredSoFar(was, now, {}, jobs, n)
    ensures jobs == map id | id in was :: Expire(was[id], now)
    ensures n == |StaleIds(was, now)|
  {
    assert StaleIds(was, now) - {} == StaleIds(was, now);
  }

  /** The same in the fields. */
  lemma ExpiryInFields(was: Table, now: int)
    ensures (map id | id in was :: Expire(was[id], now)) == map id | id in was ::
              if was[id].status == Pending && was[id].expiresAt.Some? && was[id].expiresAt.value < now
              then was[id].(status := Failed, error := "ttl expired", updatedAt := now) else was[id]
    ensures StaleIds(was, now) ==
            set id | id in was && was[id].status == Pending && was[id].expiresAt.Some? && was[id].expiresAt.value < now
  {
  }

  /** What pruning leaves. */
  function Remaining(jobs: Table, cutoff: int): Table {
    map id | id in jobs && !Prunable(jobs[id], cutoff) :: jobs[id]
  }

  /** The pruning loop has gone over all jobs but those in `todo` and removed `n`. */
  ghost predicate PrunedSoFar(was: Table, cutoff: int, todo: set<string>, jobs: Table, n: nat) {
    && (forall id :: id in jobs <==> id in was && (id in todo || !Prunable(was[id], cutoff)))
    && (forall id :: id in jobs ==> jobs[id] == was[id])
    && n + |jobs| == |was|
  }

  lemma PruningStarts(was: Table, cutoff: int)
    ensures PrunedSoFar(was, cutoff, was.Keys, was, 0)
  {
  }

  lemma PruningGoesOn(was: Table, cutoff: int, todo: set<string>, jobs: Table, n: nat, id: string)
    requires PrunedSoFar(was, cutoff, todo, jobs, n) && id in todo && id in jobs
    ensures if Prunable(jobs[id], cutoff) then PrunedSoFar(was, cutoff, todo - {id}, jobs - {id}, n + 1)
            else PrunedSoFar(was, cutoff, todo - {id}, jobs, n)
  {
    hide Prunable;
    assert jobs.Keys == (jobs - {id}).Keys + {id};
  }

  lemma PruningEnds(was: Table, cutoff: int, jobs: Table, n: nat, counter: nat)
    requires PrunedSoFar(was, cutoff, {}, jobs, n)
    ensures jobs == Remaining(was, cutoff) && n == |was| - |jobs|
    ensures forall id :: id in jobs <==>
              id in was && !((was[id].status == Done || was[id].status == Failed || was[id].status == Cancelled) && was[id].updatedAt < cutoff)
    ensures Step(Queued(was, counter), Pruning, Queued(jobs, counter))
  {
  }

  // ----- the queue

  class Queue {
    var jobs: Table
    var counter: nat
    const store: KVStore<Record>

    /** The invariant every operation keeps: the store mirrors the table and the counter
        is at least every number in use. */
    ghost predicate Valid()
      reads this, store
    {
      store.Valid() && Mirror(jobs, store.View()) && AboveAll(counter, jobs)
    }

    /** A fresh queue over a store, before anything is loaded. */
    constructor (store: KVStore<Record>)
      ensures this.store == store && jobs == map[] && counter == 0
    {
      this.store := store;
      jobs := map[];
      counter := 0;
    }

    lemma KnownIds()
      requires Valid()
      ensures forall id :: id in jobs ==> jobs[id].id == id && ParseNum(JOB_ID_PREFIX, id) <= counter
    {
    }

    /** Set a job in the table and write it through. Under an id that is numbered and keeps its
        tenant, that keeps the mirror. */
    method Write(j: Job)
      requires store.Valid()
      modifies this`jobs, store
      ensures store.Valid() && jobs == old(jobs)[j.id := j] && store.View() == Persisted(old(store.View()), j)
      ensures old(Mirror(jobs, store.View()) && AboveAll(counter, jobs)) && Fits(j, old(jobs), counter) ==>
                Valid() && SameOutsideJobs(old(store.View()), store.View())
    {
      ghost var was, view := jobs, store.View();
      if Mirror(was, view) && Fits(j, was, counter) {
        PersistKeepsMirror(was, view, j);
      }
      hide Mirror, SameOutsideJobs;
      var _ := store.PutKV(j.tenant, JobKey(j.id), JobRecord(j));
      assert store.View() == Persisted(view, j);
      jobs := jobs[j.id := j];
    }

    /** Drop a job from the store and then from the table. */
    method Remove(id: string)
      requires Valid() && id in jobs
      modifies this`jobs, store
      ensures Valid() && SameOutsideJobs(old(store.View()), store.View())
      ensures jobs == old(jobs) - {id}
    {
      assert jobs[id].id == id;
      UnpersistKeepsMirror(jobs, store.View(), id);
      hide Mirror, SameOutsideJobs;
      store.DeleteKV(jobs[id].tenant, JobKey(id));
      assert store.View() == Unpersisted(old(store.View()), jobs[id]);
      jobs := jobs - {id};
    }

    /** Read a tenant's job namespace back; records that do not decode are skipped. */
    method LoadFromStore(tenant: string) returns (n: nat)
      requires store.Valid()
      modifies this
      ensures var scanned := if tenant in store.buckets then WithPrefix(store.buckets[tenant], JOB_KEY_PREFIX) else [];
              && jobs == Load(old(jobs), scanned)
              && counter == Raise(old(counter), scanned)
              && n == |Decoded(scanned)|
    {
      var scanned := store.ScanPrefix(tenant, JOB_KEY_PREFIX, _ => false);
      NeverFailing(if tenant in store.buckets then WithPrefix(store.buckets[tenant], JOB_KEY_PREFIX) else []);
      var loaded := DecodeAll(scanned);
      for i := 0 to |loaded|
        invariant Insert(jobs, loaded[i..]) == Insert(old(jobs), loaded)
        invariant RaiseAll(counter, loaded[i..]) == RaiseAll(old(counter), loaded)
      {
        assert loaded[i..][1..] == loaded[i + 1..];
        var j := loaded[i];
        jobs := jobs[j.id := j];
        var number := ParseNum(JOB_ID_PREFIX, j.id);
        if number > counter {
          counter := number;
        }
      }
      n := |loaded|;
    }

    /** The next number, in 64 bits. Until it wraps around, no job has it yet. */
    method SubmitWithOpts(tenant: string, agentID: string, capability: string, payload: string,
                          priority: int, ttlSeconds: int, now: int) returns (j: Job)
      requires Valid()
      modifies this, store
      ensures counter == Increment64(old(counter))
      ensures j == Job(FormatId("job-", counter), tenant, agentID, capability, payload, priority, ttlSeconds,
                       Pending, "", "", now, now, if ttlSeconds > 0 then Some(now + TtlDuration(ttlSeconds)) else None)
      ensures jobs == old(jobs)[j.id := j] && store.View() == Persisted(old(store.View()), j)
      ensures old(counter) + 1 < UINT64_LIMIT ==>
                && Valid() && SameOutsideJobs(old(store.View()), store.View()) && j.id !in old(jobs)
                && Step(Queued(old(jobs), old(counter)), Event.Submit(j.id), Queued(jobs, counter))
    {
      ghost var was := counter;
      assert store.Valid() && Mirror(jobs, store.View()) && AboveAll(counter, jobs);
      hide *;
      counter := Increment64(counter);
      var expiresAt := None;
      if ttlSeconds > 0 {
        expiresAt := Some(now + TtlDuration(ttlSeconds));
      }
      j := Job(FormatId(JOB_ID_PREFIX, counter), tenant, agentID, capability, payload, priority, ttlSeconds, Pending,
               "", "", now, now, expiresAt);
      if was + 1 < UINT64_LIMIT { NextNumber(jobs, was, j); }
      Write(j);
    }

    method Update(id: string, status: Status, result: string, error: string, now: int) returns (ok: bool)
      requires Valid()
      modifies this, store
      ensures Valid() && SameOutsideJobs(old(store.View()), store.View())
      ensures counter == old(counter) && ok == (id in old(jobs))
      ensures jobs == if ok
                      then old(jobs)[id := old(jobs)[id].(status := status, result := result, error := error, updatedAt := now)]
                      else old(jobs)
      ensures Step(Queued(old(jobs), old(counter)), if ok then Event.Update(id, status) else NoChange, Queued(jobs, counter))
    {
      if id !in jobs { return false; }
      var j := jobs[id].(status := status, result := result, error := error, updatedAt := now);
      Write(j);
      ok := true;
    }

    method Cancel(id: string, now: int) returns (ok: bool)
      requires Valid()
      modifies this, store
      ensures Valid() && SameOutsideJobs(old(store.View()), store.View())
      ensures counter == old(counter)
      ensures ok == (id in old(jobs) && var was := old(jobs)[id].status; was != Done && was != Failed && was != Cancelled)
      ensures jobs == if ok then old(jobs)[id := old(jobs)[id].(status := Cancelled, updatedAt := now)] else old(jobs)
      ensures Step(Queued(old(jobs), old(counter)), if ok then Event.Cancel(id) else NoChange, Queued(jobs, counter))
    {
      if id !in jobs || Terminal(jobs[id].status) { return false; }
      var j := jobs[id].(status := Cancelled, updatedAt := now);
      Write(j);
      ok := true;
    }

    /** The loop of both claims, over the table in whatever order: a best eligible job. */
    method FindBest(eligible: Job -> bool) returns (best: Option<string>)
      ensures best.Some? ==> best.value in jobs && eligible(jobs[best.value])
      ensures forall k :: k in jobs && eligible(jobs[k]) ==>
                && best.Some? && jobs[k].priority <= jobs[best.value].priority
                && (jobs[k].priority == jobs[best.value].priority ==> jobs[best.value].createdAt <= jobs[k].createdAt)
    {
      best := None;
      var todo := jobs.Keys;
      while todo != {}
        invariant todo <= jobs.Keys
        invariant best.Some? ==> best.value in jobs && best.value !in todo && eligible(jobs[best.value])
        invariant forall k :: k in jobs && k !in todo && eligible(jobs[k]) ==>
                    best.Some? && !Beats(jobs[k], jobs[best.value])
        decreases |todo|
      {
        var id :| id in todo;
        todo := todo - {id};
        if eligible(jobs[id]) && (best.None? || Beats(jobs[id], jobs[best.value])) {
          best := Some(id);
        }
      }
    }

    /** In the fields: of the pending jobs assigned to the agent or, without an agent, of the
        capability asked for, one of the highest priority and among those the oldest. */
    method Claim(agentID: string, capability: string, now: int) returns (r: Option<Job>)
      requires Valid()
      modifies this, store
      ensures Valid() && SameOutsideJobs(old(store.View()), store.View()) && counter == old(counter)
      ensures r.Some? ==>
                && r.value.id in old(jobs)
                && var was := old(jobs)[r.value.id];
                   && was.status == Pending
                   && (if agentID != "" then was.agentID == agentID else capability != "" && was.capability == capability)
                   && r.value == was.(agentID := if agentID != "" then agentID else was.agentID, status := Running, updatedAt := now)
                   && jobs == old(jobs)[r.value.id := r.value]
      ensures forall k :: k in old(jobs) && old(jobs)[k].status == Pending &&
                (if agentID != "" then old(jobs)[k].agentID == agentID else capability != "" && old(jobs)[k].capability == capability)
                ==> (r.Some?
                     && old(jobs)[k].priority <= r.value.priority
                     && (old(jobs)[k].priority == r.value.priority ==> r.value.createdAt <= old(jobs)[k].createdAt))
      ensures r.None? ==> jobs == old(jobs)
      ensures Step(Queued(old(jobs), old(counter)), if r.Some? then Event.Claim(r.value.id) else NoChange, Queued(jobs, counter))
    {
      var best := FindBest(j => Matches(j, agentID, capability));
      if best.None? { return None; }
      var j := Claimed(jobs[best.value], agentID, now);
      Write(j);
      r := Some(j);
    }

    /** Likewise among one tenant's pending jobs that have the capability, if one is asked for, and
        are not assigned to another agent. */
    method ClaimForTenant(tenant: string, agentID: string, capability: string, now: int) returns (r: Option<Job>)
      requires Valid()
      modifies this, store
      ensures Valid() && SameOutsideJobs(old(store.View()), store.View()) && counter == old(counter)
      ensures r.Some? ==>
                && r.value.id in old(jobs)
                && var was := old(jobs)[r.value.id];
                   && was.status == Pending && was.tenant == tenant && (capability == "" || was.capability == capability)
                   && (agentID == "" || was.agentID == "" || was.agentID == agentID)
                   && r.value == was.(agentID := if agentID != "" then agentID else was.agentID, status := Running, updatedAt := now)
                   && jobs == old(jobs)[r.value.id := r.value]
      ensures forall k :: k in old(jobs) && old(jobs)[k].status == Pending && old(jobs)[k].tenant == tenant &&
                (capability == "" || old(jobs)[k].capability == capability) &&
                (agentID == "" || old(jobs)[k].agentID == "" || old(jobs)[k].agentID == agentID)
                ==> (r.Some?
                     && old(jobs)[k].priority <= r.value.priority
                     && (old(jobs)[k].priority == r.value.priority ==> r.value.createdAt <= old(jobs)[k].createdAt))
      ensures r.None? ==> jobs == old(jobs)
      ensures Step(Queued(old(jobs), old(counter)), if r.Some? then Event.Claim(r.value.id) else NoChange, Queued(jobs, counter))
    {
      var best := FindBest(j => MatchesForTenant(j, tenant, agentID, capability));
      if best.None? { return None; }
      var j := Claimed(jobs[best.value], agentID, now);
      Write(j);
      r := Some(j);
    }

    method ExpireOne(id: string, now: int, ghost origin: View) returns (stale: bool)
      requires Valid() && id in jobs && SameOutsideJobs(origin, store.View())
      modifies this`jobs, store
      ensures Valid() && SameOutsideJobs(origin, store.View())
      ensures stale == Stale(old(jobs)[id], now)
      ensures jobs == old(jobs)[id := Expire(old(jobs)[id], now)]
    {
      KnownIds();
      hide Mirror, SameOutsideJobs, AboveAll;
      stale := Stale(jobs[id], now);
      if stale {
        Write(Expire(jobs[id], now));
        SameOutsideJobsTransitive(origin, old(store.View()), store.View());
      }
    }

    method ExpireStale(now: int) returns (n: nat)
      requires Valid()
      modifies this, store
      ensures Valid() && SameOutsideJobs(old(store.View()), store.View()) && counter == old(counter)
      ensures jobs == map id | id in old(jobs) ::
                        var was := old(jobs)[id];
                        if was.status == Pending && was.expiresAt.Some? && was.expiresAt.value < now
                        then was.(status := Failed, error := "ttl expired", updatedAt := now) else was
      ensures n == |set id | id in old(jobs) && old(jobs)[id].status == Pending &&
                            old(jobs)[id].expiresAt.Some? && old(jobs)[id].expiresAt.value < now|
      ensures Step(Queued(old(jobs), old(counter)), Expiry, Queued(jobs, counter))
    {
      hide *;
      n := ExpireLoop(now);
      ExpiryEnds(old(jobs), now, jobs, n);
      ExpiryInFields(old(jobs), now);
      ExpiryIsStep(old(jobs), counter, now);
    }

    /** The loop over the table, in whatever order. */
    method ExpireLoop(now: int) returns (n: nat)
      requires Valid()
      modifies this`jobs, store
      ensures Valid() && SameOutsideJobs(old(store.View()), store.View())
      ensures ExpiredSoFar(old(jobs), now, {}, jobs, n)
    {
      hide *;
      SameOutsideJobsReflexive(store.View());
      ExpiryStarts(jobs, now);
      n := 0;
      var todo := jobs.Keys;
      while todo != {}
        invariant Valid() && todo <= jobs.Keys
        invariant SameOutsideJobs(old(store.View()), store.View())
        invariant ExpiredSoFar(old(jobs), now, todo, jobs, n)
        decreases |todo|
      {
        var id :| id in todo;
        ExpiryGoesOn(old(jobs), now, todo, jobs, n, id);
        var stale := ExpireOne(id, now, old(store.View()));
        todo := todo - {id};
        if stale {
          n := n + 1;
        }
      }
    }

    /** In the fields: what is done, failed or cancelled and was last touched before the cutoff goes. */
    method Prune(maxAge: int, now: int) returns (n: nat)
      requires Valid()
      modifies this, store
      ensures Valid() && SameOutsideJobs(old(store.View()), store.View()) && counter == old(counter)
      ensures jobs == Remaining(old(jobs), now - maxAge)
      ensures forall id :: id in jobs <==>
                id in old(jobs) && var was := old(jobs)[id];
                !((was.status == Done || was.status == Failed || was.status == Cancelled) && was.updatedAt < now - maxAge)
      ensures n == |old(jobs)| - |jobs|
      ensures Step(Queued(old(jobs), old(counter)), Pruning, Queued(jobs, counter))
    {
      hide *;
      n := PruneLoop(now - maxAge);
      PruningEnds(old(jobs), now - maxAge, jobs, n, counter);
    }

    method PruneLoop(cutoff: int) returns (n: nat)
      requires Valid()
      modifies this`jobs, store
      ensures Valid() && SameOutsideJobs(old(store.View()), store.View())
      ensures PrunedSoFar(old(jobs), cutoff, {}, jobs, n)
    {
      hide *;
      SameOutsideJobsReflexive(store.View());
      PruningStarts(jobs, cutoff);
      n := 0;
      var todo := jobs.Keys;
      while todo != {}
        invariant Valid() && todo <= jobs.Keys
        invariant SameOutsideJobs(old(store.View()), store.View())
        invariant PrunedSoFar(old(jobs), cutoff, todo, jobs, n)
        decreases |todo|
      {
        var id :| id in todo;
        PruningGoesOn(old(jobs), cutoff, todo, jobs, n, id);
        todo := todo - {id};
        if Prunable(jobs[id], cutoff) {
          ghost var before := store.View();
          Remove(id);
          SameOutsideJobsTransitive(old(store.View()), before, store.View());
          n := n + 1;
        }
      }
    }
  }
}
