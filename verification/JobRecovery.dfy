/**
 Restarting the process: a fresh queue that loads every tenant of the store rebuilds the
 table the store mirrors. And what holds over whole runs, restarts included.
 */
module JobRecovery {
  import opened Ids
  import opened Store
  import opened Jobs

  // ----- recovery

  ghost predicate Within(jobs: Table, table: Table) {
    forall id :: id in jobs ==> id in table && jobs[id] == table[id]
  }

  /** The records of one tenant's bucket, as a mirror leaves them. */
  ghost predicate MirrorsTenant(es: seq<Entry<Record>>, table: Table) {
    forall i :: 0 <= i < |es| ==>
      es[i].value.JobRecord? && var j := es[i].value.job; j.id in table && table[j.id] == j
  }

  ghost predicate Holds(es: seq<Entry<Record>>, id: string) {
    exists i :: 0 <= i < |es| && es[i].value.JobRecord? && es[i].value.job.id == id
  }

  lemma {:induction false} LoadStaysWithin(jobs: Table, es: seq<Entry<Record>>, table: Table)
    requires Within(jobs, table) && MirrorsTenant(es, table)
    ensures Within(Load(jobs, es), table)
    ensures forall id :: id in jobs || Holds(es, id) ==> id in Load(jobs, es)
    decreases es
  {
    if es != [] {
      var j := es[0].value.job;
      var jobs' := jobs[j.id := j];
      assert Decoded(es) == [j] + Decoded(es[1..]);
      assert Load(jobs, es) == Load(jobs', es[1..]);
      LoadStaysWithin(jobs', es[1..], table);
      forall id | Holds(es, id) ensures id in Load(jobs, es) {
        var i :| 0 <= i < |es| && es[i].value.JobRecord? && es[i].value.job.id == id;
        if i > 0 {
          assert es[1..][i - 1] == es[i];
          assert Holds(es[1..], id);
        }
      }
    }
  }

  lemma {:induction false} RaiseIsHighest(jobs: Table, counter: nat, es: seq<Entry<Record>>, table: Table)
    requires Within(jobs, table) && MirrorsTenant(es, table) && HighestNumber(counter, jobs)
    ensures HighestNumber(Raise(counter, es), Load(jobs, es))
    decreases es
  {
    if es != [] {
      var j := es[0].value.job;
      var jobs' := jobs[j.id := j];
      assert Decoded(es) == [j] + Decoded(es[1..]);
      var n := ParseNum(JOB_ID_PREFIX, j.id);
      var counter' := if n > counter then n else counter;
      if counter' != 0 {
        var id :| id in jobs' && ParseNum(JOB_ID_PREFIX, id) == counter';
      }
      RaiseIsHighest(jobs', counter', es[1..], table);
    }
  }

  lemma {:induction false} EntryOf<V>(b: seq<Entry<V>>, key: string)
    requires key in Contents(b)
    ensures exists i :: 0 <= i < |b| && b[i].key == key && b[i].value == Contents(b)[key]
  {
    if b[0].key == key {
    } else {
      EntryOf(b[1..], key);
      var i :| 0 <= i < |b[1..]| && b[1..][i].key == key && b[1..][i].value == Contents(b[1..])[key];
      assert b[i + 1] == b[1..][i];
    }
  }

  /** The scan of a mirrored bucket finds its tenant's jobs, all of them and no others. */
  lemma ScanFindsJobs(b: seq<Entry<Record>>, tenant: string, table: Table, view: View)
    requires Sorted(b) && Mirror(table, view) && tenant in view && view[tenant] == Contents(b)
    ensures MirrorsTenant(WithPrefix(b, JOB_KEY_PREFIX), table)
    ensures forall id :: id in table && table[id].tenant == tenant ==> Holds(WithPrefix(b, JOB_KEY_PREFIX), id)
  {
    var es := WithPrefix(b, JOB_KEY_PREFIX);
    forall i | 0 <= i < |es|
      ensures es[i].value.JobRecord? && var j := es[i].value.job; j.id in table && table[j.id] == j
    {
      WithPrefixMember(b, JOB_KEY_PREFIX, es[i]);
      var k :| 0 <= k < |b| && b[k] == es[i];
      ContentsAt(b, k);
    }
    forall id | id in table && table[id].tenant == tenant ensures Holds(es, id) {
      EntryOf(b, JobKey(id));
      var k :| 0 <= k < |b| && b[k].key == JobKey(id) && b[k].value == Contents(b)[JobKey(id)];
      assert JOB_KEY_PREFIX <= JobKey(id);
      WithPrefixMember(b, JOB_KEY_PREFIX, b[k]);
      var i :| 0 <= i < |es| && es[i] == b[k];
      assert es[i].value.job.id == id;
    }
  }

  /** What the store mirrors is the durable part of the table. */
  lemma MirrorOfDurable(table: Table, view: View)
    requires Mirror(table, view)
    ensures Mirror(Durable(table), view)
  {
  }

  /** Part of the table is loaded, all but the jobs of the tenants still to come. */
  ghost predicate Loading(jobs: Table, counter: nat, table: Table, todo: set<string>) {
    && Within(jobs, table) && HighestNumber(counter, jobs)
    && forall id :: id in table && table[id].tenant !in todo ==> id in jobs
  }

  lemma LoadedTenant(jobs: Table, counter: nat, table: Table, todo: set<string>,
                     b: seq<Entry<Record>>, tenant: string, view: View)
    requires Loading(jobs, counter, table, todo)
    requires Sorted(b) && Mirror(table, view) && tenant in view && view[tenant] == Contents(b)
    ensures var es := WithPrefix(b, JOB_KEY_PREFIX);
            Loading(Load(jobs, es), Raise(counter, es), table, todo - {tenant})
  {
    var es := WithPrefix(b, JOB_KEY_PREFIX);
    ScanFindsJobs(b, tenant, table, view);
    LoadStaysWithin(jobs, es, table);
    RaiseIsHighest(jobs, counter, es, table);
    hide WithPrefix, Load, Raise, Mirror, MirrorsTenant, Holds, HighestNumber, Contents;
  }

  lemma LoadedAll(jobs: Table, counter: nat, table: Table)
    requires Loading(jobs, counter, table, {})
    ensures jobs == table && HighestNumber(counter, jobs) && AboveAll(counter, jobs)
  {
  }

  lemma LoadedNone(table: Table, view: View)
    requires Mirror(table, view)
    ensures Loading(map[], 0, Durable(table), view.Keys)
  {
  }

  /** The start-up loop over the store's tenants, in whatever order. */
  method Recover(store: KVStore<Record>, ghost table: Table) returns (q: Queue)
    requires store.Valid() && Mirror(table, store.View())
    ensures fresh(q) && q.store == store
    ensures q.jobs == Durable(table) && HighestNumber(q.counter, q.jobs) && q.Valid()
  {
    ghost var durable, view := Durable(table), store.View();
    MirrorOfDurable(table, view);
    LoadedNone(table, view);
    hide Durable, Mirror, HighestNumber, AboveAll, Loading, Load, Raise, WithPrefix, Contents, Sorted;
    q := new Queue(store);
    var tenants := store.buckets.Keys;
    assert tenants == view.Keys;
    while tenants != {}
      invariant q.store == store && tenants <= store.buckets.Keys
      invariant Loading(q.jobs, q.counter, durable, tenants)
      decreases |tenants|
    {
      var t :| t in tenants;
      LoadedTenant(q.jobs, q.counter, durable, tenants, store.buckets[t], t, view);
      var n := q.LoadFromStore(t);
      tenants := tenants - {t};
    }
    LoadedAll(q.jobs, q.counter, durable);
  }

  // ----- runs

  ghost predicate Run(qs: seq<Queued>, evs: seq<Event>) {
    && |qs| == |evs| + 1
    && qs[0] == Queued(map[], 0)
    && forall i :: 0 <= i < |evs| ==> Step(qs[i], evs[i], qs[i + 1])
  }

  ghost predicate Claimable(q: Queued, id: string) {
    id in q.jobs && q.jobs[id].status.Pending?
  }

  /** The two events that can make a job claimable again. */
  predicate Revives(ev: Event, id: string) {
    ev == Submit(id) || ev == Event.Update(id, Pending)
  }

  lemma OnlyRevivalMakesClaimable(q: Queued, ev: Event, q': Queued, id: string)
    requires Step(q, ev, q') && !Claimable(q, id) && !Revives(ev, id)
    ensures !Claimable(q', id)
  {
  }

  lemma {:induction false} StaysUnclaimable(qs: seq<Queued>, evs: seq<Event>, id: string, i: nat, j: nat)
    requires Run(qs, evs) && i <= j < |qs| && !Claimable(qs[i], id)
    requires forall k :: i <= k < j ==> !Revives(evs[k], id)
    ensures !Claimable(qs[j], id)
    decreases j - i
  {
    if i < j {
      OnlyRevivalMakesClaimable(qs[i], evs[i], qs[i + 1], id);
      StaysUnclaimable(qs, evs, id, i + 1, j);
    }
  }

  /** At most once: between two claims of one id, in every run and across restarts, the id
      was submitted anew or some update set it back to pending. */
  lemma {:induction false} ClaimedAtMostOnce(qs: seq<Queued>, evs: seq<Event>, id: string, i: nat, j: nat)
    requires Run(qs, evs) && i < j < |evs| && evs[i] == Event.Claim(id) && evs[j] == Event.Claim(id)
    ensures exists k :: i < k < j && Revives(evs[k], id)
  {
    if forall k :: i < k < j ==> !Revives(evs[k], id) {
      assert Step(qs[i], evs[i], qs[i + 1]) && Step(qs[j], evs[j], qs[j + 1]);
      StaysUnclaimable(qs, evs, id, i + 1, j);
    }
  }

  lemma StepKeepsAbove(q: Queued, ev: Event, q': Queued)
    requires Step(q, ev, q') && AboveAll(q.counter, q.jobs)
    ensures AboveAll(q'.counter, q'.jobs)
  {
    if ev.Submit? {
      ParseFormat(JOB_ID_PREFIX, q'.counter);
    }
  }

  lemma {:induction false} RunKeepsAbove(qs: seq<Queued>, evs: seq<Event>, i: nat)
    requires Run(qs, evs) && i < |qs|
    ensures AboveAll(qs[i].counter, qs[i].jobs)
  {
    if i > 0 {
      RunKeepsAbove(qs, evs, i - 1);
      assert Step(qs[i - 1], evs[i - 1], qs[i - 1 + 1]);
      StepKeepsAbove(qs[i - 1], evs[i - 1], qs[i]);
    }
  }

  /** Every submission, before or after any number of restarts, gets an id not in the table. */
  lemma SubmittedIdIsFresh(qs: seq<Queued>, evs: seq<Event>, i: nat, id: string)
    requires Run(qs, evs) && i < |evs| && evs[i] == Submit(id)
    ensures id !in qs[i].jobs
  {
    RunKeepsAbove(qs, evs, i);
    assert Step(qs[i], evs[i], qs[i + 1]);
    ParseFormat(JOB_ID_PREFIX, qs[i + 1].counter);
  }

  // ----- when an id is given out twice

  /** The job numbered last is not in the store: pruned, or never written. */
  ghost predicate Forgotten(q: Queued) {
    q.counter > 0 && FormatId(JOB_ID_PREFIX, q.counter) !in Durable(q.jobs)
  }

  /** Every id in the table is a printed number. */
  ghost predicate Printed(jobs: Table) {
    forall id :: id in jobs ==> id == FormatId(JOB_ID_PREFIX, ParseNum(JOB_ID_PREFIX, id))
  }

  ghost predicate Numbered(q: Queued) {
    q.counter < UINT64_LIMIT && AboveAll(q.counter, q.jobs) && Printed(q.jobs)
  }

  lemma HighestIsAttained(q: Queued)
    requires HighestNumber(q.counter, q.jobs) && q.counter > 0
    ensures q.counter < UINT64_LIMIT
  {
    var id :| id in q.jobs && ParseNum(JOB_ID_PREFIX, id) == q.counter;
  }

  lemma StepKeepsNumbered(q: Queued, ev: Event, q': Queued)
    requires Step(q, ev, q') && Numbered(q)
    ensures Numbered(q')
  {
    StepKeepsAbove(q, ev, q');
    if ev.Submit? { ParseFormat(JOB_ID_PREFIX, q'.counter); }
    if ev.Restart? && q'.counter > 0 { HighestIsAttained(q'); }
    hide FormatId, ParseNum;
  }

  lemma {:induction false} RunIsNumbered(qs: seq<Queued>, evs: seq<Event>, i: nat)
    requires Run(qs, evs) && i < |qs|
    ensures Numbered(qs[i])
  {
    if i > 0 {
      RunIsNumbered(qs, evs, i - 1);
      RunStep(qs, evs, i - 1);
      hide Run, Step, Numbered;
      StepKeepsNumbered(qs[i - 1], evs[i - 1], qs[i]);
    }
  }

  lemma RunStep(qs: seq<Queued>, evs: seq<Event>, i: nat)
    requires Run(qs, evs) && i < |evs|
    ensures |qs| == |evs| + 1 && Step(qs[i], evs[i], qs[i + 1])
  {
  }

  /** A restart never raises the counter, and lowers it exactly when the job numbered last is
      not in the store any more. */
  lemma RestartLowersIff(q: Queued, q': Queued)
    requires Numbered(q) && Step(q, Restart, q')
    ensures q'.counter <= q.counter
    ensures q'.counter < q.counter <==> Forgotten(q)
  {
    var id := FormatId(JOB_ID_PREFIX, q.counter);
    ParseFormat(JOB_ID_PREFIX, q.counter);
    if q'.counter > 0 {
      var top :| top in q'.jobs && ParseNum(JOB_ID_PREFIX, top) == q'.counter;
      assert top in q.jobs;
    }
    if !Forgotten(q) && q.counter > 0 { assert id in q'.jobs; }
  }

  /** What a step does to the counter. */
  lemma CounterSteps(q: Queued, ev: Event, q': Queued)
    requires Step(q, ev, q') && Numbered(q)
    ensures ev.Submit? ==> q'.counter == q.counter + 1 && ev.id == FormatId(JOB_ID_PREFIX, q'.counter)
    ensures !ev.Submit? ==> q'.counter <= q.counter
    ensures !ev.Submit? && !(ev.Restart? && Forgotten(q)) ==> q'.counter == q.counter
  {
    if ev.Restart? { RestartLowersIff(q, q'); }
    hide Forgotten;
  }

  lemma RunCounter(qs: seq<Queued>, evs: seq<Event>, i: nat)
    requires Run(qs, evs) && i < |evs|
    ensures |qs| == |evs| + 1
    ensures evs[i].Submit? ==>
              qs[i + 1].counter == qs[i].counter + 1 < UINT64_LIMIT && evs[i].id == FormatId(JOB_ID_PREFIX, qs[i + 1].counter)
    ensures !evs[i].Submit? ==> qs[i + 1].counter <= qs[i].counter
    ensures !evs[i].Submit? && !(evs[i].Restart? && Forgotten(qs[i])) ==> qs[i + 1].counter == qs[i].counter
    ensures evs[i].Restart? && Forgotten(qs[i]) ==> qs[i + 1].counter < qs[i].counter
  {
    RunStep(qs, evs, i);
    RunIsNumbered(qs, evs, i);
    CounterSteps(qs[i], evs[i], qs[i + 1]);
    if evs[i].Restart? { RestartLowersIff(qs[i], qs[i + 1]); }
  }

  lemma StartsEmpty(qs: seq<Queued>, evs: seq<Event>)
    requires Run(qs, evs)
    ensures |qs| == |evs| + 1 && qs[0].counter == 0
  {
  }

  /** Every number up to the counter was submitted before. */
  lemma {:induction false} NumbersWereSubmitted(qs: seq<Queued>, evs: seq<Event>, i: nat, n: nat) returns (k: nat)
    requires Run(qs, evs) && i < |qs| && 1 <= n <= qs[i].counter
    ensures k < i && i <= |evs| && evs[k] == Submit(FormatId(JOB_ID_PREFIX, n))
  {
    hide *;
    StartsEmpty(qs, evs);
    RunCounter(qs, evs, i - 1);
    if evs[i - 1].Submit? && n == qs[i].counter {
      k := i - 1;
    } else {
      k := NumbersWereSubmitted(qs, evs, i - 1, n);
    }
  }

  /** Without a submission the counter does not rise. */
  lemma {:induction false} NoSubmitNoRise(qs: seq<Queued>, evs: seq<Event>, i: nat, j: nat)
    requires Run(qs, evs) && i <= j < |qs| && |qs| == |evs| + 1 && forall k :: i <= k < j ==> !evs[k].Submit?
    ensures qs[j].counter <= qs[i].counter
    decreases j - i
  {
    hide *;
    if i < j {
      NoSubmitNoRise(qs, evs, i, j - 1);
      RunCounter(qs, evs, j - 1);
    }
  }

  /** Without a restart that forgets, the counter does not fall. */
  lemma {:induction false} NoForgettingNoFall(qs: seq<Queued>, evs: seq<Event>, i: nat, j: nat)
    requires Run(qs, evs) && i <= j < |qs| && |qs| == |evs| + 1
    requires forall k :: i <= k < j ==> !(evs[k].Restart? && Forgotten(qs[k]))
    ensures qs[i].counter <= qs[j].counter
    decreases j - i
  {
    hide *;
    if i < j {
      NoForgettingNoFall(qs, evs, i, j - 1);
      RunCounter(qs, evs, j - 1);
    }
  }

  /** The first submission after a restart that forgets repeats an earlier id. */
  lemma {:induction false} SubmitAfterForgetting(qs: seq<Queued>, evs: seq<Event>, r: nat, j: nat) returns (k: nat, m: nat)
    requires Run(qs, evs) && r < j < |evs| && |qs| == |evs| + 1
    requires evs[r].Restart? && Forgotten(qs[r]) && evs[j].Submit?
    ensures k < r < m <= j && evs[k].Submit? && evs[k] == evs[m]
  {
    m := FirstSubmit(evs, r + 1, j);
    hide *;
    RunCounter(qs, evs, r);
    NoSubmitNoRise(qs, evs, r + 1, m);
    RunCounter(qs, evs, m);
    k := NumbersWereSubmitted(qs, evs, r, qs[m + 1].counter);
  }

  lemma {:induction false} FirstSubmit(evs: seq<Event>, i: nat, j: nat) returns (m: nat)
    requires i <= j < |evs| && evs[j].Submit?
    ensures i <= m <= j && evs[m].Submit? && forall k :: i <= k < m ==> !evs[k].Submit?
    decreases j - i
  {
    if evs[i].Submit? { m := i; } else { m := FirstSubmit(evs, i + 1, j); }
  }

  ghost predicate GivenOutOnce(evs: seq<Event>) {
    forall i, j :: 0 <= i < j < |evs| && evs[i].Submit? && evs[j].Submit? ==> evs[i].id != evs[j].id
  }

  ghost predicate SubmitsAfterForgetting(qs: seq<Queued>, evs: seq<Event>, r: nat, j: nat)
    requires |qs| == |evs| + 1
  {
    r < j < |evs| && evs[r].Restart? && Forgotten(qs[r]) && evs[j].Submit?
  }

  /** In every run: no id is given out twice if and only if nothing is submitted after a restart
      at which the job numbered last was not in the store. */
  lemma {:induction false} GivenOutOnceIff(qs: seq<Queued>, evs: seq<Event>)
    requires Run(qs, evs)
    ensures |qs| == |evs| + 1
    ensures GivenOutOnce(evs) <==> !exists r: nat, j: nat :: SubmitsAfterForgetting(qs, evs, r, j)
  {
    if r: nat, j: nat :| SubmitsAfterForgetting(qs, evs, r, j) {
      var k, m := SubmitAfterForgetting(qs, evs, r, j);
      assert evs[k].id == evs[m].id;
    } else {
      forall i, j | 0 <= i < j < |evs| && evs[i].Submit? && evs[j].Submit? ensures evs[i].id != evs[j].id {
        RepeatNeedsForgetting(qs, evs, i, j);
      }
    }
  }

  lemma RepeatNeedsForgetting(qs: seq<Queued>, evs: seq<Event>, i: nat, j: nat)
    requires Run(qs, evs) && i < j < |evs| && |qs| == |evs| + 1 && evs[i].Submit? && evs[j].Submit?
    requires forall r: nat :: !SubmitsAfterForgetting(qs, evs, r, j)
    ensures evs[i].id != evs[j].id
  {
    forall k | i + 1 <= k < j ensures !(evs[k].Restart? && Forgotten(qs[k])) {
      assert !SubmitsAfterForgetting(qs, evs, k, j);
    }
    hide *;
    NoForgettingNoFall(qs, evs, i + 1, j);
    RunCounter(qs, evs, i);
    RunCounter(qs, evs, j);
    ParseFormat(JOB_ID_PREFIX, qs[i + 1].counter);
    ParseFormat(JOB_ID_PREFIX, qs[j + 1].counter);
  }

  /** Such a run exists: submit, claim, finish, prune, restart, submit. */
  lemma PrunedIdIsReused(j: Job, c: Job, d: Job)
    requires j.status.Pending? && c.status.Running? && d.status.Done?
    ensures var id := FormatId(JOB_ID_PREFIX, 1);
            var evs := [Submit(id), Event.Claim(id), Event.Update(id, Done), Pruning, Restart, Submit(id)];
            var qs := [Queued(map[], 0), Queued(map[id := j], 1), Queued(map[id := c], 1), Queued(map[id := d], 1),
                       Queued(map[], 1), Queued(map[], 0), Queued(map[id := j], 1)];
            Run(qs, evs)
  {
    var id := FormatId(JOB_ID_PREFIX, 1);
    var evs := [Submit(id), Event.Claim(id), Event.Update(id, Done), Pruning, Restart, Submit(id)];
    var qs := [Queued(map[], 0), Queued(map[id := j], 1), Queued(map[id := c], 1), Queued(map[id := d], 1),
               Queued(map[], 1), Queued(map[], 0), Queued(map[id := j], 1)];
    assert Step(qs[0], evs[0], qs[1]);
    assert Step(qs[1], evs[1], qs[2]);
    assert Step(qs[2], evs[2], qs[3]);
    assert Step(qs[3], evs[3], qs[4]);
    assert Step(qs[4], evs[4], qs[5]);
    assert Step(qs[5], evs[5], qs[6]);
  }

  /** A restart keeps every job if and only if every job has a tenant. */
  lemma DurableIff(jobs: Table)
    ensures Durable(jobs) == jobs <==> forall id :: id in jobs ==> jobs[id].tenant != ""
  {
    if forall id :: id in jobs ==> jobs[id].tenant != "" {
      assert Durable(jobs) == jobs;
    } else {
      var id :| id in jobs && jobs[id].tenant == "";
      assert id !in Durable(jobs);
    }
  }

  /** A job without one is lost: submit it, and restart. */
  lemma TenantlessIsLost(j: Job)
    requires j.tenant == "" && j.status.Pending?
    ensures var id := FormatId(JOB_ID_PREFIX, 1);
            Run([Queued(map[], 0), Queued(map[id := j], 1), Queued(map[], 0)], [Submit(id), Restart])
  {
    var id := FormatId(JOB_ID_PREFIX, 1);
    var qs := [Queued(map[], 0), Queued(map[id := j], 1), Queued(map[], 0)];
    assert Durable(map[id := j]) == map[];
    assert Step(qs[0], Submit(id), qs[1]);
    assert Step(qs[1], Restart, qs[2]);
  }
}
