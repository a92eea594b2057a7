/**
 What holds over whole runs of the tenant manager and its store, restarts and failures
 included and whatever the store holds to begin with: chains in memory are sound, and what was
 saved last is what is loaded next.
 */
module TenantRuns {
  import opened Options
  import opened Chain
  import opened Tenant
  import Routing

  datatype Event =
    | Get(tenant: string, times: Times, fault: Fault)
    | Add(tenant: string, transactions: seq<Transaction>, timestamp: string, key: string)
    | Remove(tenant: string)
    | Save(tenant: string)
    | Reroute(tenant: string, routes: Routes)
    | SaveRoutes(tenant: string, now: int)
    | Drop(tenant: string)
    | Restart

  /** What stays the same throughout: the hash, the signature and the test for blank names. */
  datatype Env = Env(h: Hash, sign: (string, string) -> string, blank: string -> bool)

  function DoRemove(w: World, tenant: string): World {
    if tenant !in w.cache || |w.cache[tenant].chain| <= 1 then w
    else
      var c := w.cache[tenant];
      w.(cache := w.cache[tenant := c.(chain := c.chain[..|c.chain| - 1])])
  }

  function DoReroute(w: World, tenant: string, routes: Routes): World {
    if tenant in w.cache then w.(cache := w.cache[tenant := w.cache[tenant].(routes := routes)]) else w
  }

  /** Saving the routes drops the expired ones first, in memory too. */
  function DoSaveRoutes(w: World, tenant: string, now: int): World {
    if tenant !in w.cache then w
    else
      var live := Routing.Unexpired(w.cache[tenant].routes, now);
      World(w.cache[tenant := w.cache[tenant].(routes := live)], WithRoutes(w.disk, tenant, live))
  }

  /** A tenant other than the default one is deleted and leaves the cache. */
  function DoDrop(w: World, tenant: string, blank: string -> bool): World {
    if blank(tenant) || tenant == DEFAULT_TENANT || tenant !in w.disk.buckets then w
    else World(w.cache - {tenant}, w.disk.(buckets := w.disk.buckets - {tenant}))
  }

  function Next(e: Env, w: World, ev: Event): World {
    match ev
    case Get(tenant, times, fault) => DoGet(e.h, e.blank, w, tenant, times, fault)
    case Add(tenant, transactions, timestamp, key) => DoAdd(e.h, w, tenant, transactions, timestamp, key, e.sign)
    case Remove(tenant) => DoRemove(w, tenant)
    case Save(tenant) => DoSave(w, tenant)
    case Reroute(tenant, routes) => DoReroute(w, tenant, routes)
    case SaveRoutes(tenant, now) => DoSaveRoutes(w, tenant, now)
    case Drop(tenant) => DoDrop(w, tenant, e.blank)
    case Restart => w.(cache := map[])
  }

  // ----- in every run, whatever the store holds

  /** Cached tenants have names, and the filter would keep every cached chain. */
  ghost predicate CleanCache(e: Env, cache: map<string, Cached>) {
    forall t :: t in cache ==> !e.blank(t) && Clean(e.h, cache[t].chain)
  }

  lemma LoadedIsClean(h: Hash, was: seq<Block>, times: Times)
    ensures Clean(h, LoadedChain(h, was, times))
  {
    assert Clean(h, [Genesis(h, times.first)]) && Clean(h, [Genesis(h, times.second)]);
    if KeptPrefix(h, was) != [] { KeptIsClean(h, was); }
  }

  lemma AddIsClean(e: Env, chain: seq<Block>, transactions: seq<Transaction>, timestamp: string, key: string)
    requires Clean(e.h, chain)
    ensures Clean(e.h, chain + [Signed(NextBlock(e.h, chain, transactions, timestamp), key, e.sign)])
  {
    GrowsClean(e.h, chain, Signed(NextBlock(e.h, chain, transactions, timestamp), key, e.sign));
  }

  /** Every step keeps them so, whatever is in the store and whatever fails. */
  lemma StepKeepsClean(e: Env, w: World, ev: Event)
    requires CleanCache(e, w.cache)
    ensures CleanCache(e, Next(e, w, ev).cache)
  {
    match ev
    case Get(tenant, times, fault) =>
      LoadedIsClean(e.h, StoredBlocks(Ensured(w.disk, tenant), tenant, e.blank), times);
      hide Clean, LoadedChain, StoredBlocks, BlocksRepaired, RoutesRepaired, WritesBlocks, WritesRoutes, Ensured;
    case Add(tenant, transactions, timestamp, key) =>
      if tenant in w.cache { AddIsClean(e, w.cache[tenant].chain, transactions, timestamp, key); }
      hide Clean, NextBlock, Signed;
    case Remove(tenant) =>
      if tenant in w.cache && |w.cache[tenant].chain| > 1 {
        PrefixIsClean(e.h, w.cache[tenant].chain, |w.cache[tenant].chain| - 1);
      }
      hide Clean;
    case _ => hide Clean;
  }

  /** A run starts with nothing in memory, over any store at all. */
  ghost predicate Run(e: Env, ws: seq<World>, evs: seq<Event>) {
    && |ws| == |evs| + 1
    && ws[0].cache == map[]
    && forall i :: 0 <= i < |evs| ==> ws[i + 1] == Next(e, ws[i], evs[i])
  }

  lemma RunStep(e: Env, ws: seq<World>, evs: seq<Event>, i: nat)
    requires Run(e, ws, evs) && i < |evs|
    ensures |ws| == |evs| + 1 && ws[i + 1] == Next(e, ws[i], evs[i])
  {
  }

  lemma {:induction false} RunIsClean(e: Env, ws: seq<World>, evs: seq<Event>, i: nat)
    requires Run(e, ws, evs) && i < |ws|
    ensures CleanCache(e, ws[i].cache)
  {
    if i > 0 {
      RunIsClean(e, ws, evs, i - 1);
      RunStep(e, ws, evs, i - 1);
      hide *;
      StepKeepsClean(e, ws[i - 1], evs[i - 1]);
    }
  }

  // ----- well-formed chains

  /** The tenant's chain in memory is well formed, and its stored blocks, whose hashes and links
      may be broken, are numbered from 0. */
  ghost predicate SoundFor(e: Env, w: World, tenant: string) {
    && (tenant in w.cache ==> WellFormed(e.h, w.cache[tenant].chain))
    && Numbered(StoredBlocks(w.disk, tenant, e.blank))
  }

  /** Loading numbered blocks, broken or not, leaves a well-formed chain in memory. */
  lemma LoadedIsWellFormed(h: Hash, was: seq<Block>, times: Times)
    requires Numbered(was)
    ensures WellFormed(h, LoadedChain(h, was, times)) && Numbered(RepairedBlocks(h, was, times))
  {
    LoadedIsClean(h, was, times);
    CleanIsWellFormed(h, LoadedChain(h, was, times));
  }

  lemma OtherWrites(d: Disk, tenant: string, other: string, blocks: seq<Block>, routes: Routes, blank: string -> bool)
    ensures StoredBlocks(Ensured(d, other), tenant, blank) == StoredBlocks(d, tenant, blank)
    ensures StoredBlocks(WithRoutes(d, other, routes), tenant, blank) == StoredBlocks(d, tenant, blank)
    ensures tenant != other ==> StoredBlocks(WithBlocks(d, other, blocks), tenant, blank) == StoredBlocks(d, tenant, blank)
    ensures !blank(other) ==> StoredBlocks(WithBlocks(d, other, blocks), other, blank) == blocks
  {
  }

  /** What loading anyone does to a tenant's stored blocks and chain: repair them if it is the one
      that is loaded, as far as loading gets, and nothing otherwise. */
  lemma GetEffect(e: Env, w: World, other: string, times: Times, fault: Fault, tenant: string)
    ensures var w' := DoGet(e.h, e.blank, w, other, times, fault);
            var was, now := StoredBlocks(w.disk, tenant, e.blank), StoredBlocks(w'.disk, tenant, e.blank);
            && (tenant != other ==> now == was && (tenant in w'.cache <==> tenant in w.cache))
            && (now == was || now == RepairedBlocks(e.h, was, times))
            && (tenant in w.cache ==> tenant in w'.cache && w'.cache[tenant].chain == w.cache[tenant].chain)
            && (tenant in w'.cache && tenant !in w.cache ==> w'.cache[tenant].chain == LoadedChain(e.h, was, times))
            && (tenant == other && !e.blank(tenant) && fault.NoFault? ==> tenant in w'.cache)
            && (tenant == other && tenant !in w.cache && tenant in w'.cache ==> now == RepairedBlocks(e.h, was, times))
  {
    hide StoredBlocks, StoredRoutes, Ensured, WithBlocks, WithRoutes, LoadedChain, RepairedBlocks, Routing.Unexpired;
    if other !in w.cache && !e.blank(other) && !fault.AtEnsure? {
      var d0 := Ensured(w.disk, other);
      OtherWrites(w.disk, tenant, other, [], [], e.blank);
      OtherWrites(w.disk, other, other, [], [], e.blank);
      OtherWrites(d0, tenant, other, RepairedBlocks(e.h, StoredBlocks(d0, other, e.blank), times), [], e.blank);
      var d := BlocksRepaired(e.h, d0, other, e.blank, times);
      OtherWrites(d, tenant, other, [], Routing.Unexpired(StoredRoutes(d, other, e.blank), times.now), e.blank);
    }
  }

  lemma GetIsSound(e: Env, w: World, other: string, times: Times, fault: Fault, tenant: string)
    requires SoundFor(e, w, tenant)
    ensures SoundFor(e, DoGet(e.h, e.blank, w, other, times, fault), tenant)
  {
    hide StoredBlocks, DoGet, LoadedChain, RepairedBlocks, WellFormed, Numbered;
    GetEffect(e, w, other, times, fault, tenant);
    LoadedIsWellFormed(e.h, StoredBlocks(w.disk, tenant, e.blank), times);
  }

  lemma AddIsSound(e: Env, w: World, other: string, transactions: seq<Transaction>, timestamp: string, key: string, tenant: string)
    requires SoundFor(e, w, tenant)
    ensures SoundFor(e, DoAdd(e.h, w, other, transactions, timestamp, key, e.sign), tenant)
  {
    if other == tenant && tenant in w.cache {
      var chain := w.cache[tenant].chain;
      GrowsWellFormed(e.h, chain, Signed(NextBlock(e.h, chain, transactions, timestamp), key, e.sign));
    }
    hide WellFormed, Numbered, StoredBlocks, NextBlock, Signed;
  }

  lemma SaveIsSound(e: Env, w: World, other: string, tenant: string)
    requires SoundFor(e, w, tenant) && CleanCache(e, w.cache)
    ensures SoundFor(e, DoSave(w, other), tenant)
  {
    if other in w.cache {
      OtherWrites(w.disk, tenant, other, w.cache[other].chain, [], e.blank);
      assert tenant in w.cache ==> Numbered(w.cache[tenant].chain);
    }
    hide WellFormed, Numbered, StoredBlocks, WithBlocks, Clean;
  }

  lemma DropIsSound(e: Env, w: World, other: string, tenant: string)
    requires SoundFor(e, w, tenant)
    ensures SoundFor(e, DoDrop(w, other, e.blank), tenant)
  {
    hide WellFormed;
  }

  /** Every step keeps a tenant sound, whatever others' stored blocks look like. */
  lemma StepKeepsSound(e: Env, w: World, ev: Event, tenant: string)
    requires SoundFor(e, w, tenant) && CleanCache(e, w.cache)
    ensures SoundFor(e, Next(e, w, ev), tenant)
  {
    match ev
    case Get(other, times, fault) =>
      hide SoundFor, DoGet;
      GetIsSound(e, w, other, times, fault, tenant);
    case Add(other, transactions, timestamp, key) =>
      hide SoundFor, DoAdd;
      AddIsSound(e, w, other, transactions, timestamp, key, tenant);
    case Remove(other) =>
      if other == tenant && tenant in w.cache && |w.cache[tenant].chain| > 1 {
        PrefixIsWellFormed(e.h, w.cache[tenant].chain, |w.cache[tenant].chain| - 1);
      }
      hide WellFormed, Numbered, StoredBlocks;
    case Save(other) =>
      hide SoundFor, DoSave;
      SaveIsSound(e, w, other, tenant);
    case SaveRoutes(other, now) =>
      if other in w.cache { OtherWrites(w.disk, tenant, other, [], Routing.Unexpired(w.cache[other].routes, now), e.blank); }
      hide WellFormed, Numbered, StoredBlocks, WithRoutes;
    case Drop(other) =>
      hide SoundFor, DoDrop;
      DropIsSound(e, w, other, tenant);
    case _ => hide WellFormed, Numbered, StoredBlocks;
  }

  /** In every run: if a tenant's blocks in the store were numbered from 0 at the start, however
      broken, then in every state its chain in memory is not empty, numbered and intact, and its
      stored blocks are still numbered. Other tenants' blocks may be anything. */
  lemma {:induction false} RunIsSound(e: Env, ws: seq<World>, evs: seq<Event>, i: nat, tenant: string)
    requires Run(e, ws, evs) && i < |ws| && Numbered(StoredBlocks(ws[0].disk, tenant, e.blank))
    ensures SoundFor(e, ws[i], tenant)
  {
    if i > 0 {
      RunIsSound(e, ws, evs, i - 1, tenant);
      RunIsClean(e, ws, evs, i - 1);
      RunStep(e, ws, evs, i - 1);
      hide *;
      StepKeepsSound(e, ws[i - 1], evs[i - 1], tenant);
    }
  }

  // ----- what was saved last

  /** The event writes or deletes what the store holds of the tenant's chain. */
  predicate Overwrites(ev: Event, tenant: string) {
    ev == Save(tenant) || ev == Drop(tenant)
  }

  /** Blocks the filter keeps stay in the store, whoever is loaded and whatever else happens. */
  lemma StepKeepsStored(e: Env, w: World, ev: Event, tenant: string)
    requires !Overwrites(ev, tenant) && Clean(e.h, StoredBlocks(w.disk, tenant, e.blank))
    ensures StoredBlocks(Next(e, w, ev).disk, tenant, e.blank) == StoredBlocks(w.disk, tenant, e.blank)
  {
    match ev
    case Get(other, times, fault) =>
      ReloadIsIdentity(e.h, StoredBlocks(w.disk, tenant, e.blank), times);
      hide StoredBlocks, DoGet, Clean, RepairedBlocks;
      GetEffect(e, w, other, times, fault, tenant);
    case Save(other) =>
      hide Clean, StoredBlocks, WithBlocks;
      if other in w.cache { OtherWrites(w.disk, tenant, other, w.cache[other].chain, [], e.blank); }
    case SaveRoutes(other, now) =>
      hide Clean, StoredBlocks, WithRoutes, Routing.Unexpired;
      if other in w.cache { OtherWrites(w.disk, tenant, other, [], Routing.Unexpired(w.cache[other].routes, now), e.blank); }
    case Drop(other) => hide Clean;
    case _ => hide Clean, StoredBlocks;
  }

  lemma SaveStores(e: Env, w: World, tenant: string)
    requires CleanCache(e, w.cache) && tenant in w.cache
    ensures StoredBlocks(Next(e, w, Save(tenant)).disk, tenant, e.blank) == w.cache[tenant].chain
    ensures Clean(e.h, w.cache[tenant].chain) && !e.blank(tenant)
  {
    hide Clean;
  }

  /** Until the tenant is saved again or deleted, the store holds what was saved last: through
      loads and repairs of anyone, failures and restarts. */
  lemma {:induction false} SavedStays(e: Env, ws: seq<World>, evs: seq<Event>, i: nat, j: nat, tenant: string)
    requires Run(e, ws, evs) && i < j < |ws| && |ws| == |evs| + 1 && evs[i] == Save(tenant) && tenant in ws[i].cache
    requires forall k :: i < k < j ==> !Overwrites(evs[k], tenant)
    ensures StoredBlocks(ws[j].disk, tenant, e.blank) == ws[i].cache[tenant].chain
    ensures Clean(e.h, ws[i].cache[tenant].chain) && !e.blank(tenant)
    decreases j
  {
    hide *;
    RunStep(e, ws, evs, j - 1);
    RunIsClean(e, ws, evs, j - 1);
    if j == i + 1 {
      SaveStores(e, ws[i], tenant);
    } else {
      SavedStays(e, ws, evs, i, j - 1, tenant);
      StepKeepsStored(e, ws[j - 1], evs[j - 1], tenant);
    }
  }

  lemma GetLoadsStored(e: Env, w: World, tenant: string, times: Times)
    requires tenant !in w.cache && !e.blank(tenant) && Clean(e.h, StoredBlocks(w.disk, tenant, e.blank))
    ensures var w' := Next(e, w, Get(tenant, times, NoFault));
            tenant in w'.cache && w'.cache[tenant].chain == StoredBlocks(w.disk, tenant, e.blank)
  {
    ReloadIsIdentity(e.h, StoredBlocks(w.disk, tenant, e.blank), times);
    hide StoredBlocks, DoGet, Clean, LoadedChain;
    GetEffect(e, w, tenant, times, NoFault, tenant);
  }

  /** A restart is the identity: in every run over any store, whatever happens to other tenants,
      whatever fails and however often the process restarts, a tenant that is loaded again has
      the blocks saved last. */
  lemma {:induction false} LastSavedIsReloaded(e: Env, ws: seq<World>, evs: seq<Event>, i: nat, j: nat, tenant: string, times: Times)
    requires Run(e, ws, evs) && i < j < |evs| && |ws| == |evs| + 1
    requires evs[i] == Save(tenant) && tenant in ws[i].cache
    requires forall k :: i < k < j ==> !Overwrites(evs[k], tenant)
    requires evs[j] == Get(tenant, times, NoFault) && tenant !in ws[j].cache
    ensures tenant in ws[j + 1].cache && ws[j + 1].cache[tenant].chain == ws[i].cache[tenant].chain
  {
    hide *;
    SavedStays(e, ws, evs, i, j, tenant);
    RunStep(e, ws, evs, j);
    GetLoadsStored(e, ws[j], tenant, times);
  }

  lemma CachedIsNamed(e: Env, cache: map<string, Cached>, tenant: string)
    requires CleanCache(e, cache) && tenant in cache
    ensures !e.blank(tenant)
  {
  }

  // ----- and the routes

  /** No filter tells the two tables apart at `t` or later. */
  ghost predicate SameFrom(a: Routes, b: Routes, t: int) {
    forall f: Routing.Filter, later: int :: t <= later ==> Routing.Filtered(a, f, later) == Routing.Filtered(b, f, later)
  }

  lemma PrunedIsSame(rs: Routes, now: int, t: int)
    requires now <= t
    ensures SameFrom(Routing.Unexpired(rs, now), rs, t)
  {
    forall f: Routing.Filter, later: int | t <= later
      ensures Routing.Filtered(Routing.Unexpired(rs, now), f, later) == Routing.Filtered(rs, f, later)
    {
      Routing.PruningIsInvisible(rs, f, now, later);
    }
  }

  lemma SameFromTransitive(a: Routes, b: Routes, c: Routes, t: int)
    requires SameFrom(a, b, t) && SameFrom(b, c, t)
    ensures SameFrom(a, c, t)
  {
  }

  predicate OverwritesRoutes(ev: Event, tenant: string) {
    (ev.SaveRoutes? && ev.tenant == tenant) || ev == Drop(tenant)
  }

  lemma OtherRouteWrites(d: Disk, tenant: string, other: string, blocks: seq<Block>, routes: Routes, blank: string -> bool)
    ensures StoredRoutes(Ensured(d, other), tenant, blank) == StoredRoutes(d, tenant, blank)
    ensures StoredRoutes(WithBlocks(d, other, blocks), tenant, blank) == StoredRoutes(d, tenant, blank)
    ensures tenant != other ==> StoredRoutes(WithRoutes(d, other, routes), tenant, blank) == StoredRoutes(d, tenant, blank)
    ensures !blank(other) ==> StoredRoutes(WithRoutes(d, other, routes), other, blank) == routes
  {
  }

  /** Pruning that drops nothing changes nothing. */
  lemma {:induction false} NothingPruned(rs: Routes, now: int)
    ensures |Routing.Unexpired(rs, now)| <= |rs|
    ensures |Routing.Unexpired(rs, now)| == |rs| ==> Routing.Unexpired(rs, now) == rs
  {
    if rs != [] {
      NothingPruned(rs[1..], now);
      assert rs == [rs[0]] + rs[1..];
    }
  }

  /** What loading anyone does to a tenant's stored routes: drop the expired ones if it is the
      one that is loaded and loading gets there, and nothing otherwise. */
  lemma GetPrunesStored(e: Env, w: World, other: string, times: Times, fault: Fault, tenant: string)
    requires !e.blank(tenant)
    ensures var w' := DoGet(e.h, e.blank, w, other, times, fault);
            var was, now := StoredRoutes(w.disk, tenant, e.blank), StoredRoutes(w'.disk, tenant, e.blank);
            && (tenant != other ==> now == was)
            && (now == was || now == Routing.Unexpired(was, times.now))
            && (tenant == other && tenant !in w.cache && fault.NoFault? ==>
                  tenant in w'.cache && w'.cache[tenant].routes == Routing.Unexpired(was, times.now) == now)
  {
    if other !in w.cache && !e.blank(other) && !fault.AtEnsure? {
      hide StoredBlocks, StoredRoutes, LoadedChain, RepairedBlocks, Ensured, WithBlocks, WithRoutes, Routing.Unexpired;
      var d0 := Ensured(w.disk, other);
      OtherRouteWrites(w.disk, tenant, other, [], [], e.blank);
      OtherRouteWrites(w.disk, other, other, [], [], e.blank);
      var fixed := RepairedBlocks(e.h, StoredBlocks(d0, other, e.blank), times);
      OtherRouteWrites(d0, tenant, other, fixed, [], e.blank);
      OtherRouteWrites(d0, other, other, fixed, [], e.blank);
      var d := BlocksRepaired(e.h, d0, other, e.blank, times);
      NothingPruned(StoredRoutes(d, other, e.blank), times.now);
      OtherRouteWrites(d, tenant, other, [], Routing.Unexpired(StoredRoutes(d, other, e.blank), times.now), e.blank);
    }
  }

  /** Stored routes that no filter tells from `saved` from `t` on stay so. */
  lemma StepKeepsRoutes(e: Env, w: World, ev: Event, tenant: string, t: int, saved: Routes)
    requires !e.blank(tenant) && !OverwritesRoutes(ev, tenant) && LoadedBy(ev, tenant, t)
    requires SameFrom(StoredRoutes(w.disk, tenant, e.blank), saved, t)
    ensures SameFrom(StoredRoutes(Next(e, w, ev).disk, tenant, e.blank), saved, t)
  {
    var was := StoredRoutes(w.disk, tenant, e.blank);
    match ev
    case Get(other, times, fault) =>
      GetPrunesStored(e, w, other, times, fault, tenant);
      hide SameFrom, StoredRoutes, DoGet, Routing.Unexpired;
      if other == tenant {
        PrunedIsSame(was, times.now, t);
        SameFromTransitive(Routing.Unexpired(was, times.now), was, saved, t);
      }
    case Save(other) =>
      hide SameFrom, StoredRoutes, WithBlocks;
      if other in w.cache { OtherRouteWrites(w.disk, tenant, other, w.cache[other].chain, [], e.blank); }
    case SaveRoutes(other, now) =>
      hide SameFrom, StoredRoutes, WithRoutes, Routing.Unexpired;
      if other in w.cache { OtherRouteWrites(w.disk, tenant, other, [], Routing.Unexpired(w.cache[other].routes, now), e.blank); }
    case Drop(other) => hide SameFrom;
    case _ => hide SameFrom, StoredRoutes;
  }

  lemma SaveStoresRoutes(e: Env, w: World, tenant: string, now: int, t: int)
    requires tenant in w.cache && !e.blank(tenant) && now <= t
    ensures SameFrom(StoredRoutes(Next(e, w, SaveRoutes(tenant, now)).disk, tenant, e.blank), w.cache[tenant].routes, t)
  {
    var live := Routing.Unexpired(w.cache[tenant].routes, now);
    PrunedIsSame(w.cache[tenant].routes, now, t);
    OtherRouteWrites(w.disk, tenant, tenant, [], live, e.blank);
    hide SameFrom, StoredRoutes, WithRoutes, Routing.Unexpired;
  }

  /** The tenant's loads up to then are not in the future. */
  predicate LoadedBy(ev: Event, tenant: string, t: int) {
    ev.Get? && ev.tenant == tenant ==> ev.times.now <= t
  }

  lemma {:induction false} SavedRoutesStay(e: Env, ws: seq<World>, evs: seq<Event>, i: nat, j: nat, tenant: string, now: int, t: int)
    requires Run(e, ws, evs) && i < j < |ws| && |ws| == |evs| + 1
    requires evs[i] == SaveRoutes(tenant, now) && tenant in ws[i].cache && now <= t
    requires forall k :: i < k < j ==> !OverwritesRoutes(evs[k], tenant) && LoadedBy(evs[k], tenant, t)
    ensures !e.blank(tenant) && SameFrom(StoredRoutes(ws[j].disk, tenant, e.blank), ws[i].cache[tenant].routes, t)
    decreases j
  {
    hide *;
    RunStep(e, ws, evs, j - 1);
    RunIsClean(e, ws, evs, i);
    CachedIsNamed(e, ws[i].cache, tenant);
    if j == i + 1 {
      SaveStoresRoutes(e, ws[i], tenant, now, t);
    } else {
      SavedRoutesStay(e, ws, evs, i, j - 1, tenant, now, t);
      StepKeepsRoutes(e, ws[j - 1], evs[j - 1], tenant, t, ws[i].cache[tenant].routes);
    }
  }

  /** Routes come back too, up to those that expired: from the time of loading on, no filter
      tells the routes loaded from those saved last. */
  lemma {:induction false} SavedRoutesAreReloaded(e: Env, ws: seq<World>, evs: seq<Event>, i: nat, j: nat,
                                                  tenant: string, now: int, times: Times)
    requires Run(e, ws, evs) && i < j < |evs| && |ws| == |evs| + 1
    requires evs[i] == SaveRoutes(tenant, now) && tenant in ws[i].cache && now <= times.now
    requires forall k :: i < k < j ==> !OverwritesRoutes(evs[k], tenant) && LoadedBy(evs[k], tenant, times.now)
    requires evs[j] == Get(tenant, times, NoFault) && tenant !in ws[j].cache
    ensures tenant in ws[j + 1].cache && SameFrom(ws[j + 1].cache[tenant].routes, ws[i].cache[tenant].routes, times.now)
  {
    hide *;
    SavedRoutesStay(e, ws, evs, i, j, tenant, now, times.now);
    RunStep(e, ws, evs, j);
    GetLoadsRoutes(e, ws[j], tenant, times, ws[i].cache[tenant].routes);
  }

  lemma GetLoadsRoutes(e: Env, w: World, tenant: string, times: Times, saved: Routes)
    requires !e.blank(tenant) && tenant !in w.cache && SameFrom(StoredRoutes(w.disk, tenant, e.blank), saved, times.now)
    ensures var w' := Next(e, w, Get(tenant, times, NoFault));
            tenant in w'.cache && SameFrom(w'.cache[tenant].routes, saved, times.now)
  {
    hide SameFrom, StoredRoutes, DoGet, Routing.Unexpired;
    var was := StoredRoutes(w.disk, tenant, e.blank);
    GetPrunesStored(e, w, tenant, times, NoFault, tenant);
    PrunedIsSame(was, times.now, times.now);
    SameFromTransitive(Routing.Unexpired(was, times.now), was, saved, times.now);
  }
}
