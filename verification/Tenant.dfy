/**
 Loading a tenant: read its blocks and routes from the store, keep the valid prefix and the
 live routes, repair the store, cache both. The store keeps them per tenant, and for the
 default tenant an older copy in a bucket of its own, which is read when there is no newer one.
 */
module Tenant {
  import opened Options
  import opened Chain
  import Routing

  const DEFAULT_TENANT := "default"

  type Routes = seq<Routing.Route>

  // ----- the store

  /** The lists under a bucket's two fixed keys, where the keys are there. */
  datatype Bucket = Bucket(blocks: Option<seq<Block>>, routes: Option<Routes>)

  const EMPTY_BUCKET := Bucket(None, None)

  datatype Disk = Disk(buckets: map<string, Bucket>, legacy: Bucket)

  const EMPTY_DISK := Disk(map[], EMPTY_BUCKET)

  /** What is read for a tenant. `blank` tells names that trim to nothing. */
  function StoredBlocks(d: Disk, tenant: string, blank: string -> bool): seq<Block> {
    if blank(tenant) then []
    else if tenant in d.buckets && d.buckets[tenant].blocks.Some? then d.buckets[tenant].blocks.value
    else if tenant == DEFAULT_TENANT then Or(d.legacy.blocks, [])
    else []
  }

  function StoredRoutes(d: Disk, tenant: string, blank: string -> bool): Routes {
    if blank(tenant) then []
    else if tenant in d.buckets && d.buckets[tenant].routes.Some? then d.buckets[tenant].routes.value
    else if tenant == DEFAULT_TENANT then Or(d.legacy.routes, [])
    else []
  }

  /** Where a tenant's blocks and routes are read: its own bucket's key if it is there; else, for
      the default tenant alone, the older copy's; else there are none. */
  lemma StoredWhere(d: Disk, tenant: string, blank: string -> bool)
    requires !blank(tenant)
    ensures tenant in d.buckets && d.buckets[tenant].blocks.Some? ==> StoredBlocks(d, tenant, blank) == d.buckets[tenant].blocks.value
    ensures tenant in d.buckets && d.buckets[tenant].routes.Some? ==> StoredRoutes(d, tenant, blank) == d.buckets[tenant].routes.value
    ensures tenant !in d.buckets || d.buckets[tenant].blocks.None? ==>
              StoredBlocks(d, tenant, blank) == if tenant == "default" && d.legacy.blocks.Some? then d.legacy.blocks.value else []
    ensures tenant !in d.buckets || d.buckets[tenant].routes.None? ==>
              StoredRoutes(d, tenant, blank) == if tenant == "default" && d.legacy.routes.Some? then d.legacy.routes.value else []
  {
  }

  function BucketOf(d: Disk, tenant: string): Bucket {
    if tenant in d.buckets then d.buckets[tenant] else EMPTY_BUCKET
  }

  function Ensured(d: Disk, tenant: string): Disk {
    d.(buckets := d.buckets[tenant := BucketOf(d, tenant)])
  }

  /** A tenant's blocks are written; the default tenant's older copy is dropped. */
  function WithBlocks(d: Disk, tenant: string, blocks: seq<Block>): Disk {
    Disk(d.buckets[tenant := BucketOf(d, tenant).(blocks := Some(blocks))],
         if tenant == DEFAULT_TENANT then d.legacy.(blocks := None) else d.legacy)
  }

  function WithRoutes(d: Disk, tenant: string, routes: Routes): Disk {
    Disk(d.buckets[tenant := BucketOf(d, tenant).(routes := Some(routes))],
         if tenant == DEFAULT_TENANT then d.legacy.(routes := None) else d.legacy)
  }

  class TenantStore {
    var disk: Disk

    constructor ()
      ensures disk == EMPTY_DISK
    {
      disk := EMPTY_DISK;
    }

    method EnsureTenant(tenant: string, blank: string -> bool) returns (ok: bool)
      modifies this
      ensures ok == !blank(tenant) && disk == if ok then Ensured(old(disk), tenant) else old(disk)
    {
      if blank(tenant) { return false; }
      if tenant !in disk.buckets {
        disk := disk.(buckets := disk.buckets[tenant := EMPTY_BUCKET]);
      }
      assert disk.buckets == Ensured(old(disk), tenant).buckets;
      ok := true;
    }

    method WriteBlocks(tenant: string, blocks: seq<Block>)
      modifies this
      ensures disk == WithBlocks(old(disk), tenant, blocks)
      ensures tenant in disk.buckets && disk.buckets[tenant].blocks == Some(blocks)
      ensures tenant == "default" ==> disk.legacy.blocks == None
      ensures forall t :: t != tenant ==> (t in disk.buckets <==> t in old(disk).buckets) &&
                                          (t in disk.buckets ==> disk.buckets[t] == old(disk).buckets[t])
    {
      disk := disk.(buckets := disk.buckets[tenant := BucketOf(disk, tenant).(blocks := Some(blocks))]);
      if tenant == DEFAULT_TENANT {
        disk := disk.(legacy := disk.legacy.(blocks := None));
      }
    }

    method WriteRoutes(tenant: string, routes: Routes)
      modifies this
      ensures disk == WithRoutes(old(disk), tenant, routes)
      ensures tenant in disk.buckets && disk.buckets[tenant].routes == Some(routes)
      ensures tenant == "default" ==> disk.legacy.routes == None
    {
      disk := disk.(buckets := disk.buckets[tenant := BucketOf(disk, tenant).(routes := Some(routes))]);
      if tenant == DEFAULT_TENANT {
        disk := disk.(legacy := disk.legacy.(routes := None));
      }
    }
  }

  // ----- loading

  /** When things happen on the way: the timestamps of the two genesis blocks that may be made,
      and the instant at which routes are pruned. */
  datatype Times = Times(first: string, second: string, now: int)

  /** The chain in memory after loading, given the blocks stored. */
  function LoadedChain(h: Hash, was: seq<Block>, times: Times): seq<Block> {
    if was == [] then [Genesis(h, times.first)]
    else if KeptPrefix(h, was) == [] then [Genesis(h, times.second)]
    else KeptPrefix(h, was)
  }

  /** The blocks in the store after loading. */
  function RepairedBlocks(h: Hash, was: seq<Block>, times: Times): seq<Block> {
    if was == [] then [Genesis(h, times.first)] else KeptPrefix(h, was)
  }

  function BlocksRepaired(h: Hash, d: Disk, tenant: string, blank: string -> bool, times: Times): Disk {
    var was := StoredBlocks(d, tenant, blank);
    if RepairedBlocks(h, was, times) == was then d else WithBlocks(d, tenant, RepairedBlocks(h, was, times))
  }

  function RoutesRepaired(d: Disk, tenant: string, blank: string -> bool, times: Times): Disk {
    var was := StoredRoutes(d, tenant, blank);
    var live := Routing.Unexpired(was, times.now);
    if |live| == |was| then d else WithRoutes(d, tenant, live)
  }

  /** Stored blocks are loaded as they are, and left as they are, if and only if the filter keeps
      them all; a well-formed chain is such a list. */
  lemma ReloadIsIdentity(h: Hash, was: seq<Block>, times: Times)
    requires was != []
    ensures LoadedChain(h, was, times) == was <==> Clean(h, was)
    ensures RepairedBlocks(h, was, times) == was <==> Clean(h, was)
    ensures WellFormed(h, was) ==> Clean(h, was)
  {
    CleanIsKept(h, was);
    if WellFormed(h, was) { CleanIsWellFormed(h, was); }
  }

  /** Whatever was stored with blocks numbered as the filter expects, the chain in memory is
      intact, and it is the longest intact prefix unless nothing of it was. */
  lemma RepairKeepsIntactPrefix(h: Hash, was: seq<Block>, times: Times)
    requires IndexShape(was)
    ensures Intact(h, LoadedChain(h, was, times))
    ensures was != [] ==> RepairedBlocks(h, was, times) == was[..FirstBad(h, was)]
    ensures was != [] && FirstBad(h, was) > 0 ==> LoadedChain(h, was, times) == RepairedBlocks(h, was, times)
  {
    ValidatorsAgree(h, was);
  }

  /** Memory and store hold the same chain after loading exactly when nothing was stored or
      the first stored block is kept; else memory has a new genesis block that no one wrote. */
  lemma InSyncIff(h: Hash, was: seq<Block>, times: Times)
    ensures LoadedChain(h, was, times) == RepairedBlocks(h, was, times) <==> was == [] || Kept(h, was, 0)
  {
    if was != [] && Kept(h, was, 0) { assert |KeptPrefix(h, was)| > 0; }
  }

  /** A stored first block whose hash is wrong: memory gets a new genesis block, the store none. */
  lemma BadFirstBlock(h: Hash, timestamp: string, times: Times)
    ensures var g := Genesis(h, timestamp);
            var was := [g.(hash := g.hash + "x")];
            LoadedChain(h, was, times) == [Genesis(h, times.second)] && RepairedBlocks(h, was, times) == []
  {
    var g := Genesis(h, timestamp);
    var was := [g.(hash := g.hash + "x")];
    assert !Kept(h, was, 0);
    KeptPrefixIs(h, was, 0);
  }

  // ----- the manager

  /** What a tenant is in memory. */
  datatype Cached = Cached(chain: seq<Block>, routes: Routes)

  datatype World = World(cache: map<string, Cached>, disk: Disk)

  /** The first operation on the store that fails while a tenant is loaded, if any. */
  datatype Fault = NoFault | AtEnsure | AtReadBlocks | AtWriteBlocks | AtReadRoutes | AtWriteRoutes

  /** A write of repaired blocks is called for. */
  predicate WritesBlocks(h: Hash, d: Disk, tenant: string, blank: string -> bool, times: Times) {
    RepairedBlocks(h, StoredBlocks(d, tenant, blank), times) != StoredBlocks(d, tenant, blank)
  }

  predicate WritesRoutes(d: Disk, tenant: string, blank: string -> bool, times: Times) {
    var was := StoredRoutes(d, tenant, blank);
    |Routing.Unexpired(was, times.now)| != |was|
  }

  /** A tenant's bucket is there: load it. An error leaves the cache as it was, and the store as
      it was by then. */
  function LoadedWorld(h: Hash, blank: string -> bool, w: World, tenant: string, times: Times, fault: Fault): World {
    var d := BlocksRepaired(h, w.disk, tenant, blank, times);
    if fault.AtReadBlocks? || (fault.AtWriteBlocks? && WritesBlocks(h, w.disk, tenant, blank, times)) then w
    else if fault.AtReadRoutes? || (fault.AtWriteRoutes? && WritesRoutes(d, tenant, blank, times)) then w.(disk := d)
    else
      World(w.cache[tenant := Cached(LoadedChain(h, StoredBlocks(w.disk, tenant, blank), times),
                                     Routing.Unexpired(StoredRoutes(d, tenant, blank), times.now))],
            RoutesRepaired(d, tenant, blank, times))
  }

  function DoGet(h: Hash, blank: string -> bool, w: World, tenant: string, times: Times, fault: Fault): World {
    if tenant in w.cache || blank(tenant) || fault.AtEnsure? then w
    else LoadedWorld(h, blank, w.(disk := Ensured(w.disk, tenant)), tenant, times, fault)
  }

  function DoAdd(h: Hash, w: World, tenant: string, transactions: seq<Transaction>, timestamp: string,
                 key: string, sign: (string, string) -> string): World {
    if tenant !in w.cache || w.cache[tenant].chain == [] then w
    else
      var c := w.cache[tenant];
      w.(cache := w.cache[tenant := c.(chain := c.chain + [Signed(NextBlock(h, c.chain, transactions, timestamp), key, sign)])])
  }

  function DoSave(w: World, tenant: string): World {
    if tenant in w.cache then w.(disk := WithBlocks(w.disk, tenant, w.cache[tenant].chain)) else w
  }

  datatype TenantState = TenantState(chain: Blockchain, router: Routing.Engine)

  class Manager {
    const h: Hash
    const store: TenantStore
    var tenants: map<string, TenantState>

    ghost function Objects(): set<object>
      reads this
    {
      (set t | t in tenants :: tenants[t].chain as object) + (set t | t in tenants :: tenants[t].router as object)
    }

    /** Cached chains use the manager's hash and are never empty, and no two tenants share one. */
    ghost predicate Valid()
      reads this, Objects()
    {
      && (forall t :: t in tenants ==> tenants[t].chain.h == h && tenants[t].chain.blocks != [])
      && (forall t, u :: t in tenants && u in tenants && t != u ==> tenants[t].chain != tenants[u].chain)
    }

    ghost function View(): World
      reads this, store, Objects()
    {
      World(map t | t in tenants :: Cached(tenants[t].chain.blocks, tenants[t].router.routes), store.disk)
    }

    constructor (h: Hash, store: TenantStore)
      ensures Valid() && this.h == h && this.store == store && tenants == map[]
      ensures View() == World(map[], store.disk)
    {
      this.h := h;
      this.store := store;
      tenants := map[];
    }

    /** A tenant's chain and routes, from the cache or else from the store; `None` is an error,
        for a blank name or a store operation that fails. */
    method GetTenant(tenant: string, blank: string -> bool, times: Times, fault: Fault) returns (r: Option<TenantState>)
      requires Valid()
      modifies this`tenants, store
      ensures Valid() && View() == DoGet(h, blank, old(View()), tenant, times, fault)
      ensures r.Some? <==> tenant in View().cache
      ensures r.Some? ==> tenant in tenants && r.value == tenants[tenant]
      ensures tenant in old(tenants) || r.None? ==> tenants == old(tenants)
      ensures fault.NoFault? ==> (r.None? <==> tenant !in old(tenants) && blank(tenant))
    {
      hide LoadedWorld, Ensured;
      if tenant in tenants { return Some(tenants[tenant]); }
      if fault.AtEnsure? { return None; }
      var ok := store.EnsureTenant(tenant, blank);
      assert View() == World(old(View()).cache, store.disk) && Valid();
      if !ok { return None; }
      hide Valid;
      r := LoadState(tenant, blank, times, fault);
    }

    /** Load what is not cached, and cache it. */
    method LoadState(tenant: string, blank: string -> bool, times: Times, fault: Fault) returns (r: Option<TenantState>)
      requires Valid() && tenant !in tenants
      modifies this`tenants, store
      ensures Valid() && (r.Some? <==> tenant in tenants) && (r.Some? ==> r.value == tenants[tenant])
      ensures fault.NoFault? ==> r.Some?
      ensures r.None? ==> tenants == old(tenants)
      ensures View() == LoadedWorld(h, blank, old(View()), tenant, times, fault)
    {
      hide BlocksRepaired, RoutesRepaired, LoadedChain, StoredBlocks, StoredRoutes, WritesBlocks, WritesRoutes, Routing.Unexpired;
      var chain := LoadChain(tenant, blank, times, fault);
      assert View() == World(old(View()).cache, store.disk);
      if chain.None? { return None; }
      var router := LoadRoutes(tenant, blank, times, fault);
      assert View() == World(old(View()).cache, store.disk);
      if router.None? { return None; }
      var state := TenantState(chain.value, router.value);
      Install(tenant, state);
      r := Some(state);
    }

    method Install(tenant: string, state: TenantState)
      requires Valid() && tenant !in tenants && state.chain.h == h && state.chain.blocks != []
      requires forall t :: t in tenants ==> tenants[t].chain != state.chain
      modifies this`tenants
      ensures Valid() && tenants == old(tenants)[tenant := state]
      ensures View() == World(old(View()).cache[tenant := Cached(state.chain.blocks, state.router.routes)], store.disk)
    {
      tenants := tenants[tenant := state];
    }

    /** Read the blocks, keep the valid ones, and repair the store. */
    method LoadChain(tenant: string, blank: string -> bool, times: Times, fault: Fault) returns (r: Option<Blockchain>)
      modifies store
      ensures r.None? <==> fault.AtReadBlocks? || (fault.AtWriteBlocks? && WritesBlocks(h, old(store.disk), tenant, blank, times))
      ensures r.None? ==> store.disk == old(store.disk)
      ensures r.Some? ==>
                && fresh(r.value) && r.value.h == h && r.value.blocks != []
                && r.value.blocks == LoadedChain(h, StoredBlocks(old(store.disk), tenant, blank), times)
                && store.disk == BlocksRepaired(h, old(store.disk), tenant, blank, times)
    {
      if fault.AtReadBlocks? { return None; }
      var blocks := StoredBlocks(store.disk, tenant, blank);
      var chain := new Blockchain(h, times.first);
      if |blocks| > 0 {
        var valid := FilterValidBlocks(h, blocks);
        chain.Load(valid, times.second);
        if |valid| != |blocks| {
          if fault.AtWriteBlocks? { return None; }
          store.WriteBlocks(tenant, valid);
        }
      } else {
        if fault.AtWriteBlocks? { return None; }
        store.WriteBlocks(tenant, chain.blocks);
      }
      r := Some(chain);
    }

    /** Read the routes, keep the live ones, and repair the store. */
    method LoadRoutes(tenant: string, blank: string -> bool, times: Times, fault: Fault) returns (r: Option<Routing.Engine>)
      modifies store
      ensures r.None? <==> fault.AtReadRoutes? || (fault.AtWriteRoutes? && WritesRoutes(old(store.disk), tenant, blank, times))
      ensures r.None? ==> store.disk == old(store.disk)
      ensures r.Some? ==>
                && fresh(r.value) && r.value.routes == Routing.Unexpired(StoredRoutes(old(store.disk), tenant, blank), times.now)
                && store.disk == RoutesRepaired(old(store.disk), tenant, blank, times)
    {
      if fault.AtReadRoutes? { return None; }
      var routes := StoredRoutes(store.disk, tenant, blank);
      var router := new Routing.Engine();
      if |routes| > 0 {
        var pruned := Routing.PruneRoutes(routes, times.now);
        router.Load(pruned);
        if |pruned| != |routes| {
          if fault.AtWriteRoutes? { return None; }
          store.WriteRoutes(tenant, pruned);
        }
      }
      r := Some(router);
    }

    /** Add a block to a tenant's chain in memory. */
    method AddTransactions(tenant: string, transactions: seq<Transaction>, timestamp: string,
                           key: string, sign: (string, string) -> string)
      requires Valid() && tenant in tenants
      modifies tenants[tenant].chain
      ensures Valid() && View() == DoAdd(h, old(View()), tenant, transactions, timestamp, key, sign)
    {
      var chain := tenants[tenant].chain;
      var _ := chain.AddSignedBlock(transactions, timestamp, key, sign);
      assert View().cache == DoAdd(h, old(View()), tenant, transactions, timestamp, key, sign).cache;
    }

    /** Write a tenant's chain to the store. */
    method SaveChain(tenant: string)
      requires Valid() && tenant in tenants
      modifies store
      ensures Valid() && View() == DoSave(old(View()), tenant)
    {
      store.WriteBlocks(tenant, tenants[tenant].chain.blocks);
      assert View().cache == old(View()).cache;
    }
  }

  /** A restart: save a tenant's chain, drop the cache, and load it again. A chain the filter
      keeps comes back unchanged, whatever was in the store before. */
  method SaveAndRestart(mgr: Manager, tenant: string, blank: string -> bool, times: Times) returns (mgr': Manager)
    requires mgr.Valid() && tenant in mgr.tenants && !blank(tenant) && Clean(mgr.h, mgr.tenants[tenant].chain.blocks)
    modifies mgr.store
    ensures mgr'.Valid() && tenant in mgr'.tenants
    ensures mgr'.tenants[tenant].chain.blocks == old(mgr.tenants[tenant].chain.blocks)
  {
    ghost var blocks := mgr.tenants[tenant].chain.blocks;
    mgr.SaveChain(tenant);
    SavedIsLoaded(mgr.h, blank, mgr.View(), tenant, blocks, times);
    hide DoGet, StoredBlocks, Clean;
    mgr' := new Manager(mgr.h, mgr.store);
    var r := mgr'.GetTenant(tenant, blank, times, NoFault);
    assert mgr'.View().cache[tenant].chain == blocks;
  }

  lemma SavedIsLoaded(h: Hash, blank: string -> bool, w: World, tenant: string, blocks: seq<Block>, times: Times)
    requires !blank(tenant) && Clean(h, blocks) && StoredBlocks(w.disk, tenant, blank) == blocks
    ensures var w' := DoGet(h, blank, World(map[], w.disk), tenant, times, NoFault);
            tenant in w'.cache && w'.cache[tenant].chain == blocks
  {
    ReloadIsIdentity(h, blocks, times);
    hide LoadedChain, RepairedBlocks, Clean, RoutesRepaired, BlocksRepaired;
  }
}
