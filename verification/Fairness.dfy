/**
 What weighted round-robin promises over many calls, and what one call through the
 circuit breakers can do to them.
 */
module Fairness {
  import opened Options
  import opened Ids
  import Circuit
  import opened Dispatch
  import opened Modular

  // ----- shares

  function WeightOf(ms: seq<Member>, id: string): nat {
    if ms == [] then 0
    else (if ms[0].agentID == id then MemberWeight(ms[0].weight) else 0) + WeightOf(ms[1..], id)
  }

  lemma {:induction false} WeightOfAbsent(ms: seq<Member>, id: string)
    requires forall i :: 0 <= i < |ms| ==> ms[i].agentID != id
    ensures WeightOf(ms, id) == 0
  {
    if ms != [] { WeightOfAbsent(ms[1..], id); }
  }

  /** Distinct members' shares are their own weights. */
  lemma {:induction false} WeightOfMember(ms: seq<Member>, k: nat)
    requires Distinct(ms) && k < |ms|
    ensures WeightOf(ms, ms[k].agentID) == if ms[k].weight > 0 then ms[k].weight else 1
  {
    if k == 0 {
      WeightOfAbsent(ms[1..], ms[0].agentID);
    } else {
      assert ms[1..][k - 1] == ms[k];
      WeightOfMember(ms[1..], k - 1);
    }
  }

  // The same in the members' own weights: one that is not positive counts as one.

  function SumOfWeights(ms: seq<Member>): nat {
    if ms == [] then 0 else (if ms[0].weight > 0 then ms[0].weight else 1) + SumOfWeights(ms[1..])
  }

  /** The slots in all are the sum of the weights, and a member's slots are those between the sum
      of the weights before it and that sum with its own. */
  lemma {:induction false} OwnerInWeights(ms: seq<Member>, k: nat, slot: nat)
    ensures Total(ms) == SumOfWeights(ms)
    ensures k < |ms| && SumOfWeights(ms[..k]) <= slot < SumOfWeights(ms[..k + 1]) ==>
              slot < Total(ms) && Owner(ms, slot) == ms[k].agentID
  {
    if ms != [] {
      var w := MemberWeight(ms[0].weight);
      if k == 0 {
        OwnerInWeights(ms[1..], 0, 0);
        assert ms[..1][1..] == [];
      } else if k < |ms| {
        assert ms[..k][1..] == ms[1..][..k - 1] && ms[..k + 1][1..] == ms[1..][..k];
        assert SumOfWeights(ms[..k]) == w + SumOfWeights(ms[1..][..k - 1]);
        assert SumOfWeights(ms[..k + 1]) == w + SumOfWeights(ms[1..][..k]);
        OwnerInWeights(ms[1..], k - 1, if slot >= w then slot - w else 0);
      } else {
        OwnerInWeights(ms[1..], k, 0);
      }
    }
  }

  /** Slots below `m` that `id` owns. */
  function SlotsOf(ms: seq<Member>, id: string, m: nat): nat
    requires m <= Total(ms)
  {
    if m == 0 then 0 else SlotsOf(ms, id, m - 1) + if Owner(ms, m - 1) == id then 1 else 0
  }

  lemma {:induction false} SlotsOfFirst(ms: seq<Member>, id: string, m: nat)
    requires ms != [] && m <= MemberWeight(ms[0].weight)
    ensures SlotsOf(ms, id, m) == if ms[0].agentID == id then m else 0
  {
    if m > 0 { SlotsOfFirst(ms, id, m - 1); }
  }

  lemma {:induction false} SlotsOfRest(ms: seq<Member>, id: string, m: nat)
    requires ms != [] && m <= Total(ms[1..])
    ensures var w := MemberWeight(ms[0].weight);
            SlotsOf(ms, id, w + m) == SlotsOf(ms, id, w) + SlotsOf(ms[1..], id, m)
  {
    if m > 0 { SlotsOfRest(ms, id, m - 1); }
  }

  /** Over all slots, every id owns as many as its weight. */
  lemma {:induction false} SlotsOfAll(ms: seq<Member>, id: string)
    ensures SlotsOf(ms, id, Total(ms)) == WeightOf(ms, id)
  {
    if ms != [] {
      SlotsOfFirst(ms, id, MemberWeight(ms[0].weight));
      SlotsOfRest(ms, id, Total(ms[1..]));
      SlotsOfAll(ms[1..], id);
    }
  }

  // ----- counting over consecutive calls

  function Pick(ms: seq<Member>, counter: nat): string
    requires ms != []
  {
    Owner(ms, counter % Total(ms))
  }

  /** How many of the `m` calls from counter `c` on pick `id`. */
  function Picks(ms: seq<Member>, id: string, c: nat, m: nat): nat
    requires ms != []
    decreases m
  {
    if m == 0 then 0 else Picks(ms, id, c, m - 1) + if Pick(ms, c + m - 1) == id then 1 else 0
  }

  lemma {:induction false} PicksSplit(ms: seq<Member>, id: string, c: nat, a: nat, b: nat)
    requires ms != []
    ensures Picks(ms, id, c, a + b) == Picks(ms, id, c, a) + Picks(ms, id, c + a, b)
    decreases b
  {
    if b > 0 {
      PicksSplit(ms, id, c, a, b - 1);
      assert c + (a + b) - 1 == (c + a) + b - 1;
    }
  }

  lemma {:induction false} PicksFromZero(ms: seq<Member>, id: string, m: nat)
    requires ms != [] && m <= Total(ms)
    ensures Picks(ms, id, 0, m) == SlotsOf(ms, id, m)
  {
    if m > 0 {
      PicksFromZero(ms, id, m - 1);
      ModUnique(m - 1, 0, m - 1, Total(ms));
    }
  }

  /** Sliding a full window by one call changes nothing: the call that leaves and the one
      that enters fall on the same slot. */
  lemma {:induction false} WindowSlides(ms: seq<Member>, id: string, c: nat)
    requires ms != []
    ensures Picks(ms, id, c, Total(ms)) == Picks(ms, id, 0, Total(ms))
    decreases c
  {
    if c > 0 {
      var w := Total(ms);
      WindowSlides(ms, id, c - 1);
      PicksSplit(ms, id, c - 1, 1, w);
      PicksSplit(ms, id, c - 1, w, 1);
      assert Picks(ms, id, c - 1, 1) == Picks(ms, id, c - 1, 0) + if Pick(ms, c - 1) == id then 1 else 0;
      assert Picks(ms, id, c - 1 + w, 1) == Picks(ms, id, c - 1 + w, 0) + if Pick(ms, c - 1 + w) == id then 1 else 0;
      ModShift(c - 1, w);
    }
  }

  /** Any full window of consecutive calls picks every id exactly its weight times. */
  lemma {:induction false} WindowIsFair(ms: seq<Member>, id: string, c: nat)
    requires ms != []
    ensures Picks(ms, id, c, Total(ms)) == WeightOf(ms, id)
  {
    WindowSlides(ms, id, c);
    PicksFromZero(ms, id, Total(ms));
    SlotsOfAll(ms, id);
  }

  lemma {:induction false} WholeWindows(ms: seq<Member>, id: string, c: nat, q: nat)
    requires ms != []
    ensures Picks(ms, id, c, q * Total(ms)) == q * WeightOf(ms, id)
    decreases q
  {
    if q > 0 {
      var w := Total(ms);
      WholeWindows(ms, id, c, q - 1);
      assert q * w == (q - 1) * w + w;
      PicksSplit(ms, id, c, (q - 1) * w, w);
      WindowIsFair(ms, id, c + (q - 1) * w);
      assert q * WeightOf(ms, id) == (q - 1) * WeightOf(ms, id) + WeightOf(ms, id);
    }
  }

  /** Over any number `m = q * Total + r` of calls, every id's count lies between its share of
      the `q` whole windows and its share of the windows begun: floor and ceiling of
      `m / Total`, times its weight. */
  lemma {:induction false} CountsAreBounded(ms: seq<Member>, id: string, c: nat, q: nat, r: nat)
    requires ms != [] && r < Total(ms)
    ensures q * WeightOf(ms, id) <= Picks(ms, id, c, q * Total(ms) + r)
    ensures Picks(ms, id, c, q * Total(ms) + r) <= q * WeightOf(ms, id) + if r == 0 then 0 else WeightOf(ms, id)
  {
    hide Picks, Total, WeightOf;
    var k := q * Total(ms);
    WholeWindows(ms, id, c, q);
    PicksSplit(ms, id, c, k, r);
    PicksSplit(ms, id, c + k, r, Total(ms) - r);
    WindowIsFair(ms, id, c + k);
  }

  /** In the members' own weights: as many consecutive calls as the sum of the weights pick each
      member as often as its weight says; and over any `m` calls its count lies between its weight
      times the floor and the ceiling of `m` over that sum. */
  lemma {:induction false} FairInWeights(ms: seq<Member>, k: nat, c: nat, m: nat)
    requires Distinct(ms) && k < |ms|
    ensures var weight, sum := if ms[k].weight > 0 then ms[k].weight else 1, SumOfWeights(ms);
            && sum > 0
            && Picks(ms, ms[k].agentID, c, sum) == weight
            && (m / sum) * weight <= Picks(ms, ms[k].agentID, c, m) <= (m / sum) * weight + if m % sum == 0 then 0 else weight
  {
    var sum := SumOfWeights(ms);
    OwnerInWeights(ms, 0, 0);
    WeightOfMember(ms, k);
    assert sum > 0;
    WindowIsFair(ms, ms[k].agentID, c);
    hide Picks, Total, WeightOf, SumOfWeights;
    DivMod(m, sum);
    CountsAreBounded(ms, ms[k].agentID, c, m / sum, m % sum);
  }

  lemma DivMod(m: nat, n: nat)
    requires n > 0
    ensures m == (m / n) * n + m % n && m % n < n
  {
  }

  /** With named members and no filter the first attempt is the answer. */
  lemma UnfilteredAnswer(ms: seq<Member>, start: nat, r: Option<string>, clock: nat -> int)
    requires ms != [] && Named(ms) && start < UINT64_LIMIT
    requires Answered(ms, start, r, clock, None, None)
    ensures r == Some(Pick(ms, start))
  {
    OwnerIsMember(ms, Slot(start, 0, Total(ms)));
    assert Admitted(ms, start, 0, None, clock);
  }

  lemma {:induction false} OwnerIsMember(ms: seq<Member>, slot: nat)
    requires slot < Total(ms)
    ensures exists k :: 0 <= k < |ms| && ms[k].agentID == Owner(ms, slot)
  {
    var w := MemberWeight(ms[0].weight);
    if slot >= w {
      OwnerIsMember(ms[1..], slot - w);
      var k :| 0 <= k < |ms[1..]| && ms[1..][k].agentID == Owner(ms[1..], slot - w);
      assert ms[k + 1].agentID == Owner(ms, slot);
    }
  }

  // ----- windows in which the 64-bit counter wraps around

  /** How many of the `m` calls from counter `c` on pick `id`, the counter taken in 64 bits. */
  function WrappedPicks(ms: seq<Member>, id: string, c: nat, m: nat): nat
    requires ms != []
    decreases m
  {
    if m == 0 then 0
    else WrappedPicks(ms, id, c, m - 1) + if Pick(ms, (c + m - 1) % UINT64_LIMIT) == id then 1 else 0
  }

  ghost predicate AlwaysFair(ms: seq<Member>)
    requires ms != []
  {
    forall c: nat, id :: c < UINT64_LIMIT ==> WrappedPicks(ms, id, c, Total(ms)) == WeightOf(ms, id)
  }

  lemma BelowLimit(x: nat)
    requires x < UINT64_LIMIT
    ensures x % UINT64_LIMIT == x
  {
  }

  lemma PastLimit(x: nat)
    requires x < UINT64_LIMIT
    ensures (UINT64_LIMIT + x) % UINT64_LIMIT == x
  {
  }

  lemma {:induction false} BeforeWrap(ms: seq<Member>, id: string, c: nat, m: nat)
    requires ms != [] && c + m <= UINT64_LIMIT
    ensures WrappedPicks(ms, id, c, m) == Picks(ms, id, c, m)
    decreases m
  {
    hide Pick, Total, Owner;
    if m > 0 {
      BeforeWrap(ms, id, c, m - 1);
      BelowLimit(c + m - 1);
    }
  }

  /** The multiset of what was picked is what the counting function counts. */
  lemma {:induction false} PickedIsCounted(ms: seq<Member>, c: nat, picked: seq<string>, id: string)
    requires ms != [] && forall k :: 0 <= k < |picked| ==> picked[k] == Pick(ms, (c + k) % UINT64_LIMIT)
    ensures multiset(picked)[id] == WrappedPicks(ms, id, c, |picked|)
    decreases |picked|
  {
    hide Pick, Total, Owner;
    if picked != [] {
      var n := |picked| - 1;
      assert picked == picked[..n] + [picked[n]];
      PickedIsCounted(ms, c, picked[..n], id);
    }
  }

  method OneCall(mgr: Manager, tenant: string, groupID: string, clock: nat -> int) returns (id: string)
    requires mgr.Valid() && mgr.Owns(tenant, groupID)
    requires mgr.groups[groupID].members != [] && Named(mgr.groups[groupID].members)
    modifies mgr
    ensures mgr.Valid() && mgr.groups == old(mgr.groups)
    ensures groupID in mgr.rrIndex && mgr.rrIndex[groupID] == (old(mgr.rrIndex)[groupID] + 1) % UINT64_LIMIT
    ensures id == Pick(mgr.groups[groupID].members, old(mgr.rrIndex)[groupID])
  {
    hide Answered, Pick, Named;
    var r := mgr.Next(tenant, groupID, null, _ => [], clock);
    UnfilteredAnswer(mgr.groups[groupID].members, old(mgr.rrIndex)[groupID], r, clock);
    id := r.value;
  }

  lemma WrapsOn(c: nat, i: nat)
    ensures ((c + i) % UINT64_LIMIT + 1) % UINT64_LIMIT == (c + i + 1) % UINT64_LIMIT
  {
  }

  /** `m` consecutive unfiltered calls on a group of named members, across the wrap of the counter
      or not: each id is returned as often as the counting says. */
  method ConsecutiveCalls(mgr: Manager, tenant: string, groupID: string, m: nat, clock: nat -> int)
    returns (picked: seq<string>)
    requires mgr.Valid() && mgr.Owns(tenant, groupID)
    requires mgr.groups[groupID].members != [] && Named(mgr.groups[groupID].members)
    modifies mgr
    ensures mgr.Valid() && mgr.groups == old(mgr.groups) && |picked| == m
    ensures var ms, c := mgr.groups[groupID].members, old(mgr.rrIndex)[groupID];
            && (forall id :: multiset(picked)[id] == WrappedPicks(ms, id, c, m))
            && (c + m <= UINT64_LIMIT ==> forall id :: multiset(picked)[id] == Picks(ms, id, c, m))
            && (c + m <= UINT64_LIMIT && m == SumOfWeights(ms) ==>
                  forall k :: 0 <= k < |ms| ==> multiset(picked)[ms[k].agentID] == ms[k].weight)
  {
    picked := [];
    hide Picks, WrappedPicks, Pick, Named, Total;
    ghost var ms, c := mgr.groups[groupID].members, mgr.rrIndex[groupID];
    BelowLimit(c);
    for i := 0 to m
      invariant mgr.Valid() && mgr.groups == old(mgr.groups)
      invariant groupID in mgr.rrIndex && mgr.rrIndex[groupID] == (c + i) % UINT64_LIMIT
      invariant |picked| == i
      invariant forall k :: 0 <= k < i ==> picked[k] == Pick(ms, (c + k) % UINT64_LIMIT)
    {
      WrapsOn(c, i);
      var id := OneCall(mgr, tenant, groupID, clock);
      picked := picked + [id];
    }
    forall id ensures multiset(picked)[id] == WrappedPicks(ms, id, c, m) {
      PickedIsCounted(ms, c, picked, id);
    }
    if c + m <= UINT64_LIMIT {
      forall id ensures multiset(picked)[id] == Picks(ms, id, c, m) {
        BeforeWrap(ms, id, c, m);
      }
      FairShares(mgr, groupID, c, m);
    }
  }

  /** A valid group's members are distinct and have positive weights. */
  lemma FairShares(mgr: Manager, groupID: string, c: nat, m: nat)
    requires mgr.Valid() && groupID in mgr.groups && mgr.groups[groupID].members != []
    ensures var ms := mgr.groups[groupID].members;
            m == SumOfWeights(ms) ==> forall k :: 0 <= k < |ms| ==> Picks(ms, ms[k].agentID, c, m) == ms[k].weight
  {
    var ms := mgr.groups[groupID].members;
    if m == SumOfWeights(ms) {
      forall k | 0 <= k < |ms| ensures Picks(ms, ms[k].agentID, c, m) == ms[k].weight {
        FairInWeights(ms, k, c, m);
      }
    }
  }

  lemma {:induction false} AcrossWrap(ms: seq<Member>, id: string, a: nat, b: nat)
    requires ms != [] && a <= UINT64_LIMIT && b <= UINT64_LIMIT
    ensures WrappedPicks(ms, id, UINT64_LIMIT - a, a + b) == Picks(ms, id, UINT64_LIMIT - a, a) + Picks(ms, id, 0, b)
    decreases b
  {
    hide Pick, Total, Owner;
    if b == 0 {
      BeforeWrap(ms, id, UINT64_LIMIT - a, a);
    } else {
      AcrossWrap(ms, id, a, b - 1);
      PastLimit(b - 1);
      assert UINT64_LIMIT - a + (a + b) - 1 == UINT64_LIMIT + (b - 1);
    }
  }

  lemma {:induction false} NeverPicked(ms: seq<Member>, id: string, c: nat, m: nat, i: nat)
    requires ms != [] && i < m && Pick(ms, c + i) != id
    ensures Picks(ms, id, c, m) < m
  {
    PicksAtMost(ms, id, c, i);
    PicksSplit(ms, id, c, i, m - i);
    PicksSplit(ms, id, c + i, 1, m - i - 1);
    assert Picks(ms, id, c + i, 1) == Picks(ms, id, c + i, 0) + if Pick(ms, c + i) == id then 1 else 0;
    PicksAtMost(ms, id, c + i + 1, m - i - 1);
  }

  lemma {:induction false} PicksAtMost(ms: seq<Member>, id: string, c: nat, m: nat)
    requires ms != []
    ensures Picks(ms, id, c, m) <= m
    decreases m
  {
    if m > 0 { PicksAtMost(ms, id, c, m - 1); }
  }

  /** The last member owns exactly the last slots. */
  lemma {:induction false} LastBlock(ms: seq<Member>)
    requires Distinct(ms) && ms != []
    ensures var last := ms[|ms| - 1];
            var w := MemberWeight(last.weight);
            && w <= Total(ms) && (|ms| >= 2 ==> w < Total(ms))
            && forall slot :: 0 <= slot < Total(ms) ==>
                 (Owner(ms, slot) == last.agentID <==> Total(ms) - w <= slot)
  {
    if |ms| == 1 {
      assert ms[1..] == [];
    } else {
      LastBlock(ms[1..]);
      var last := ms[|ms| - 1];
      assert ms[1..][|ms| - 2] == last;
      var w0 := MemberWeight(ms[0].weight);
      forall slot | 0 <= slot < Total(ms)
        ensures Owner(ms, slot) == last.agentID <==> Total(ms) - MemberWeight(last.weight) <= slot
      {
        if slot >= w0 { assert Owner(ms, slot) == Owner(ms[1..], slot - w0); }
      }
    }
  }

  lemma {:induction false} NoPicksBefore(ms: seq<Member>, id: string, m: nat)
    requires ms != [] && m <= Total(ms) && forall slot :: 0 <= slot < m ==> Owner(ms, slot) != id
    ensures Picks(ms, id, 0, m) == 0
  {
    if m > 0 {
      NoPicksBefore(ms, id, m - 1);
      ModUnique(m - 1, 0, m - 1, Total(ms));
    }
  }

  /** Of the calls just before a misaligned wrap, as many as the last member's weight, one
      does not fall into the last member's block. */
  lemma MissedBeforeWrap(n: nat, w: nat) returns (i: nat)
    requires 0 < w < n <= UINT64_LIMIT && UINT64_LIMIT % n != 0
    ensures i < w && (UINT64_LIMIT - w + i) % n < n - w
  {
    var q, r := UINT64_LIMIT / n, UINT64_LIMIT % n;
    assert UINT64_LIMIT == q * n + r;
    if r - 1 < n - w {
      i := w - 1;
      ModUnique(UINT64_LIMIT - w + i, q, r - 1, n);
    } else if r >= w {
      i := 0;
      ModUnique(UINT64_LIMIT - w, q, r - w, n);
    } else {
      i := w - r;
      ModUnique(UINT64_LIMIT - r, q, 0, n);
    }
  }

  /** Exactly when the promise survives the wrap of the 64-bit counter: the total weight
      divides 2^64, or there is only one member. */
  lemma {:induction false} FairAcrossWrapIff(ms: seq<Member>)
    requires Distinct(ms) && ms != [] && Total(ms) <= UINT64_LIMIT
    ensures AlwaysFair(ms) <==> UINT64_LIMIT % Total(ms) == 0 || |ms| == 1
  {
    hide AlwaysFair;
    if UINT64_LIMIT % Total(ms) == 0 || |ms| == 1 {
      AlignedIsFair(ms);
    } else {
      MisalignedIsUnfair(ms);
    }
  }

  /** Three members of weight 1 are enough. */
  lemma ThreeAreUnfair(ms: seq<Member>)
    requires |ms| == 3 && Distinct(ms) && ms[0].weight == ms[1].weight == ms[2].weight == 1
    ensures !AlwaysFair(ms)
  {
    hide AlwaysFair;
    assert Total(ms) == 3 by {
      assert ms[1..][1..] == ms[2..] && ms[2..][1..] == [];
      assert ms[2..][0] == ms[2] && Total(ms[2..]) == 1;
      assert ms[1..][0] == ms[1] && Total(ms[1..]) == 2;
    }
    FairAcrossWrapIff(ms);
  }

  lemma {:induction false} AlignedIsFair(ms: seq<Member>)
    requires ms != [] && (UINT64_LIMIT % Total(ms) == 0 || |ms| == 1)
    ensures AlwaysFair(ms)
  {
    hide Total, Picks, WrappedPicks, WeightOf;
    forall c: nat, id | c < UINT64_LIMIT ensures WrappedPicks(ms, id, c, Total(ms)) == WeightOf(ms, id) {
      AlignedWrap(ms, id, c, Total(ms));
      WindowIsFair(ms, id, c);
    }
  }

  lemma {:induction false} MisalignedIsUnfair(ms: seq<Member>)
    requires Distinct(ms) && |ms| >= 2 && Total(ms) <= UINT64_LIMIT && UINT64_LIMIT % Total(ms) != 0
    ensures !AlwaysFair(ms)
  {
    hide Total, Picks, WrappedPicks, WeightOf, Distinct;
    var last := ms[|ms| - 1];
    var w := MemberWeight(last.weight);
    LastBlock(ms);
    WeightOfMember(ms, |ms| - 1);
    var c := UINT64_LIMIT - w;
    var i := MissedBeforeWrap(Total(ms), w);
    NeverPicked(ms, last.agentID, c, w, i);
    AcrossWrap(ms, last.agentID, w, Total(ms) - w);
    NoPicksBefore(ms, last.agentID, Total(ms) - w);
    assert WrappedPicks(ms, last.agentID, c, Total(ms)) < WeightOf(ms, last.agentID);
  }

  lemma {:induction false} AlignedWrap(ms: seq<Member>, id: string, c: nat, m: nat)
    requires ms != [] && (UINT64_LIMIT % Total(ms) == 0 || |ms| == 1)
    ensures WrappedPicks(ms, id, c, m) == Picks(ms, id, c, m)
    decreases m
  {
    if m > 0 {
      AlignedWrap(ms, id, c, m - 1);
      SamePick(ms, c + m - 1);
      hide Pick;
    }
  }

  lemma SamePick(ms: seq<Member>, x: nat)
    requires ms != [] && (UINT64_LIMIT % Total(ms) == 0 || |ms| == 1)
    ensures Pick(ms, x % UINT64_LIMIT) == Pick(ms, x)
  {
    if |ms| == 1 {
      assert ms[1..] == [] && Total(ms[1..]) == 0;
      assert forall slot :: 0 <= slot < Total(ms) ==> Owner(ms, slot) == ms[0].agentID;
    } else {
      ModOfMod(x, Total(ms));
    }
  }

  lemma ModOfMod(x: nat, n: nat)
    requires n > 0 && UINT64_LIMIT % n == 0
    ensures (x % UINT64_LIMIT) % n == x % n
  {
    var k, q, y := UINT64_LIMIT / n, x / UINT64_LIMIT, x % UINT64_LIMIT;
    assert UINT64_LIMIT == k * n;
    assert x == q * UINT64_LIMIT + y == q * (k * n) + y;
    var a, r := y / n, y % n;
    assert y == a * n + r;
    Regroup(q, k, n, a);
    ModUnique(x, q * k + a, r, n);
  }

  lemma Regroup(q: nat, k: nat, n: nat, a: nat)
    ensures q * (k * n) + a * n == (q * k + a) * n
  {
  }

  // ----- one call through the breakers

  predicate SameBreaker(a: Circuit.Breakers, b: Circuit.Breakers, agent: string) {
    (agent in a <==> agent in b) && (agent in a && agent in b ==> a[agent] == b[agent])
  }

  /** Whatever others do meanwhile, the call itself changes no breaker other than the returned
      agent's: up to that one, the breakers are what others made them. A breaker it moves from
      open to half open is the returned agent's. */
  lemma OnlyReturnedBreakerChanges(ms: seq<Member>, start: nat, r: Option<string>, clock: nat -> int,
                                   f: Asked, after: Circuit.Breakers) returns (m: nat)
    requires Answered(ms, start, r, clock, Some(f), Some(after))
    ensures m <= Total(ms)
    ensures forall agent :: r != Some(agent) ==> SameBreaker(Upto(f, m), after, agent)
    ensures forall agent :: agent in Upto(f, m) && agent in after && Upto(f, m)[agent].state.Open? && after[agent].state.HalfOpen?
              ==> r == Some(agent)
  {
    match r
    case None => m := Total(ms);
    case Some(id) =>
      var i: nat :| FirstAdmitted(ms, start, i, Some(f), clock) && id == Owner(ms, Slot(start, i, Total(ms))) &&
               after == Circuit.Apply(f.cfg, Seen(f, i), Circuit.Call(Circuit.Admission, id, clock(i)));
      m := i + 1;
      hide Upto;
  }

  /** When nobody else calls, the breakers each attempt meets are those the call began with. */
  lemma {:induction false} QuietIsUnchanged(f: Asked, i: nat)
    requires forall k: nat :: f.others(k) == []
    ensures Upto(f, i) == f.breakers
  {
    if i > 0 { QuietIsUnchanged(f, i - 1); }
  }

  /** What others do before the first `i` attempts. */
  function OthersUpto(others: nat -> seq<Circuit.Call>, i: nat): seq<Circuit.Call> {
    if i == 0 then [] else OthersUpto(others, i - 1) + others(i - 1)
  }

  /** Breakers that came about by a history of calls still do at every attempt. */
  lemma {:induction false} UptoIsAfter(f: Asked, calls: seq<Circuit.Call>, i: nat)
    requires f.breakers == Circuit.After(f.cfg, calls)
    ensures Upto(f, i) == Circuit.After(f.cfg, calls + OthersUpto(f.others, i))
  {
    hide Circuit.After, Circuit.Continue;
    if i == 0 {
      assert calls + [] == calls;
    } else {
      var before, more := OthersUpto(f.others, i - 1), f.others(i - 1);
      UptoIsAfter(f, calls, i - 1);
      Circuit.AfterMore(f.cfg, calls + before, more);
      assert calls + before + more == calls + (before + more);
    }
  }

  // A call makes one attempt per slot. Its attempts reach every slot unless the 64-bit sum
  // wraps around half way and the wrap does not fall on a slot boundary.

  ghost predicate ReachesAll(start: nat, n: nat)
    requires n > 0
  {
    forall slot :: 0 <= slot < n ==> Reaches(start, n, slot)
  }

  ghost predicate Reaches(start: nat, n: nat, slot: nat)
    requires n > 0
  {
    exists i :: 0 <= i < n && Slot(start, i, n) == slot
  }

  /** Exactly when a call tries every slot. */
  lemma EverySlotReachedIff(start: nat, n: nat)
    requires 0 < n <= UINT64_LIMIT && start < UINT64_LIMIT
    ensures ReachesAll(start, n) <==> start + n <= UINT64_LIMIT || UINT64_LIMIT % n == 0
  {
    if start + n <= UINT64_LIMIT || UINT64_LIMIT % n == 0 {
      forall slot | 0 <= slot < n ensures Reaches(start, n, slot) {
        var i := SlotIsReached(start, n, slot);
      }
    } else {
      var slot := MissedSlot(start, n);
      assert !Reaches(start, n, slot);
    }
  }

  /** The attempt at which a call reaches a given slot. */
  lemma SlotIsReached(start: nat, n: nat, slot: nat) returns (i: nat)
    requires n > 0 && slot < n && (start + n <= UINT64_LIMIT || UINT64_LIMIT % n == 0)
    ensures i < n && Slot(start, i, n) == slot
  {
    i := ResidueIsReached(start, n, slot);
    if UINT64_LIMIT % n == 0 { ModOfMod(start + i, n); } else { BelowLimit(start + i); }
  }

  lemma ResidueIsReached(start: nat, n: nat, slot: nat) returns (i: nat)
    requires slot < n
    ensures i < n && (start + i) % n == slot
  {
    var s := start % n;
    var q := start / n;
    assert start == q * n + s;
    if s <= slot {
      i := slot - s;
      ModUnique(start + i, q, slot, n);
    } else {
      i := slot + n - s;
      assert (q + 1) * n == q * n + n;
      assert start + i == (q + 1) * n + slot;
      ModUnique(start + i, q + 1, slot, n);
    }
  }

  /** A slot that no attempt reaches when the sum wraps off a slot boundary. */
  lemma MissedSlot(start: nat, n: nat) returns (slot: nat)
    requires 0 < n <= UINT64_LIMIT && start < UINT64_LIMIT < start + n && UINT64_LIMIT % n != 0
    ensures slot < n && forall i :: 0 <= i < n ==> Slot(start, i, n) != slot
  {
    var a, r := UINT64_LIMIT - start, UINT64_LIMIT % n;
    slot := if a <= r then n - 1 else n - a + r - 1;
    forall i | 0 <= i < n ensures Slot(start, i, n) != slot {
      if i < a {
        BelowLimit(start + i);
        BeforeWrapSlot(a, r, i, n);
      } else {
        PastLimit(i - a);
        assert start + i == UINT64_LIMIT + (i - a);
        ModUnique(i - a, 0, i - a, n);
      }
    }
  }

  lemma BeforeWrapSlot(a: nat, r: nat, i: nat, n: nat)
    requires i < a < n <= UINT64_LIMIT && r == UINT64_LIMIT % n
    ensures (UINT64_LIMIT - a + i) % n == if a <= r + i then r + i - a else r + i - a + n
  {
    var q := UINT64_LIMIT / n;
    assert UINT64_LIMIT == q * n + r;
    if a <= r + i {
      ModUnique(UINT64_LIMIT - a + i, q, r + i - a, n);
    } else {
      assert q * n == (q - 1) * n + n;
      ModUnique(UINT64_LIMIT - a + i, q - 1, r + i - a + n, n);
    }
  }

  lemma {:induction false} MemberHasSlot(ms: seq<Member>, k: nat) returns (slot: nat)
    requires k < |ms|
    ensures slot < Total(ms) && Owner(ms, slot) == ms[k].agentID
  {
    if k == 0 {
      slot := 0;
    } else {
      slot := MemberHasSlot(ms[1..], k - 1);
      assert ms[1..][k - 1] == ms[k];
      slot := slot + MemberWeight(ms[0].weight);
    }
  }

  /** The breaker refuses at `now`: it is open and inside its reset timeout. */
  predicate Refuses(bs: Circuit.Breakers, agent: string, now: int) {
    && agent in bs && bs[agent].state.Open? && bs[agent].openedAt.Some?
    && now < bs[agent].openedAt.value + bs[agent].resetTimeout
  }

  /** The agent is refused at some attempt of the call. */
  ghost predicate RefusedAtAttempt(ms: seq<Member>, start: nat, f: Asked, clock: nat -> int, agent: string) {
    exists i ::
      0 <= i < Total(ms) && Owner(ms, Slot(start, i, Total(ms))) == agent && Refuses(Seen(f, i), agent, clock(i))
  }

  lemma NotAdmittedIsRefused(cfg: Circuit.Config, calls: seq<Circuit.Call>, agent: string, now: int)
    requires Circuit.Normal(cfg)
    requires !Circuit.Admits(Circuit.GetOrCreate(cfg, Circuit.After(cfg, calls), agent), now)
    ensures Refuses(Circuit.After(cfg, calls), agent, now)
  {
    Circuit.StateIsHistory(cfg, calls, agent);
  }

  /** A call returns an agent exactly when some named member is admitted when it is tried. When
      it returns nobody, every named member was tried, and its breaker was then open and inside
      its reset timeout; whatever made the breakers what they were, and whatever others do. */
  lemma NobodyMeansAllTripped(ms: seq<Member>, start: nat, r: Option<string>, clock: nat -> int,
                              f: Asked, calls: seq<Circuit.Call>, after: Circuit.Breakers)
    requires ms != [] && (start + Total(ms) <= UINT64_LIMIT || UINT64_LIMIT % Total(ms) == 0)
    requires Circuit.Normal(f.cfg) && f.breakers == Circuit.After(f.cfg, calls)
    requires Answered(ms, start, r, clock, Some(f), Some(after))
    ensures r.Some? <==> exists i :: 0 <= i < Total(ms) && Admitted(ms, start, i, Some(f), clock)
    ensures r.None? ==>
              forall k :: 0 <= k < |ms| && ms[k].agentID != "" ==> RefusedAtAttempt(ms, start, f, clock, ms[k].agentID)
  {
    hide *;
    SomeSlots(ms);
    AnsweredNobody(ms, start, r, clock, f, after);
    if r.None? {
      forall k | 0 <= k < |ms| && ms[k].agentID != "" ensures RefusedAtAttempt(ms, start, f, clock, ms[k].agentID) {
        MemberIsRefused(ms, start, clock, f, calls, k);
      }
    }
  }

  lemma MemberIsRefused(ms: seq<Member>, start: nat, clock: nat -> int, f: Asked, calls: seq<Circuit.Call>, k: nat)
    requires k < |ms| && ms[k].agentID != "" && Total(ms) > 0
    requires start + Total(ms) <= UINT64_LIMIT || UINT64_LIMIT % Total(ms) == 0
    requires Circuit.Normal(f.cfg) && f.breakers == Circuit.After(f.cfg, calls)
    requires forall i :: 0 <= i < Total(ms) ==> !Admitted(ms, start, i, Some(f), clock)
    ensures RefusedAtAttempt(ms, start, f, clock, ms[k].agentID)
  {
    hide Circuit.After, Circuit.Admits, Circuit.GetOrCreate, Refuses, Upto, Total, Owner, OthersUpto, Slot;
    var slot := MemberHasSlot(ms, k);
    var i := SlotIsReached(start, Total(ms), slot);
    assert !Admitted(ms, start, i, Some(f), clock);
    UptoIsAfter(f, calls, i + 1);
    NotAdmittedIsRefused(f.cfg, calls + OthersUpto(f.others, i + 1), ms[k].agentID, clock(i));
  }

  lemma AnsweredNobody(ms: seq<Member>, start: nat, r: Option<string>, clock: nat -> int, f: Asked, after: Circuit.Breakers)
    requires Answered(ms, start, r, clock, Some(f), Some(after))
    ensures r.Some? <==> exists i :: 0 <= i < Total(ms) && Admitted(ms, start, i, Some(f), clock)
  {
    hide Admitted;
    if r.Some? {
      var i :| FirstAdmitted(ms, start, i, Some(f), clock);
    }
  }

  lemma SomeSlots(ms: seq<Member>)
    requires ms != []
    ensures Total(ms) > 0
  {
  }

  /** No failure of the agent is reported. */
  predicate NoFailure(calls: seq<Circuit.Call>, agent: string) {
    forall k :: 0 <= k < |calls| ==> !(calls[k].agent == agent && calls[k].kind.Failure?)
  }

  /** The breaker is open since `at`. */
  predicate OpenSince(bs: Circuit.Breakers, agent: string, at: int, timeout: int) {
    && agent in bs && bs[agent].state.Open? && bs[agent].openedAt == Some(at) && bs[agent].resetTimeout == timeout
  }

  /** Only a failure opens a breaker, so one that is open without was open before, since then. */
  lemma {:induction false} WasOpenBefore(cfg: Circuit.Config, bs: Circuit.Breakers, calls: seq<Circuit.Call>,
                                         agent: string, at: int, timeout: int)
    requires NoFailure(calls, agent) && OpenSince(Circuit.Continue(cfg, bs, calls), agent, at, timeout)
    ensures OpenSince(bs, agent, at, timeout)
    decreases calls
  {
    if calls != [] {
      var n := |calls| - 1;
      assert calls[n] == calls[|calls| - 1];
      WasOpenBefore(cfg, bs, calls[..n], agent, at, timeout);
    }
  }

  lemma {:induction false} WasOpenAtStart(f: Asked, i: nat, agent: string, at: int, timeout: int)
    requires (forall k: nat :: NoFailure(f.others(k), agent)) && OpenSince(Upto(f, i), agent, at, timeout)
    ensures OpenSince(f.breakers, agent, at, timeout)
  {
    if i > 0 {
      WasOpenBefore(f.cfg, Upto(f, i - 1), f.others(i - 1), agent, at, timeout);
      WasOpenAtStart(f, i - 1, agent, at, timeout);
    }
  }

  /** If nobody reports a failure of a named member meanwhile and the clock does not go back, its
      breaker was open and inside its timeout when the call began. If nobody calls at all, no
      breaker changed. */
  lemma NobodyMeansAllWereTripped(ms: seq<Member>, start: nat, clock: nat -> int,
                                  f: Asked, calls: seq<Circuit.Call>, after: Circuit.Breakers, k: nat)
    requires ms != [] && (start + Total(ms) <= UINT64_LIMIT || UINT64_LIMIT % Total(ms) == 0)
    requires Circuit.Normal(f.cfg) && f.breakers == Circuit.After(f.cfg, calls)
    requires Answered(ms, start, None, clock, Some(f), Some(after)) && k < |ms| && ms[k].agentID != ""
    requires forall i: nat, j: nat :: i <= j ==> clock(i) <= clock(j)
    ensures (forall i: nat :: NoFailure(f.others(i), ms[k].agentID)) ==> Refuses(f.breakers, ms[k].agentID, clock(0))
    ensures (forall i: nat :: f.others(i) == []) ==> after == f.breakers
  {
    NobodyMeansAllTripped(ms, start, None, clock, f, calls, after);
    var agent := ms[k].agentID;
    assert RefusedAtAttempt(ms, start, f, clock, agent);
    var i :| 0 <= i < Total(ms) && Owner(ms, Slot(start, i, Total(ms))) == agent && Refuses(Seen(f, i), agent, clock(i));
    assert clock(0) <= clock(i);
    if forall i: nat :: NoFailure(f.others(i), agent) {
      var b := Seen(f, i)[agent];
      hide Circuit.After, Answered, Upto, RefusedAtAttempt, NoFailure;
      WasOpenAtStart(f, i + 1, agent, b.openedAt.value, b.resetTimeout);
    }
    if forall i: nat :: f.others(i) == [] { QuietIsUnchanged(f, Total(ms)); }
  }

  lemma {:induction false} OthersGrow(others: nat -> seq<Circuit.Call>, i: nat, j: nat)
    requires i <= j
    ensures OthersUpto(others, i) <= OthersUpto(others, j)
  {
    if i < j { OthersGrow(others, i, j - 1); }
  }

  lemma StillRefused(cfg: Circuit.Config, calls: seq<Circuit.Call>, more: seq<Circuit.Call>, all: seq<Circuit.Call>,
                     t: nat, agent: string, now: int)
    requires Circuit.Normal(cfg) && t < |calls| && Circuit.Trips(cfg, calls, t, agent) && more <= all
    requires Circuit.Undisturbed(calls + all, t, |calls + all|, agent, calls[t].now + cfg.resetTimeout)
    requires now < calls[t].now + cfg.resetTimeout
    ensures !Circuit.Admits(Circuit.GetOrCreate(cfg, Circuit.After(cfg, calls + more), agent), now)
  {
    var h := calls + more;
    assert h[..t] == calls[..t] && h[..t + 1] == calls[..t + 1] && h[..|h|] == h;
    assert forall k :: 0 <= k < |h| ==> h[k] == (calls + all)[k];
    Circuit.AdmittedExactlyAfterTimeout(cfg, h, t, |h|, agent, now);
  }

  lemma AdmittedWhen(ms: seq<Member>, start: nat, agent: string, clock: nat -> int, f: Asked, after: Circuit.Breakers)
    returns (i: nat)
    requires Answered(ms, start, Some(agent), clock, Some(f), Some(after))
    ensures i < Total(ms) && Circuit.Admits(Circuit.GetOrCreate(f.cfg, Upto(f, i + 1), agent), clock(i))
  {
    hide Upto, Circuit.Admits, Circuit.GetOrCreate, Circuit.Apply;
    i :| FirstAdmitted(ms, start, i, Some(f), clock) && agent == Owner(ms, Slot(start, i, Total(ms)));
  }

  /** Across components: however the breakers came about and whatever others do meanwhile, an
      agent whose breaker tripped is not dispatched to before the reset timeout has run out,
      unless it was reset or deleted. */
  lemma {:induction false} TrippedIsNotDispatched(calls: seq<Circuit.Call>, t: nat, agent: string, f: Asked,
                                                  ms: seq<Member>, start: nat, r: Option<string>, clock: nat -> int,
                                                  after: Circuit.Breakers)
    requires Circuit.Normal(f.cfg) && t < |calls| && Circuit.Trips(f.cfg, calls, t, agent)
    requires f.breakers == Circuit.After(f.cfg, calls)
    requires var history := calls + OthersUpto(f.others, Total(ms));
             Circuit.Undisturbed(history, t, |history|, agent, calls[t].now + f.cfg.resetTimeout)
    requires forall i: nat :: i < Total(ms) ==> clock(i) < calls[t].now + f.cfg.resetTimeout
    requires Answered(ms, start, r, clock, Some(f), Some(after))
    ensures r != Some(agent)
  {
    hide *;
    if r == Some(agent) {
      var i := AdmittedWhen(ms, start, agent, clock, f, after);
      OthersGrow(f.others, i + 1, Total(ms));
      UptoIsAfter(f, calls, i + 1);
      StillRefused(f.cfg, calls, OthersUpto(f.others, i + 1), OthersUpto(f.others, Total(ms)), t, agent, clock(i));
    }
  }
}
