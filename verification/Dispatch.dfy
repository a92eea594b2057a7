/**
 Agent groups and their weighted round-robin dispatch, with and without the circuit
 breakers as a filter that changes state while it is asked.
 */
module Dispatch {
  import opened Options
  import opened Ids
  import Circuit

  datatype Member = Member(agentID: string, weight: int)

  datatype Group = Group(id: string, tenant: string, name: string, members: seq<Member>)

  const GROUP_ID_PREFIX := "grp-"

  function MemberWeight(weight: int): nat { if weight <= 0 then 1 else weight }

  function Total(ms: seq<Member>): nat {
    if ms == [] then 0 else MemberWeight(ms[0].weight) + Total(ms[1..])
  }

  /** The member that owns a slot: slots are handed out in blocks of a member's weight. */
  function Owner(ms: seq<Member>, slot: nat): string
    requires slot < Total(ms)
  {
    var w := MemberWeight(ms[0].weight);
    if slot < w then ms[0].agentID else Owner(ms[1..], slot - w)
  }

  ghost predicate Distinct(ms: seq<Member>) {
    forall i, j :: 0 <= i < j < |ms| ==> ms[i].agentID != ms[j].agentID
  }

  ghost predicate Named(ms: seq<Member>) {
    forall i :: 0 <= i < |ms| ==> ms[i].agentID != ""
  }

  /** The slot tried at the `i`-th attempt of a call that drew `start`; the sum is in 64 bits. */
  function Slot(start: nat, i: nat, n: nat): (slot: nat)
    requires n > 0
    ensures slot < n
  {
    ((start + i) % UINT64_LIMIT) % n
  }

  // ----- what a call answers

  /** A call that asks the breakers: their configuration, what they are when it begins, and
      what others do to them before each of its attempts, since no lock spans them. */
  datatype Asked = Asked(cfg: Circuit.Config, breakers: Circuit.Breakers, others: nat -> seq<Circuit.Call>)

  /** The breakers when attempt `i` is about to begin and all before it were refused. */
  ghost function Upto(f: Asked, i: nat): Circuit.Breakers {
    if i == 0 then f.breakers else Circuit.Continue(f.cfg, Upto(f, i - 1), f.others(i - 1))
  }

  /** The breakers attempt `i` asks. */
  ghost function Seen(f: Asked, i: nat): Circuit.Breakers { Upto(f, i + 1) }

  /** The candidate of attempt `i` may be returned: it has a name and the filter admits it.
      Without a filter every name is admitted. `clock(i)` is the time of attempt `i`. */
  ghost predicate Admitted(ms: seq<Member>, start: nat, i: nat, filter: Option<Asked>, clock: nat -> int)
    requires i < Total(ms)
  {
    var id := Owner(ms, Slot(start, i, Total(ms)));
    id != "" &&
    (filter.Some? ==> Circuit.Admits(Circuit.GetOrCreate(filter.value.cfg, Seen(filter.value, i), id), clock(i)))
  }

  /** Attempt `i` is the first admitted one. */
  ghost predicate FirstAdmitted(ms: seq<Member>, start: nat, i: nat, filter: Option<Asked>, clock: nat -> int) {
    && i < Total(ms) && Admitted(ms, start, i, filter, clock)
    && forall k :: 0 <= k < i ==> !Admitted(ms, start, k, filter, clock)
  }

  /** A refused request leaves every breaker as it was. */
  lemma RefusalChangesNothing(cfg: Circuit.Config, bs: Circuit.Breakers, id: string, now: int)
    requires !Circuit.Admits(Circuit.GetOrCreate(cfg, bs, id), now)
    ensures Circuit.Apply(cfg, bs, Circuit.Call(Circuit.Admission, id, now)) == bs
  {
  }

  // ----- the group manager

  /** Every group has a position and a number up to the counter, its members are distinct and
      their weights positive. */
  ghost predicate Consistent(groups: map<string, Group>, rrIndex: map<string, nat>, counter: nat) {
    && rrIndex.Keys == groups.Keys
    && (forall g :: g in groups ==>
          && Distinct(groups[g].members)
          && forall i :: 0 <= i < |groups[g].members| ==> groups[g].members[i].weight > 0)
    && (forall g :: g in rrIndex ==> rrIndex[g] < UINT64_LIMIT)
    && (forall g :: g in groups ==> ParseNum(GROUP_ID_PREFIX, g) <= counter)
  }

  lemma MovesOn(groups: map<string, Group>, rrIndex: map<string, nat>, counter: nat, id: string)
    requires Consistent(groups, rrIndex, counter) && id in groups
    ensures id in rrIndex && Consistent(groups, rrIndex[id := (rrIndex[id] + 1) % UINT64_LIMIT], counter)
  {
    hide ParseNum, Distinct;
  }

  /** A group under the next number: no group has it. */
  lemma NextNumber(groups: map<string, Group>, rrIndex: map<string, nat>, counter: nat, g: Group)
    requires Consistent(groups, rrIndex, counter) && counter + 1 < UINT64_LIMIT
    requires g.id == FormatId(GROUP_ID_PREFIX, counter + 1) && g.members == []
    ensures g.id !in groups && Consistent(groups[g.id := g], rrIndex[g.id := 0], counter + 1)
  {
    ParseFormat(GROUP_ID_PREFIX, counter + 1);
    hide FormatId, ParseNum;
  }

  class Manager {
    var groups: map<string, Group>
    var rrIndex: map<string, nat>
    var counter: nat

    ghost predicate Valid()
      reads this
    {
      Consistent(groups, rrIndex, counter)
    }

    constructor ()
      ensures Valid() && groups == map[] && counter == 0
    {
      groups := map[];
      rrIndex := map[];
      counter := 0;
    }

    /** The next number, in 64 bits. Until it wraps around, no group has it yet. */
    method Create(tenant: string, name: string) returns (r: Option<Group>)
      requires Valid()
      modifies this
      ensures r.Some? <==> name != ""
      ensures r.None? ==> Valid() && groups == old(groups) && rrIndex == old(rrIndex) && counter == old(counter)
      ensures r.Some? ==>
                var id := FormatId("grp-", counter);
                && counter == Increment64(old(counter))
                && r.value == Group(id, tenant, name, [])
                && groups == old(groups)[id := r.value] && rrIndex == old(rrIndex)[id := 0]
                && (old(counter) + 1 < UINT64_LIMIT ==> Valid() && id !in old(groups))
    {
      if name == "" { return None; }
      ghost var was := counter;
      assert Consistent(groups, rrIndex, counter);
      hide FormatId, ParseNum, Consistent, Increment64;
      counter := Increment64(counter);
      var g := Group(FormatId(GROUP_ID_PREFIX, counter), tenant, name, []);
      if was + 1 < UINT64_LIMIT { NextNumber(groups, rrIndex, was, g); }
      groups := groups[g.id := g];
      rrIndex := rrIndex[g.id := 0];
      r := Some(g);
    }

    predicate Owns(tenant: string, groupID: string)
      reads this
    {
      groupID in groups && groups[groupID].tenant == tenant
    }

    method AddMemberWithWeight(tenant: string, groupID: string, agentID: string, weight: int) returns (ok: bool)
      requires Valid()
      modifies this
      ensures Valid() && rrIndex == old(rrIndex) && counter == old(counter)
      ensures ok == (weight > 0 && groupID in old(groups) && old(groups)[groupID].tenant == tenant)
      ensures !ok ==> groups == old(groups)
      ensures ok ==>
                var ms := old(groups)[groupID].members;
                groups == old(groups)[groupID := old(groups)[groupID].(members :=
                  if exists i :: 0 <= i < |ms| && ms[i].agentID == agentID then ms
                  else ms + [Member(agentID, weight)])]
    {
      if weight <= 0 || !Owns(tenant, groupID) { return false; }
      var g := groups[groupID];
      for i := 0 to |g.members|
        invariant forall k :: 0 <= k < i ==> g.members[k].agentID != agentID
      {
        if g.members[i].agentID == agentID { return true; }
      }
      groups := groups[groupID := g.(members := g.members + [Member(agentID, weight)])];
      ok := true;
    }

    /** A bad weight is an error whether the member exists or not; else what is reported is
        whether it does. */
    method UpdateMemberWeight(tenant: string, groupID: string, agentID: string, weight: int) returns (found: bool, ok: bool)
      requires Valid()
      modifies this
      ensures Valid() && rrIndex == old(rrIndex) && counter == old(counter)
      ensures ok <==> weight > 0
      ensures ok ==> (found <==> groupID in old(groups) && old(groups)[groupID].tenant == tenant &&
                                 exists i :: 0 <= i < |old(groups)[groupID].members| && old(groups)[groupID].members[i].agentID == agentID)
      ensures !ok ==> found
      ensures !(ok && found) ==> groups == old(groups)
      ensures ok && found ==> exists i ::
                && 0 <= i < |old(groups)[groupID].members|
                && old(groups)[groupID].members[i].agentID == agentID
                && groups == old(groups)[groupID := old(groups)[groupID].(members :=
                               old(groups)[groupID].members[i := Member(agentID, weight)])]
    {
      if weight <= 0 { return true, false; }
      ok := true;
      if !Owns(tenant, groupID) { return false, true; }
      var g := groups[groupID];
      for i := 0 to |g.members|
        invariant forall k :: 0 <= k < i ==> g.members[k].agentID != agentID
        invariant groups == old(groups)
      {
        if g.members[i].agentID == agentID {
          groups := groups[groupID := g.(members := g.members[i := Member(agentID, weight)])];
          return true, true;
        }
      }
      found := false;
    }

    method RemoveMember(tenant: string, groupID: string, agentID: string) returns (ok: bool)
      requires Valid()
      modifies this
      ensures Valid() && rrIndex == old(rrIndex) && counter == old(counter)
      ensures ok <==> groupID in old(groups) && old(groups)[groupID].tenant == tenant &&
                      exists i :: 0 <= i < |old(groups)[groupID].members| && old(groups)[groupID].members[i].agentID == agentID
      ensures groups == if ok
                        then old(groups)[groupID := old(groups)[groupID].(members :=
                               Without(old(groups)[groupID].members, agentID))]
                        else old(groups)
    {
      if !Owns(tenant, groupID) { return false; }
      var g := groups[groupID];
      var filtered;
      filtered, ok := FilterOut(g.members, agentID);
      if !ok { return; }
      WithoutKeeps(g.members, agentID);
      groups := groups[groupID := g.(members := filtered)];
      assert forall i :: 0 <= i < |filtered| ==> filtered[i] in filtered;
    }

    /** The next agent in weighted round-robin order. `breakers`, when given, is asked about
        each candidate and may change; `clock(i)` is the time of the `i`-th attempt, and
        `others(i)` what others do to the breakers before it. */
    method Next(tenant: string, groupID: string, breakers: Circuit.Manager?, others: nat -> seq<Circuit.Call>,
                clock: nat -> int)
      returns (r: Option<string>)
      requires Valid()
      modifies this`rrIndex, breakers
      ensures Valid() && groups == old(groups)
      ensures groupID !in groups || groups[groupID].tenant != tenant || groups[groupID].members == [] ==>
                r == None && rrIndex == old(rrIndex) && (breakers != null ==> breakers.breakers == old(breakers.breakers))
      ensures groupID in groups && groups[groupID].tenant == tenant && groups[groupID].members != [] ==>
                && rrIndex == old(rrIndex)[groupID := (old(rrIndex)[groupID] + 1) % UINT64_LIMIT]
                && Answered(groups[groupID].members, old(rrIndex)[groupID], r, clock,
                            if breakers != null then Some(Asked(breakers.cfg, old(breakers.breakers), others)) else None,
                            if breakers != null then Some(breakers.breakers) else None)
    {
      if !Owns(tenant, groupID) || groups[groupID].members == [] { return None; }
      var members := groups[groupID].members;
      var n := TotalWeight(members);
      var start := rrIndex[groupID];
      MovesOn(groups, rrIndex, counter, groupID);
      hide Answered, Consistent;
      rrIndex := rrIndex[groupID := (start + 1) % UINT64_LIMIT];
      r := Scan(members, n, start, breakers, others, clock);
    }
  }

  /** The attempts of one call: the owners of the slots from `start` on, wrapping around. */
  method Scan(members: seq<Member>, n: nat, start: nat, breakers: Circuit.Manager?, others: nat -> seq<Circuit.Call>,
              clock: nat -> int)
    returns (r: Option<string>)
    requires n == Total(members)
    modifies breakers
    ensures Answered(members, start, r, clock,
                     if breakers != null then Some(Asked(breakers.cfg, old(breakers.breakers), others)) else None,
                     if breakers != null then Some(breakers.breakers) else None)
  {
    ghost var filter := if breakers != null then Some(Asked(breakers.cfg, breakers.breakers, others)) else None;
    hide Circuit.Apply, Circuit.Continue, Circuit.Admits, Circuit.GetOrCreate;
    for i := 0 to n
      invariant breakers != null ==> breakers.breakers == Upto(filter.value, i)
      invariant forall k :: 0 <= k < i ==> !Admitted(members, start, k, filter, clock)
    {
      if breakers != null { breakers.PerformAll(others(i)); }
      var candidate := FindOwner(members, Slot(start, i, n));
      if candidate != "" {
        var allowed := true;
        if breakers != null {
          ghost var bs := breakers.breakers;
          allowed := breakers.Allow(candidate, clock(i));
          if !allowed { RefusalChangesNothing(breakers.cfg, bs, candidate, clock(i)); }
        }
        if allowed {
          assert FirstAdmitted(members, start, i, filter, clock);
          return Some(candidate);
        }
      }
    }
    r := None;
  }

  method FilterOut(ms: seq<Member>, agentID: string) returns (filtered: seq<Member>, removed: bool)
    ensures filtered == Without(ms, agentID)
    ensures removed <==> exists i :: 0 <= i < |ms| && ms[i].agentID == agentID
  {
    hide Without;
    filtered := [];
    removed := false;
    WithoutNone(agentID);
    assert ms[|ms|..] == [];
    for i := 0 to |ms|
      invariant filtered + Without(ms[i..], agentID) == Without(ms, agentID)
      invariant removed <==> exists k :: 0 <= k < i && ms[k].agentID == agentID
    {
      WithoutTurn(ms, agentID, i);
      ghost var rest := Without(ms[i + 1..], agentID);
      assert filtered + ([ms[i]] + rest) == filtered + [ms[i]] + rest;
      if ms[i].agentID != agentID {
        filtered := filtered + [ms[i]];
      } else {
        removed := true;
      }
    }
  }

  /** What `Next` promises about a non-empty group: the owner of the first admitted attempt,
      and the breakers changed by others and by that admission alone; or, if there is none,
      nobody, and the breakers changed by others alone. */
  ghost predicate Answered(ms: seq<Member>, start: nat, r: Option<string>, clock: nat -> int,
                           filter: Option<Asked>, after: Option<Circuit.Breakers>)
  {
    match r
    case Some(id) =>
      exists i ::
        && FirstAdmitted(ms, start, i, filter, clock)
        && id == Owner(ms, Slot(start, i, Total(ms)))
        && (filter.Some? ==>
              after == Some(Circuit.Apply(filter.value.cfg, Seen(filter.value, i), Circuit.Call(Circuit.Admission, id, clock(i)))))
    case None =>
      && (filter.Some? ==> after == Some(Upto(filter.value, Total(ms))))
      && forall i :: 0 <= i < Total(ms) ==> !Admitted(ms, start, i, filter, clock)
  }

  function Without(ms: seq<Member>, agentID: string): seq<Member> {
    if ms == [] then []
    else (if ms[0].agentID != agentID then [ms[0]] else []) + Without(ms[1..], agentID)
  }

  lemma WithoutNone(agentID: string)
    ensures Without([], agentID) == []
  {
  }

  lemma WithoutTurn(ms: seq<Member>, agentID: string, i: nat)
    requires i < |ms|
    ensures Without(ms[i..], agentID) ==
            if ms[i].agentID != agentID then [ms[i]] + Without(ms[i + 1..], agentID) else Without(ms[i + 1..], agentID)
  {
    assert ms[i..][1..] == ms[i + 1..];
  }

  lemma {:induction false} WithoutKeeps(ms: seq<Member>, agentID: string)
    requires Distinct(ms)
    ensures forall m :: m in Without(ms, agentID) <==> m in ms && m.agentID != agentID
    ensures Distinct(Without(ms, agentID))
  {
    if ms != [] {
      WithoutKeeps(ms[1..], agentID);
      var rest := Without(ms[1..], agentID);
      assert forall m :: m in ms <==> m == ms[0] || m in ms[1..];
      forall i | 0 <= i < |rest| ensures rest[i].agentID != ms[0].agentID {
        assert rest[i] in ms[1..];
      }
    }
  }

  method TotalWeight(ms: seq<Member>) returns (total: nat)
    ensures total == Total(ms)
    ensures ms != [] ==> total > 0
  {
    total := 0;
    for i := 0 to |ms|
      invariant total + Total(ms[i..]) == Total(ms)
    {
      assert ms[i..][1..] == ms[i + 1..];
      total := total + MemberWeight(ms[i].weight);
    }
  }

  /** The inner loop: walk the members, adding up weights, until the sum passes the slot. */
  method FindOwner(ms: seq<Member>, slot: nat) returns (candidate: string)
    requires slot < Total(ms)
    ensures candidate == Owner(ms, slot)
  {
    var cursor := 0;
    candidate := "";
    for i := 0 to |ms|
      invariant cursor <= slot && slot - cursor < Total(ms[i..])
      invariant Owner(ms[i..], slot - cursor) == Owner(ms, slot)
    {
      assert ms[i..][1..] == ms[i + 1..];
      cursor := cursor + MemberWeight(ms[i].weight);
      if slot < cursor {
        return ms[i].agentID;
      }
    }
  }
}
