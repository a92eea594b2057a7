/**
 Route selection: one-pass choice of the best route, and the ranking of all of them.
 Sorting is specified as a stable sort by score.
 */
module Routing {
  import opened Options

  datatype Metric = Metric(latency: int, throughput: int)

  datatype Route = Route(
    destination: string,
    metric: Metric,
    addedAt: int,
    expiresAt: Option<int>,
    satellite: bool,
    tags: map<string, string>
  )

  datatype Filter = Filter(
    maxLatency: int,
    minThroughput: int,
    satellite: Option<bool>,
    tags: map<string, string>
  )

  const SATELLITE_PENALTY_MS := 300

  function Tag(tags: map<string, string>, key: string): string {
    if key in tags then tags[key] else ""
  }

  predicate Expired(r: Route, now: int) { r.expiresAt.Some? && now > r.expiresAt.value }

  predicate MatchTags(tags: map<string, string>, wanted: map<string, string>) {
    forall k :: k in wanted ==> Tag(tags, k) == wanted[k]
  }

  predicate Matches(r: Route, f: Filter, now: int) {
    && !Expired(r, now)
    && (f.maxLatency > 0 ==> r.metric.latency <= f.maxLatency)
    && (f.minThroughput > 0 ==> r.metric.throughput >= f.minThroughput)
    && (f.satellite.Some? ==> r.satellite == f.satellite.value)
    && MatchTags(r.tags, f.tags)
  }

  /** A route's score as the program computes it, in floating point: `round` is the rounding of
      an exact result, left uninterpreted. Selection and ranking depend on scores only by
      comparison, so what follows holds for any score. */
  function Score(r: Route, penalty: int, round: real -> real): real {
    var latency := round(r.metric.latency as real);
    var base := if latency < 0.0 then 0.0 else latency;
    var slowed := if r.satellite && penalty > 0 then round(base + round(penalty as real)) else base;
    var throughput := round(r.metric.throughput as real);
    if throughput > 0.0 then round(slowed - throughput) else slowed
  }

  function Filtered(rs: seq<Route>, f: Filter, now: int): seq<Route> {
    if rs == [] then []
    else (if Matches(rs[0], f, now) then [rs[0]] else []) + Filtered(rs[1..], f, now)
  }

  /** What a route costs, in whole numbers: latency, a penalty for satellites, less throughput;
      none of them counts below zero. */
  function Cost(r: Route, penalty: int): int {
    (if r.metric.latency > 0 then r.metric.latency else 0)
    + (if r.satellite && penalty > 0 then penalty else 0)
    - (if r.metric.throughput > 0 then r.metric.throughput else 0)
  }

  /** Rounding keeps this whole number. */
  predicate RoundsTo(round: real -> real, n: int) { round(n as real) == n as real }

  /** Where whole numbers are not rounded the score is the cost. So of two routes alike but for one thing, the
      one of more throughput or less latency scores less, and a satellite scores more by exactly a
      positive penalty. */
  lemma ScoreIsCost(r: Route, penalty: int, round: real -> real)
    requires forall n: int :: RoundsTo(round, n)
    ensures Score(r, penalty, round) == Cost(r, penalty) as real
  {
    var latency := if r.metric.latency > 0 then r.metric.latency else 0;
    var slowed := if r.satellite && penalty > 0 then latency + penalty else latency;
    assert RoundsTo(round, r.metric.latency) && RoundsTo(round, penalty) && RoundsTo(round, r.metric.throughput);
    assert RoundsTo(round, slowed) && RoundsTo(round, slowed - r.metric.throughput);
    assert slowed as real == latency as real + (if r.satellite && penalty > 0 then penalty as real else 0.0);
    assert (slowed - r.metric.throughput) as real == slowed as real - r.metric.throughput as real;
  }

  lemma CostPrefers(r: Route, q: Route, penalty: int)
    requires r.metric.latency >= 0 && r.metric.throughput >= 0 && q.metric.latency >= 0 && q.metric.throughput >= 0
    ensures r.metric.latency == q.metric.latency && r.satellite == q.satellite ==>
              (Cost(r, penalty) < Cost(q, penalty) <==> r.metric.throughput > q.metric.throughput)
    ensures r.metric.throughput == q.metric.throughput && r.satellite == q.satellite ==>
              (Cost(r, penalty) < Cost(q, penalty) <==> r.metric.latency < q.metric.latency)
    ensures r.metric == q.metric && r.satellite && !q.satellite && penalty > 0 ==> Cost(r, penalty) == Cost(q, penalty) + penalty
  {
  }

  /** In the fields: what a filter lets through of a table at an instant. */
  predicate Passes(r: Route, f: Filter, now: int) {
    && (r.expiresAt.Some? ==> now <= r.expiresAt.value)
    && (f.maxLatency > 0 ==> r.metric.latency <= f.maxLatency)
    && (f.minThroughput > 0 ==> f.minThroughput <= r.metric.throughput)
    && (f.satellite == Some(true) ==> r.satellite) && (f.satellite == Some(false) ==> !r.satellite)
    && (forall k :: k in f.tags ==> (k in r.tags && r.tags[k] == f.tags[k]) || (k !in r.tags && f.tags[k] == ""))
  }

  lemma {:induction false} FilteredInFields(rs: seq<Route>, f: Filter, now: int, r: Route)
    ensures r in Filtered(rs, f, now) <==> r in rs && Passes(r, f, now)
  {
    if rs != [] {
      FilteredInFields(rs[1..], f, now, r);
      assert r in rs <==> r == rs[0] || r in rs[1..];
    }
  }

  lemma {:induction false} FilteredOneMore(rs: seq<Route>, f: Filter, now: int, i: nat)
    requires i < |rs|
    ensures Filtered(rs[..i + 1], f, now) ==
            Filtered(rs[..i], f, now) + if Matches(rs[i], f, now) then [rs[i]] else []
  {
    var a, b := rs[..i], rs[..i + 1];
    if i == 0 {
      assert b == [rs[0]] && b[1..] == [];
    } else {
      assert a[1..] == rs[1..][..i - 1] && b[1..] == rs[1..][..i];
      FilteredOneMore(rs[1..], f, now, i - 1);
      hide Matches;
      var head := if Matches(rs[0], f, now) then [rs[0]] else [];
      var last := if Matches(rs[i], f, now) then [rs[i]] else [];
      assert head + (Filtered(a[1..], f, now) + last) == head + Filtered(a[1..], f, now) + last;
    }
  }

  method FilterRoutes(rs: seq<Route>, f: Filter, now: int) returns (filtered: seq<Route>)
    ensures filtered == Filtered(rs, f, now)
  {
    filtered := [];
    for i := 0 to |rs|
      invariant filtered == Filtered(rs[..i], f, now)
    {
      FilteredOneMore(rs, f, now, i);
      if Matches(rs[i], f, now) {
        filtered := filtered + [rs[i]];
      }
    }
    assert rs[..|rs|] == rs;
  }

  // ----- one-pass selection

  /** `i` is the first position of the least score. */
  predicate FirstLeast(rs: seq<Route>, score: Route -> real, i: int) {
    && 0 <= i < |rs|
    && (forall j :: 0 <= j < |rs| ==> score(rs[i]) <= score(rs[j]))
    && (forall j :: 0 <= j < i ==> score(rs[i]) < score(rs[j]))
  }

  method SelectBest(rs: seq<Route>, f: Filter, score: Route -> real, now: int) returns (r: Option<Route>)
    ensures r.None? <==> Filtered(rs, f, now) == []
    ensures r.Some? ==> exists i :: FirstLeast(Filtered(rs, f, now), score, i) && r.value == Filtered(rs, f, now)[i]
  {
    r := None;
    var bestScore := 4611686018427387904.0;
    ghost var at := 0;
    for i := 0 to |rs|
      invariant r.None? <==> Filtered(rs[..i], f, now) == []
      invariant r.Some? ==> FirstLeast(Filtered(rs[..i], f, now), score, at)
      invariant r.Some? ==> r.value == Filtered(rs[..i], f, now)[at] && bestScore == score(r.value)
    {
      FilteredOneMore(rs, f, now, i);
      if Matches(rs[i], f, now) {
        var value := score(rs[i]);
        if r.None? || value < bestScore {
          at := |Filtered(rs[..i], f, now)|;
          r := Some(rs[i]);
          bestScore := value;
        }
      }
    }
    assert rs[..|rs|] == rs;
  }

  // ----- ranking

  predicate Ranked(rs: seq<Route>, score: Route -> real) {
    forall i, j :: 0 <= i < j < |rs| ==> score(rs[i]) <= score(rs[j])
  }

  /** The routes of one score, in order. */
  function OfScore(rs: seq<Route>, score: Route -> real, c: real): seq<Route> {
    if rs == [] then []
    else (if score(rs[0]) == c then [rs[0]] else []) + OfScore(rs[1..], score, c)
  }

  /** `ys` is `xs` sorted by score, routes of equal score in their order in `xs`. */
  ghost predicate StableRanking(xs: seq<Route>, ys: seq<Route>, score: Route -> real) {
    Ranked(ys, score) && forall c :: OfScore(ys, score, c) == OfScore(xs, score, c)
  }

  /** Put a route behind those that do not score worse. */
  function Insert(r: Route, rs: seq<Route>, score: Route -> real): seq<Route> {
    if rs == [] then [r]
    else if score(r) < score(rs[0]) then [r] + rs
    else [rs[0]] + Insert(r, rs[1..], score)
  }

  lemma {:induction false} OfScoreConcat(a: seq<Route>, b: seq<Route>, score: Route -> real, c: real)
    ensures OfScore(a + b, score, c) == OfScore(a, score, c) + OfScore(b, score, c)
  {
    if a == [] {
      assert a + b == b;
    } else {
      assert (a + b)[1..] == a[1..] + b;
      OfScoreConcat(a[1..], b, score, c);
      var head, x, y := if score(a[0]) == c then [a[0]] else [], OfScore(a[1..], score, c), OfScore(b, score, c);
      assert head + (x + y) == head + x + y;
    }
  }

  lemma {:induction false} NoneOfScore(rs: seq<Route>, score: Route -> real, c: real)
    requires forall i :: 0 <= i < |rs| ==> score(rs[i]) > c
    ensures OfScore(rs, score, c) == []
  {
    if rs != [] { NoneOfScore(rs[1..], score, c); }
  }

  lemma {:induction false} InsertScores(r: Route, rs: seq<Route>, score: Route -> real, c: real)
    requires Ranked(rs, score)
    ensures OfScore(Insert(r, rs, score), score, c) == OfScore(rs + [r], score, c)
  {
    if rs == [] {
    } else if score(r) < score(rs[0]) {
      OfScoreConcat(rs, [r], score, c);
      OfScoreConcat([r], rs, score, c);
      if score(r) == c { NoneOfScore(rs, score, c); }
    } else {
      InsertScores(r, rs[1..], score, c);
      assert (rs + [r])[1..] == rs[1..] + [r];
    }
  }

  lemma {:induction false} InsertRanked(r: Route, rs: seq<Route>, score: Route -> real)
    requires Ranked(rs, score)
    ensures Ranked(Insert(r, rs, score), score)
    ensures forall i :: 0 <= i < |Insert(r, rs, score)| ==>
              Insert(r, rs, score)[i] == r || Insert(r, rs, score)[i] in rs
  {
    if rs != [] && !(score(r) < score(rs[0])) {
      InsertRanked(r, rs[1..], score);
      var t := Insert(r, rs[1..], score);
      forall i | 0 <= i < |t| ensures score(rs[0]) <= score(t[i]) {
        if t[i] != r {
          var k :| 0 <= k < |rs[1..]| && rs[1..][k] == t[i];
          assert rs[k + 1] == t[i];
        }
      }
    }
  }

  /** Rank what matches; the insertion sort stands for the library's stable sort. */
  method RankedRoutes(rs: seq<Route>, f: Filter, score: Route -> real, now: int) returns (ranked: seq<Route>)
    ensures StableRanking(Filtered(rs, f, now), ranked, score)
  {
    var matching := FilterRoutes(rs, f, now);
    ranked := [];
    assert StableRanking(matching[..0], ranked, score);
    hide StableRanking, Filtered, Insert;
    for i := 0 to |matching|
      invariant StableRanking(matching[..i], ranked, score)
    {
      assert matching[..i + 1] == matching[..i] + [matching[i]];
      InsertStable(matching[..i], matching[i], ranked, score);
      ranked := Insert(matching[i], ranked, score);
    }
    assert matching[..|matching|] == matching;
  }

  lemma {:induction false} InsertStable(xs: seq<Route>, r: Route, ys: seq<Route>, score: Route -> real)
    requires StableRanking(xs, ys, score)
    ensures StableRanking(xs + [r], Insert(r, ys, score), score)
  {
    InsertRanked(r, ys, score);
    forall c ensures OfScore(Insert(r, ys, score), score, c) == OfScore(xs + [r], score, c) {
      InsertScores(r, ys, score, c);
      OfScoreConcat(xs, [r], score, c);
      OfScoreConcat(ys, [r], score, c);
    }
  }

  /** Every list has a stable ranking. */
  lemma {:induction false} RankingExists(xs: seq<Route>, score: Route -> real) returns (ys: seq<Route>)
    ensures StableRanking(xs, ys, score)
  {
    if xs == [] {
      ys := [];
    } else {
      var n := |xs| - 1;
      ys := RankingExists(xs[..n], score);
      InsertStable(xs[..n], xs[n], ys, score);
      ys := Insert(xs[n], ys, score);
      assert xs[..n] + [xs[n]] == xs;
    }
  }

  // ----- what a stable ranking is

  lemma {:induction false} OfScoreMember(rs: seq<Route>, score: Route -> real, c: real, r: Route)
    ensures r in OfScore(rs, score, c) <==> r in rs && score(r) == c
  {
    if rs != [] {
      OfScoreMember(rs[1..], score, c, r);
      assert r in rs <==> r == rs[0] || r in rs[1..];
    }
  }

  /** The first route of a score is the first of its class. */
  lemma {:induction false} FirstOfScore(rs: seq<Route>, score: Route -> real, i: nat)
    requires i < |rs| && forall j :: 0 <= j < i ==> score(rs[j]) != score(rs[i])
    ensures var own := OfScore(rs, score, score(rs[i])); own != [] && own[0] == rs[i]
  {
    if i > 0 {
      assert rs[1..][i - 1] == rs[i];
      FirstOfScore(rs[1..], score, i - 1);
    }
  }

  /** Everything in one of the two has a route of its score in the other. */
  lemma ScoreIsShared(xs: seq<Route>, ys: seq<Route>, score: Route -> real, r: Route)
    requires (forall c :: OfScore(ys, score, c) == OfScore(xs, score, c)) && r in xs
    ensures r in ys
  {
    OfScoreMember(xs, score, score(r), r);
    OfScoreMember(ys, score, score(r), r);
  }

  /** The head of a stable ranking is the first least of the input; and the two are empty
      together. So one-pass selection and ranking agree on every input. */
  lemma {:induction false} HeadIsFirstLeast(xs: seq<Route>, ys: seq<Route>, score: Route -> real)
    requires StableRanking(xs, ys, score)
    ensures xs == [] <==> ys == []
    ensures forall i :: FirstLeast(xs, score, i) ==> ys != [] && ys[0] == xs[i]
  {
    if xs != [] { ScoreIsShared(xs, ys, score, xs[0]); }
    if ys != [] { ScoreIsShared(ys, xs, score, ys[0]); }
    forall i | FirstLeast(xs, score, i) ensures ys != [] && ys[0] == xs[i] {
      ScoreIsShared(xs, ys, score, xs[i]);
      ScoreIsShared(ys, xs, score, ys[0]);
      var k :| 0 <= k < |ys| && ys[k] == xs[i];
      var m :| 0 <= m < |xs| && xs[m] == ys[0];
      assert score(ys[0]) == score(xs[i]);
      FirstOfScore(xs, score, i);
      FirstOfScore(ys, score, 0);
    }
  }

  lemma EmptyTogether(ys: seq<Route>, zs: seq<Route>, score: Route -> real)
    requires forall c :: OfScore(ys, score, c) == OfScore(zs, score, c)
    ensures ys == [] ==> zs == []
  {
    if zs != [] {
      assert OfScore(ys, score, score(zs[0])) != [];
    }
  }

  lemma TailOfScore(rs: seq<Route>, score: Route -> real, c: real)
    requires rs != []
    ensures if score(rs[0]) == c
            then OfScore(rs, score, c) != [] && OfScore(rs[1..], score, c) == OfScore(rs, score, c)[1..]
            else OfScore(rs[1..], score, c) == OfScore(rs, score, c)
  {
  }

  /** There is only one stable ranking of a list. */
  lemma {:induction false} RankingIsUnique(ys: seq<Route>, zs: seq<Route>, score: Route -> real)
    requires Ranked(ys, score) && Ranked(zs, score)
    requires forall c :: OfScore(ys, score, c) == OfScore(zs, score, c)
    ensures ys == zs
  {
    if ys == [] {
      EmptyTogether(ys, zs, score);
    } else {
      ScoreIsShared(ys, zs, score, ys[0]);
      ScoreIsShared(zs, ys, score, zs[0]);
      var k :| 0 <= k < |zs| && zs[k] == ys[0];
      var m :| 0 <= m < |ys| && ys[m] == zs[0];
      FirstOfScore(ys, score, 0);
      FirstOfScore(zs, score, 0);
      assert ys[0] == zs[0];
      forall c ensures OfScore(ys[1..], score, c) == OfScore(zs[1..], score, c) {
        TailOfScore(ys, score, c);
        TailOfScore(zs, score, c);
      }
      RankingIsUnique(ys[1..], zs[1..], score);
    }
  }

  /** A stable ranking neither adds nor loses a route. */
  lemma {:induction false} RankingIsPermutation(xs: seq<Route>, ys: seq<Route>, score: Route -> real, r: Route)
    requires forall c :: OfScore(ys, score, c) == OfScore(xs, score, c)
    ensures multiset(ys)[r] == multiset(xs)[r]
  {
    CountInClass(xs, score, r);
    CountInClass(ys, score, r);
  }

  lemma {:induction false} CountInClass(rs: seq<Route>, score: Route -> real, r: Route)
    ensures multiset(rs)[r] == multiset(OfScore(rs, score, score(r)))[r]
  {
    if rs != [] {
      assert rs == [rs[0]] + rs[1..];
      CountInClass(rs[1..], score, r);
    }
  }

  lemma RankingKeepsLength(xs: seq<Route>, ys: seq<Route>, score: Route -> real)
    requires forall c :: OfScore(ys, score, c) == OfScore(xs, score, c)
    ensures |ys| == |xs|
  {
    forall r ensures multiset(ys)[r] == multiset(xs)[r] { RankingIsPermutation(xs, ys, score, r); }
    assert multiset(ys) == multiset(xs);
    assert |multiset(ys)| == |multiset(xs)|;
  }

  // ----- the table

  function Unexpired(rs: seq<Route>, now: int): seq<Route> {
    if rs == [] then []
    else (if Expired(rs[0], now) then [] else [rs[0]]) + Unexpired(rs[1..], now)
  }

  /** Dropping expired routes changes no later answer: at the time of pruning or after it,
      every filter finds the same routes in the same order. */
  lemma {:induction false} PruningIsInvisible(rs: seq<Route>, f: Filter, pruned: int, now: int)
    requires pruned <= now
    ensures Filtered(Unexpired(rs, pruned), f, now) == Filtered(rs, f, now)
  {
    if rs != [] {
      PruningIsInvisible(rs[1..], f, pruned, now);
      var head := if Expired(rs[0], pruned) then [] else [rs[0]];
      assert Unexpired(rs, pruned) == head + Unexpired(rs[1..], pruned);
      if head == [] {
        assert Unexpired(rs, pruned) == Unexpired(rs[1..], pruned);
      } else {
        assert Unexpired(rs, pruned)[1..] == Unexpired(rs[1..], pruned);
      }
    }
  }

  lemma {:induction false} UnexpiredOneMore(rs: seq<Route>, now: int, i: nat)
    requires i < |rs|
    ensures Unexpired(rs[..i + 1], now) == Unexpired(rs[..i], now) + if Expired(rs[i], now) then [] else [rs[i]]
  {
    var a, b := rs[..i], rs[..i + 1];
    if i == 0 {
      assert b == [rs[0]] && b[1..] == [];
    } else {
      assert a[1..] == rs[1..][..i - 1] && b[1..] == rs[1..][..i];
      UnexpiredOneMore(rs[1..], now, i - 1);
      hide Expired;
      var head := if Expired(rs[0], now) then [] else [rs[0]];
      var last := if Expired(rs[i], now) then [] else [rs[i]];
      assert head + (Unexpired(a[1..], now) + last) == head + Unexpired(a[1..], now) + last;
    }
  }

  /** A validated addition; an empty destination or a negative metric is refused. */
  function WithRoute(rs: seq<Route>, destination: string, metric: Metric, ttl: int, now: int): seq<Route> {
    if destination == "" || metric.latency < 0 || metric.throughput < 0 then rs
    else rs + [Route(destination, metric, now, if ttl > 0 then Some(now + ttl) else None, false, map[])]
  }

  method PruneRoutes(rs: seq<Route>, now: int) returns (live: seq<Route>)
    ensures live == Unexpired(rs, now)
  {
    live := [];
    for i := 0 to |rs|
      invariant live == Unexpired(rs[..i], now)
    {
      UnexpiredOneMore(rs, now, i);
      if !Expired(rs[i], now) {
        live := live + [rs[i]];
      }
    }
    assert rs[..|rs|] == rs;
  }

  class Engine {
    var routes: seq<Route>

    constructor ()
      ensures routes == []
    {
      routes := [];
    }

    method AddRouteWithTTL(destination: string, metric: Metric, ttl: int, now: int) returns (ok: bool)
      modifies this
      ensures routes == WithRoute(old(routes), destination, metric, ttl, now)
      ensures ok == (destination != "" && metric.latency >= 0 && metric.throughput >= 0)
      ensures routes == if ok then old(routes) + [Route(destination, metric, now, if ttl > 0 then Some(now + ttl) else None, false, map[])]
                        else old(routes)
    {
      if destination == "" { return false; }
      if metric.latency < 0 || metric.throughput < 0 { return false; }
      var expiresAt := None;
      if ttl > 0 {
        expiresAt := Some(now + ttl);
      }
      routes := routes + [Route(destination, metric, now, expiresAt, false, map[])];
      ok := true;
    }

    method Load(loaded: seq<Route>)
      modifies this
      ensures routes == loaded
    {
      routes := loaded;
    }

    method PruneExpired(now: int)
      modifies this
      ensures routes == Unexpired(old(routes), now)
      ensures forall f: Filter, later: int :: now <= later ==> Filtered(routes, f, later) == Filtered(old(routes), f, later)
    {
      var filtered := PruneRoutes(routes, now);
      forall f: Filter, later: int | now <= later
        ensures Filtered(filtered, f, later) == Filtered(routes, f, later)
      {
        PruningIsInvisible(routes, f, now, later);
      }
      routes := filtered;
    }
  }
}
