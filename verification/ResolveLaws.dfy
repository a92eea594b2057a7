/**
 What a resolution answers, in the fields of routes and requests.
 */
module ResolveLaws {
  import opened Options
  import opened Routing
  import opened Resolve

  function Limit(req: Request, lib: Lib): string {
    if lib.trim(req.maxScope) == "" then "global" else lib.trim(req.maxScope)
  }

  /** The limit is a scope, not narrower than what is asked for, and the count is not negative. */
  predicate WellAsked(req: Request, lib: Lib) {
    && Limit(req, lib) in {"site", "region", "global"}
    && (Limit(req, lib) == "site" ==> lib.trim(req.site) != "")
    && (Limit(req, lib) == "region" ==> lib.trim(req.site) != "" || lib.trim(req.region) != "")
    && req.alternatives >= 0
  }

  /** The scope is asked for and within the limit. */
  predicate Permitted(req: Request, scope: Scope, lib: Lib) {
    match scope
    case Site => lib.trim(req.site) != ""
    case Region => lib.trim(req.region) != "" && Limit(req, lib) != "site"
    case Global => Limit(req, lib) == "global"
  }

  function TagOf(r: Route, key: string): string { if key in r.tags then r.tags[key] else "" }

  /** The route belongs to the scope, is live and passes the filter. */
  predicate LiveMatch(r: Route, req: Request, scope: Scope, lib: Lib, now: int) {
    && Passes(r, req.filter, now)
    && var region, site := lib.trim(TagOf(r, "region")), lib.trim(TagOf(r, "site"));
       match scope
       case Site => site == lib.trim(req.site) && (lib.trim(req.region) == "" || region == lib.trim(req.region))
       case Region => region == lib.trim(req.region)
       case Global => region == "" && site == ""
  }

  function Penalty(req: Request): int { if req.satellitePenalty.Some? then req.satellitePenalty.value else 300 }

  lemma AskedInFields(req: Request, lib: Lib)
    ensures Valid(req, lib) <==> WellAsked(req, lib)
    ensures Valid(req, lib) ==> forall scope: Scope :: Open(Normalize(req, lib), scope) <==> Permitted(req, scope, lib)
  {
  }

  lemma {:induction false} CandidatesInFields(rs: seq<Route>, q: Query, scope: Scope, lib: Lib, r: Route)
    ensures r in Candidates(rs, q, scope, lib) <==> r in rs && InScope(r, q, scope, lib)
  {
    hide InScope;
    if rs != [] {
      CandidatesInFields(rs[1..], q, scope, lib, r);
      assert r in rs <==> r == rs[0] || r in rs[1..];
    }
  }

  lemma HitsInFields(rs: seq<Route>, req: Request, scope: Scope, lib: Lib, clock: Scope -> int, r: Route)
    ensures r in Hits(rs, req, scope, lib, clock) <==> r in rs && LiveMatch(r, req, scope, lib, clock(scope))
  {
    var q := Normalize(req, lib);
    CandidatesInFields(rs, q, scope, lib, r);
    FilteredInFields(Candidates(rs, q, scope, lib), req.filter, clock(scope), r);
    hide Candidates, Filtered, Passes;
  }

  /** Some route of the scope is live and matches. */
  ghost predicate Holds(rs: seq<Route>, req: Request, scope: Scope, lib: Lib, clock: Scope -> int) {
    exists r :: r in rs && LiveMatch(r, req, scope, lib, clock(scope))
  }

  lemma AnswersInFields(rs: seq<Route>, req: Request, scope: Scope, lib: Lib, clock: Scope -> int)
    requires Valid(req, lib)
    ensures Answers(rs, req, scope, lib, clock) <==> Permitted(req, scope, lib) && Holds(rs, req, scope, lib, clock)
  {
    AskedInFields(req, lib);
    var hits := Hits(rs, req, scope, lib, clock);
    hide Hits, LiveMatch, Open, Permitted, WellAsked, Normalize;
    if hits != [] {
      HitsInFields(rs, req, scope, lib, clock, hits[0]);
    }
    if Holds(rs, req, scope, lib, clock) {
      var r :| r in rs && LiveMatch(r, req, scope, lib, clock(scope));
      HitsInFields(rs, req, scope, lib, clock, r);
    }
  }

  /** Which reply a request gets: an error if it is not well asked, nothing if no permitted scope
      holds a live match, and otherwise the narrowest that does, or the crash. */
  lemma ReplyInFields(rs: seq<Route>, req: Request, lib: Lib, clock: Scope -> int, reply: Reply)
    requires Resolved(rs, req, lib, clock, reply)
    ensures reply.BadRequest? <==> !WellAsked(req, lib)
    ensures reply.NotFound? <==>
            WellAsked(req, lib) && forall scope: Scope :: !(Permitted(req, scope, lib) && Holds(rs, req, scope, lib, clock))
    ensures reply.Found? ==>
              && Permitted(req, reply.scope, lib) && Holds(rs, req, reply.scope, lib, clock)
              && forall s: Scope :: s.Rank() < reply.scope.Rank() ==> !(Permitted(req, s, lib) && Holds(rs, req, s, lib, clock))
  {
    AskedInFields(req, lib);
    if Valid(req, lib) {
      forall s: Scope
        ensures Answers(rs, req, s, lib, clock) <==> Permitted(req, s, lib) && Holds(rs, req, s, lib, clock)
      {
        AnswersInFields(rs, req, s, lib, clock);
      }
      hide Hits, StableRanking, Log, Holds, Permitted, WellAsked, Normalize, Answers;
    }
  }

  /** Scopes are narrow to wide: site, region, global. */
  lemma RanksInOrder()
    ensures Site.Rank() < Region.Rank() < Global.Rank()
  {
  }

  /** Where whole numbers are not rounded: the route returned is a live match of its scope, and none
      costs less. */
  lemma {:induction false} BestInFields(rs: seq<Route>, req: Request, lib: Lib, clock: Scope -> int, reply: Reply, r: Route)
    requires Resolved(rs, req, lib, clock, reply) && reply.Found? && forall n: int :: RoundsTo(lib.round, n)
    ensures reply.route in rs && LiveMatch(reply.route, req, reply.scope, lib, clock(reply.scope))
    ensures r in rs && LiveMatch(r, req, reply.scope, lib, clock(reply.scope)) ==>
              Cost(reply.route, Penalty(req)) <= Cost(r, Penalty(req))
  {
    var ranked := RankedHits(rs, req, lib, clock, reply);
    var hits, score := Hits(rs, req, reply.scope, lib, clock), Scoring(req, lib);
    ScoreIsShared(ranked, hits, score, ranked[0]);
    HitsInFields(rs, req, reply.scope, lib, clock, ranked[0]);
    HitsInFields(rs, req, reply.scope, lib, clock, r);
    if r in hits {
      ScoreIsShared(hits, ranked, score, r);
      ScoreIsCost(ranked[0], Penalty(req), lib.round);
      ScoreIsCost(r, Penalty(req), lib.round);
      var k :| 0 <= k < |ranked| && ranked[k] == r;
      assert score(ranked[0]) <= score(ranked[k]);
    }
  }

  lemma RankedHits(rs: seq<Route>, req: Request, lib: Lib, clock: Scope -> int, reply: Reply) returns (ranked: seq<Route>)
    requires Resolved(rs, req, lib, clock, reply) && reply.Found?
    ensures StableRanking(Hits(rs, req, reply.scope, lib, clock), ranked, Scoring(req, lib))
    ensures ranked != [] && reply.route == ranked[0]
    ensures reply.alternatives == if req.alternatives > 0 then Some(ranked[1..1 + Min(req.alternatives, |ranked| - 1)]) else None
    ensures |ranked| == |Hits(rs, req, reply.scope, lib, clock)|
  {
    hide Hits, StableRanking, Log, Answers, Normalize, Scoring;
    var scope, ys :| Narrowest(rs, req, scope, lib, clock)
                     && StableRanking(Hits(rs, req, scope, lib, clock), ys, Scoring(req, lib))
                     && ys != [] && Promised(reply, req, scope, ys, Log(rs, req, lib, clock, scope.Rank()));
    ranked := ys;
    StableLength(Hits(rs, req, scope, lib, clock), ys, Scoring(req, lib));
  }

  lemma StableLength(xs: seq<Route>, ys: seq<Route>, score: Route -> real)
    requires StableRanking(xs, ys, score)
    ensures |ys| == |xs|
  {
    RankingKeepsLength(xs, ys, score);
  }

  /** The alternatives: other live matches of the scope in order of cost, none cheaper than the
      route returned, as many as asked for or as there are besides it. */
  lemma {:induction false} AlternativesInFields(rs: seq<Route>, req: Request, lib: Lib, clock: Scope -> int, reply: Reply)
    requires Resolved(rs, req, lib, clock, reply) && reply.Found? && forall n: int :: RoundsTo(lib.round, n)
    ensures reply.alternatives.Some? <==> req.alternatives > 0
    ensures reply.alternatives.Some? ==>
              var alts, matches := reply.alternatives.value, |Hits(rs, req, reply.scope, lib, clock)|;
              && |alts| == (if req.alternatives < matches - 1 then req.alternatives else matches - 1)
              && (forall i :: 0 <= i < |alts| ==>
                    && alts[i] in rs && LiveMatch(alts[i], req, reply.scope, lib, clock(reply.scope))
                    && Cost(reply.route, Penalty(req)) <= Cost(alts[i], Penalty(req)))
              && (forall i, j :: 0 <= i < j < |alts| ==> Cost(alts[i], Penalty(req)) <= Cost(alts[j], Penalty(req)))
  {
    var ranked := RankedHits(rs, req, lib, clock, reply);
    forall i | 0 <= i < |ranked|
      ensures ranked[i] in rs && LiveMatch(ranked[i], req, reply.scope, lib, clock(reply.scope))
      ensures Scoring(req, lib)(ranked[i]) == Cost(ranked[i], Penalty(req)) as real
    {
      ScoreIsShared(ranked, Hits(rs, req, reply.scope, lib, clock), Scoring(req, lib), ranked[i]);
      HitsInFields(rs, req, reply.scope, lib, clock, ranked[i]);
      ScoreIsCost(ranked[i], Penalty(req), lib.round);
    }
    hide Hits, LiveMatch, Cost;
  }

  /** The line of an explanation for a scope, if it is permitted and not wider than the last one
      tried: how many routes it has, how many of them are live matches, and whether any is. */
  function Line(rs: seq<Route>, req: Request, scope: Scope, lib: Lib, clock: Scope -> int, last: Scope): seq<Attempt> {
    if Permitted(req, scope, lib) && (scope == Site || (scope == Region && last != Site) || last == Global) then
      var matches := |Hits(rs, req, scope, lib, clock)|;
      [Attempt(scope, |Candidates(rs, Normalize(req, lib), scope, lib)|, matches, matches > 0)]
    else []
  }

  /** An explanation lists, narrowest first, the permitted scopes up to the one that answered, or all
      of them if none did. */
  lemma ExplanationInFields(rs: seq<Route>, req: Request, lib: Lib, clock: Scope -> int, reply: Reply)
    requires Resolved(rs, req, lib, clock, reply) && (reply.Found? || reply.NotFound?)
    ensures var last := if reply.Found? then reply.scope else Global;
            reply.explanation ==
            if req.explain
            then Some(Line(rs, req, Site, lib, clock, last) + Line(rs, req, Region, lib, clock, last) + Line(rs, req, Global, lib, clock, last))
            else None
  {
    AskedInFields(req, lib);
    var last := if reply.Found? then reply.scope else Global;
    LinesAreTried(rs, req, lib, clock, last);
    hide Hits, StableRanking, Normalize, Answers, WellAsked, Permitted, Line, Tried;
  }

  lemma LinesAreTried(rs: seq<Route>, req: Request, lib: Lib, clock: Scope -> int, last: Scope)
    ensures Valid(req, lib) ==>
              forall scope: Scope :: Line(rs, req, scope, lib, clock, last) == Tried(rs, req, scope, lib, clock, last.Rank())
  {
    AskedInFields(req, lib);
    hide Hits, Candidates, Permitted, WellAsked;
    if Valid(req, lib) {
      forall scope: Scope ensures Line(rs, req, scope, lib, clock, last) == Tried(rs, req, scope, lib, clock, last.Rank()) {
      }
    }
  }

  /** A batch item under defaults, field by field: its own value if it has one, else the default's,
      else nothing. */
  lemma MergeInFields(d: Input, item: Input, lib: Lib)
    ensures var r := Merge(Some(d), item, lib);
            && r.region == (if item.region.Some? then lib.trim(item.region.value) else if d.region.Some? then lib.trim(d.region.value) else "")
            && r.site == (if item.site.Some? then lib.trim(item.site.value) else if d.site.Some? then lib.trim(d.site.value) else "")
            && r.maxScope == (if item.maxScope.Some? then lib.trim(item.maxScope.value) else if d.maxScope.Some? then lib.trim(d.maxScope.value) else "")
            && r.explain == (if item.explain.Some? then item.explain.value else d.explain == Some(true))
            && r.alternatives == (if item.alternatives.Some? then item.alternatives.value else if d.alternatives.Some? then d.alternatives.value else 0)
            && r.filter.maxLatency == (if item.maxLatency.Some? then item.maxLatency.value else if d.maxLatency.Some? then d.maxLatency.value else 0)
            && r.filter.minThroughput == (if item.minThroughput.Some? then item.minThroughput.value else if d.minThroughput.Some? then d.minThroughput.value else 0)
            && r.filter.satellite == (if item.satellite.Some? then item.satellite else d.satellite)
            && r.filter.tags == (if item.tags.Some? then item.tags.value else if d.tags.Some? then d.tags.value else map[])
            && r.satellitePenalty == (if item.satellitePenalty.Some? then item.satellitePenalty else d.satellitePenalty)
  {
  }
}
