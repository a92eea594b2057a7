/**
 Scoped route resolution: answer from the narrowest scope that was asked for, is allowed,
 and holds a live matching route, and fall back to the wider ones. Blank trimming and rounding
 are left uninterpreted; `clock(scope)` is the instant at which a scope is ranked.
 */
module Resolve {
  import opened Options
  import opened Routing

  /** What the resolver takes from libraries: trimming of blanks, and the rounding of floating
      point. */
  datatype Lib = Lib(trim: string -> string, round: real -> real)

  const MAX_INT: int := 0x7FFF_FFFF_FFFF_FFFF

  type Int64 = x: int | -MAX_INT - 1 <= x <= MAX_INT

  /** Signed 64-bit addition of one, with wrap-around. */
  function Successor(x: Int64): Int64 { if x == MAX_INT then -MAX_INT - 1 else x + 1 }

  datatype Scope = Site | Region | Global {
    function Rank(): nat {
      match this
      case Site => 1
      case Region => 2
      case Global => 3
    }
  }

  function ParseScope(text: string): Option<Scope> {
    if text == "site" then Some(Site)
    else if text == "region" then Some(Region)
    else if text == "global" then Some(Global)
    else None
  }

  datatype Request = Request(
    region: string,
    site: string,
    maxScope: string,
    explain: bool,
    alternatives: Int64,
    filter: Filter,
    satellitePenalty: Option<int>
  )

  /** One line of an explanation: a scope that was tried, and how far it got. */
  datatype Attempt = Attempt(scope: Scope, candidates: nat, matching: nat, selected: bool)

  /** A reply. `Crash` is the out-of-range slice that ends the handler instead. */
  datatype Reply =
    | BadRequest
    | NotFound(explanation: Option<seq<Attempt>>)
    | Found(scope: Scope, route: Route, alternatives: Option<seq<Route>>, explanation: Option<seq<Attempt>>)
    | Crash

  // ----- what the request means

  datatype Query = Query(region: string, site: string, maxScope: Option<Scope>)

  function Normalize(req: Request, lib: Lib): Query {
    var limit := lib.trim(req.maxScope);
    Query(lib.trim(req.region), lib.trim(req.site), ParseScope(if limit == "" then "global" else limit))
  }

  function BaseScope(q: Query): Scope {
    if q.site != "" then Site else if q.region != "" then Region else Global
  }

  predicate Valid(req: Request, lib: Lib) {
    var q := Normalize(req, lib);
    && q.maxScope.Some?
    && BaseScope(q).Rank() <= q.maxScope.value.Rank()
    && req.alternatives >= 0
  }

  /** The scope was asked for: the global one always is. */
  predicate Requested(q: Query, scope: Scope) {
    match scope
    case Site => q.site != ""
    case Region => q.region != ""
    case Global => true
  }

  predicate Open(q: Query, scope: Scope)
    requires q.maxScope.Some?
  {
    Requested(q, scope) && scope.Rank() <= q.maxScope.value.Rank()
  }

  predicate InScope(r: Route, q: Query, scope: Scope, lib: Lib) {
    match scope
    case Site => lib.trim(Tag(r.tags, "site")) == q.site && (q.region != "" ==> lib.trim(Tag(r.tags, "region")) == q.region)
    case Region => lib.trim(Tag(r.tags, "region")) == q.region
    case Global => lib.trim(Tag(r.tags, "region")) == "" && lib.trim(Tag(r.tags, "site")) == ""
  }

  function Candidates(rs: seq<Route>, q: Query, scope: Scope, lib: Lib): seq<Route> {
    if rs == [] then []
    else (if InScope(rs[0], q, scope, lib) then [rs[0]] else []) + Candidates(rs[1..], q, scope, lib)
  }

  /** The live matching routes of a scope. */
  function Hits(rs: seq<Route>, req: Request, scope: Scope, lib: Lib, clock: Scope -> int): seq<Route> {
    Filtered(Candidates(rs, Normalize(req, lib), scope, lib), req.filter, clock(scope))
  }

  /** The scope can answer: it is open and holds a live matching route. */
  predicate Answers(rs: seq<Route>, req: Request, scope: Scope, lib: Lib, clock: Scope -> int)
    requires Normalize(req, lib).maxScope.Some?
  {
    Open(Normalize(req, lib), scope) && Hits(rs, req, scope, lib, clock) != []
  }

  predicate Narrowest(rs: seq<Route>, req: Request, scope: Scope, lib: Lib, clock: Scope -> int)
    requires Normalize(req, lib).maxScope.Some?
  {
    && Answers(rs, req, scope, lib, clock)
    && forall s: Scope :: s.Rank() < scope.Rank() ==> !Answers(rs, req, s, lib, clock)
  }

  /** The attempts an explanation lists: the open scopes up to a rank, narrowest first. */
  function AttemptAt(rs: seq<Route>, req: Request, scope: Scope, lib: Lib, clock: Scope -> int): Attempt {
    var hits := Hits(rs, req, scope, lib, clock);
    Attempt(scope, |Candidates(rs, Normalize(req, lib), scope, lib)|, |hits|, hits != [])
  }

  function Tried(rs: seq<Route>, req: Request, scope: Scope, lib: Lib, clock: Scope -> int, limit: nat): seq<Attempt>
    requires Normalize(req, lib).maxScope.Some?
  {
    if Open(Normalize(req, lib), scope) && scope.Rank() <= limit then [AttemptAt(rs, req, scope, lib, clock)] else []
  }

  function Log(rs: seq<Route>, req: Request, lib: Lib, clock: Scope -> int, limit: nat): seq<Attempt>
    requires Normalize(req, lib).maxScope.Some?
  {
    Tried(rs, req, Site, lib, clock, limit) + Tried(rs, req, Region, lib, clock, limit)
    + Tried(rs, req, Global, lib, clock, limit)
  }

  function Explained(req: Request, log: seq<Attempt>): Option<seq<Attempt>> {
    if req.explain then Some(log) else None
  }

  function PenaltyOf(req: Request): int {
    if req.satellitePenalty.Some? then req.satellitePenalty.value else SATELLITE_PENALTY_MS
  }

  function ScoringBy(penalty: int, lib: Lib): Route -> real {
    (r: Route) => Score(r, penalty, lib.round)
  }

  function Scoring(req: Request, lib: Lib): Route -> real {
    ScoringBy(PenaltyOf(req), lib)
  }

  function Min(a: int, b: int): int { if a <= b then a else b }

  /** The reply promised for the scope that answers, given its ranking: the best route and the
      next ones, as many as asked for and available. The slice bound overflows, and the
      handler crashes, only for the largest count and more than one match. */
  ghost predicate Promised(reply: Reply, req: Request, scope: Scope, ranked: seq<Route>, log: seq<Attempt>)
    requires ranked != []
  {
    if req.alternatives == MAX_INT && |ranked| > 1 then reply.Crash?
    else
      && reply.Found? && reply.scope == scope && reply.route == ranked[0]
      && (reply.alternatives.Some? <==> req.alternatives > 0)
      && (req.alternatives > 0 ==>
            reply.alternatives.value == ranked[1..1 + Min(req.alternatives, |ranked| - 1)])
      && reply.explanation == Explained(req, log)
  }

  /** The whole promise of a resolution. */
  ghost predicate Resolved(rs: seq<Route>, req: Request, lib: Lib, clock: Scope -> int, reply: Reply) {
    if !Valid(req, lib) then reply.BadRequest?
    else if forall s: Scope :: !Answers(rs, req, s, lib, clock) then
      reply == NotFound(Explained(req, Log(rs, req, lib, clock, Global.Rank())))
    else
      exists scope, ranked ::
        && Narrowest(rs, req, scope, lib, clock)
        && StableRanking(Hits(rs, req, scope, lib, clock), ranked, Scoring(req, lib))
        && ranked != [] && Promised(reply, req, scope, ranked, Log(rs, req, lib, clock, scope.Rank()))
  }

  // ----- the resolver

  method CandidatesOf(rs: seq<Route>, q: Query, scope: Scope, lib: Lib) returns (found: seq<Route>)
    ensures found == Candidates(rs, q, scope, lib)
  {
    found := [];
    for i := 0 to |rs|
      invariant found == Candidates(rs[..i], q, scope, lib)
    {
      CandidatesOneMore(rs, q, scope, lib, i);
      if InScope(rs[i], q, scope, lib) {
        found := found + [rs[i]];
      }
    }
    assert rs[..|rs|] == rs;
  }

  lemma {:induction false} CandidatesOneMore(rs: seq<Route>, q: Query, scope: Scope, lib: Lib, i: nat)
    requires i < |rs|
    ensures Candidates(rs[..i + 1], q, scope, lib) ==
            Candidates(rs[..i], q, scope, lib) + if InScope(rs[i], q, scope, lib) then [rs[i]] else []
  {
    hide InScope;
    var a, b := rs[..i], rs[..i + 1];
    if i == 0 {
      assert b == [rs[0]] && b[1..] == [];
    } else {
      assert a[1..] == rs[1..][..i - 1] && b[1..] == rs[1..][..i];
      CandidatesOneMore(rs[1..], q, scope, lib, i - 1);
      var head := if InScope(rs[0], q, scope, lib) then [rs[0]] else [];
      var last := if InScope(rs[i], q, scope, lib) then [rs[i]] else [];
      var mid := Candidates(a[1..], q, scope, lib);
      assert head + (mid + last) == head + mid + last;
    }
  }

  /** Try one scope: rank its candidates, log the attempt, and answer if anything matched. */
  method SelectScope(rs: seq<Route>, req: Request, scope: Scope, lib: Lib, clock: Scope -> int,
                     attempts: seq<Attempt>)
    returns (reply: Option<Reply>, attempts': seq<Attempt>)
    requires req.alternatives >= 0
    ensures reply.None? <==> Hits(rs, req, scope, lib, clock) == []
    ensures reply.Some? ==>
              exists ranked :: StableRanking(Hits(rs, req, scope, lib, clock), ranked, Scoring(req, lib)) &&
                               ranked != [] && Promised(reply.value, req, scope, ranked, attempts')
    ensures attempts' == attempts + [AttemptAt(rs, req, scope, lib, clock)]
  {
    var candidates := CandidatesOf(rs, Normalize(req, lib), scope, lib);
    var ranked := RankedRoutes(candidates, req.filter, Scoring(req, lib), clock(scope));
    HeadIsFirstLeast(Hits(rs, req, scope, lib, clock), ranked, Scoring(req, lib));
    RankingKeepsLength(Hits(rs, req, scope, lib, clock), ranked, Scoring(req, lib));
    if |ranked| == 0 { return None, attempts + [Attempt(scope, |candidates|, |ranked|, false)]; }
    attempts' := attempts + [Attempt(scope, |candidates|, |ranked|, true)];
    var alternatives := None;
    if req.alternatives > 0 {
      alternatives := Some([]);
      if |ranked| > 1 {
        var end := Successor(req.alternatives);
        if end > |ranked| {
          end := |ranked|;
        }
        if end < 1 {
          assert Promised(Crash, req, scope, ranked, attempts');
          return Some(Crash), attempts';
        }
        alternatives := Some(ranked[1..end]);
      }
    }
    var explanation := if req.explain then Some(attempts') else None;
    reply := Some(Found(scope, ranked[0], alternatives, explanation));
    assert Promised(reply.value, req, scope, ranked, attempts');
  }

  lemma FoundIsResolved(rs: seq<Route>, req: Request, lib: Lib, clock: Scope -> int,
                        scope: Scope, reply: Reply)
    requires Valid(req, lib) && Narrowest(rs, req, scope, lib, clock)
    requires exists ranked :: StableRanking(Hits(rs, req, scope, lib, clock), ranked, Scoring(req, lib)) &&
                              ranked != [] && Promised(reply, req, scope, ranked, Log(rs, req, lib, clock, scope.Rank()))
    ensures Resolved(rs, req, lib, clock, reply)
  {
    hide Hits, StableRanking, Promised, Normalize, Answers, Scoring, Log;
    assert Answers(rs, req, scope, lib, clock);
  }

  /** Try a scope if it was asked for and is allowed; otherwise pass it over. */
  method TryScope(rs: seq<Route>, req: Request, scope: Scope, lib: Lib, clock: Scope -> int,
                  attempts: seq<Attempt>)
    returns (reply: Option<Reply>, attempts': seq<Attempt>)
    requires Valid(req, lib)
    ensures reply.Some? <==> Answers(rs, req, scope, lib, clock)
    ensures reply.Some? ==>
              exists ranked :: StableRanking(Hits(rs, req, scope, lib, clock), ranked, Scoring(req, lib)) &&
                               ranked != [] && Promised(reply.value, req, scope, ranked, attempts')
    ensures attempts' == attempts + Tried(rs, req, scope, lib, clock, 3)
  {
    hide Hits, StableRanking, Promised, Normalize, Scoring, AttemptAt;
    if Open(Normalize(req, lib), scope) {
      reply, attempts' := SelectScope(rs, req, scope, lib, clock, attempts);
    } else {
      reply, attempts' := None, attempts;
    }
  }

  lemma LogParts(rs: seq<Route>, req: Request, lib: Lib, clock: Scope -> int)
    requires Valid(req, lib)
    ensures var site, region, global := Tried(rs, req, Site, lib, clock, 3), Tried(rs, req, Region, lib, clock, 3),
                                        Tried(rs, req, Global, lib, clock, 3);
            && Log(rs, req, lib, clock, Site.Rank()) == site
            && Log(rs, req, lib, clock, Region.Rank()) == site + region
            && Log(rs, req, lib, clock, Global.Rank()) == site + region + global
  {
    hide AttemptAt, Normalize;
  }

  lemma FirstAnswer(rs: seq<Route>, req: Request, scope: Scope, lib: Lib, clock: Scope -> int)
    requires Valid(req, lib) && Answers(rs, req, scope, lib, clock)
    requires scope != Site ==> !Answers(rs, req, Site, lib, clock)
    requires scope == Global ==> !Answers(rs, req, Region, lib, clock)
    ensures Narrowest(rs, req, scope, lib, clock)
  {
    hide Answers, Normalize;
  }

  method ResolveRoute(rs: seq<Route>, req: Request, lib: Lib, clock: Scope -> int) returns (reply: Reply)
    ensures Resolved(rs, req, lib, clock, reply)
  {
    var q := Normalize(req, lib);
    hide Hits, StableRanking;
    if q.maxScope.None? { return BadRequest; }
    if q.maxScope.value.Rank() < BaseScope(q).Rank() { return BadRequest; }
    if req.alternatives < 0 { return BadRequest; }
    assert Valid(req, lib);
    hide *;
    LogParts(rs, req, lib, clock);
    var attempts := [];
    var r: Option<Reply>;
    r, attempts := TryScope(rs, req, Site, lib, clock, attempts);
    assert attempts == Tried(rs, req, Site, lib, clock, 3);
    if r.Some? {
      FirstAnswer(rs, req, Site, lib, clock);
      FoundIsResolved(rs, req, lib, clock, Site, r.value);
      return r.value;
    }
    r, attempts := TryScope(rs, req, Region, lib, clock, attempts);
    if r.Some? {
      FirstAnswer(rs, req, Region, lib, clock);
      FoundIsResolved(rs, req, lib, clock, Region, r.value);
      return r.value;
    }
    r, attempts := TryScope(rs, req, Global, lib, clock, attempts);
    if r.Some? {
      FirstAnswer(rs, req, Global, lib, clock);
      FoundIsResolved(rs, req, lib, clock, Global, r.value);
      return r.value;
    }
    reply := NotFound(Explained(req, attempts));
    NothingIsResolved(rs, req, lib, clock, reply);
  }

  lemma NothingIsResolved(rs: seq<Route>, req: Request, lib: Lib, clock: Scope -> int, reply: Reply)
    requires Valid(req, lib) && !Answers(rs, req, Site, lib, clock) && !Answers(rs, req, Region, lib, clock)
    requires !Answers(rs, req, Global, lib, clock)
    requires reply == NotFound(Explained(req, Log(rs, req, lib, clock, Global.Rank())))
    ensures Resolved(rs, req, lib, clock, reply)
  {
    hide Answers, Normalize, Log;
    forall s: Scope ensures !Answers(rs, req, s, lib, clock) {
      match s
      case Site =>
      case Region =>
      case Global =>
    }
  }

  /** There is at most one narrowest answering scope, so the reply is determined. */
  lemma NarrowestIsUnique(rs: seq<Route>, req: Request, s: Scope, t: Scope, lib: Lib, clock: Scope -> int)
    requires Normalize(req, lib).maxScope.Some?
    requires Narrowest(rs, req, s, lib, clock) && Narrowest(rs, req, t, lib, clock)
    ensures s == t
  {
  }

  lemma PromisedIsUnique(a: Reply, b: Reply, req: Request, scope: Scope, ranked: seq<Route>, log: seq<Attempt>)
    requires ranked != [] && Promised(a, req, scope, ranked, log) && Promised(b, req, scope, ranked, log)
    ensures a == b
  {
  }

  lemma RankingsAgree(xs: seq<Route>, ys: seq<Route>, zs: seq<Route>, score: Route -> real)
    requires StableRanking(xs, ys, score) && StableRanking(xs, zs, score)
    ensures ys == zs
  {
    RankingIsUnique(ys, zs, score);
  }

  lemma ValidHasLimit(req: Request, lib: Lib)
    requires Valid(req, lib)
    ensures Normalize(req, lib).maxScope.Some?
  {
  }

  /** The promise leaves nothing open: any two replies that keep it are the same reply. */
  lemma ReplyIsDetermined(rs: seq<Route>, req: Request, lib: Lib, clock: Scope -> int, a: Reply, b: Reply)
    requires Resolved(rs, req, lib, clock, a) && Resolved(rs, req, lib, clock, b)
    ensures a == b
  {
    hide Hits, Log, Explained, StableRanking, Normalize, Promised, Scoring, Valid, Narrowest, Answers;
    if Valid(req, lib) {
      ValidHasLimit(req, lib);
      if exists s: Scope :: Answers(rs, req, s, lib, clock) {
        var s, ys :| Narrowest(rs, req, s, lib, clock) && StableRanking(Hits(rs, req, s, lib, clock), ys, Scoring(req, lib))
                     && ys != [] && Promised(a, req, s, ys, Log(rs, req, lib, clock, s.Rank()));
        var t, zs :| Narrowest(rs, req, t, lib, clock) && StableRanking(Hits(rs, req, t, lib, clock), zs, Scoring(req, lib))
                     && zs != [] && Promised(b, req, t, zs, Log(rs, req, lib, clock, t.Rank()));
        hide Resolved;
        NarrowestIsUnique(rs, req, s, t, lib, clock);
        RankingsAgree(Hits(rs, req, s, lib, clock), ys, zs, Scoring(req, lib));
        PromisedIsUnique(a, b, req, s, ys, Log(rs, req, lib, clock, s.Rank()));
      }
    }
  }

  // ----- the crash

  lemma CrashNeedsOverflow(rs: seq<Route>, req: Request, lib: Lib, clock: Scope -> int) returns (scope: Scope)
    requires Resolved(rs, req, lib, clock, Crash)
    ensures Valid(req, lib) && req.alternatives == MAX_INT
    ensures Narrowest(rs, req, scope, lib, clock) && |Hits(rs, req, scope, lib, clock)| > 1
  {
    var s, ys :| Narrowest(rs, req, s, lib, clock) && StableRanking(Hits(rs, req, s, lib, clock), ys, Scoring(req, lib))
                 && ys != [] && Promised(Crash, req, s, ys, Log(rs, req, lib, clock, s.Rank()));
    scope := s;
    hide Narrowest, Log, Hits;
    RankingKeepsLength(Hits(rs, req, s, lib, clock), ys, Scoring(req, lib));
  }

  ghost predicate Overflows(rs: seq<Route>, req: Request, lib: Lib, clock: Scope -> int) {
    && Valid(req, lib) && req.alternatives == MAX_INT
    && exists s: Scope :: Narrowest(rs, req, s, lib, clock) && |Hits(rs, req, s, lib, clock)| > 1
  }

  /** The handler crashes if and only if a valid request asks for the largest number of
      alternatives there is and the scope that answers has more than one live match. */
  lemma CrashIff(rs: seq<Route>, req: Request, lib: Lib, clock: Scope -> int)
    ensures Resolved(rs, req, lib, clock, Crash) <==> Overflows(rs, req, lib, clock)
  {
    if Resolved(rs, req, lib, clock, Crash) {
      var s := CrashNeedsOverflow(rs, req, lib, clock);
    }
    if Overflows(rs, req, lib, clock) {
      hide Resolved, Hits, Narrowest, Valid;
      ValidHasLimit(req, lib);
      var s :| Narrowest(rs, req, s, lib, clock) && |Hits(rs, req, s, lib, clock)| > 1;
      var ys := RankingExists(Hits(rs, req, s, lib, clock), Scoring(req, lib));
      RankingKeepsLength(Hits(rs, req, s, lib, clock), ys, Scoring(req, lib));
      assert Promised(Crash, req, s, ys, Log(rs, req, lib, clock, s.Rank()));
      FoundIsResolved(rs, req, lib, clock, s, Crash);
    }
  }

  /** Two untagged routes that do not expire, and one request, are enough. */
  lemma CrashHappens(a: Route, b: Route, lib: Lib, clock: Scope -> int)
    requires a.tags == b.tags == map[] && a.expiresAt == b.expiresAt == None && lib.trim("") == ""
    ensures var req := Request("", "", "", false, MAX_INT, Filter(0, 0, None, map[]), None);
            Resolved([a, b], req, lib, clock, Crash)
  {
    var req := Request("", "", "", false, MAX_INT, Filter(0, 0, None, map[]), None);
    var q := Query("", "", Some(Global));
    assert Normalize(req, lib) == q;
    var rs := [a, b];
    assert InScope(a, q, Global, lib) && InScope(b, q, Global, lib);
    assert rs[1..] == [b] && [b][1..] == [];
    assert Candidates([b], q, Global, lib) == [b];
    assert Candidates(rs, q, Global, lib) == rs;
    assert Matches(a, req.filter, clock(Global)) && Matches(b, req.filter, clock(Global));
    assert Filtered([b], req.filter, clock(Global)) == [b];
    assert Hits(rs, req, Global, lib, clock) == rs;
    assert Narrowest(rs, req, Global, lib, clock);
    CrashIff(rs, req, lib, clock);
  }

  // ----- the batch

  function CountOf(replies: seq<Reply>, status: Reply -> bool): nat {
    if replies == [] then 0
    else CountOf(replies[..|replies| - 1], status) + if status(replies[|replies| - 1]) then 1 else 0
  }

  datatype Summary = Summary(ok: nat, notFound: nat, invalid: nat)

  /** A request of a batch, whose fields may be missing. */
  datatype Input = Input(
    region: Option<string>,
    site: Option<string>,
    maxScope: Option<string>,
    explain: Option<bool>,
    alternatives: Option<Int64>,
    maxLatency: Option<int>,
    minThroughput: Option<int>,
    satellite: Option<bool>,
    tags: Option<map<string, string>>,
    satellitePenalty: Option<int>
  )

  const EMPTY_INPUT := Input(None, None, None, None, None, None, None, None, None, None)

  /** The request an item stands for under the batch's defaults, field by field. */
  function Merge(defaults: Option<Input>, item: Input, lib: Lib): Request {
    var d := Or(defaults, EMPTY_INPUT);
    var trimmed := (o: Option<string>, p: Option<string>) =>
      if o.Some? then lib.trim(o.value) else if p.Some? then lib.trim(p.value) else "";
    Request(
      trimmed(item.region, d.region),
      trimmed(item.site, d.site),
      trimmed(item.maxScope, d.maxScope),
      Or(item.explain, Or(d.explain, false)),
      Or(item.alternatives, Or(d.alternatives, 0)),
      Filter(
        Or(item.maxLatency, Or(d.maxLatency, 0)),
        Or(item.minThroughput, Or(d.minThroughput, 0)),
        Else(item.satellite, d.satellite),
        Or(item.tags, Or(d.tags, map[]))),
      Else(item.satellitePenalty, d.satellitePenalty))
  }

  /** The item with the fields it lacks taken from the defaults. */
  function Filled(d: Input, item: Input): Input {
    Input(Else(item.region, d.region), Else(item.site, d.site), Else(item.maxScope, d.maxScope),
          Else(item.explain, d.explain), Else(item.alternatives, d.alternatives),
          Else(item.maxLatency, d.maxLatency), Else(item.minThroughput, d.minThroughput),
          Else(item.satellite, d.satellite), Else(item.tags, d.tags), Else(item.satellitePenalty, d.satellitePenalty))
  }

  /** The request a filled-in item would make on its own, without the merge's trimming. */
  function Plain(i: Input): Request {
    Request(Or(i.region, ""), Or(i.site, ""), Or(i.maxScope, ""), Or(i.explain, false), Or(i.alternatives, 0),
            Filter(Or(i.maxLatency, 0), Or(i.minThroughput, 0), i.satellite, Or(i.tags, map[])), i.satellitePenalty)
  }

  /** Trimming once is enough. */
  predicate TrimmedOnce(lib: Lib, w: string) { lib.trim(lib.trim(w)) == lib.trim(w) }

  ghost predicate TrimsWell(lib: Lib) {
    TrimmedOnce(lib, "") && lib.trim("") == "" && forall w: string :: TrimmedOnce(lib, w)
  }

  lemma NormalizedAlike(d: Input, item: Input, lib: Lib)
    requires TrimsWell(lib)
    ensures Alike(Merge(Some(d), item, lib), Plain(Filled(d, item)), lib)
    ensures Alike(Plain(Filled(d, item)), Merge(Some(d), item, lib), lib)
  {
    var filled := Filled(d, item);
    assert TrimmedOnce(lib, Or(filled.region, "")) && TrimmedOnce(lib, Or(filled.site, ""));
    assert TrimmedOnce(lib, Or(filled.maxScope, ""));
  }

  ghost predicate Alike(a: Request, b: Request, lib: Lib) {
    && Normalize(a, lib) == Normalize(b, lib) && a.filter == b.filter && a.explain == b.explain
    && a.alternatives == b.alternatives && a.satellitePenalty == b.satellitePenalty
  }

  lemma AlikeScopes(rs: seq<Route>, a: Request, b: Request, lib: Lib, clock: Scope -> int)
    requires Alike(a, b, lib)
    ensures forall s: Scope :: Hits(rs, a, s, lib, clock) == Hits(rs, b, s, lib, clock)
    ensures forall s: Scope :: AttemptAt(rs, a, s, lib, clock) == AttemptAt(rs, b, s, lib, clock)
  {
    hide Normalize;
  }

  lemma AlikeLogs(rs: seq<Route>, a: Request, b: Request, lib: Lib, clock: Scope -> int)
    requires Alike(a, b, lib) && Normalize(a, lib).maxScope.Some?
    ensures forall n: nat :: Log(rs, a, lib, clock, n) == Log(rs, b, lib, clock, n)
  {
    AlikeScopes(rs, a, b, lib, clock);
    hide AttemptAt, Normalize;
  }

  lemma AlikeAnswers(rs: seq<Route>, a: Request, b: Request, lib: Lib, clock: Scope -> int)
    requires Alike(a, b, lib) && Normalize(a, lib).maxScope.Some?
    ensures forall s: Scope :: Answers(rs, a, s, lib, clock) == Answers(rs, b, s, lib, clock)
    ensures forall s: Scope :: Narrowest(rs, a, s, lib, clock) ==> Narrowest(rs, b, s, lib, clock)
  {
    AlikeScopes(rs, a, b, lib, clock);
    hide Hits, Normalize;
  }

  lemma AlikeBasics(a: Request, b: Request, lib: Lib)
    requires Alike(a, b, lib)
    ensures Valid(a, lib) == Valid(b, lib) && Scoring(a, lib) == Scoring(b, lib)
    ensures Valid(a, lib) ==> Normalize(a, lib).maxScope.Some? && Normalize(b, lib).maxScope.Some?
    ensures forall log :: Explained(a, log) == Explained(b, log)
    ensures forall reply, s, ranked, log :: ranked != [] && Promised(reply, a, s, ranked, log) ==> Promised(reply, b, s, ranked, log)
  {
    hide Normalize;
  }

  lemma AnyScope(rs: seq<Route>, req: Request, lib: Lib, clock: Scope -> int)
    requires Valid(req, lib) && forall s: Scope :: !Answers(rs, req, s, lib, clock)
    ensures !Answers(rs, req, Site, lib, clock) && !Answers(rs, req, Region, lib, clock)
    ensures !Answers(rs, req, Global, lib, clock)
  {
    hide Answers, Normalize;
  }

  lemma SameRequestSameReply(rs: seq<Route>, a: Request, b: Request, lib: Lib, clock: Scope -> int, reply: Reply)
    requires Alike(a, b, lib) && Resolved(rs, a, lib, clock, reply)
    ensures Resolved(rs, b, lib, clock, reply)
  {
    hide Hits, Log, StableRanking, Normalize, Promised, Explained, Scoring, Valid, Narrowest, Answers, Alike;
    AlikeBasics(a, b, lib);
    if Valid(a, lib) {
      AlikeScopes(rs, a, b, lib, clock);
      AlikeLogs(rs, a, b, lib, clock);
      AlikeAnswers(rs, a, b, lib, clock);
      if exists s: Scope :: Answers(rs, a, s, lib, clock) {
        var s, ys :| Narrowest(rs, a, s, lib, clock) && StableRanking(Hits(rs, a, s, lib, clock), ys, Scoring(a, lib))
                     && ys != [] && Promised(reply, a, s, ys, Log(rs, a, lib, clock, s.Rank()));
        hide Resolved;
        assert StableRanking(Hits(rs, b, s, lib, clock), ys, Scoring(b, lib));
        assert Promised(reply, b, s, ys, Log(rs, b, lib, clock, s.Rank()));
        FoundIsResolved(rs, b, lib, clock, s, reply);
      } else {
        AnyScope(rs, b, lib, clock);
        assert reply == NotFound(Explained(a, Log(rs, a, lib, clock, Global.Rank())));
        hide Resolved;
        NothingIsResolved(rs, b, lib, clock, reply);
      }
    }
  }

  /** Defaults do what writing them into every item that lacks them would do: the reply is
      the one to the filled-in item, trimmed or not, for any trimming that is idempotent. */
  lemma DefaultsAreFilledIn(rs: seq<Route>, d: Input, item: Input, lib: Lib, clock: Scope -> int, reply: Reply)
    requires TrimsWell(lib)
    ensures Resolved(rs, Merge(Some(d), item, lib), lib, clock, reply) <==>
            Resolved(rs, Plain(Filled(d, item)), lib, clock, reply)
  {
    hide *;
    var a, b := Merge(Some(d), item, lib), Plain(Filled(d, item));
    NormalizedAlike(d, item, lib);
    if Resolved(rs, a, lib, clock, reply) { SameRequestSameReply(rs, a, b, lib, clock, reply); }
    if Resolved(rs, b, lib, clock, reply) { SameRequestSameReply(rs, b, a, lib, clock, reply); }
  }

  /** Resolve every item under the defaults, each at its own time; `None` when one of them
      crashes the handler. */
  method ResolveBatch(rs: seq<Route>, defaults: Option<Input>, items: seq<Input>, lib: Lib,
                      clock: nat -> Scope -> int)
    returns (batch: Option<(seq<Reply>, Summary)>)
    ensures batch.Some? ==>
              var (replies, summary) := batch.value;
              && |replies| == |items|
              && (forall i :: 0 <= i < |items| ==> Resolved(rs, Merge(defaults, items[i], lib), lib, clock(i), replies[i]))
              && summary.ok == CountOf(replies, (r: Reply) => r.Found?)
              && summary.notFound == CountOf(replies, (r: Reply) => r.NotFound?)
              && summary.invalid == CountOf(replies, (r: Reply) => r.BadRequest?)
              && summary.ok + summary.notFound + summary.invalid == |items|
    ensures batch.None? ==> exists i :: 0 <= i < |items| && Resolved(rs, Merge(defaults, items[i], lib), lib, clock(i), Crash)
  {
    hide Resolved, Merge;
    var replies: seq<Reply> := [];
    var ok, notFound, invalid := 0, 0, 0;
    for i := 0 to |items|
      invariant |replies| == i
      invariant forall k :: 0 <= k < i ==> Resolved(rs, Merge(defaults, items[k], lib), lib, clock(k), replies[k])
      invariant ok == CountOf(replies, (r: Reply) => r.Found?)
      invariant notFound == CountOf(replies, (r: Reply) => r.NotFound?)
      invariant invalid == CountOf(replies, (r: Reply) => r.BadRequest?)
      invariant ok + notFound + invalid == i
    {
      var reply := ResolveRoute(rs, Merge(defaults, items[i], lib), lib, clock(i));
      if reply.Crash? { return None; }
      match reply {
        case Found(_, _, _, _) => ok := ok + 1;
        case NotFound(_) => notFound := notFound + 1;
        case BadRequest => invalid := invalid + 1;
      }
      assert (replies + [reply])[..i] == replies;
      replies := replies + [reply];
    }
    batch := Some((replies, Summary(ok, notFound, invalid)));
  }
}
