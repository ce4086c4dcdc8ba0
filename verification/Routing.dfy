/** The router: registering routes, finding the best match, the allowed methods of a path. */
module Routing {
  import opened Wrappers
  import opened Ordering
  import opened Texts
  import opened Paths
  import opened Patterns
  import opened Matching
  import opened Prefixes

  /** Handlers and middleware are known by number. */
  datatype Route = Route(verb: string, segments: seq<Segment>, handler: int, middleware: seq<int>)

  datatype RouteMatch = RouteMatch(handler: int, params: Params, middleware: seq<int>)

  ghost predicate RoutesOk(routes: seq<Route>) {
    forall i :: 0 <= i < |routes| ==> PatternOk(routes[i].segments)
  }

  // ----- Which route is best -----

  predicate Handles(route: Route, verb: string, path: seq<string>) {
    route.verb == verb && Match(route.segments, path).Some?
  }

  /** More static segments first, then no wildcard. */
  predicate Outranks(a: seq<Segment>, b: seq<Segment>) {
    || StaticCount(a) > StaticCount(b)
    || (StaticCount(a) == StaticCount(b) && !HasWildcard(a) && HasWildcard(b))
  }

  /** The first route among those that handle the request and that no other such route outranks. */
  ghost predicate IsBest(routes: seq<Route>, verb: string, path: seq<string>, k: nat) {
    && k < |routes| && Handles(routes[k], verb, path)
    && (forall i :: 0 <= i < |routes| && Handles(routes[i], verb, path) ==>
      !Outranks(routes[i].segments, routes[k].segments))
    && (forall i :: 0 <= i < k && Handles(routes[i], verb, path) ==> Outranks(routes[k].segments, routes[i].segments))
  }

  /** The search, as it goes through the routes. */
  function Best(routes: seq<Route>, verb: string, path: seq<string>): (r: Option<nat>)
    ensures r.Some? ==> r.value < |routes| && Handles(routes[r.value], verb, path)
  {
    if routes == [] then None
    else
      var k := |routes| - 1;
      var before := Best(routes[..k], verb, path);
      if !Handles(routes[k], verb, path) then before
      else if before.None? || Outranks(routes[k].segments, routes[before.value].segments) then Some(k)
      else before
  }

  function MatchOf(route: Route, path: seq<string>): RouteMatch
    requires Match(route.segments, path).Some?
  {
    RouteMatch(route.handler, Match(route.segments, path).value, route.middleware)
  }

  function FindIn(routes: seq<Route>, verb: string, path: seq<string>): Option<RouteMatch> {
    var best := Best(routes, verb, path);
    if best.Some? then Some(MatchOf(routes[best.value], path)) else None
  }

  lemma {:induction false} BestIsBest(routes: seq<Route>, verb: string, path: seq<string>)
    ensures Best(routes, verb, path).Some? ==> IsBest(routes, verb, path, Best(routes, verb, path).value)
    ensures Best(routes, verb, path).None? ==> forall i :: 0 <= i < |routes| ==> !Handles(routes[i], verb, path)
  {
    if routes == [] {
    } else {
      BestIsBest(routes[..|routes| - 1], verb, path);
    }
  }

  /** `find` picks a route exactly if it is the first of the greatest score,
    and nothing only if no route handles the request. */
  lemma FindPicksFirstOfBest(routes: seq<Route>, verb: string, path: seq<string>, k: nat)
    ensures IsBest(routes, verb, path, k) <==> Best(routes, verb, path) == Some(k)
    ensures FindIn(routes, verb, path).None? <==> forall i :: 0 <= i < |routes| ==> !Handles(routes[i], verb, path)
    ensures IsBest(routes, verb, path, k) ==>
      exists params ::
        && Match(routes[k].segments, path) == Some(params)
        && FindIn(routes, verb, path) == Some(RouteMatch(routes[k].handler, params, routes[k].middleware))
  {
    BestIsBest(routes, verb, path);
  }

  /** The positions of a pattern's static segments. */
  function Statics(pattern: seq<Segment>): set<nat> {
    set i: nat | i < |pattern| && pattern[i].Static?
  }

  ghost predicate AnyWildcard(pattern: seq<Segment>) {
    exists j :: 0 <= j < |pattern| && pattern[j].Wildcard?
  }

  lemma {:induction false} StaticCountIs(pattern: seq<Segment>)
    ensures StaticCount(pattern) == |Statics(pattern)|
  {
    if pattern == [] {
      assert Statics(pattern) == {};
    } else {
      StaticCountIs(pattern[..|pattern| - 1]);
      StaticCountLast(pattern);
      hide StaticCount;
      StaticsLast(pattern);
    }
  }

  lemma StaticsLast(pattern: seq<Segment>)
    requires pattern != []
    ensures var last := |pattern| - 1;
      |Statics(pattern)| == |Statics(pattern[..last])| + if pattern[last].Static? then 1 else 0
  {
    var last := |pattern| - 1;
    assert Statics(pattern) == Statics(pattern[..last]) + if pattern[last].Static? then {last} else {};
    assert last !in Statics(pattern[..last]);
  }

  lemma {:induction false} StaticCountLast(pattern: seq<Segment>)
    requires pattern != []
    ensures var last := |pattern| - 1;
      StaticCount(pattern) == StaticCount(pattern[..last]) + if pattern[last].Static? then 1 else 0
  {
    if |pattern| == 1 {
    } else {
      StaticCountLast(pattern[1..]);
      assert pattern[1..][..|pattern| - 2] == pattern[..|pattern| - 1][1..];
    }
  }

  /**
   The documented precedence, for any two routes that match: the route found has
   at least as many static segments; if as many, no wildcard unless the other has
   one; if that is equal too, it was registered first.
   */
  lemma Precedence(routes: seq<Route>, verb: string, path: seq<string>, k: nat, i: nat)
    requires RoutesOk(routes) && Best(routes, verb, path) == Some(k)
    requires i < |routes| && routes[i].verb == verb && Match(routes[i].segments, path).Some?
    ensures k < |routes| && routes[k].verb == verb && Match(routes[k].segments, path).Some?
    ensures var found, other := routes[k].segments, routes[i].segments;
      && |Statics(found)| >= |Statics(other)|
      && (|Statics(found)| == |Statics(other)| && AnyWildcard(found) ==> AnyWildcard(other))
      && (|Statics(found)| == |Statics(other)| && AnyWildcard(found) == AnyWildcard(other) ==> k <= i)
  {
    BestIsBest(routes, verb, path);
    var found, other := routes[k].segments, routes[i].segments;
    StaticCountIs(found);
    StaticCountIs(other);
    WildcardIsLast(found);
    WildcardIsLast(other);
    assert Handles(routes[i], verb, path);
  }

  lemma WildcardIsLast(pattern: seq<Segment>)
    requires PatternOk(pattern)
    ensures HasWildcard(pattern) <==> AnyWildcard(pattern)
  {}

  // ----- An all-static route wins -----

  predicate AllStatic(pattern: seq<Segment>) {
    forall i :: 0 <= i < |pattern| ==> pattern[i].Static?
  }

  lemma {:induction false} StaticMatch(pattern: seq<Segment>, path: seq<string>)
    requires AllStatic(pattern) && Match(pattern, path).Some?
    ensures Match(pattern, path) == Some([]) && StaticCount(pattern) == |path|
    ensures |pattern| == |path| && forall i :: 0 <= i < |path| ==> pattern[i] == Static(path[i])
  {
    if pattern == [] {
    } else {
      StaticMatch(pattern[1..], path[1..]);
      assert forall i :: 0 < i < |path| ==> pattern[i] == pattern[1..][i - 1] && path[i] == path[1..][i - 1];
    }
  }

  lemma {:induction false} StaticsAreBounded(pattern: seq<Segment>, path: seq<string>)
    requires PatternOk(pattern) && Match(pattern, path).Some?
    ensures StaticCount(pattern) <= |path|
    ensures StaticCount(pattern) == |path| && !HasWildcard(pattern) ==> AllStatic(pattern)
  {
    if pattern != [] && !pattern[0].Wildcard? {
      StaticsAreBounded(pattern[1..], path[1..]);
      assert forall i :: 0 < i < |pattern| ==> pattern[i] == pattern[1..][i - 1];
    }
  }

  /** Whatever the registration order, a path that an all-static route handles gets such a route, and no captures. */
  lemma AllStaticWins(routes: seq<Route>, verb: string, path: seq<string>, i: nat)
    requires RoutesOk(routes) && i < |routes| && AllStatic(routes[i].segments) && Handles(routes[i], verb, path)
    ensures Best(routes, verb, path).Some?
    ensures var best := routes[Best(routes, verb, path).value];
      best.segments == routes[i].segments && MatchOf(best, path).params == []
  {
    BestIsBest(routes, verb, path);
    var k := Best(routes, verb, path).value;
    StaticMatch(routes[i].segments, path);
    StaticsAreBounded(routes[k].segments, path);
    assert !Outranks(routes[i].segments, routes[k].segments);
    assert AllStatic(routes[k].segments);
    StaticMatch(routes[k].segments, path);
  }

  // ----- Allowed methods -----

  /** The methods of the routes that match, in registration order. */
  function MatchingMethods(routes: seq<Route>, path: seq<string>): seq<string> {
    if routes == [] then []
    else (if Match(routes[0].segments, path).Some? then [routes[0].verb] else []) + MatchingMethods(routes[1..], path)
  }

  /** `dedup`: runs of equal elements become one. */
  function Dedup(s: seq<string>): seq<string> {
    if |s| < 2 then s
    else if s[0] == s[1] then Dedup(s[1..])
    else [s[0]] + Dedup(s[1..])
  }

  lemma {:induction false} MatchingMethodsAre(routes: seq<Route>, path: seq<string>, verb: string)
    ensures verb in MatchingMethods(routes, path) <==> exists i :: 0 <= i < |routes| && Handles(routes[i], verb, path)
  {
    if routes == [] {
    } else {
      MatchingMethodsAre(routes[1..], path, verb);
      if i :| 0 <= i < |routes[1..]| && Handles(routes[1..][i], verb, path) {
        assert Handles(routes[i + 1], verb, path);
      }
      if i :| 0 <= i < |routes| && Handles(routes[i], verb, path) {
        assert i > 0 ==> Handles(routes[1..][i - 1], verb, path);
      }
    }
  }

  lemma {:induction false} DedupSorted(s: seq<string>)
    requires SortedBy(s, StrLe)
    ensures SortedBy(Dedup(s), StrLt) && (forall x :: x in Dedup(s) <==> x in s)
    ensures s != [] ==> Dedup(s) != [] && Dedup(s)[0] == s[0]
  {
    if |s| >= 2 {
      DedupSorted(s[1..]);
      var rest := Dedup(s[1..]);
      assert s == [s[0]] + s[1..];
      if s[0] != s[1] {
        assert StrLe(s[0], s[1]);
        forall j | 0 <= j < |rest| ensures StrLt(s[0], rest[j]) {
          if j > 0 {
            StrLtTransitive(s[0], rest[0], rest[j]);
          }
        }
      }
    }
  }

  lemma StrLeIsTotal()
    ensures TotalOrder(StrLe)
  {
    forall x, y ensures StrLe(x, y) || StrLe(y, x) {
      StrLtTrichotomy(x, y);
    }
    forall x, y, z | StrLe(x, y) && StrLe(y, z) ensures StrLe(x, z) {
      if x != y && y != z {
        StrLtTransitive(x, y, z);
      }
    }
  }

  // ----- Merging a router under a prefix -----

  /** The routes merged before the first panic. */
  function MountedRoutes(prefix: Result<seq<Segment>, PatternError>, routes: seq<Route>, group: seq<int>): seq<Route> {
    if routes == [] then []
    else
      var mounted := Mounted(prefix, routes[0].segments);
      if mounted.Err? then []
      else
        [routes[0].(segments := mounted.value, middleware := routes[0].middleware + group)]
        + MountedRoutes(prefix, routes[1..], group)
  }

  /** The first panic. */
  function MountError(prefix: Result<seq<Segment>, PatternError>, routes: seq<Route>): Result<(), PatternError> {
    if routes == [] then Ok(())
    else
      var mounted := Mounted(prefix, routes[0].segments);
      if mounted.Err? then Err(mounted.error) else MountError(prefix, routes[1..])
  }

  /** Mounting registers the routes before the first panic, and reports that one. */
  lemma {:induction false} MountStopsAtPanic(
      prefix: Result<seq<Segment>, PatternError>, routes: seq<Route>, group: seq<int>)
    ensures var mounted := MountedRoutes(prefix, routes, group);
      && |mounted| <= |routes|
      && (forall i :: 0 <= i < |mounted| ==>
        && prefix.Ok?
        && mounted[i] == Route(routes[i].verb, prefix.value + routes[i].segments, routes[i].handler,
                               routes[i].middleware + group))
      && (|mounted| == |routes| <==> MountError(prefix, routes).Ok?)
      && (|mounted| < |routes| && prefix.Err? ==> MountError(prefix, routes) == Err(prefix.error))
      && (|mounted| < |routes| && prefix.Ok? ==>
        && prefix.value != [] && prefix.value[|prefix.value| - 1].Wildcard? && routes[|mounted|].segments != []
        && MountError(prefix, routes) == Err(WildcardNotLast(prefix.value[|prefix.value| - 1].name)))
  {
    if routes == [] {
    } else {
      MountStopsAtPanic(prefix, routes[1..], group);
    }
  }

  class Router {
    var routes: seq<Route>
    var groupMiddleware: seq<int>

    ghost predicate Valid()
      reads this
    {
      RoutesOk(routes)
    }

    constructor ()
      ensures Valid() && routes == [] && groupMiddleware == []
    {
      routes, groupMiddleware := [], [];
    }

    /** Registers a route, or panics on a pattern the parser refuses. */
    method Add(verb: string, path: string, handler: int) returns (r: Result<(), PatternError>)
      requires Valid()
      modifies this`routes
      ensures Valid()
      ensures match ParsePattern(path)
        case Ok(segments) => r == Ok(()) && routes == old(routes) + [Route(verb, segments, handler, [])]
        case Err(e) => r == Err(e) && routes == old(routes)
    {
      var parsed := ParsePath(path);
      if parsed.Err? {
        return Err(parsed.error);
      }
      ParsedOk(path);
      routes := routes + [Route(verb, parsed.value, handler, [])];
      return Ok(());
    }

    /** Adds middleware to every route of this router when it is merged. */
    method UseMiddleware(mw: int)
      modifies this`groupMiddleware
      ensures groupMiddleware == old(groupMiddleware) + [mw]
    {
      groupMiddleware := groupMiddleware + [mw];
    }

    /** Re-registers the routes of `other` under `prefix`, its group middleware last. */
    method MergeFrom(prefix: string, other: Router) returns (r: Result<(), PatternError>)
      requires Valid() && other != this && other.Valid()
      modifies this`routes
      ensures Valid()
      ensures routes == old(routes) + MountedRoutes(ParsePattern(prefix), other.routes, other.groupMiddleware)
      ensures r == MountError(ParsePattern(prefix), other.routes)
    {
      hide FormatPrefixedPath, ParsePattern, Mounted;
      ghost var pre := ParsePattern(prefix);
      var group := other.groupMiddleware;
      assert other.routes[0..] == other.routes;
      for i := 0 to |other.routes|
        invariant Valid()
        invariant routes + MountedRoutes(pre, other.routes[i..], group) ==
          old(routes) + MountedRoutes(pre, other.routes, group)
        invariant MountError(pre, other.routes) == MountError(pre, other.routes[i..])
      {
        var route := other.routes[i];
        assert other.routes[i..][0] == route && other.routes[i..][1..] == other.routes[i + 1..];
        var path := FormatPrefixedPath(prefix, route.segments);
        MountReparses(prefix, route.segments);
        var parsed := ParsePath(path);
        if parsed.Err? {
          return Err(parsed.error);
        }
        ParsedOk(path);
        var mounted := Route(route.verb, parsed.value, route.handler, route.middleware + group);
        ghost var rest := MountedRoutes(pre, other.routes[i + 1..], group);
        assert routes + ([mounted] + rest) == routes + [mounted] + rest;
        routes := routes + [mounted];
      }
      return Ok(());
    }

    /** One pass over all routes, keeping the first match of the greatest score. */
    method Find(verb: string, path: string) returns (r: Option<RouteMatch>)
      requires Valid()
      ensures r == FindIn(routes, verb, SplitPath(path))
    {
      hide Match, StaticCount, HasWildcard, SplitPath;
      var segments := SplitPath(path);
      var best: Option<(nat, Params)> := None;
      var bestScore := (0, true);
      for i := 0 to |routes|
        invariant best.None? <==> Best(routes[..i], verb, segments).None?
        invariant best.Some? ==>
          && Best(routes[..i], verb, segments) == Some(best.value.0)
          && Match(routes[best.value.0].segments, segments) == Some(best.value.1)
          && bestScore == (StaticCount(routes[best.value.0].segments), !HasWildcard(routes[best.value.0].segments))
      {
        var route := routes[i];
        assert routes[..i + 1][..i] == routes[..i] && routes[..i + 1][i] == route;
        if route.verb == verb {
          var m := MatchSegments(route.segments, segments);
          if m.Some? {
            var score := (m.value.statics, !m.value.wildcard);
            if best.None? || score.0 > bestScore.0 || (score.0 == bestScore.0 && score.1 && !bestScore.1) {
              best, bestScore := Some((i, m.value.params)), score;
            }
          }
        }
      }
      assert routes[..|routes|] == routes;
      if best.None? {
        return None;
      }
      return Some(RouteMatch(routes[best.value.0].handler, best.value.1, routes[best.value.0].middleware));
    }

    /** The middleware of the first route, of any method, that matches the path. */
    method FindMiddlewareForPath(path: string) returns (r: Option<seq<int>>)
      requires Valid()
      ensures r.Some? ==>
        exists k :: 0 <= k < |routes| && IsFirstMatch(routes, SplitPath(path), k) && r == Some(routes[k].middleware)
      ensures r.None? <==> MatchingMethods(routes, SplitPath(path)) == []
    {
      hide Match, SplitPath;
      var segments := SplitPath(path);
      assert routes[0..] == routes;
      for i := 0 to |routes|
        invariant forall j :: 0 <= j < i ==> Match(routes[j].segments, segments).None?
        invariant MatchingMethods(routes, segments) == MatchingMethods(routes[i..], segments)
      {
        assert routes[i..][0] == routes[i] && routes[i..][1..] == routes[i + 1..];
        var m := MatchSegments(routes[i].segments, segments);
        if m.Some? {
          assert IsFirstMatch(routes, segments, i);
          return Some(routes[i].middleware);
        }
      }
      return None;
    }

    /**
     The Allow list of section 15.5.6 of RFC 9110: strictly sorted, and it
     holds a method exactly if `Find` succeeds for it.
     */
    method AllowedMethods(path: string) returns (methods: seq<string>)
      requires Valid()
      ensures SortedBy(methods, StrLt)
      ensures forall verb :: verb in methods <==> FindIn(routes, verb, SplitPath(path)).Some?
    {
      hide Match, SplitPath, FindIn, SortedBy, Dedup, Sort, StrLe;
      var segments := SplitPath(path);
      methods := [];
      assert routes[0..] == routes;
      for i := 0 to |routes|
        invariant MatchingMethods(routes, segments) == methods + MatchingMethods(routes[i..], segments)
      {
        assert routes[i..][0] == routes[i] && routes[i..][1..] == routes[i + 1..];
        var m := MatchSegments(routes[i].segments, segments);
        if m.Some? {
          methods := methods + [routes[i].verb];
        }
      }
      assert routes[|routes|..] == [] && methods + [] == methods;
      AllowedAreFound(routes, segments);
      methods := Dedup(Sort(methods, StrLe));
    }
  }

  ghost predicate IsFirstMatch(routes: seq<Route>, path: seq<string>, k: nat) {
    && k < |routes| && Match(routes[k].segments, path).Some?
    && forall j :: 0 <= j < k ==> Match(routes[j].segments, path).None?
  }

  lemma ParsedOk(path: string)
    requires ParsePattern(path).Ok?
    ensures PatternOk(ParsePattern(path).value)
  {
    SplitYieldsSegments(path);
    ParseIsInverseOfPrint(SplitPath(path), ParsePattern(path).value);
  }

  lemma AllowedAreFound(routes: seq<Route>, path: seq<string>)
    ensures var methods := Dedup(Sort(MatchingMethods(routes, path), StrLe));
      && SortedBy(methods, StrLt)
      && forall verb :: verb in methods <==> FindIn(routes, verb, path).Some?
  {
    var found := MatchingMethods(routes, path);
    StrLeIsTotal();
    SortSorted(found, StrLe);
    DedupSorted(Sort(found, StrLe));
    MultisetMembers(Sort(found, StrLe), found);
    forall verb ensures verb in found <==> FindIn(routes, verb, path).Some? {
      MatchingMethodsAre(routes, path, verb);
      BestIsBest(routes, verb, path);
    }
  }
}
