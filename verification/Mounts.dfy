/** Mounting preserves what a router finds. */
module Mounts {
  import opened Wrappers
  import opened Texts
  import opened Paths
  import opened Patterns
  import opened Matching
  import opened Prefixes
  import opened Routing

  predicate WildcardFree(pattern: seq<Segment>) {
    forall i :: 0 <= i < |pattern| ==> !pattern[i].Wildcard?
  }

  /** Whether `path` starts with segments the prefix pattern matches. */
  predicate Under(prefix: seq<Segment>, path: seq<string>) {
    |prefix| <= |path| && Match(prefix, path[..|prefix|]).Some?
  }

  /** A match of the remaining path, seen from the whole one. */
  function Shift(captures: Params, group: seq<int>, m: RouteMatch): RouteMatch {
    RouteMatch(m.handler, captures + m.params, m.middleware + group)
  }

  lemma {:induction false} MatchOfMounted(prefix: seq<Segment>, segments: seq<Segment>, path: seq<string>)
    requires WildcardFree(prefix)
    ensures Match(prefix + segments, path) ==
      if Under(prefix, path)
        then Prepend(Match(prefix, path[..|prefix|]).value, Match(segments, path[|prefix|..])) else None
  {
    if prefix == [] {
      assert prefix + segments == segments && path[..0] == [] && path[0..] == path;
      var m := Match(segments, path);
      assert m.Some? ==> [] + m.value == m.value;
    } else if path != [] {
      MatchOfMounted(prefix[1..], segments, path[1..]);
      assert (prefix + segments)[1..] == prefix[1..] + segments;
      if |prefix| <= |path| {
        assert path[..|prefix|][1..] == path[1..][..|prefix| - 1];
        assert path[1..][|prefix| - 1..] == path[|prefix|..];
        if prefix[0].Param? && Under(prefix[1..], path[1..]) {
          CaptureThenPrepend((prefix[0].name, path[0]), Match(prefix[1..], path[1..][..|prefix| - 1]).value,
            Match(segments, path[|prefix|..]));
        }
      }
    }
  }

  lemma CaptureThenPrepend(param: (string, string), params: Params, rest: Option<Params>)
    ensures Capture(param, Prepend(params, rest)) == Prepend([param] + params, rest)
  {
    if rest.Some? {
      assert [param] + (params + rest.value) == [param] + params + rest.value;
    }
  }

  lemma {:induction false} ScoreOfMounted(prefix: seq<Segment>, segments: seq<Segment>)
    requires WildcardFree(prefix)
    ensures StaticCount(prefix + segments) == StaticCount(prefix) + StaticCount(segments)
    ensures HasWildcard(prefix + segments) == HasWildcard(segments)
  {
    if prefix == [] {
      assert prefix + segments == segments;
    } else {
      ScoreOfMounted(prefix[1..], segments);
      assert (prefix + segments)[1..] == prefix[1..] + segments;
    }
  }

  /** A wildcard-free prefix mounts every route. */
  lemma AllAreMounted(prefix: seq<Segment>, routes: seq<Route>, group: seq<int>)
    requires WildcardFree(prefix)
    ensures MountError(Ok(prefix), routes) == Ok(())
    ensures var mounted := MountedRoutes(Ok(prefix), routes, group);
      |mounted| == |routes| && forall i :: 0 <= i < |routes| ==>
        mounted[i] == routes[i].(segments := prefix + routes[i].segments, middleware := routes[i].middleware + group)
  {
    MountStopsAtPanic(Ok(prefix), routes, group);
  }

  lemma {:induction false} BestOfMounted(prefix: seq<Segment>, routes: seq<Route>, mounted: seq<Route>, verb: string,
      path: seq<string>)
    requires WildcardFree(prefix) && |mounted| == |routes|
    requires forall i :: 0 <= i < |routes| ==>
      mounted[i].verb == routes[i].verb && mounted[i].segments == prefix + routes[i].segments
    ensures Best(mounted, verb, path) == if Under(prefix, path) then Best(routes, verb, path[|prefix|..]) else None
  {
    hide Handles, Outranks, Match;
    if routes == [] {
    } else {
      var k := |routes| - 1;
      var before, after := routes[..k], mounted[..k];
      BestOfMounted(prefix, before, after, verb, path);
      HandlesMounted(prefix, routes[k], mounted[k], verb, path);
      if Under(prefix, path) {
        var best := Best(before, verb, path[|prefix|..]);
        if best.Some? {
          OutranksMounted(prefix, routes[k].segments, routes[best.value].segments);
        }
      }
    }
  }

  lemma HandlesMounted(prefix: seq<Segment>, route: Route, mounted: Route, verb: string, path: seq<string>)
    requires WildcardFree(prefix) && mounted.verb == route.verb && mounted.segments == prefix + route.segments
    ensures Handles(mounted, verb, path) <==> Under(prefix, path) && Handles(route, verb, path[|prefix|..])
  {
    hide Match, WildcardFree;
    MatchOfMounted(prefix, route.segments, path);
  }

  /** Every score shifts by the same amount. */
  lemma OutranksMounted(prefix: seq<Segment>, a: seq<Segment>, b: seq<Segment>)
    requires WildcardFree(prefix)
    ensures Outranks(prefix + a, prefix + b) <==> Outranks(a, b)
  {
    ScoreOfMounted(prefix, a);
    ScoreOfMounted(prefix, b);
  }

  /**
   On a router that holds only the merged routes, `find` picks the route the
   sub-router picks for the remaining path, with the captures of the prefix in
   front and the group middleware behind; it finds nothing outside the prefix.
   */
  lemma FindOfMounted(prefix: seq<Segment>, routes: seq<Route>, group: seq<int>, verb: string, path: seq<string>)
    requires WildcardFree(prefix)
    ensures FindIn(MountedRoutes(Ok(prefix), routes, group), verb, path) ==
      if !Under(prefix, path) then None
      else match FindIn(routes, verb, path[|prefix|..])
        case Some(m) => Some(Shift(Match(prefix, path[..|prefix|]).value, group, m))
        case None => None
  {
    var mounted := MountedRoutes(Ok(prefix), routes, group);
    AllAreMounted(prefix, routes, group);
    BestOfMounted(prefix, routes, mounted, verb, path);
    var best := Best(mounted, verb, path);
    if best.Some? {
      MatchOfMounted(prefix, routes[best.value].segments, path);
    }
  }

  /** The same for request texts: a text under the prefix, a slash, and the remaining text. */
  lemma FindOfMountedText(prefix: string, routes: seq<Route>, group: seq<int>, verb: string, front: string,
      back: string)
    requires ParsePattern(prefix).Ok? && WildcardFree(ParsePattern(prefix).value)
    requires Match(ParsePattern(prefix).value, SplitPath(front)).Some?
    ensures FindIn(MountedRoutes(ParsePattern(prefix), routes, group), verb, SplitPath(front + "/" + back)) ==
      match FindIn(routes, verb, SplitPath(back))
        case Some(m) => Some(Shift(Match(ParsePattern(prefix).value, SplitPath(front)).value, group, m))
        case None => None
  {
    hide SplitPath, FindIn, MountedRoutes;
    var pre := ParsePattern(prefix).value;
    var path := SplitPath(front) + SplitPath(back);
    SplitPathConcat(front, back);
    FindOfMounted(pre, routes, group, verb, path);
    ParsedOk(prefix);
    LengthsMustFit(pre, SplitPath(front));
    assert path[..|pre|] == SplitPath(front) && path[|pre|..] == SplitPath(back);
  }

  /** Mounting twice is mounting once under both prefixes. */
  lemma MountTwice(outer: seq<Segment>, inner: seq<Segment>, routes: seq<Route>, outerGroup: seq<int>,
      innerGroup: seq<int>)
    requires WildcardFree(outer) && WildcardFree(inner)
    ensures MountedRoutes(Ok(outer), MountedRoutes(Ok(inner), routes, innerGroup), outerGroup) ==
      MountedRoutes(Ok(outer + inner), routes, innerGroup + outerGroup)
  {
    var once := MountedRoutes(Ok(inner), routes, innerGroup);
    var twice := MountedRoutes(Ok(outer), once, outerGroup);
    var direct := MountedRoutes(Ok(outer + inner), routes, innerGroup + outerGroup);
    AllAreMounted(inner, routes, innerGroup);
    AllAreMounted(outer, once, outerGroup);
    AllAreMounted(outer + inner, routes, innerGroup + outerGroup);
    forall i | 0 <= i < |routes| ensures twice[i] == direct[i] {
      assert outer + (inner + routes[i].segments) == outer + inner + routes[i].segments;
      assert routes[i].middleware + innerGroup + outerGroup == routes[i].middleware + (innerGroup + outerGroup);
    }
  }
}
