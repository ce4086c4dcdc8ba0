/** Matching a split request path against a pattern, with captures. */
module Matching {
  import opened Wrappers
  import opened Texts
  import opened Paths
  import opened Patterns

  /** The captures of a match, or none: segment by segment, a wildcard takes the rest. */
  function Match(pattern: seq<Segment>, path: seq<string>): Option<Params> {
    if pattern == [] then
      if path == [] then Some([]) else None
    else match pattern[0]
      case Static(text) => if path != [] && path[0] == text then Match(pattern[1..], path[1..]) else None
      case Param(name) => if path != [] then Capture((name, path[0]), Match(pattern[1..], path[1..])) else None
      case Wildcard(name) => if |pattern| == 1 then Some([(name, JoinPath(path))]) else None
  }

  function Capture(param: (string, string), rest: Option<Params>): Option<Params> {
    if rest.Some? then Some([param] + rest.value) else None
  }

  function StaticCount(pattern: seq<Segment>): nat {
    if pattern == [] then 0 else (if pattern[0].Static? then 1 else 0) + StaticCount(pattern[1..])
  }

  predicate HasWildcard(pattern: seq<Segment>) {
    pattern != [] && pattern[|pattern| - 1].Wildcard?
  }

  /** A match's captures and its rank. */
  datatype Matched = Matched(params: Params, statics: nat, wildcard: bool)

  function MatchRanked(pattern: seq<Segment>, path: seq<string>): Option<Matched> {
    match Match(pattern, path)
    case Some(params) => Some(Matched(params, StaticCount(pattern), HasWildcard(pattern)))
    case None => None
  }

  function Prepend(params: Params, rest: Option<Params>): Option<Params> {
    if rest.Some? then Some(params + rest.value) else None
  }

  /** The matching loop, with its length check up front. */
  method MatchSegments(pattern: seq<Segment>, path: seq<string>) returns (r: Option<Matched>)
    requires PatternOk(pattern)
    ensures r == MatchRanked(pattern, path)
  {
    hide Match, StaticCount, Capture, Prepend;
    var wildcard := pattern != [] && pattern[|pattern| - 1].Wildcard?;
    if wildcard {
      if |path| < |pattern| - 1 {
        LengthsMustFit(pattern, path);
        return None;
      }
    } else if |pattern| != |path| {
      LengthsMustFit(pattern, path);
      return None;
    }
    var params: Params := [];
    var statics := 0;
    Whole(pattern, path);
    for i := 0 to |pattern|
      invariant 0 <= i <= |pattern|
      invariant wildcard && i == |pattern| ==> Match(pattern, path) == Some(params)
      invariant !(wildcard && i == |pattern|) ==>
        i <= |path| && Match(pattern, path) == Prepend(params, Match(pattern[i..], path[i..]))
      invariant StaticCount(pattern) == statics + StaticCount(pattern[i..])
    {
      MatchFirst(params, pattern[i..], path[i..]);
      assert pattern[i..][1..] == pattern[i + 1..];
      match pattern[i]
      case Static(expected) =>
        if i >= |path| || path[i] != expected {
          return None;
        }
        assert path[i..][1..] == path[i + 1..];
        statics := statics + 1;
      case Param(name) =>
        if i >= |path| {
          return None;
        }
        assert path[i..][1..] == path[i + 1..];
        params := params + [(name, path[i])];
      case Wildcard(name) =>
        params := params + [(name, JoinPath(path[i..]))];
    }
    if !wildcard {
      AllMatched(pattern, path, params);
    }
    return Some(Matched(params, statics, wildcard));
  }

  // ----- Small facts about `Match` for the loop -----

  lemma Whole(pattern: seq<Segment>, path: seq<string>)
    ensures Match(pattern, path) == Prepend([], Match(pattern[0..], path[0..]))
    ensures StaticCount(pattern) == StaticCount(pattern[0..])
    ensures StaticCount(pattern[|pattern|..]) == 0
  {
    assert pattern[0..] == pattern && path[0..] == path;
    var m := Match(pattern, path);
    if m.Some? {
      assert [] + m.value == m.value;
    }
  }

  lemma MatchFirst(params: Params, pattern: seq<Segment>, path: seq<string>)
    requires pattern != []
    ensures StaticCount(pattern) == (if pattern[0].Static? then 1 else 0) + StaticCount(pattern[1..])
    ensures Prepend(params, Match(pattern, path)) ==
      match pattern[0]
      case Static(text) =>
        if path != [] && path[0] == text then Prepend(params, Match(pattern[1..], path[1..])) else None
      case Param(name) =>
        if path != [] then Prepend(params + [(name, path[0])], Match(pattern[1..], path[1..])) else None
      case Wildcard(name) => if |pattern| == 1 then Some(params + [(name, JoinPath(path))]) else None
  {
    if pattern[0].Param? && path != [] {
      var rest := Match(pattern[1..], path[1..]);
      if rest.Some? {
        assert params + ([(pattern[0].name, path[0])] + rest.value) ==
          params + [(pattern[0].name, path[0])] + rest.value;
      }
    }
  }

  lemma AllMatched(pattern: seq<Segment>, path: seq<string>, params: Params)
    requires |pattern| <= |path|
    ensures |pattern| == |path| ==> Prepend(params, Match(pattern[|pattern|..], path[|pattern|..])) == Some(params)
  {
    assert params + [] == params;
  }

  lemma {:induction false} LengthsMustFit(pattern: seq<Segment>, path: seq<string>)
    requires PatternOk(pattern)
    ensures Match(pattern, path).Some? ==> if HasWildcard(pattern) then |pattern| <= |path| + 1 else |pattern| == |path|
  {
    if pattern != [] && path != [] {
      LengthsMustFit(pattern[1..], path[1..]);
    }
  }

  // ----- Matching against substitution -----

  /** Captures a match can yield: the pattern's names, and one segment per parameter. */
  predicate Fits(pattern: seq<Segment>, params: Params) {
    if pattern == [] then params == []
    else if pattern[0].Static? then Fits(pattern[1..], params)
    else
      && params != [] && params[0].0 == pattern[0].name
      && (pattern[0].Param? ==> IsSegment(params[0].1))
      && Fits(pattern[1..], params[1..])
  }

  /** The pattern with the captured values in the places of its parameters. */
  function Substitute(pattern: seq<Segment>, params: Params): seq<string>
    requires Fits(pattern, params)
  {
    if pattern == [] then []
    else if pattern[0].Static? then [pattern[0].text] + Substitute(pattern[1..], params)
    else [params[0].1] + Substitute(pattern[1..], params[1..])
  }

  /** Empty segments of a wildcard's value are not captured. */
  function Normal(pattern: seq<Segment>, params: Params): Params
    requires Fits(pattern, params)
  {
    if pattern == [] then []
    else if pattern[0].Static? then Normal(pattern[1..], params)
    else if pattern[0].Param? then [params[0]] + Normal(pattern[1..], params[1..])
    else [(params[0].0, JoinPath(SplitPath(params[0].1)))] + Normal(pattern[1..], params[1..])
  }

  /**
   Sound: the captures carry the pattern's names, and putting their values back
   into the pattern gives a text that splits into the request path's segments.
   */
  lemma {:induction false} MatchIsSound(pattern: seq<Segment>, path: seq<string>)
    requires PatternOk(pattern) && AreSegments(path) && Match(pattern, path).Some?
    ensures var params := Match(pattern, path).value;
      && Fits(pattern, params)
      && SplitPath(JoinPath(Substitute(pattern, params))) == path
  {
    var params := Match(pattern, path).value;
    if pattern == [] {
    } else {
      if pattern[0].Wildcard? {
        SplitOfJoined(path);
        assert params[1..] == [];
        assert Substitute(pattern, params) == [JoinPath(path)] + [];
      } else {
        MatchIsSound(pattern[1..], path[1..]);
        SplitSegment(path[0]);
        if pattern[0].Static? {
          JoinFirst(path[0], Substitute(pattern[1..], params));
        } else {
          assert params[1..] == Match(pattern[1..], path[1..]).value;
          JoinFirst(path[0], Substitute(pattern[1..], params[1..]));
        }
        assert path == [path[0]] + path[1..];
      }
    }
  }

  /**
   Complete: any values, put into the pattern, give a path that is matched, and
   the values are captured back; of a wildcard's value, its non-empty segments.
   */
  lemma {:induction false} MatchIsComplete(pattern: seq<Segment>, params: Params)
    requires PatternOk(pattern) && Fits(pattern, params)
    ensures Match(pattern, SplitPath(JoinPath(Substitute(pattern, params)))) == Some(Normal(pattern, params))
  {
    if pattern == [] {
    } else {
      var texts := Substitute(pattern, params);
      var rest := if pattern[0].Static? then params else params[1..];
      assert texts == [texts[0]] + Substitute(pattern[1..], rest);
      JoinFirst(texts[0], Substitute(pattern[1..], rest));
      if pattern[0].Wildcard? {
        assert |pattern| == 1 && pattern[1..] == [];
        assert texts == [params[0].1] && JoinPath(texts) == params[0].1;
        assert Normal(pattern, params) == [(params[0].0, JoinPath(SplitPath(params[0].1)))];
      } else {
        MatchIsComplete(pattern[1..], rest);
        SplitSegment(texts[0]);
        var path := [texts[0]] + SplitPath(JoinPath(Substitute(pattern[1..], rest)));
        assert SplitPath(JoinPath(texts)) == path;
        assert path[1..] == SplitPath(JoinPath(Substitute(pattern[1..], rest)));
        assert IsSegment(texts[0]);
      }
    }
  }

  // ----- Matching against the pattern's text -----

  /**
   Whether path segments fit the segments of a pattern's text: one each, the
   same unless it is a parameter; a wildcard takes what is left.
   */
  ghost predicate FitsText(parts: seq<string>, path: seq<string>)
    requires AreSegments(parts)
  {
    && (|path| == |parts| || (parts != [] && parts[|parts| - 1][0] == '*' && |parts| - 1 <= |path|))
    && (forall i :: 0 <= i < |parts| && parts[i][0] != '*' && parts[i][0] != ':' ==>
          i < |path| && path[i] == parts[i])
  }

  /** What the `i`-th segment of the text captures. */
  ghost predicate CapturesPart(parts: seq<string>, path: seq<string>, params: Params, i: nat)
    requires i < |parts| && parts[i] != ""
  {
    && (parts[i][0] == ':' ==> i < |path| && (parts[i][1..], path[i]) in params)
    && (parts[i][0] == '*' ==> i <= |path| && (parts[i][1..], JoinPath(path[i..])) in params)
  }

  /** A pattern's text matches the paths that fit it, and each `:name` and `*name` captures its place. */
  lemma {:induction false} MatchReadsText(parts: seq<string>, path: seq<string>)
    requires AreSegments(parts) && Parse(parts).Ok?
    ensures Match(Parse(parts).value, path).Some? <==> FitsText(parts, path)
    ensures FitsText(parts, path) ==>
      forall i :: 0 <= i < |parts| ==> CapturesPart(parts, path, Match(Parse(parts).value, path).value, i)
  {
    var pattern := Parse(parts).value;
    ParseIsInverseOfPrint(parts, pattern);
    LengthsMustFit(pattern, path);
    if parts == [] {
    } else if parts[0][0] == '*' {
      assert |parts| == 1 && path[0..] == path;
      assert pattern == [Wildcard(parts[0][1..])];
    } else {
      var rest := Parse(parts[1..]).value;
      assert pattern == [ParsePart(parts[0])] + rest && pattern[1..] == rest;
      if path != [] {
        MatchReadsText(parts[1..], path[1..]);
        FitsFirst(parts, path);
        if FitsText(parts, path) {
          var params := Match(pattern, path).value;
          var less := Match(rest, path[1..]).value;
          forall i | 0 <= i < |parts| ensures CapturesPart(parts, path, params, i) {
            if i > 0 {
              assert CapturesPart(parts[1..], path[1..], less, i - 1);
              assert path[1..][i - 1..] == path[i..];
            }
          }
        }
      }
    }
  }

  lemma FitsFirst(parts: seq<string>, path: seq<string>)
    requires AreSegments(parts) && parts != [] && parts[0][0] != '*' && path != []
    ensures FitsText(parts, path) <==>
      (parts[0][0] == ':' || path[0] == parts[0]) && FitsText(parts[1..], path[1..])
  {
    if FitsText(parts[1..], path[1..]) {
      forall i | 0 < i < |parts| && parts[i][0] != '*' && parts[i][0] != ':' ensures i < |path| && path[i] == parts[i] {
        assert parts[1..][i - 1] == parts[i];
      }
    }
  }
}
