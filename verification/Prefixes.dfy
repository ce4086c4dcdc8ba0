/** Printing a mounted route under its prefix, and parsing it again. */
module Prefixes {
  import opened Wrappers
  import opened Texts
  import opened Paths
  import opened Patterns
  import opened Matching

  function Suffix(segments: seq<Segment>): string {
    if segments == [] then "" else "/" + Print(segments[0]) + Suffix(segments[1..])
  }

  function FormatPrefixedPath(prefix: string, segments: seq<Segment>): string {
    var trimmed := TrimSlashes(prefix);
    if Suffix(segments) == "" then trimmed else trimmed + Suffix(segments)
  }

  lemma RestOk(segments: seq<Segment>)
    requires PatternOk(segments) && segments != []
    ensures SegmentOk(segments[0]) && PatternOk(segments[1..])
  {}

  lemma {:induction false} SplitSuffix(prefix: string, segments: seq<Segment>)
    requires PatternOk(segments)
    ensures SplitPath(prefix + Suffix(segments)) == SplitPath(prefix) + PrintAll(segments)
    decreases |segments|
  {
    hide SplitPath, Print, PatternOk, SegmentOk, IsSegment;
    if segments == [] {
      assert prefix + Suffix(segments) == prefix;
      assert SplitPath(prefix) + PrintAll(segments) == SplitPath(prefix);
    } else {
      assert SegmentOk(segments[0]) && PatternOk(segments[1..]) by { RestOk(segments); }
      var first := Print(segments[0]);
      var longer := prefix + "/" + first;
      SplitSuffix(longer, segments[1..]);
      PrintPart(segments[0]);
      SplitPathConcat(prefix, first);
      SplitSegment(first);
      assert prefix + Suffix(segments) == longer + Suffix(segments[1..]);
      assert PrintAll(segments) == [first] + PrintAll(segments[1..]);
      assert SplitPath(prefix) + ([first] + PrintAll(segments[1..])) ==
        SplitPath(prefix) + [first] + PrintAll(segments[1..]);
    }
  }

  /** What a mounted pattern is, or the panic it raises. */
  function Mounted(prefix: Result<seq<Segment>, PatternError>, segments: seq<Segment>)
    : Result<seq<Segment>, PatternError>
  {
    if prefix.Err? then prefix
    else if HasWildcard(prefix.value) && segments != [] then Err(WildcardNotLast(prefix.value[|prefix.value| - 1].name))
    else Ok(prefix.value + segments)
  }

  lemma {:induction false} ParseConcat(a: seq<string>, segments: seq<Segment>)
    requires AreSegments(a) && PatternOk(segments)
    ensures AreSegments(a + PrintAll(segments))
    ensures Parse(a + PrintAll(segments)) == Mounted(Parse(a), segments)
  {
    PrintedAreSegments(segments);
    var all := a + PrintAll(segments);
    if a == [] {
      assert all == PrintAll(segments);
      assert [] + segments == segments;
    } else {
      hide PatternOk, HasWildcard, Mounted, After, ParsePart;
      ParseConcat(a[1..], segments);
      assert all[0] == a[0] && all[1..] == a[1..] + PrintAll(segments);
      var first := ParsePart(a[0]);
      if first.Wildcard? {
        FirstIsWildcard(a, first, segments);
      } else {
        AfterMounted(first, Parse(a[1..]), segments);
      }
    }
  }

  lemma AfterMounted(first: Segment, rest: Result<seq<Segment>, PatternError>, segments: seq<Segment>)
    requires !first.Wildcard?
    ensures Mounted(After([first], rest), segments) == After([first], Mounted(rest, segments))
  {
    if rest.Ok? {
      var prefix := [first] + rest.value;
      assert prefix + segments == [first] + (rest.value + segments);
      assert rest.value != [] ==> prefix[|prefix| - 1] == rest.value[|rest.value| - 1];
    }
  }

  lemma FirstIsWildcard(a: seq<string>, first: Segment, segments: seq<Segment>)
    requires AreSegments(a) && a != [] && first == ParsePart(a[0]) && first.Wildcard?
    requires AreSegments(a + PrintAll(segments))
    ensures Parse(a + PrintAll(segments)) == Mounted(Parse(a), segments)
  {
    hide PatternOk, ParsePart;
    if first.name != "" && |a| == 1 {
      assert a[1..] == [];
      assert Parse(a) == After([first], Ok([]));
      assert [first] + [] == [first];
      if segments == [] {
        assert a + PrintAll(segments) == a && [first] + segments == [first];
      } else {
        assert |a + PrintAll(segments)| > 1;
      }
    }
  }

  /**
   Mounting re-parses to the prefix pattern followed by the route's own, exactly
   if the prefix parses and does not end in a wildcard before further segments;
   in every other case it is this panic.
   */
  lemma MountReparses(prefix: string, segments: seq<Segment>)
    requires PatternOk(segments)
    ensures ParsePattern(FormatPrefixedPath(prefix, segments)) == Mounted(ParsePattern(prefix), segments)
  {
    hide Parse, Suffix, SplitPath, Mounted, PrintAll;
    var trimmed := TrimSlashes(prefix);
    SplitSuffix(trimmed, segments);
    SplitIgnoresEndSlashes(prefix);
    SplitYieldsSegments(prefix);
    ParseConcat(SplitPath(prefix), segments);
    assert trimmed + "" == trimmed;
  }
}
