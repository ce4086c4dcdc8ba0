/** Route patterns: parsing, printing, and matching a path with captures. */
module Patterns {
  import opened Wrappers
  import opened Texts
  import opened Paths

  datatype Segment = Static(text: string) | Param(name: string) | Wildcard(name: string)

  /** The two panics of the pattern parser. */
  datatype PatternError = UnnamedWildcard | WildcardNotLast(name: string)

  type Params = seq<(string, string)>

  // ----- Parsing -----

  function ParsePart(part: string): Segment
    requires part != ""
  {
    if part[0] == '*' then Wildcard(part[1..])
    else if part[0] == ':' then Param(part[1..])
    else Static(part)
  }

  function Parse(parts: seq<string>): Result<seq<Segment>, PatternError>
    requires AreSegments(parts)
  {
    if parts == [] then Ok([])
    else
      var segment := ParsePart(parts[0]);
      if segment.Wildcard? && segment.name == "" then Err(UnnamedWildcard)
      else if segment.Wildcard? && |parts| > 1 then Err(WildcardNotLast(segment.name))
      else
        After([segment], Parse(parts[1..]))
  }

  function After(segments: seq<Segment>, r: Result<seq<Segment>, PatternError>): Result<seq<Segment>, PatternError> {
    if r.Err? then r else Ok(segments + r.value)
  }

  lemma ParseFirst(segments: seq<Segment>, parts: seq<string>)
    requires AreSegments(parts) && parts != []
    ensures var segment := ParsePart(parts[0]);
      After(segments, Parse(parts)) ==
        if segment.Wildcard? && segment.name == "" then Err(UnnamedWildcard)
        else if segment.Wildcard? && |parts| > 1 then Err(WildcardNotLast(segment.name))
        else After(segments + [segment], Parse(parts[1..]))
  {
    hide After;
    AfterTwice(segments, [ParsePart(parts[0])], Parse(parts[1..]));
    AfterError(segments);
  }

  lemma AfterTwice(a: seq<Segment>, b: seq<Segment>, r: Result<seq<Segment>, PatternError>)
    ensures After(a, After(b, r)) == After(a + b, r)
  {
    if r.Ok? {
      assert a + (b + r.value) == a + b + r.value;
    }
  }

  lemma AfterError(a: seq<Segment>)
    ensures forall e :: After(a, Err(e)) == Err(e)
  {}

  lemma AfterEnds(a: seq<Segment>, r: Result<seq<Segment>, PatternError>)
    ensures After([], r) == r && After(a, Ok([])) == Ok(a)
  {
    if r.Ok? {
      assert [] + r.value == r.value;
    }
    assert a + [] == a;
  }

  function ParsePattern(path: string): Result<seq<Segment>, PatternError> {
    SplitYieldsSegments(path);
    Parse(SplitPath(path))
  }

  /** The parser's loop. */
  method ParsePath(path: string) returns (r: Result<seq<Segment>, PatternError>)
    ensures r == ParsePattern(path)
  {
    var parts := SplitPath(path);
    SplitYieldsSegments(path);
    var segments: seq<Segment> := [];
    assert parts[0..] == parts;
    AfterEnds([], Parse(parts));
    for i := 0 to |parts|
      invariant AreSegments(parts[i..])
      invariant Parse(parts) == After(segments, Parse(parts[i..]))
    {
      hide Parse, After, SplitPath;
      var s := parts[i];
      ParseFirst(segments, parts[i..]);
      assert parts[i..][1..] == parts[i + 1..] && parts[i..][0] == s;
      if s[0] == '*' {
        var name := s[1..];
        if name == "" {
          return Err(UnnamedWildcard);
        }
        if i != |parts| - 1 {
          return Err(WildcardNotLast(name));
        }
        segments := segments + [Wildcard(name)];
      } else if s[0] == ':' {
        segments := segments + [Param(s[1..])];
      } else {
        segments := segments + [Static(s)];
      }
    }
    assert parts[|parts|..] == [];
    AfterEnds(segments, Ok([]));
    return Ok(segments);
  }

  // ----- Printing -----

  function Print(segment: Segment): string {
    match segment
    case Static(text) => text
    case Param(name) => ":" + name
    case Wildcard(name) => "*" + name
  }

  function PrintAll(segments: seq<Segment>): seq<string> {
    seq(|segments|, i requires 0 <= i < |segments| => Print(segments[i]))
  }

  predicate SegmentOk(segment: Segment) {
    match segment
    case Static(text) => IsSegment(text) && text[0] != '*' && text[0] != ':'
    case Param(name) => Free(name, '/')
    case Wildcard(name) => IsSegment(name)
  }

  /** What the parser yields: a wildcard stands last or nowhere. */
  predicate PatternOk(segments: seq<Segment>) {
    forall i :: 0 <= i < |segments| ==> SegmentOk(segments[i]) && (segments[i].Wildcard? ==> i == |segments| - 1)
  }

  lemma PrintPart(segment: Segment)
    requires SegmentOk(segment)
    ensures IsSegment(Print(segment)) && ParsePart(Print(segment)) == segment
  {
    assert segment.Param? ==> (":" + segment.name)[1..] == segment.name;
    assert segment.Wildcard? ==> ("*" + segment.name)[1..] == segment.name;
  }

  lemma ParsePartOk(part: string)
    requires IsSegment(part)
    ensures Print(ParsePart(part)) == part
    ensures SegmentOk(ParsePart(part)) <==> part != "*"
  {
    assert part == [part[0]] + part[1..];
    assert part[0] in part && forall c :: c in part[1..] ==> c in part;
  }

  /** Parsing and printing are inverse: the parser accepts exactly the printed patterns. */
  lemma {:induction false} ParseIsInverseOfPrint(parts: seq<string>, segments: seq<Segment>)
    requires AreSegments(parts)
    ensures Parse(parts) == Ok(segments) <==> PatternOk(segments) && PrintAll(segments) == parts
  {
    if parts == [] {
      assert PrintAll(segments) == parts <==> segments == [];
    } else if segments != [] {
      ParsePartOk(parts[0]);
      ParseIsInverseOfPrint(parts[1..], segments[1..]);
      assert PatternOk(segments) ==> PatternOk(segments[1..]);
      if SegmentOk(segments[0]) {
        PrintPart(segments[0]);
      }
      assert PrintAll(segments)[1..] == PrintAll(segments[1..]);
      assert PrintAll(segments) == [Print(segments[0])] + PrintAll(segments[1..]);
      assert parts == [parts[0]] + parts[1..];
      assert segments == [segments[0]] + segments[1..];
    }
  }

  lemma PrintedAreSegments(segments: seq<Segment>)
    requires PatternOk(segments)
    ensures AreSegments(PrintAll(segments)) && Parse(PrintAll(segments)) == Ok(segments)
  {
    forall i | 0 <= i < |segments| ensures IsSegment(PrintAll(segments)[i]) {
      PrintPart(segments[i]);
    }
    ParseIsInverseOfPrint(PrintAll(segments), segments);
  }
}
