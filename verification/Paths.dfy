/** Request paths: their segments, and joining them again. */
module Paths {
  import opened Texts

  function NonEmpty(parts: seq<string>): seq<string> {
    if parts == [] then []
    else if parts[0] == "" then NonEmpty(parts[1..])
    else [parts[0]] + NonEmpty(parts[1..])
  }

  /** The non-empty segments of a path. */
  function SplitPath(path: string): seq<string> {
    NonEmpty(Split(path, '/'))
  }

  function JoinPath(segments: seq<string>): string {
    Join(segments, '/')
  }

  /** What a path segment can be. */
  predicate IsSegment(s: string) {
    s != "" && Free(s, '/')
  }

  ghost predicate AreSegments(parts: seq<string>) {
    forall i :: 0 <= i < |parts| ==> IsSegment(parts[i])
  }

  lemma NonEmptyFirst(first: string, rest: seq<string>)
    ensures NonEmpty([first] + rest) == (if first == "" then [] else [first]) + NonEmpty(rest)
  {
    assert ([first] + rest)[1..] == rest;
  }

  lemma {:induction false} NonEmptyConcat(a: seq<string>, b: seq<string>)
    ensures NonEmpty(a + b) == NonEmpty(a) + NonEmpty(b)
  {
    if a == [] {
      assert a + b == b;
    } else {
      NonEmptyConcat(a[1..], b);
      assert a + b == [a[0]] + (a[1..] + b);
      NonEmptyFirst(a[0], a[1..] + b);
      NonEmptyFirst(a[0], a[1..]);
      assert a == [a[0]] + a[1..];
    }
  }

  lemma SplitPathConcat(a: string, b: string)
    ensures SplitPath(a + "/" + b) == SplitPath(a) + SplitPath(b)
  {
    SplitConcat(a, b, '/');
    NonEmptyConcat(Split(a, '/'), Split(b, '/'));
  }

  lemma SplitSegment(s: string)
    requires IsSegment(s)
    ensures SplitPath(s) == [s]
  {
    SplitFree(s, '/');
    assert NonEmpty([s]) == [s] + NonEmpty([]);
  }

  lemma {:induction false} NonEmptyAreSegments(parts: seq<string>)
    requires AllFree(parts, '/')
    ensures AreSegments(NonEmpty(parts))
  {
    if parts == [] {
    } else {
      assert Free(parts[0], '/');
      NonEmptyAreSegments(parts[1..]);
    }
  }

  /** Splitting yields segments only. */
  lemma SplitYieldsSegments(path: string)
    ensures AreSegments(SplitPath(path))
  {
    SplitIsFree(path, '/');
    NonEmptyAreSegments(Split(path, '/'));
  }

  lemma JoinFirst(first: string, rest: seq<string>)
    ensures SplitPath(JoinPath([first] + rest)) == SplitPath(first) + SplitPath(JoinPath(rest))
  {
    if rest == [] {
      assert [first] + rest == [first];
      assert SplitPath(JoinPath([])) == [];
      assert SplitPath(first) + [] == SplitPath(first);
    } else {
      assert ([first] + rest)[1..] == rest;
      SplitPathConcat(first, JoinPath(rest));
    }
  }

  /** Joining segments and splitting again gives the segments back. */
  lemma {:induction false} SplitOfJoined(segments: seq<string>)
    requires AreSegments(segments)
    ensures SplitPath(JoinPath(segments)) == segments
  {
    if segments == [] {
    } else {
      SplitOfJoined(segments[1..]);
      SplitSegment(segments[0]);
      JoinFirst(segments[0], segments[1..]);
      assert segments == [segments[0]] + segments[1..];
    }
  }

  /** `trim_end_matches('/')` */
  function TrimSlashes(s: string): string {
    if s != "" && s[|s| - 1] == '/' then TrimSlashes(s[..|s| - 1]) else s
  }

  lemma {:induction false} SplitIgnoresEndSlashes(s: string)
    ensures SplitPath(TrimSlashes(s)) == SplitPath(s)
  {
    if s != "" && s[|s| - 1] == '/' {
      var less := s[..|s| - 1];
      SplitIgnoresEndSlashes(less);
      assert s == less + "/" + "";
      SplitPathConcat(less, "");
    }
  }
}
