/**
 What the line-by-line parser makes of any file, line by line: to which block a
 line belongs depends on the last marker before it alone.
 */
module FileSections {
  import opened Wrappers
  import opened Texts
  import opened Migrations
  import opened MigrationParser
  import opened MigrationFormat

  // ----- Kinds of lines -----

  predicate UpMarker(line: string) {
    Trim(line) == "-- @up"
  }

  predicate DownMarker(line: string) {
    Trim(line) == "-- @down"
  }

  predicate SkipMarker(line: string) {
    "-- @down(skip)" <= Trim(line)
  }

  predicate Marker(line: string) {
    UpMarker(line) || DownMarker(line) || SkipMarker(line)
  }

  predicate NeedsLine(line: string) {
    "-- @requires " <= Trim(line)
  }

  predicate Directive(line: string) {
    Trim(line) == "-- @no-transaction" || NeedsLine(line) || Trim(line) == "-- @repeatable"
  }

  /** Neither blank nor a comment. */
  predicate StatementLine(line: string) {
    Trim(line) != "" && !("--" <= Trim(line))
  }

  // ----- Where a line stands -----

  ghost predicate NoMarkerIn(lines: seq<string>, from: nat, to: nat) {
    forall k :: from <= k < to && k < |lines| ==> !Marker(lines[k])
  }

  ghost predicate NoStatementIn(lines: seq<string>, from: nat, to: nat) {
    forall k :: from <= k < to && k < |lines| ==> !StatementLine(lines[k])
  }

  /** The last marker before line `n` is an up marker. */
  ghost predicate AfterUp(lines: seq<string>, n: nat) {
    exists j: nat :: j < n && j < |lines| && UpMarker(lines[j]) && NoMarkerIn(lines, j + 1, n)
  }

  /** The last marker before line `n` is a down marker. */
  ghost predicate AfterDown(lines: seq<string>, n: nat) {
    exists j: nat :: j < n && j < |lines| && DownMarker(lines[j]) && NoMarkerIn(lines, j + 1, n)
  }

  /** It is an up marker, and no statement has come since. */
  ghost predicate Heading(lines: seq<string>, n: nat) {
    exists j: nat ::
      j < n && j < |lines| && UpMarker(lines[j]) && NoMarkerIn(lines, j + 1, n) && NoStatementIn(lines, j + 1, n)
  }

  lemma AfterUpStep(lines: seq<string>, n: nat)
    requires n < |lines|
    ensures AfterUp(lines, n + 1) <==> UpMarker(lines[n]) || (AfterUp(lines, n) && !Marker(lines[n]))
  {
    hide Marker, UpMarker;
    UpIsMarker(lines[n]);
    if AfterUp(lines, n + 1) {
      var j: nat :| j < n + 1 && j < |lines| && UpMarker(lines[j]) && NoMarkerIn(lines, j + 1, n + 1);
      assert j < n ==> NoMarkerIn(lines, j + 1, n) && !Marker(lines[n]);
    }
    if AfterUp(lines, n) && !Marker(lines[n]) {
      var j: nat :| j < n && j < |lines| && UpMarker(lines[j]) && NoMarkerIn(lines, j + 1, n);
      assert NoMarkerIn(lines, j + 1, n + 1);
    }
    assert NoMarkerIn(lines, n + 1, n + 1);
  }

  lemma AfterDownStep(lines: seq<string>, n: nat)
    requires n < |lines|
    ensures AfterDown(lines, n + 1) <==> DownMarker(lines[n]) || (AfterDown(lines, n) && !Marker(lines[n]))
  {
    hide Marker, DownMarker;
    UpIsMarker(lines[n]);
    if AfterDown(lines, n + 1) {
      var j: nat :| j < n + 1 && j < |lines| && DownMarker(lines[j]) && NoMarkerIn(lines, j + 1, n + 1);
      assert j < n ==> NoMarkerIn(lines, j + 1, n) && !Marker(lines[n]);
    }
    if AfterDown(lines, n) && !Marker(lines[n]) {
      var j: nat :| j < n && j < |lines| && DownMarker(lines[j]) && NoMarkerIn(lines, j + 1, n);
      assert NoMarkerIn(lines, j + 1, n + 1);
    }
    assert NoMarkerIn(lines, n + 1, n + 1);
  }

  lemma HeadingStep(lines: seq<string>, n: nat)
    requires n < |lines|
    ensures Heading(lines, n + 1) <==>
      UpMarker(lines[n]) || (Heading(lines, n) && !Marker(lines[n]) && !StatementLine(lines[n]))
  {
    hide Marker, UpMarker, StatementLine;
    UpIsMarker(lines[n]);
    if Heading(lines, n + 1) {
      var j: nat :| j < n + 1 && j < |lines| && UpMarker(lines[j])
        && NoMarkerIn(lines, j + 1, n + 1) && NoStatementIn(lines, j + 1, n + 1);
      assert j < n ==> NoMarkerIn(lines, j + 1, n) && NoStatementIn(lines, j + 1, n) && !Marker(lines[n]);
    }
    if Heading(lines, n) && !Marker(lines[n]) && !StatementLine(lines[n]) {
      var j: nat :| j < n && j < |lines| && UpMarker(lines[j])
        && NoMarkerIn(lines, j + 1, n) && NoStatementIn(lines, j + 1, n);
      assert NoMarkerIn(lines, j + 1, n + 1) && NoStatementIn(lines, j + 1, n + 1);
    }
    assert NoMarkerIn(lines, n + 1, n + 1) && NoStatementIn(lines, n + 1, n + 1);
  }

  lemma UpIsMarker(line: string)
    ensures UpMarker(line) || DownMarker(line) ==> Marker(line)
  {}

  // ----- What the file holds -----

  /** The lines of the up block among the first `n`: after an up marker, but for the directives at its head. */
  ghost function UpBlock(lines: seq<string>, n: nat): seq<string>
    requires n <= |lines|
  {
    if n == 0 then []
    else
      var i := n - 1;
      UpBlock(lines, i) +
        (if AfterUp(lines, i) && !Marker(lines[i]) && !(Heading(lines, i) && Directive(lines[i])) then [lines[i]]
         else [])
  }

  /** The lines of the down block among the first `n`. */
  ghost function DownBlock(lines: seq<string>, n: nat): seq<string>
    requires n <= |lines|
  {
    if n == 0 then []
    else
      var i := n - 1;
      DownBlock(lines, i) + (if AfterDown(lines, i) && !Marker(lines[i]) then [lines[i]] else [])
  }

  /** The dependencies named in the heads among the first `n` lines. */
  ghost function NeedsIn(lines: seq<string>, n: nat): seq<string>
    requires n <= |lines|
  {
    if n == 0 then []
    else
      var i := n - 1;
      NeedsIn(lines, i) + (if Heading(lines, i) && NeedsLine(lines[i]) then [Trim(Trim(lines[i])[13..])] else [])
  }

  /** Whether one of the first `n` lines is this directive, in a head. */
  ghost predicate HasDirective(lines: seq<string>, n: nat, directive: string) {
    exists i: nat :: i < n && i < |lines| && Heading(lines, i) && Trim(lines[i]) == directive
  }

  ghost predicate HasUp(lines: seq<string>, n: nat) {
    exists i: nat :: i < n && i < |lines| && UpMarker(lines[i])
  }

  /** The reason of the last skip line among the first `n` lines. */
  function LastSkip(lines: seq<string>, n: nat): Option<string>
    requires n <= |lines|
  {
    if n == 0 then None
    else if SkipMarker(lines[n - 1]) then Some(Trim(Trim(lines[n - 1])[14..]))
    else LastSkip(lines, n - 1)
  }

  /** Where a scan of the first `n` lines stands. */
  ghost predicate Stands(s: State, lines: seq<string>, n: nat) {
    && (s.inUp <==> AfterUp(lines, n)) && (s.inDown <==> AfterDown(lines, n))
    && (s.inUp && !s.pastDirectives <==> Heading(lines, n))
  }

  /** What it has found. */
  ghost predicate Found(s: State, lines: seq<string>, n: nat)
    requires n <= |lines|
  {
    && (s.foundUp <==> HasUp(lines, n))
    && s.up == UpBlock(lines, n) && s.down == DownBlock(lines, n)
    && (s.noTransaction <==> HasDirective(lines, n, "-- @no-transaction"))
    && (s.repeatable <==> HasDirective(lines, n, "-- @repeatable"))
    && s.needs == NeedsIn(lines, n) && s.skip == LastSkip(lines, n)
  }

  lemma HasStep(lines: seq<string>, n: nat, directive: string)
    requires n < |lines|
    ensures HasUp(lines, n + 1) <==> HasUp(lines, n) || UpMarker(lines[n])
    ensures HasDirective(lines, n + 1, directive) <==>
      HasDirective(lines, n, directive) || (Heading(lines, n) && Trim(lines[n]) == directive)
  {}

  /** The kinds of lines are told apart by their texts. */
  lemma KindsApart(line: string)
    ensures var t := Trim(line);
      && (UpMarker(line) <==> t == UP) && (DownMarker(line) <==> t == DOWN)
      && (SkipMarker(line) <==> StartsWith(t, SKIP)) && (Marker(line) <==> IsMarker(t))
      && (NeedsLine(line) <==> StartsWith(t, REQUIRES)) && (Directive(line) <==> IsDirective(t))
      && (StatementLine(line) <==> IsReal(t))
      && (UpMarker(line) ==> !DownMarker(line) && !SkipMarker(line))
      && (DownMarker(line) ==> !SkipMarker(line))
      && (Marker(line) || Directive(line) ==> !StatementLine(line)) && (Directive(line) ==> !Marker(line))
      && (NeedsLine(line) ==> t != NO_TRANSACTION && t != REPEATABLE)
  {
    var t := Trim(line);
    assert SKIP <= t ==> t[8] == '(';
    assert REQUIRES <= t ==> t[6] == 'q';
    assert SKIP <= t || REQUIRES <= t ==> t[..2] == "--";
    assert UP[..2] == DOWN[..2] == NO_TRANSACTION[..2] == REPEATABLE[..2] == "--";
  }

  lemma StandsStep(s: State, lines: seq<string>, n: nat)
    requires n < |lines| && Stands(s, lines, n)
    ensures Stands(Step(s, lines[n]), lines, n + 1)
  {
    hide AfterUp, AfterDown, Heading, UpMarker, DownMarker, SkipMarker, Marker, NeedsLine, Directive, StatementLine,
         IsReal, StartsWith, Trim;
    AfterUpStep(lines, n);
    AfterDownStep(lines, n);
    HeadingStep(lines, n);
    KindsApart(lines[n]);
    UpIsMarker(lines[n]);
    HeadingIsUp(lines, n);
  }

  lemma FoundStep(s: State, lines: seq<string>, n: nat)
    requires n < |lines| && Stands(s, lines, n) && Found(s, lines, n)
    ensures Found(Step(s, lines[n]), lines, n + 1)
  {
    hide AfterUp, AfterDown, Heading, HasUp, HasDirective, UpMarker, DownMarker, SkipMarker, Marker, NeedsLine,
         Directive, StatementLine, IsReal, StartsWith, Trim;
    HasStep(lines, n, "-- @no-transaction");
    HasStep(lines, n, "-- @repeatable");
    KindsApart(lines[n]);
    UpIsMarker(lines[n]);
    HeadingIsUp(lines, n);
    UpApartFromDown(lines, n);
    assert |SKIP| == 14 && |REQUIRES| == 13;
  }

  lemma UpApartFromDown(lines: seq<string>, n: nat)
    ensures !(AfterUp(lines, n) && AfterDown(lines, n))
  {
    hide UpMarker, DownMarker, Marker;
    if AfterUp(lines, n) && AfterDown(lines, n) {
      var i: nat :| i < n && i < |lines| && UpMarker(lines[i]) && NoMarkerIn(lines, i + 1, n);
      var j: nat :| j < n && j < |lines| && DownMarker(lines[j]) && NoMarkerIn(lines, j + 1, n);
      UpIsMarker(lines[i]);
      UpIsMarker(lines[j]);
      KindsApart(lines[i]);
    }
  }

  lemma HeadingIsUp(lines: seq<string>, n: nat)
    ensures Heading(lines, n) ==> AfterUp(lines, n)
  {}

  lemma NothingFound(lines: seq<string>)
    ensures Stands(INITIAL, lines, 0) && Found(INITIAL, lines, 0)
  {}

  /** For any lines, the scan finds exactly what stands in the lines' places. */
  lemma {:induction false} ScanFinds(lines: seq<string>, n: nat)
    requires n <= |lines|
    ensures Stands(Scan(INITIAL, lines[..n]), lines, n) && Found(Scan(INITIAL, lines[..n]), lines, n)
  {
    hide Stands, Found, Step, Scan;
    if n == 0 {
      NothingFound(lines);
      ScanNothing(INITIAL, lines[..0]);
    } else {
      ScanFinds(lines, n - 1);
      StandsStep(Scan(INITIAL, lines[..n - 1]), lines, n - 1);
      FoundStep(Scan(INITIAL, lines[..n - 1]), lines, n - 1);
      assert lines[..n] == lines[..n - 1] + [lines[n - 1]];
      ScanConcat(INITIAL, lines[..n - 1], [lines[n - 1]]);
      ScanOne(Scan(INITIAL, lines[..n - 1]), lines[n - 1]);
    }
  }

  /**
   What any file parses to: it needs a valid name and an up marker, and then
   each part of the migration is made of the lines in its place.
   */
  lemma ParsedParts(filename: string, content: string, checksum: string -> string)
    ensures ParseFile(filename, content, checksum).Ok? <==>
      ParseFilename(filename).Ok? && HasUp(Lines(content), |Lines(content)|)
    ensures ParseFile(filename, content, checksum).Ok? ==>
      MadeOf(ParseFile(filename, content, checksum).value, Lines(content), checksum)
    ensures ParseFile(filename, content, checksum).Ok? ==>
      var m := ParseFile(filename, content, checksum).value;
      ParseFilename(filename) == Ok((m.version, m.name))
  {
    hide Scan, Lines, HasUp, ParseFilename, Found, Stands, Finish, MadeOf;
    var lines := Lines(content);
    ScanFinds(lines, |lines|);
    assert lines[..|lines|] == lines;
    if ParseFilename(filename).Ok? {
      var (version, name) := ParseFilename(filename).value;
      FinishFound(Scan(INITIAL, lines), lines, version, name, checksum);
    }
  }

  /** Each part of the migration is made of the lines in its place. */
  ghost predicate MadeOf(m: Migration, lines: seq<string>, checksum: string -> string) {
    && m.upSql == Trim(Join(UpBlock(lines, |lines|), '\n'))
    && m.checksum == checksum(m.upSql)
    && (var down := Trim(Join(DownBlock(lines, |lines|), '\n'));
        m.downSql == if down == "" then None else Some(down))
    && m.downSkipReason == LastSkip(lines, |lines|)
    && m.needs == NeedsIn(lines, |lines|)
    && (m.noTransaction <==> HasDirective(lines, |lines|, "-- @no-transaction"))
    && (m.repeatable <==> HasDirective(lines, |lines|, "-- @repeatable"))
  }

  lemma FinishFound(s: State, lines: seq<string>, version: string, name: string, checksum: string -> string)
    requires Found(s, lines, |lines|)
    ensures Finish(s, version, name, checksum).Ok? <==> HasUp(lines, |lines|)
    ensures Finish(s, version, name, checksum).Ok? ==>
      var m := Finish(s, version, name, checksum).value;
      m.version == version && m.name == name && MadeOf(m, lines, checksum)
  {
    hide Trim, Join, HasUp, HasDirective, UpBlock, DownBlock, NeedsIn, LastSkip;
  }
}
