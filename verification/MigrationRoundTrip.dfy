/** Which migrations survive printing and parsing: exactly the printable ones. */
module MigrationRoundTrip {
  import opened Wrappers
  import opened Texts
  import opened Migrations
  import opened MigrationParser
  import opened MigrationFormat

  // ----- What the parser can yield at all -----

  /** What holds of the parser's state on any file. */
  ghost predicate Yielded(s: State) {
    && AllFree(s.up, '\n') && AllFree(s.down, '\n')
    && NoMarkers(s.up) && NoMarkers(s.down)
    && LeadingOk(s.up) && (s.pastDirectives ==> AnyReal(s.up))
    && (forall i :: 0 <= i < |s.needs| ==> NeedOk(s.needs[i]))
    && (s.skip.Some? ==> ReasonOk(s.skip.value))
  }

  lemma {:induction false} LeadingAppend(lines: seq<string>, line: string)
    requires LeadingOk(lines) && (AnyReal(lines) || !IsDirective(Trim(line)))
    ensures LeadingOk(lines + [line])
  {
    hide Trim, IsDirective, IsReal;
    if lines == [] {
      assert lines + [line] == [line] && [line][1..] == [];
    } else if !IsReal(Trim(lines[0])) {
      assert (lines + [line])[1..] == lines[1..] + [line];
      if AnyReal(lines) {
        var i :| 0 <= i < |lines| && IsReal(Trim(lines[i]));
        assert lines[1..][i - 1] == lines[i];
      }
      LeadingAppend(lines[1..], line);
    }
  }

  lemma {:induction false} LeadingPrefix(lines: seq<string>, line: string)
    requires LeadingOk(lines + [line])
    ensures LeadingOk(lines)
  {
    hide Trim, IsDirective, IsReal;
    if lines == [] {
    } else {
      assert (lines + [line])[1..] == lines[1..] + [line];
      if !IsReal(Trim(lines[0])) {
        LeadingPrefix(lines[1..], line);
      }
    }
  }

  lemma {:induction false} TrimStartFree(s: string, c: char)
    requires Free(s, c)
    ensures Free(TrimStart(s), c)
  {
    if s != "" && IsSpace(s[0]) {
      assert forall d :: d in s[1..] ==> d in s;
      TrimStartFree(s[1..], c);
    }
  }

  lemma {:induction false} TrimEndFree(s: string, c: char)
    requires Free(s, c)
    ensures Free(TrimEnd(s), c)
  {
    if s != "" && IsSpace(s[|s| - 1]) {
      assert forall d :: d in s[..|s| - 1] ==> d in s;
      TrimEndFree(s[..|s| - 1], c);
    }
  }

  lemma TrimFree(s: string, c: char)
    requires Free(s, c)
    ensures Free(Trim(s), c)
  {
    TrimStartFree(s, c);
    TrimEndFree(TrimStart(s), c);
  }

  lemma {:induction false} TrimStartKeepsEnd(s: string)
    requires s != "" && !IsSpace(s[|s| - 1])
    ensures TrimStart(s) != "" && !IsSpace(TrimStart(s)[|TrimStart(s)| - 1])
  {
    if IsSpace(s[0]) {
      TrimStartKeepsEnd(s[1..]);
    }
  }

  /** What follows a prefix in a trimmed line, trimmed itself. */
  lemma RestOfLine(trimmed: string, prefix: string)
    requires IsTrimmed(trimmed) && Free(trimmed, '\n') && StartsWith(trimmed, prefix)
    ensures ReasonOk(Trim(trimmed[|prefix|..]))
    ensures prefix != "" && IsSpace(prefix[|prefix| - 1]) ==> NeedOk(Trim(trimmed[|prefix|..]))
  {
    var rest := trimmed[|prefix|..];
    assert forall c :: c in rest ==> c in trimmed;
    TrimFree(rest, '\n');
    TrimIsTrimmed(rest);
    if prefix != "" && IsSpace(prefix[|prefix| - 1]) {
      assert trimmed[|prefix| - 1] == prefix[|prefix| - 1];
      TrimStartKeepsEnd(rest);
    }
  }

  lemma YieldedPush(s: State, line: string)
    requires Yielded(s) && Free(line, '\n') && !IsMarker(Trim(line))
    requires s.inUp ==> AnyReal(s.up) || !IsDirective(Trim(line))
    ensures var r := Push(s, line);
      && AllFree(r.up, '\n') && AllFree(r.down, '\n') && NoMarkers(r.up) && NoMarkers(r.down) && LeadingOk(r.up)
      && (AnyReal(s.up) ==> AnyReal(r.up)) && (s.inUp && IsReal(Trim(line)) ==> AnyReal(r.up))
  {
    hide Trim, IsMarker, IsDirective, IsReal, LeadingOk;
    var r := Push(s, line);
    if s.inUp {
      LeadingAppend(s.up, line);
      assert r.up[|s.up|] == line;
      if AnyReal(s.up) {
        var i :| 0 <= i < |s.up| && IsReal(Trim(s.up[i]));
        assert r.up[i] == s.up[i];
      }
    }
  }

  lemma YieldedStep(s: State, line: string)
    requires Yielded(s) && Free(line, '\n')
    ensures Yielded(Step(s, line))
  {
    hide Trim, Free, LeadingOk, NoMarkers, AnyReal, AllFree, NeedOk, ReasonOk, IsReal;
    var trimmed := Trim(line);
    TrimFree(line, '\n');
    TrimIsTrimmed(line);
    if IsMarker(trimmed) {
      if trimmed != UP && trimmed != DOWN {
        RestOfLine(trimmed, SKIP);
      }
    } else if s.inUp && !s.pastDirectives {
      if IsDirective(trimmed) {
        if StartsWith(trimmed, REQUIRES) {
          RestOfLine(trimmed, REQUIRES);
          assert IsSpace(REQUIRES[|REQUIRES| - 1]);
        }
      } else {
        YieldedPush(s, line);
      }
    } else {
      YieldedPush(s, line);
    }
  }

  lemma {:induction false} YieldedScan(s: State, lines: seq<string>)
    requires Yielded(s) && AllFree(lines, '\n')
    ensures Yielded(Scan(s, lines))
    decreases |lines|
  {
    hide Yielded, Step;
    if lines == [] {
    } else {
      assert Free(lines[0], '\n');
      YieldedStep(s, lines[0]);
      YieldedScan(Step(s, lines[0]), lines[1..]);
    }
  }

  lemma {:induction false} LinesAreFree(s: string)
    ensures AllFree(Lines(s), '\n')
  {
    if s == "" {
    } else {
      var i := BreakAt(s);
      if i == |s| {
        assert s[..i] == s;
      } else {
        LinesAreFree(s[i + 1..]);
        var first := StripCr(s[..i]);
        assert forall c :: c in first ==> c in s[..i];
      }
    }
  }

  // ----- Trimming a block keeps its lines apart from markers and directives -----

  lemma BlankIsNothing()
    ensures Trim("") == "" && !IsMarker("") && !IsDirective("") && !IsReal("")
  {}

  lemma BlockAfterFirst(c: char, s: string)
    requires IsSpace(c)
    ensures NoMarkers(Split([c] + s, '\n')) ==> NoMarkers(Split(s, '\n'))
    ensures LeadingOk(Split([c] + s, '\n')) ==> LeadingOk(Split(s, '\n'))
  {
    hide Trim, IsMarker, IsDirective, IsReal, Split;
    var all, rest := Split([c] + s, '\n'), Split(s, '\n');
    SplitFirst(c, s, '\n');
    BlankIsNothing();
    if c == '\n' {
      assert all[1..] == rest;
      assert NoMarkers(all) ==> NoMarkers(rest) by {
        if NoMarkers(all) {
          forall i | 0 <= i < |rest| ensures !IsMarker(Trim(rest[i])) { assert all[i + 1] == rest[i]; }
        }
      }
    } else {
      TrimStartSpace(rest[0], c);
      SameTrims(all, rest);
    }
  }

  lemma {:induction false} SplitLast(s: string, c: char)
    ensures var lines := Split(s, '\n'); var n := |lines| - 1;
      Split(s + [c], '\n') == if c == '\n' then lines + [""] else lines[..n] + [lines[n] + [c]]
  {
    if c == '\n' {
      SplitConcat(s, "", '\n');
      SplitEmpty('\n');
      assert s + ['\n'] + "" == s + [c];
    } else if s == "" {
      assert s + [c] == [c] + "";
      SplitFirst(c, "", '\n');
    } else {
      hide *;
      var t := s[1..];
      SplitLast(t, c);
      assert s == [s[0]] + t && s + [c] == [s[0]] + (t + [c]);
      SplitFirst(s[0], t, '\n');
      SplitFirst(s[0], t + [c], '\n');
      LongerLast(s[0], Split(t, '\n'), c);
    }
  }

  lemma LongerLast(first: char, p: seq<string>, c: char)
    requires p != []
    ensures var n := |p| - 1; var q := p[..n] + [p[n] + [c]];
      var s := [[first] + p[0]] + p[1..];
      [[first] + q[0]] + q[1..] == s[..n] + [s[n] + [c]] && [""] + q == ([""] + p)[..n + 1] + [([""] + p)[n + 1] + [c]]
  {
    assert |p| == 1 ==> [first] + (p[0] + [c]) == [first] + p[0] + [c];
  }

  lemma BlockBeforeLast(s: string, c: char)
    requires IsSpace(c)
    ensures NoMarkers(Split(s + [c], '\n')) ==> NoMarkers(Split(s, '\n'))
    ensures LeadingOk(Split(s + [c], '\n')) ==> LeadingOk(Split(s, '\n'))
  {
    hide Trim, IsMarker, IsDirective, IsReal, Split, LeadingOk;
    var all, lines := Split(s + [c], '\n'), Split(s, '\n');
    SplitLast(s, c);
    if c == '\n' {
      if LeadingOk(all) {
        LeadingPrefix(lines, "");
      }
      assert NoMarkers(all) ==> NoMarkers(lines) by {
        if NoMarkers(all) {
          forall i | 0 <= i < |lines| ensures !IsMarker(Trim(lines[i])) { assert all[i] == lines[i]; }
        }
      }
    } else {
      TrimEndSpace(lines[|lines| - 1], c);
      SameTrims(all, lines);
    }
  }

  lemma {:induction false} BlockTrimStart(s: string)
    ensures NoMarkers(Split(s, '\n')) ==> NoMarkers(Split(TrimStart(s), '\n'))
    ensures LeadingOk(Split(s, '\n')) ==> LeadingOk(Split(TrimStart(s), '\n'))
  {
    hide NoMarkers, LeadingOk, Split;
    if s != "" && IsSpace(s[0]) {
      assert s == [s[0]] + s[1..];
      BlockAfterFirst(s[0], s[1..]);
      BlockTrimStart(s[1..]);
    }
  }

  lemma {:induction false} BlockTrimEnd(s: string)
    ensures NoMarkers(Split(s, '\n')) ==> NoMarkers(Split(TrimEnd(s), '\n'))
    ensures LeadingOk(Split(s, '\n')) ==> LeadingOk(Split(TrimEnd(s), '\n'))
  {
    hide NoMarkers, LeadingOk, Split;
    if s != "" && IsSpace(s[|s| - 1]) {
      assert s == s[..|s| - 1] + [s[|s| - 1]];
      BlockBeforeLast(s[..|s| - 1], s[|s| - 1]);
      BlockTrimEnd(s[..|s| - 1]);
    }
  }

  /** The block that collected lines make has no marker, and no early directive if they have none. */
  lemma BlockOfLines(lines: seq<string>)
    requires AllFree(lines, '\n') && NoMarkers(lines)
    ensures NoMarkers(Split(Trim(Join(lines, '\n')), '\n'))
    ensures LeadingOk(lines) ==> LeadingOk(Split(Trim(Join(lines, '\n')), '\n'))
  {
    hide IsMarker, IsDirective, IsReal;
    var text := Join(lines, '\n');
    if lines == [] {
      BlankIsNothing();
      SplitEmpty('\n');
    } else {
      SplitOfJoin(lines, '\n');
    }
    BlockTrimStart(text);
    BlockTrimEnd(TrimStart(text));
  }

  // ----- The round trip -----

  /** Whatever file a parsed migration comes from, its parts can be told apart when printed. */
  lemma ParsedIsSeparable(filename: string, content: string, checksum: string -> string)
    requires ParseFile(filename, content, checksum).Ok?
    ensures Separable(ParseFile(filename, content, checksum).value)
  {
    hide NoMarkers, LeadingOk, Trim, Split, Join, AnyReal, NeedOk, ReasonOk, Step, Lines;
    var s := Scan(INITIAL, Lines(content));
    LinesAreFree(content);
    NothingYielded();
    YieldedScan(INITIAL, Lines(content));
    BlockOfLines(s.up);
    BlockOfLines(s.down);
  }

  lemma NothingYielded()
    ensures Yielded(INITIAL)
  {}

  lemma PrintableIs(m: Migration, checksum: string -> string)
    ensures Printable(m, checksum) <==>
      && Separable(m)
      && IsVersion(m.version) && m.name != "" && m.checksum == checksum(m.upSql)
      && IsTrimmed(m.upSql) && NoCrLf(m.upSql)
      && (m.downSql.Some? ==> m.downSql.value != "" && IsTrimmed(m.downSql.value) && NoCrLf(m.downSql.value))
  {}

  /** What the scan of the printed form finishes as. */
  lemma FinishPrinted(m: Migration, version: string, name: string, checksum: string -> string)
    requires Separable(m)
    ensures Finish(Scan(INITIAL, Lines(Print(m))), version, name, checksum) == Ok(m) <==>
      && version == m.version && name == m.name && m.checksum == checksum(m.upSql)
      && IsTrimmed(m.upSql) && NoCrLf(m.upSql)
      && (m.downSql.Some? ==> m.downSql.value != "" && IsTrimmed(m.downSql.value) && NoCrLf(m.downSql.value))
  {
    hide Separable, NoCrLf, Trim, Join, SqlLines, Print, Lines, Scan;
    ScanPrinted(m);
    BlockReadsBack(m.upSql, m.downSql.Some? || m.downSkipReason.Some?);
    if m.downSql.Some? {
      BlockReadsBack(m.downSql.value, m.downSkipReason.Some?);
    } else {
      EmptyJoin();
    }
  }

  /**
   Printing a migration in the documented format and parsing it gives the same
   migration back exactly if it is printable.
   */
  lemma RoundTrip(m: Migration, checksum: string -> string)
    ensures ParseFile(Filename(m.version, m.name), Print(m), checksum) == Ok(m) <==> Printable(m, checksum)
  {
    hide Separable, Printable, Filename, IsVersion, Finish, Print;
    var filename := Filename(m.version, m.name);
    FilenameReadsBack(filename, m.version, m.name);
    PrintableIs(m, checksum);
    if Separable(m) {
      match ParseFilename(filename)
      case Ok((version, name)) => FinishPrinted(m, version, name, checksum);
      case Err(_) =>
    } else if ParseFile(filename, Print(m), checksum).Ok? {
      ParsedIsSeparable(filename, Print(m), checksum);
    }
  }

  /** A migration that was parsed comes back from its printed form exactly if no block holds a CR LF. */
  lemma ReprintIsStable(filename: string, content: string, checksum: string -> string)
    requires ParseFile(filename, content, checksum).Ok?
    ensures var m := ParseFile(filename, content, checksum).value;
      ParseFile(Filename(m.version, m.name), Print(m), checksum) == Ok(m)
      <==> NoCrLf(m.upSql) && (m.downSql.Some? ==> NoCrLf(m.downSql.value))
  {
    hide Scan, Lines, Print, Join, Trim, Separable, NoCrLf, IsTrimmed, IsVersion, Filename;
    var m := ParseFile(filename, content, checksum).value;
    var s := Scan(INITIAL, Lines(content));
    TrimIsTrimmed(Join(s.up, '\n'));
    TrimIsTrimmed(Join(s.down, '\n'));
    FilenameReadsBack(filename, m.version, m.name);
    ParsedIsSeparable(filename, content, checksum);
    PrintableIs(m, checksum);
    RoundTrip(m, checksum);
  }

  // ----- Lines before the up marker -----

  /** No skip line, and after a down marker only further down markers and blank lines. */
  predicate Quiet(lines: seq<string>, afterDown: bool)
    decreases |lines|
  {
    lines == [] ||
    (var trimmed := Trim(lines[0]);
     if trimmed == DOWN then Quiet(lines[1..], true)
     else !StartsWith(trimmed, SKIP) && (afterDown ==> trimmed == "") && Quiet(lines[1..], afterDown))
  }

  ghost predicate AllBlank(lines: seq<string>) {
    forall i :: 0 <= i < |lines| ==> Trim(lines[i]) == ""
  }

  ghost predicate NoUp(lines: seq<string>) {
    forall i :: 0 <= i < |lines| ==> Trim(lines[i]) != UP
  }

  /** The state before any up marker. */
  predicate BeforeUp(s: State) {
    s == INITIAL.(inDown := s.inDown, down := s.down, skip := s.skip)
  }

  lemma AllBlankAppend(lines: seq<string>, line: string)
    ensures AllBlank(lines + [line]) <==> AllBlank(lines) && Trim(line) == ""
  {
    hide Trim;
    if AllBlank(lines + [line]) {
      forall i | 0 <= i < |lines| ensures Trim(lines[i]) == "" {
        assert (lines + [line])[i] == lines[i];
      }
      assert (lines + [line])[|lines|] == line;
    }
  }

  /** A skip reason stays, and the lines collected after a down marker stay. */
  lemma {:induction false} ScanBeforeUp(s: State, lines: seq<string>)
    requires BeforeUp(s) && NoUp(lines)
    ensures BeforeUp(Scan(s, lines))
    ensures AllBlank(Scan(s, lines).down) && Scan(s, lines).skip == None
      <==> AllBlank(s.down) && s.skip == None && Quiet(lines, s.inDown)
    decreases |lines|
  {
    hide Trim, AllBlank;
    if lines == [] {
    } else {
      var trimmed := Trim(lines[0]);
      AllBlankAppend(s.down, lines[0]);
      BlankIsNothing();
      ScanBeforeUp(Step(s, lines[0]), lines[1..]);
    }
  }

  /** Blank lines in front of a block are trimmed away. */
  lemma {:induction false} TrimBlanksFirst(blank: seq<string>, lines: seq<string>)
    requires AllBlank(blank)
    ensures Trim(Join(blank + lines, '\n')) == Trim(Join(lines, '\n'))
  {
    hide Trim;
    if blank == [] {
      assert blank + lines == lines;
    } else {
      TrimBlanksFirst(blank[1..], lines);
      assert blank + lines == [blank[0]] + (blank[1..] + lines);
      TrimBlankFirst(blank[0], blank[1..] + lines);
    }
  }

  lemma TrimBlankFirst(line: string, lines: seq<string>)
    requires Trim(line) == ""
    ensures Trim(Join([line] + lines, '\n')) == Trim(Join(lines, '\n'))
  {
    hide Trim;
    assert ([line] + lines)[1..] == lines;
    BlankIsSpaces(line);
    if lines == [] {
      EmptyJoin();
    } else {
      var rest := "\n" + Join(lines, '\n');
      assert line + ['\n'] + Join(lines, '\n') == line + rest;
      TrimSpaces(line, rest);
      TrimStartSpace(Join(lines, '\n'), '\n');
    }
  }

  lemma {:induction false} BlankIsSpaces(line: string)
    requires Trim(line) == ""
    ensures forall i :: 0 <= i < |line| ==> IsSpace(line[i])
  {
    if line == "" {
    } else if IsSpace(line[0]) {
      BlankIsSpaces(line[1..]);
      assert line == [line[0]] + line[1..];
    } else {
      assert TrimStart(line) == line;
      TrimEndKeepsFirst(line);
    }
  }

  lemma {:induction false} TrimEndKeepsFirst(s: string)
    requires s != "" && !IsSpace(s[0])
    ensures TrimEnd(s) != ""
  {
    if IsSpace(s[|s| - 1]) {
      TrimEndKeepsFirst(s[..|s| - 1]);
    } else {
    }
  }

  lemma {:induction false} TrimSpaces(spaces: string, s: string)
    requires forall i :: 0 <= i < |spaces| ==> IsSpace(spaces[i])
    ensures Trim(spaces + s) == Trim(s)
  {
    hide Trim, IsSpace;
    if spaces == "" {
      assert spaces + s == s;
    } else {
      TrimSpaces(spaces[1..], s);
      assert spaces + s == [spaces[0]] + (spaces[1..] + s);
      TrimStartSpace(spaces[1..] + s, spaces[0]);
    }
  }

  /** Lines collected for the down block beforehand stay in front of those a scan adds. */
  lemma {:induction false} ScanAfter(s: State, first: seq<string>, lines: seq<string>)
    ensures Scan(s.(down := first + s.down), lines) == var r := Scan(s, lines); r.(down := first + r.down)
    decreases |lines|
  {
    hide Scan, Step;
    var t := s.(down := first + s.down);
    if lines == [] {
      ScanNothing(s, lines);
      ScanNothing(t, lines);
    } else {
      ScanFirst(s, lines);
      ScanFirst(t, lines);
      StepAfter(s, first, lines[0]);
      ScanAfter(Step(s, lines[0]), first, lines[1..]);
    }
  }

  lemma StepAfter(s: State, first: seq<string>, line: string)
    ensures Step(s.(down := first + s.down), line) == var r := Step(s, line); r.(down := first + r.down)
  {
    hide Step, Trim, IsMarker, IsDirective, IsReal, Push, AtMarker, AtDirective;
    var t, trimmed := s.(down := first + s.down), Trim(line);
    StepIs(s, line);
    StepIs(t, line);
    if IsMarker(trimmed) {
      MarkerKeepsDown(s, t.down, trimmed);
    } else if s.inUp && !s.pastDirectives {
      if IsDirective(trimmed) {
        DirectiveKeepsDown(s, t.down, trimmed);
      } else {
        var p := s.(pastDirectives := IsReal(trimmed));
        assert t.(pastDirectives := IsReal(trimmed)) == p.(down := first + p.down);
        PushAfter(p, first, line);
      }
    } else {
      PushAfter(s, first, line);
    }
  }

  /** Neither markers nor directives look at the lines collected for the down block. */
  lemma MarkerKeepsDown(s: State, down: seq<string>, trimmed: string)
    requires IsMarker(trimmed)
    ensures AtMarker(s.(down := down), trimmed) == AtMarker(s, trimmed).(down := down) &&
      AtMarker(s, trimmed).down == s.down
  {
    hide Trim;
  }

  lemma DirectiveKeepsDown(s: State, down: seq<string>, trimmed: string)
    requires IsDirective(trimmed)
    ensures AtDirective(s.(down := down), trimmed) == AtDirective(s, trimmed).(down := down)
    ensures AtDirective(s, trimmed).down == s.down
  {
    hide Trim, IsDirective;
    if trimmed == NO_TRANSACTION {
    } else if StartsWith(trimmed, REQUIRES) {
    } else {
    }
  }

  lemma PushAfter(s: State, first: seq<string>, line: string)
    ensures Push(s.(down := first + s.down), line) == var r := Push(s, line); r.(down := first + r.down)
  {
    assert first + s.down + [line] == first + (s.down + [line]);
  }

  /** What the rest of a file finishes as, after the up marker that `prologue` comes before. */
  lemma ScanPastPrologue(prologue: seq<string>, rest: seq<string>)
    requires NoUp(prologue)
    ensures var s := Scan(INITIAL, prologue);
      var r := Scan(INITIAL, [UP] + rest);
      && BeforeUp(s)
      && (s.skip == None ==> Scan(INITIAL, prologue + ([UP] + rest)) == r.(down := s.down + r.down))
      && Scan(INITIAL, prologue + [UP]) == s.(foundUp := true, inUp := true, inDown := false)
  {
    hide Scan, Step, Trim, NoUp;
    var s := Scan(INITIAL, prologue);
    ScanBeforeUp(INITIAL, prologue);
    ScanConcat(INITIAL, prologue, [UP] + rest);
    ScanConcat(INITIAL, prologue, [UP]);
    ScanConcat(s, [UP], rest);
    ScanConcat(INITIAL, [UP], rest);
    ScanOne(s, UP);
    ScanOne(INITIAL, UP);
    ScanMarker(s, UP);
    ScanMarker(INITIAL, UP);
    var up := Step(INITIAL, UP);
    ScanAfter(up, s.down, rest);
    assert s.down + up.down == s.down;
  }

  /** Whether a file's lines from the first up marker on give what they give behind `prologue`. */
  ghost predicate SameBehind(prologue: seq<string>, rest: seq<string>, version: string, name: string,
      checksum: string -> string) {
    Finish(Scan(INITIAL, prologue + ([UP] + rest)), version, name, checksum)
    == Finish(Scan(INITIAL, [UP] + rest), version, name, checksum)
  }

  lemma QuietIsIgnored(prologue: seq<string>, rest: seq<string>, version: string, name: string,
      checksum: string -> string)
    requires NoUp(prologue) && Quiet(prologue, false)
    ensures SameBehind(prologue, rest, version, name, checksum)
  {
    hide Scan, Trim, NoUp, Quiet, Join;
    ScanBeforeUp(INITIAL, prologue);
    ScanPastPrologue(prologue, rest);
    TrimBlanksFirst(Scan(INITIAL, prologue).down, Scan(INITIAL, [UP] + rest).down);
  }

  lemma IgnoredIsQuiet(prologue: seq<string>, version: string, name: string, checksum: string -> string)
    requires NoUp(prologue) && SameBehind(prologue, [], version, name, checksum)
    ensures Quiet(prologue, false)
  {
    hide Scan, Trim, Quiet, Join;
    var s := Scan(INITIAL, prologue);
    ScanBeforeUp(INITIAL, prologue);
    ScanPastPrologue(prologue, []);
    ScanPastPrologue([], []);
    ScanNothing(INITIAL, []);
    assert [] + ([UP] + []) == [UP] == [UP] + [] && prologue + ([UP] + []) == prologue + [UP] && [] + [UP] == [UP];
    EmptyJoin();
    BlankIfNothing(s.down);
  }

  /** A block that trims to nothing has blank lines only. */
  lemma {:induction false} BlankIfNothing(lines: seq<string>)
    requires Trim(Join(lines, '\n')) == ""
    ensures AllBlank(lines)
  {
    hide Trim;
    if lines == [] {
    } else if |lines| == 1 {
      assert Join(lines, '\n') == lines[0];
    } else {
      var rest := "\n" + Join(lines[1..], '\n');
      assert Join(lines, '\n') == lines[0] + rest;
      BlankIsSpaces(lines[0] + rest);
      forall i | 0 <= i < |lines[0]| ensures IsSpace(lines[0][i]) {
        assert (lines[0] + rest)[i] == lines[0][i];
      }
      TrimSpaces(lines[0], rest);
      TrimSpaces(lines[0], "");
      assert lines[0] + "" == lines[0];
      BlankIsNothing();
      TrimStartSpace(Join(lines[1..], '\n'), '\n');
      BlankIfNothing(lines[1..]);
    }
  }

  /**
   The lines before the first up marker are ignored, as documented, exactly if
   they are quiet: whatever follows the marker then parses to the same result.
   A skip line, or text after a down marker, is obeyed.
   */
  lemma PrologueIsIgnored(prologue: seq<string>)
    requires NoUp(prologue)
    ensures (forall rest, version, name, checksum :: SameBehind(prologue, rest, version, name, checksum))
      <==> Quiet(prologue, false)
  {
    hide Quiet, SameBehind;
    if Quiet(prologue, false) {
      forall rest, version, name, checksum ensures SameBehind(prologue, rest, version, name, checksum) {
        QuietIsIgnored(prologue, rest, version, name, checksum);
      }
    }
    if forall rest, version, name, checksum :: SameBehind(prologue, rest, version, name, checksum) {
      var checksum: string -> string := s => s;
      assert SameBehind(prologue, [], "", "", checksum);
      IgnoredIsQuiet(prologue, "", "", checksum);
    }
  }

  /** Whether a file with `prologue` before its up marker parses as the file without it. */
  ghost predicate SameFile(prologue: string, rest: string, filename: string, checksum: string -> string) {
    ParseFile(filename, prologue + "\n" + (UP + "\n" + rest), checksum) ==
      ParseFile(filename, UP + "\n" + rest, checksum)
  }

  /** The same for file contents: a text without an up marker, then a line with one, then any text. */
  lemma PrologueOfFile(prologue: string, filename: string, checksum: string -> string)
    requires NoUp(Split(prologue, '\n')) && ParseFilename(filename).Ok?
    ensures (forall rest :: SameFile(prologue, rest, filename, checksum)) <==>
      Quiet(StripAll(Split(prologue, '\n')), false)
  {
    hide Quiet, SameFile;
    var lines := StripAll(Split(prologue, '\n'));
    var (version, name) := ParseFilename(filename).value;
    NoUpStripped(Split(prologue, '\n'));
    forall rest ensures SameFile(prologue, rest, filename, checksum) <==>
      SameBehind(lines, Lines(rest), version, name, checksum) {
      FileIsLines(prologue, rest, filename, checksum);
    }
    if Quiet(lines, false) {
      forall rest ensures SameFile(prologue, rest, filename, checksum) {
        QuietIsIgnored(lines, Lines(rest), version, name, checksum);
      }
    }
    if forall rest :: SameFile(prologue, rest, filename, checksum) {
      assert SameFile(prologue, "", filename, checksum);
      NoLines();
      IgnoredIsQuiet(lines, version, name, checksum);
    }
  }

  lemma FileIsLines(prologue: string, rest: string, filename: string, checksum: string -> string)
    requires ParseFilename(filename).Ok?
    ensures var (version, name) := ParseFilename(filename).value;
      SameFile(prologue, rest, filename, checksum)
      <==> SameBehind(StripAll(Split(prologue, '\n')), Lines(rest), version, name, checksum)
  {
    hide Scan, Split, StripAll, Lines, Finish, ParseFilename;
    LinesConcat(prologue, UP + "\n" + rest);
    LinesFirst(UP, rest);
    assert StripCr(UP) == UP;
  }

  lemma NoLines()
    ensures Lines("") == []
  {}

  lemma NoUpStripped(lines: seq<string>)
    requires NoUp(lines)
    ensures NoUp(StripAll(lines))
  {
    hide Trim, StripAll;
    forall i | 0 <= i < |lines| ensures Trim(StripAll(lines)[i]) == Trim(lines[i]) {
      StripAt(lines, i);
      TrimIgnoresCr(lines[i]);
    }
  }

  /** A file whose text before the up marker becomes its down SQL. */
  lemma PrologueIsObeyed(checksum: string -> string)
    ensures var r := Finish(Scan(INITIAL, [DOWN, "x", UP]), "v", "n", checksum);
      r.Ok? && r.value.downSql == Some("x")
  {
    hide Trim, Step, Scan, IsMarker;
    var s1 := INITIAL.(inDown := true);
    var s2 := s1.(down := ["x"]);
    assert [DOWN, "x", UP] == [DOWN] + (["x"] + [UP]);
    ScanConcat(INITIAL, [DOWN], ["x"] + [UP]);
    ScanConcat(s1, ["x"], [UP]);
    ScanOne(INITIAL, DOWN);
    ScanMarker(INITIAL, DOWN);
    TrimmedStays("x");
    TrimmedStays("");
    assert !IsMarker("x") by { NotMarker(); }
    ScanDown(s1, ["x"]);
    assert [] + ["x"] == ["x"];
    ScanOne(s2, UP);
    ScanMarker(s2, UP);
    assert Join(["x"], '\n') == "x";
  }

  lemma NotMarker()
    ensures !IsMarker("x")
  {}
}
