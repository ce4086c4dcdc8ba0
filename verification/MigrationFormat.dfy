/** Printing a migration in the documented file format, and what parsing gives back. */
module MigrationFormat {
  import opened Wrappers
  import opened Texts
  import opened Migrations
  import opened MigrationParser

  // ----- Printing -----

  function NeedLines(needs: seq<string>): seq<string> {
    if needs == [] then [] else [REQUIRES + needs[0]] + NeedLines(needs[1..])
  }

  function Directives(m: Migration): seq<string> {
    (if m.noTransaction then [NO_TRANSACTION] else []) +
      (NeedLines(m.needs) + (if m.repeatable then [REPEATABLE] else []))
  }

  function DownBlocks(m: Migration): seq<string> {
    if m.downSql.Some? then ["", DOWN, m.downSql.value] else []
  }

  function SkipBlocks(m: Migration): seq<string> {
    if m.downSkipReason.Some? then ["", SKIP + " " + m.downSkipReason.value] else []
  }

  /** Each block on lines of its own. */
  function Text(blocks: seq<string>): string {
    if blocks == [] then "" else blocks[0] + "\n" + Text(blocks[1..])
  }

  function Print(m: Migration): string {
    Text([UP] + (Directives(m) + ([m.upSql] + (DownBlocks(m) + SkipBlocks(m)))))
  }

  // ----- What can be printed -----

  ghost predicate NoMarkers(lines: seq<string>) {
    forall i :: 0 <= i < |lines| ==> !IsMarker(Trim(lines[i]))
  }

  /** No line looks like a directive before the first statement line. */
  predicate LeadingOk(lines: seq<string>) {
    lines == [] ||
    (var trimmed := Trim(lines[0]); !IsDirective(trimmed) && (IsReal(trimmed) || LeadingOk(lines[1..])))
  }

  ghost predicate AnyReal(lines: seq<string>) {
    exists i :: 0 <= i < |lines| && IsReal(Trim(lines[i]))
  }

  ghost predicate NoCrLf(s: string) {
    forall i :: 0 <= i < |s| - 1 ==> !(s[i] == '\r' && s[i + 1] == '\n')
  }

  predicate NeedOk(need: string) {
    need != "" && IsTrimmed(need) && Free(need, '\n')
  }

  predicate ReasonOk(reason: string) {
    IsTrimmed(reason) && Free(reason, '\n')
  }

  ghost predicate SqlOk(sql: string) {
    IsTrimmed(sql) && NoCrLf(sql) && NoMarkers(Split(sql, '\n'))
  }

  ghost predicate Printable(m: Migration, checksum: string -> string) {
    && IsVersion(m.version) && m.name != ""
    && m.checksum == checksum(m.upSql)
    && SqlOk(m.upSql) && LeadingOk(Split(m.upSql, '\n'))
    && (m.downSql.Some? ==> m.downSql.value != "" && SqlOk(m.downSql.value))
    && (m.downSkipReason.Some? ==> ReasonOk(m.downSkipReason.value))
    && (forall i :: 0 <= i < |m.needs| ==> NeedOk(m.needs[i]))
  }

  // ----- Scanning the printed lines -----

  function LinesOf(blocks: seq<string>): seq<string> {
    if blocks == [] then [] else StripAll(Split(blocks[0], '\n')) + LinesOf(blocks[1..])
  }

  lemma {:induction false} LinesOfText(blocks: seq<string>)
    ensures Lines(Text(blocks)) == LinesOf(blocks)
  {
    if blocks == [] {
    } else {
      LinesOfText(blocks[1..]);
      LinesConcat(blocks[0], Text(blocks[1..]));
    }
  }

  lemma {:induction false} LinesOfConcat(a: seq<string>, b: seq<string>)
    ensures LinesOf(a + b) == LinesOf(a) + LinesOf(b)
  {
    hide Split, StripAll;
    if a == [] {
      assert a + b == b;
    } else {
      LinesOfConcat(a[1..], b);
      assert (a + b)[1..] == a[1..] + b;
      var x, y, z := StripAll(Split(a[0], '\n')), LinesOf(a[1..]), LinesOf(b);
      assert x + (y + z) == x + y + z;
    }
  }

  /** A block of one line that does not end in a carriage return is that line. */
  lemma OneLineBlock(line: string)
    requires Free(line, '\n') && (line == "" || line[|line| - 1] != '\r')
    ensures LinesOf([line]) == [line]
  {
    SplitFree(line, '\n');
    StripOne(line);
    assert [line][1..] == [];
    assert StripAll([line]) + LinesOf([]) == [line];
  }

  lemma {:induction false} ScanConcat(s: State, a: seq<string>, b: seq<string>)
    ensures Scan(s, a + b) == Scan(Scan(s, a), b)
    decreases |a|
  {
    hide Step;
    if a == [] {
      assert a + b == b;
    } else {
      ScanConcat(Step(s, a[0]), a[1..], b);
      assert (a + b)[1..] == a[1..] + b;
    }
  }

  lemma ScanOne(s: State, line: string)
    ensures Scan(s, [line]) == Step(s, line)
  {
    ScanFirst(s, [line]);
  }

  lemma {:induction false} ScanUp(s: State, lines: seq<string>)
    requires s.inUp && NoMarkers(lines) && (s.pastDirectives || LeadingOk(lines))
    ensures exists past :: Scan(s, lines) == s.(up := s.up + lines, pastDirectives := past)
    decreases |lines|
  {
    hide Trim, IsMarker, IsDirective, IsReal;
    if lines == [] {
      assert s.up + lines == s.up;
      assert Scan(s, lines) == s.(up := s.up + lines, pastDirectives := s.pastDirectives);
    } else {
      var next := Step(s, lines[0]);
      assert !IsMarker(Trim(lines[0]));
      ScanUp(next, lines[1..]);
      var past :| Scan(next, lines[1..]) == next.(up := next.up + lines[1..], pastDirectives := past);
      assert s.up + [lines[0]] + lines[1..] == s.up + lines;
      assert Scan(s, lines) == s.(up := s.up + lines, pastDirectives := past);
    }
  }

  lemma {:induction false} ScanDown(s: State, lines: seq<string>)
    requires !s.inUp && s.inDown && NoMarkers(lines)
    ensures Scan(s, lines) == s.(down := s.down + lines)
    decreases |lines|
  {
    hide Trim, IsMarker, IsDirective, IsReal;
    if lines == [] {
      assert s.down + lines == s.down;
    } else {
      assert !IsMarker(Trim(lines[0]));
      ScanDown(Step(s, lines[0]), lines[1..]);
      assert s.down + [lines[0]] + lines[1..] == s.down + lines;
    }
  }

  lemma TrimmedStays(s: string)
    requires IsTrimmed(s)
    ensures Trim(s) == s
  {
    TrimIsTrimmed(s);
  }

  lemma ScanNeed(s: State, need: string)
    requires s.inUp && !s.pastDirectives && NeedOk(need)
    ensures Step(s, REQUIRES + need) == s.(needs := s.needs + [need])
    ensures LinesOf([REQUIRES + need]) == [REQUIRES + need]
  {
    hide LinesOf, Trim;
    var line := REQUIRES + need;
    assert line[|line| - 1] == need[|need| - 1];
    TrimmedStays(line);
    TrimmedStays(need);
    assert line[|REQUIRES|..] == need;
    assert line[4] == 'r';
    OneLineBlock(line);
  }

  lemma NothingToScan(s: State)
    ensures Scan(s, LinesOf([])) == s
  {}

  lemma {:induction false} ScanNeeds(s: State, needs: seq<string>)
    requires s.inUp && !s.pastDirectives && forall i :: 0 <= i < |needs| ==> NeedOk(needs[i])
    ensures Scan(s, LinesOf(NeedLines(needs))) == s.(needs := s.needs + needs)
    decreases |needs|
  {
    hide Step, LinesOf, Trim, NeedOk, Scan;
    if needs == [] {
      NothingToScan(s);
      assert s.needs + needs == s.needs;
    } else {
      var first := REQUIRES + needs[0];
      var next := s.(needs := s.needs + [needs[0]]);
      LinesOfConcat([first], NeedLines(needs[1..]));
      ScanNeed(s, needs[0]);
      ScanConcat(s, [first], LinesOf(NeedLines(needs[1..])));
      ScanOne(s, first);
      ScanNeeds(next, needs[1..]);
      assert NeedLines(needs) == [first] + NeedLines(needs[1..]);
      assert s.needs + [needs[0]] + needs[1..] == s.needs + needs;
    }
  }

  // ----- The state after the printed file -----

  /** The parts of a migration that the scan of its printed form can see apart. */
  ghost predicate Separable(m: Migration) {
    && NoMarkers(Split(m.upSql, '\n')) && LeadingOk(Split(m.upSql, '\n'))
    && (m.downSql.Some? ==> NoMarkers(Split(m.downSql.value, '\n')))
    && (m.downSkipReason.Some? ==> ReasonOk(m.downSkipReason.value))
    && (forall i :: 0 <= i < |m.needs| ==> NeedOk(m.needs[i]))
  }

  function SqlLines(sql: string): (r: seq<string>)
    ensures r != []
  {
    StripAll(Split(sql, '\n'))
  }

  function UpLines(m: Migration): seq<string> {
    SqlLines(m.upSql) + if m.downSql.Some? || m.downSkipReason.Some? then [""] else []
  }

  function DownLines(m: Migration): seq<string> {
    if m.downSql.None? then [] else SqlLines(m.downSql.value) + if m.downSkipReason.Some? then [""] else []
  }

  ghost predicate Holds(s: State, m: Migration, up: seq<string>, down: seq<string>) {
    && s.foundUp && s.up == up && s.down == down
    && s.noTransaction == m.noTransaction && s.needs == m.needs && s.repeatable == m.repeatable
  }

  lemma {:induction false} SameTrims(a: seq<string>, b: seq<string>)
    requires |a| == |b| && forall i :: 0 <= i < |a| ==> Trim(a[i]) == Trim(b[i])
    ensures NoMarkers(a) <==> NoMarkers(b)
    ensures LeadingOk(a) <==> LeadingOk(b)
  {
    hide Trim, IsMarker, IsDirective, IsReal;
    assert NoMarkers(a) <==> NoMarkers(b) by {
      forall i | 0 <= i < |a| ensures IsMarker(Trim(a[i])) <==> IsMarker(Trim(b[i])) {}
    }
    if a == [] {
    } else {
      SameTrims(a[1..], b[1..]);
    }
  }

  lemma {:induction false} StripAt(lines: seq<string>, i: nat)
    requires i < |lines|
    ensures StripAll(lines)[i] == StripCr(lines[i])
  {
    if i == 0 {
    } else {
      StripAt(lines[1..], i - 1);
    }
  }

  lemma StripSame(lines: seq<string>)
    ensures NoMarkers(StripAll(lines)) <==> NoMarkers(lines)
    ensures LeadingOk(StripAll(lines)) <==> LeadingOk(lines)
  {
    hide NoMarkers, LeadingOk, StripAll, Trim;
    forall i | 0 <= i < |lines| ensures Trim(StripAll(lines)[i]) == Trim(lines[i]) {
      StripAt(lines, i);
      TrimIgnoresCr(lines[i]);
    }
    SameTrims(StripAll(lines), lines);
  }

  lemma OneBlock(sql: string)
    ensures LinesOf([sql]) == SqlLines(sql)
  {
    assert [sql][1..] == [] && SqlLines(sql) + LinesOf([]) == SqlLines(sql);
  }

  lemma FixedLines()
    ensures Trim(UP) == UP && Trim(DOWN) == DOWN && Trim("") == "" && Trim(NO_TRANSACTION) == NO_TRANSACTION &&
      Trim(REPEATABLE) == REPEATABLE
    ensures LinesOf([UP]) == [UP] && LinesOf([NO_TRANSACTION]) == [NO_TRANSACTION] &&
      LinesOf([REPEATABLE]) == [REPEATABLE]
    ensures LinesOf(["", DOWN]) == ["", DOWN] && LinesOf([""]) == [""] && LinesOf([]) == []
  {
    hide LinesOf, Trim;
    TrimmedStays(UP);
    TrimmedStays(DOWN);
    TrimmedStays("");
    TrimmedStays(NO_TRANSACTION);
    TrimmedStays(REPEATABLE);
    OneLineBlock(UP);
    OneLineBlock(DOWN);
    OneLineBlock("");
    OneLineBlock(NO_TRANSACTION);
    OneLineBlock(REPEATABLE);
    LinesOfConcat([""], [DOWN]);
    assert [""] + [DOWN] == ["", DOWN];
    assert LinesOf([]) == [] by { NoBlocks(); }
  }

  lemma NoBlocks()
    ensures LinesOf([]) == []
  {}

  /** The directive lines set their flags and no more. */
  lemma ScanDirectives(s: State, m: Migration)
    requires s.inUp && !s.pastDirectives && !s.noTransaction && !s.repeatable && s.needs == []
    requires forall i :: 0 <= i < |m.needs| ==> NeedOk(m.needs[i])
    ensures Scan(s, LinesOf(Directives(m))) ==
      s.(noTransaction := m.noTransaction, needs := m.needs, repeatable := m.repeatable)
  {
    hide Step, Scan, LinesOf, NeedLines, NeedOk, Trim;
    var first := if m.noTransaction then [NO_TRANSACTION] else [];
    var last := if m.repeatable then [REPEATABLE] else [];
    FixedLines();
    LinesOfConcat(first, NeedLines(m.needs) + last);
    LinesOfConcat(NeedLines(m.needs), last);
    ScanConcat(s, LinesOf(first), LinesOf(NeedLines(m.needs) + last));
    var s1 := s.(noTransaction := m.noTransaction);
    ScanFlag(s, NO_TRANSACTION, first);
    ScanConcat(s1, LinesOf(NeedLines(m.needs)), LinesOf(last));
    ScanNeeds(s1, m.needs);
    assert [] + m.needs == m.needs;
    ScanFlag(s1.(needs := m.needs), REPEATABLE, last);
  }

  lemma ScanFlag(s: State, directive: string, blocks: seq<string>)
    requires s.inUp && !s.pastDirectives && (directive == NO_TRANSACTION || directive == REPEATABLE)
    requires blocks == [directive] || blocks == []
    ensures Scan(s, LinesOf(blocks)) ==
      if blocks == [] then s
      else if directive == NO_TRANSACTION then s.(noTransaction := true) else s.(repeatable := true)
  {
    hide Scan, LinesOf, Trim, IsMarker;
    FixedLines();
    if blocks == [] {
      ScanNothing(s, []);
    } else {
      ScanOne(s, directive);
      DirectiveIsNoMarker(directive);
    }
  }

  lemma DirectiveIsNoMarker(directive: string)
    requires directive == NO_TRANSACTION || directive == REPEATABLE
    ensures !IsMarker(directive) && REPEATABLE != NO_TRANSACTION && !StartsWith(REPEATABLE, REQUIRES)
  {
    assert REPEATABLE[6] == 'p' && REQUIRES[6] == 'q';
    assert NO_TRANSACTION[4] == 'n' && REPEATABLE[4] == 'r' && SKIP[4] == 'd';
  }

  lemma ScanMarker(s: State, line: string)
    requires line == UP || line == DOWN
    ensures Step(s, line) == if line == UP
      then s.(foundUp := true, inUp := true, inDown := false, pastDirectives := false)
      else s.(inUp := false, inDown := true)
  {}

  lemma ReasonLine(reason: string)
    requires ReasonOk(reason)
    ensures var line := SKIP + " " + reason;
      Free(line, '\n') && line[|line| - 1] != '\r' && IsTrimmed(SKIP) && (reason != "" ==> IsTrimmed(line))
  {
    var line := SKIP + " " + reason;
    assert reason != "" ==> line[|line| - 1] == reason[|reason| - 1];
  }

  lemma ScanReason(s: State, reason: string)
    requires ReasonOk(reason)
    ensures Scan(s, LinesOf([SKIP + " " + reason])) == s.(inUp := false, inDown := false, skip := Some(reason))
  {
    hide Scan, LinesOf, Trim, IsTrimmed;
    var line := SKIP + " " + reason;
    ReasonLine(reason);
    var rest := " " + reason;
    assert line == SKIP + rest;
    OneLineBlock(line);
    ScanOne(s, line);
    TrimmedStays(reason);
    TrimStartSpace(reason, ' ');
    if reason == "" {
      assert line == SKIP + [' '];
      TrimEndSpace(SKIP, ' ');
      TrimmedStays(SKIP);
      assert SKIP[|SKIP|..] == "";
    } else {
      TrimmedStays(line);
      assert line[|SKIP|..] == rest;
    }
    assert Trim(line)[|SKIP| - 1] == ')';
    assert UP[4] == 'u' && Trim(line)[4] == 'd' && |DOWN| < |SKIP| <= |Trim(line)|;
  }

  /** After the up block: the down block and the skip line, if there are any. */
  lemma ScanRest(s: State, m: Migration)
    requires s.inUp && s.skip == None && s.down == []
    requires m.downSql.Some? ==> NoMarkers(Split(m.downSql.value, '\n'))
    requires m.downSkipReason.Some? ==> ReasonOk(m.downSkipReason.value)
    ensures var r := Scan(s, LinesOf(DownBlocks(m) + SkipBlocks(m)));
      && r.up == s.up + (if m.downSql.Some? || m.downSkipReason.Some? then [""] else [])
      && r.down == DownLines(m) && r.skip == m.downSkipReason && r.foundUp == s.foundUp
      && r.noTransaction == s.noTransaction && r.needs == s.needs && r.repeatable == s.repeatable
  {
    hide Step, Scan, LinesOf, Trim, Split, StripAll, NoMarkers, ReasonOk;
    LinesOfConcat(DownBlocks(m), SkipBlocks(m));
    ScanConcat(s, LinesOf(DownBlocks(m)), LinesOf(SkipBlocks(m)));
    NoBlocks();
    var s1 := Scan(s, LinesOf(DownBlocks(m)));
    if m.downSql.Some? {
      var sql := m.downSql.value;
      var at := Scan(s, LinesOf(["", DOWN]));
      assert DownBlocks(m) == ["", DOWN] + [sql];
      LinesOfConcat(["", DOWN], [sql]);
      ScanConcat(s, LinesOf(["", DOWN]), LinesOf([sql]));
      ScanToDown(s);
      OneBlock(sql);
      StripSame(Split(sql, '\n'));
      ScanDown(at, SqlLines(sql));
      assert [] + SqlLines(sql) == SqlLines(sql);
    } else {
      ScanNothing(s, LinesOf(DownBlocks(m)));
    }
    if m.downSkipReason.Some? {
      var last := SKIP + " " + m.downSkipReason.value;
      assert SkipBlocks(m) == [""] + [last];
      LinesOfConcat([""], [last]);
      ScanConcat(s1, LinesOf([""]), LinesOf([last]));
      ScanBlank(s1);
      ScanReason(Scan(s1, LinesOf([""])), m.downSkipReason.value);
    } else {
      ScanNothing(s1, LinesOf(SkipBlocks(m)));
    }
  }

  lemma ScanBlank(s: State)
    requires s.inUp || s.inDown
    ensures var r := Scan(s, LinesOf([""]));
      r == (if s.inUp then s.(up := s.up + [""], pastDirectives := r.pastDirectives) else s.(down := s.down + [""]))
  {}

  lemma ScanToDown(s: State)
    requires s.inUp
    ensures var r := Scan(s, LinesOf(["", DOWN]));
      r == s.(up := s.up + [""], inUp := false, inDown := true, pastDirectives := r.pastDirectives)
  {
    hide Trim, Scan, LinesOf;
    FixedLines();
    LinesOfConcat([""], [DOWN]);
    assert [""] + [DOWN] == ["", DOWN];
    ScanConcat(s, LinesOf([""]), [DOWN]);
    ScanBlank(s);
    ScanOne(Scan(s, LinesOf([""])), DOWN);
    ScanMarker(Scan(s, LinesOf([""])), DOWN);
    assert LinesOf([DOWN]) == [DOWN] by { OneLineBlock(DOWN); }
  }

  /** The parser sees every part of a separable migration where it was printed. */
  lemma ScanPrinted(m: Migration)
    requires Separable(m)
    ensures var s := Scan(INITIAL, Lines(Print(m)));
      Holds(s, m, UpLines(m), DownLines(m)) && s.skip == m.downSkipReason
  {
    hide Step, Scan, LinesOf, Lines, Trim, Split, StripAll, NoMarkers, LeadingOk, ReasonOk, NeedOk, DownBlocks,
         SkipBlocks, Directives, DownLines;
    var rest := DownBlocks(m) + SkipBlocks(m);
    LinesOfText([UP] + (Directives(m) + ([m.upSql] + rest)));
    LinesOfConcat([UP], Directives(m) + ([m.upSql] + rest));
    LinesOfConcat(Directives(m), [m.upSql] + rest);
    LinesOfConcat([m.upSql], rest);
    FixedLines();
    ScanConcat(INITIAL, [UP], LinesOf(Directives(m) + ([m.upSql] + rest)));
    ScanOne(INITIAL, UP);
    ScanMarker(INITIAL, UP);
    var s1 := INITIAL.(foundUp := true, inUp := true);
    ScanConcat(s1, LinesOf(Directives(m)), LinesOf([m.upSql] + rest));
    ScanDirectives(s1, m);
    var s2 := s1.(noTransaction := m.noTransaction, needs := m.needs, repeatable := m.repeatable);
    ScanConcat(s2, LinesOf([m.upSql]), LinesOf(rest));
    OneBlock(m.upSql);
    StripSame(Split(m.upSql, '\n'));
    ScanUp(s2, SqlLines(m.upSql));
    assert [] + SqlLines(m.upSql) == SqlLines(m.upSql);
    ScanRest(Scan(s2, SqlLines(m.upSql)), m);
  }

  // ----- Joining the lines of a block again -----

  lemma {:induction false} JoinBlank(lines: seq<string>)
    requires lines != []
    ensures Join(lines + [""], '\n') == Join(lines, '\n') + "\n"
  {
    if |lines| == 1 {
      assert lines + [""] == [lines[0], ""];
      assert [lines[0], ""][1..] == [""];
      assert Join([""], '\n') == "";
    } else {
      JoinBlank(lines[1..]);
      assert (lines + [""])[1..] == lines[1..] + [""];
      assert lines[0] + ['\n'] + (Join(lines[1..], '\n') + "\n") == lines[0] + ['\n'] + Join(lines[1..], '\n') + "\n";
    }
  }

  lemma TrimBlank(lines: seq<string>)
    requires lines != []
    ensures Trim(Join(lines + [""], '\n')) == Trim(Join(lines, '\n'))
  {
    JoinBlank(lines);
    TrimEndSpace(Join(lines, '\n'), '\n');
  }

  lemma {:induction false} StrippedIsShorter(lines: seq<string>)
    ensures |Join(StripAll(lines), '\n')| <= |Join(lines, '\n')|
    ensures |Join(StripAll(lines), '\n')| == |Join(lines, '\n')| ==> StripAll(lines) == lines
  {
    if lines == [] {
    } else {
      StrippedIsShorter(lines[1..]);
      assert StripAll(lines)[1..] == StripAll(lines[1..]);
      if |lines| == 1 {
        assert StripAll(lines) == [StripCr(lines[0])] && lines == [lines[0]];
      } else {
        assert lines == [lines[0]] + lines[1..];
      }
    }
  }

  ghost predicate NoCrEnds(lines: seq<string>) {
    forall i :: 0 <= i < |lines| ==> lines[i] == "" || lines[i][|lines[i]| - 1] != '\r'
  }

  lemma {:induction false} StripNothing(lines: seq<string>)
    ensures StripAll(lines) == lines <==> NoCrEnds(lines)
  {
    if lines == [] {
    } else {
      StripNothing(lines[1..]);
      assert lines == [lines[0]] + lines[1..];
      assert NoCrEnds(lines) <==> NoCrEnds([lines[0]]) && NoCrEnds(lines[1..]);
    }
  }

  lemma {:induction false} CrEnds(s: string)
    ensures NoCrEnds(Split(s, '\n')) <==> NoCrLf(s) && (s == "" || s[|s| - 1] != '\r')
  {
    if s == "" {
    } else {
      var c, t := s[0], s[1..];
      CrEnds(t);
      var rest := Split(t, '\n');
      FirstPiece(t);
      assert NoCrEnds(rest) <==> NoCrEnds([rest[0]]) && NoCrEnds(rest[1..]);
      assert NoCrLf(s) <==> NoCrLf(t) && !(c == '\r' && t != "" && t[0] == '\n') by { FirstPair(s); }
      if c == '\n' {
        assert NoCrEnds([""] + rest) <==> NoCrEnds(rest) by { CrEndsConcat([""], rest); }
      } else {
        CrEndsConcat([[c] + rest[0]], rest[1..]);
        assert NoCrEnds([[c] + rest[0]]) <==>
          if rest[0] == "" then c != '\r' else NoCrEnds([rest[0]]) by { CrEndOf(c, rest[0]); }
      }
    }
  }

  lemma CrEndOf(c: char, p: string)
    ensures NoCrEnds([[c] + p]) <==> if p == "" then c != '\r' else NoCrEnds([p])
  {
    var line := [c] + p;
    assert NoCrEnds([line]) <==> line[|line| - 1] != '\r' by { assert [line][0] == line; }
    assert p != "" ==> (NoCrEnds([p]) <==> p[|p| - 1] != '\r') by { assert [p][0] == p; }
  }

  lemma CrEndsConcat(a: seq<string>, b: seq<string>)
    ensures NoCrEnds(a + b) <==> NoCrEnds(a) && NoCrEnds(b)
  {
    if NoCrEnds(a + b) {
      forall i | 0 <= i < |a| ensures a[i] == "" || a[i][|a[i]| - 1] != '\r' { assert a[i] == (a + b)[i]; }
      forall i | 0 <= i < |b| ensures b[i] == "" || b[i][|b[i]| - 1] != '\r' { assert b[i] == (a + b)[|a| + i]; }
    }
  }

  lemma FirstPiece(t: string)
    ensures Split(t, '\n')[0] == "" <==> t == "" || t[0] == '\n'
  {}

  lemma FirstPair(s: string)
    requires s != ""
    ensures NoCrLf(s) <==> NoCrLf(s[1..]) && !(s[0] == '\r' && |s| > 1 && s[1] == '\n')
  {}

  /** A block comes back unchanged exactly if it is trimmed and has no CR LF. */
  lemma BlockReadsBack(sql: string, blank: bool)
    ensures Trim(Join(SqlLines(sql) + (if blank then [""] else []), '\n')) == sql <==> IsTrimmed(sql) && NoCrLf(sql)
  {
    hide Trim, NoCrLf, StripAll, IsTrimmed;
    var lines := Split(sql, '\n');
    var text := Join(StripAll(lines), '\n');
    if blank {
      TrimBlank(StripAll(lines));
    } else {
      assert SqlLines(sql) + [] == SqlLines(sql);
    }
    JoinOfSplit(sql, '\n');
    StripNothing(lines);
    CrEnds(sql);
    StrippedIsShorter(lines);
    TrimIsTrimmed(text);
    TrimIsTrimmed(sql);
    TrimmedEnd(sql);
  }

  lemma TrimmedEnd(s: string)
    ensures IsTrimmed(s) && s != "" ==> s[|s| - 1] != '\r'
  {}
}
