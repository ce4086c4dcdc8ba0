/** Migration files: the file name, and the line-by-line parser of the contents. */
module MigrationParser {
  import opened Wrappers
  import opened Texts
  import opened Migrations

  datatype ParseError = MissingExtension | BadFormat | BadVersion | EmptyName | MissingUp

  // ----- File names, as their bytes -----

  const EXTENSION := ".sql"

  predicate AreDigits(s: string) {
    forall i :: 0 <= i < |s| ==> '0' <= s[i] <= '9'
  }

  /** `YYYYMMDD_HHMMSS` */
  predicate IsVersion(s: string) {
    |s| == 15 && AreDigits(s[..8]) && s[8] == '_' && AreDigits(s[9..])
  }

  function ParseFilename(filename: string): Result<(string, string), ParseError> {
    if |filename| < 4 || filename[|filename| - 4..] != EXTENSION then Err(MissingExtension)
    else
      var stem := filename[..|filename| - 4];
      if |stem| < 16 || stem[15] != '_' then Err(BadFormat)
      else if !IsVersion(stem[..15]) then Err(BadVersion)
      else if |stem| == 16 then Err(EmptyName)
      else Ok((stem[..15], stem[16..]))
  }

  function Filename(version: string, name: string): string {
    version + "_" + name + EXTENSION
  }

  /** The parser accepts exactly the names built from a version and a non-empty name. */
  lemma FilenameReadsBack(filename: string, version: string, name: string)
    ensures ParseFilename(filename) == Ok((version, name)) <==>
      IsVersion(version) && name != "" && filename == Filename(version, name)
  {
    if |filename| >= 4 {
      var stem := filename[..|filename| - 4];
      assert filename == stem + filename[|filename| - 4..];
      assert |stem| >= 16 ==> stem == stem[..15] + [stem[15]] + stem[16..];
    }
    if filename == Filename(version, name) && IsVersion(version) {
      assert filename[|filename| - 4..] == EXTENSION;
      assert filename[..|filename| - 4] == version + "_" + name;
      assert (version + "_" + name)[..15] == version && (version + "_" + name)[16..] == name;
    }
  }

  // ----- Contents -----

  const UP := "-- @up"
  const DOWN := "-- @down"
  const SKIP := "-- @down(skip)"
  const NO_TRANSACTION := "-- @no-transaction"
  const REQUIRES := "-- @requires "
  const REPEATABLE := "-- @repeatable"

  predicate StartsWith(s: string, prefix: string) {
    prefix <= s
  }

  /** All that the parser keeps while it goes through the lines. */
  datatype State = State(
    inUp: bool,
    inDown: bool,
    pastDirectives: bool,
    foundUp: bool,
    up: seq<string>,
    down: seq<string>,
    noTransaction: bool,
    needs: seq<string>,
    repeatable: bool,
    skip: Option<string>)

  const INITIAL := State(false, false, false, false, [], [], false, [], false, None)

  /** A statement line: neither blank nor a comment. */
  predicate IsReal(trimmed: string) {
    trimmed != "" && !StartsWith(trimmed, "--")
  }

  predicate IsMarker(trimmed: string) {
    trimmed == UP || trimmed == DOWN || StartsWith(trimmed, SKIP)
  }

  predicate IsDirective(trimmed: string) {
    trimmed == NO_TRANSACTION || StartsWith(trimmed, REQUIRES) || trimmed == REPEATABLE
  }

  function Push(s: State, line: string): State {
    if s.inUp then s.(up := s.up + [line])
    else if s.inDown then s.(down := s.down + [line])
    else s
  }

  function AtMarker(s: State, trimmed: string): State
    requires IsMarker(trimmed)
  {
    if trimmed == UP then s.(foundUp := true, inUp := true, inDown := false, pastDirectives := false)
    else if trimmed == DOWN then s.(inUp := false, inDown := true)
    else s.(inUp := false, inDown := false, skip := Some(Trim(trimmed[|SKIP|..])))
  }

  function AtDirective(s: State, trimmed: string): State
    requires IsDirective(trimmed)
  {
    if trimmed == NO_TRANSACTION then s.(noTransaction := true)
    else if StartsWith(trimmed, REQUIRES) then s.(needs := s.needs + [Trim(trimmed[|REQUIRES|..])])
    else s.(repeatable := true)
  }

  function Step(s: State, line: string): State {
    var trimmed := Trim(line);
    if IsMarker(trimmed) then AtMarker(s, trimmed)
    else if s.inUp && !s.pastDirectives then
      if IsDirective(trimmed) then AtDirective(s, trimmed)
      else Push(s.(pastDirectives := IsReal(trimmed)), line)
    else Push(s, line)
  }

  function Scan(s: State, lines: seq<string>): State
    decreases |lines|
  {
    if lines == [] then s else Scan(Step(s, lines[0]), lines[1..])
  }

  /** The migration a finished scan stands for; the checksum is some function of the up SQL. */
  function Finish(s: State, version: string, name: string, checksum: string -> string): Result<Migration, ParseError> {
    if !s.foundUp then Err(MissingUp)
    else
      var upSql := Trim(Join(s.up, '\n'));
      var down := Trim(Join(s.down, '\n'));
      Ok(Migration(version, name, upSql, if down == "" then None else Some(down), s.skip, checksum(upSql),
                   s.noTransaction, s.needs, s.repeatable))
  }

  function ParseFile(filename: string, content: string, checksum: string -> string): Result<Migration, ParseError> {
    match ParseFilename(filename)
    case Err(e) => Err(e)
    case Ok((version, name)) => Finish(Scan(INITIAL, Lines(content)), version, name, checksum)
  }

  /** The parser's loop. */
  method ParseMigrationFile(filename: string, content: string,
      checksum: string -> string) returns (r: Result<Migration, ParseError>)
    ensures r == ParseFile(filename, content, checksum)
  {
    hide Step, Scan, Trim, Lines, Join;
    var names := ParseFilename(filename);
    if names.Err? {
      return Err(names.error);
    }
    var (version, name) := names.value;
    var inUp, inDown, pastDirectives, foundUp := false, false, false, false;
    var up: seq<string>, down: seq<string> := [], [];
    var noTransaction, repeatable := false, false;
    var needs: seq<string> := [];
    var skip: Option<string> := None;
    var lines := Lines(content);
    assert lines[0..] == lines;
    for i := 0 to |lines|
      invariant Scan(INITIAL, lines) ==
        Scan(State(inUp, inDown, pastDirectives, foundUp, up, down, noTransaction, needs, repeatable, skip), lines[i..])
    {
      var line := lines[i];
      ghost var before := State(inUp, inDown, pastDirectives, foundUp, up, down, noTransaction, needs, repeatable,
        skip);
      ScanFirst(before, lines[i..]);
      assert lines[i..][1..] == lines[i + 1..];
      StepIs(before, line);
      var trimmed := Trim(line);
      if trimmed == UP {
        foundUp, inUp, inDown, pastDirectives := true, true, false, false;
        continue;
      }
      if trimmed == DOWN {
        inUp, inDown := false, true;
        continue;
      }
      if StartsWith(trimmed, SKIP) {
        inUp, inDown := false, false;
        skip := Some(Trim(trimmed[|SKIP|..]));
        continue;
      }
      if inUp && !pastDirectives {
        if trimmed == NO_TRANSACTION {
          noTransaction := true;
          continue;
        }
        if StartsWith(trimmed, REQUIRES) {
          needs := needs + [Trim(trimmed[|REQUIRES|..])];
          continue;
        }
        if trimmed == REPEATABLE {
          repeatable := true;
          continue;
        }
        if trimmed != "" && !StartsWith(trimmed, "--") {
          pastDirectives := true;
        }
      }
      if inUp {
        up := up + [line];
      } else if inDown {
        down := down + [line];
      }
    }
    ScanNothing(State(inUp, inDown, pastDirectives, foundUp, up, down, noTransaction, needs, repeatable, skip),
      lines[|lines|..]);
    if !foundUp {
      return Err(MissingUp);
    }
    var upSql := Trim(Join(up, '\n'));
    var downSql: Option<string> := None;
    if down != [] {
      var joined := Trim(Join(down, '\n'));
      if joined != "" {
        downSql := Some(joined);
      }
    } else {
      EmptyJoin();
    }
    return Ok(Migration(version, name, upSql, downSql, skip, checksum(upSql), noTransaction, needs, repeatable));
  }

  lemma ScanFirst(s: State, lines: seq<string>)
    requires lines != []
    ensures Scan(s, lines) == Scan(Step(s, lines[0]), lines[1..])
  {}

  lemma ScanNothing(s: State, lines: seq<string>)
    requires lines == []
    ensures Scan(s, lines) == s
  {}

  lemma StepIs(s: State, line: string)
    ensures var trimmed := Trim(line);
      Step(s, line) ==
        if IsMarker(trimmed) then AtMarker(s, trimmed)
        else if s.inUp && !s.pastDirectives then
          if IsDirective(trimmed) then AtDirective(s, trimmed) else Push(s.(pastDirectives := IsReal(trimmed)), line)
        else Push(s, line)
  {}

  lemma EmptyJoin()
    ensures Trim(Join([], '\n')) == ""
  {}
}
