/**
 The SQL text that records a migration, and how a database reads it: character
 literals as in section 5.3 of ISO/IEC 9075-2, where two quotes stand for one.
 */
module SqlText {
  import opened Wrappers
  import opened Integers
  import opened Migrations

  predicate QuoteFree(s: string) {
    '\'' !in s
  }

  /** `replace('\'', "''")` */
  function Escape(s: string): string {
    if s == "" then "" else (if s[0] == '\'' then "''" else [s[0]]) + Escape(s[1..])
  }

  // ----- Printing -----

  function Quoted(s: string): string {
    "'" + s + "'"
  }

  function Integer(n: int): string {
    if n < 0 then "-" + Decimal(-n) else Decimal(n)
  }

  function StatusText(status: MigrationStatus): string {
    match status
    case Applied => "applied"
    case Partial => "partial"
  }

  function DownText(downSql: Option<string>): string {
    if downSql.Some? then Quoted(Escape(downSql.value)) else "NULL"
  }

  function Prologue(table: string): string {
    "INSERT INTO " + table
    + " (version, name, checksum, up_sql, down_sql, applied_at, applied_order, status) VALUES ("
  }

  function Values(m: Migration, order: int, status: MigrationStatus, appliedAt: string): string {
    Quoted(m.version) + ", " +
      (Quoted(Escape(m.name)) + ", " + (Quoted(m.checksum) + ", " + (Quoted(Escape(m.upSql)) + ", "
    + (DownText(m.downSql) + ", " +
      (Quoted(appliedAt) + ", " + (Integer(order) + ", " + (Quoted(StatusText(status)) + ")")))))))
  }

  function InsertSql(table: string, m: Migration, order: int, status: MigrationStatus, appliedAt: string): string {
    Prologue(table) + Values(m, order, status, appliedAt)
  }

  // ----- Reading -----

  datatype Literal = Text(value: string) | Null | Bare(word: string)

  /** After an opening quote: the literal's value and what follows its closing quote. */
  function ScanText(s: string): (r: Option<(string, string)>)
    ensures r.Some? ==> |r.value.1| < |s|
  {
    if s == "" then None
    else if s[0] != '\'' then Before(s[0], ScanText(s[1..]))
    else if |s| > 1 && s[1] == '\'' then Before('\'', ScanText(s[2..]))
    else Some(("", s[1..]))
  }

  function Before(c: char, rest: Option<(string, string)>): (r: Option<(string, string)>)
    ensures r.Some? <==> rest.Some?
    ensures r.Some? ==> r.value.1 == rest.value.1
  {
    if rest.Some? then Some(([c] + rest.value.0, rest.value.1)) else None
  }

  /** Up to a comma, a closing parenthesis or the end. */
  function ScanWord(s: string): (r: (string, string))
    ensures |r.1| <= |s|
  {
    if s == "" || s[0] == ',' || s[0] == ')' then ("", s)
    else var rest := ScanWord(s[1..]); ([s[0]] + rest.0, rest.1)
  }

  function ScanLiteral(s: string): (r: Option<(Literal, string)>)
    ensures r.Some? ==> |r.value.1| <= |s|
  {
    if s != "" && s[0] == '\'' then
      var text := ScanText(s[1..]);
      if text.Some? then Some((Text(text.value.0), text.value.1)) else None
    else
      var word := ScanWord(s);
      Some((if word.0 == "NULL" then Null else Bare(word.0), word.1))
  }

  /** The literals of a VALUES list up to its closing parenthesis. */
  function ScanList(s: string): Option<seq<Literal>>
    decreases |s|
  {
    var first := ScanLiteral(s);
    if first.None? then None
    else if first.value.1 == ")" then Some([first.value.0])
    else if |first.value.1| >= 2 &&
      first.value.1[..2] == ", " then FollowedBy(first.value.0, ScanList(first.value.1[2..]))
    else None
  }

  function FollowedBy(literal: Literal, rest: Option<seq<Literal>>): Option<seq<Literal>> {
    if rest.Some? then Some([literal] + rest.value) else None
  }

  function ParseNat(s: string): Option<nat> {
    if s == "" || !IsDigit(s[|s| - 1]) then None
    else
      var last := (s[|s| - 1] - '0') as int;
      if |s| == 1 then Some(last)
      else
        var front := ParseNat(s[..|s| - 1]);
        if front.Some? then Some(front.value * 10 + last) else None
  }

  function ParseInteger(s: string): Option<int> {
    if s != "" && s[0] == '-' then
      match ParseNat(s[1..]) case Some(n) => Some(-(n as int)) case None => None
    else
      match ParseNat(s) case Some(n) => Some(n as int) case None => None
  }

  function ReadStatus(s: string): Option<MigrationStatus> {
    if s == "applied" then Some(Applied) else if s == "partial" then Some(Partial) else None
  }

  /** The row a list of literals stands for, with its time stamp. */
  function ReadRow(list: seq<Literal>): Option<(AppliedMigration, string)> {
    if |list| == 8 && list[0].Text? && list[1].Text? && list[2].Text? && list[3].Text? &&
      (list[4].Text? || list[4].Null?)
        && list[5].Text? && list[6].Bare? && list[7].Text?
        && ParseInteger(list[6].word).Some? && ReadStatus(list[7].value).Some?
    then
      Some((AppliedMigration(
        list[0].value, list[1].value, list[2].value, list[3].value,
        if list[4].Text? then Some(list[4].value) else None,
        ParseInteger(list[6].word).value, ReadStatus(list[7].value).value),
        list[5].value))
    else None
  }

  /** The row an INSERT statement for `table` stores. */
  function ReadInsert(table: string, sql: string): Option<(AppliedMigration, string)> {
    if Prologue(table) <= sql then
      var list := ScanList(sql[|Prologue(table)|..]);
      if list.Some? then ReadRow(list.value) else None
    else None
  }

  // ----- Literals -----

  /** A text that does not continue a literal. */
  predicate Ends(tail: string) {
    tail == "" || tail[0] != '\''
  }

  lemma {:induction false} EscapedReadsBack(s: string, tail: string)
    requires Ends(tail)
    ensures ScanText(Escape(s) + "'" + tail) == Some((s, tail))
  {
    var text := Escape(s) + "'" + tail;
    if s == "" {
      assert text == "'" + tail;
      assert text[1..] == tail;
    } else {
      EscapedReadsBack(s[1..], tail);
      var rest := Escape(s[1..]) + "'" + tail;
      assert s == [s[0]] + s[1..];
      if s[0] == '\'' {
        assert text == "''" + rest;
        assert text[2..] == rest;
      } else {
        assert text == [s[0]] + rest;
        assert text[1..] == rest;
      }
    }
  }

  lemma {:induction false} EscapeQuoteFree(s: string)
    requires QuoteFree(s)
    ensures Escape(s) == s
  {
    if s == "" {
    } else {
      assert s[0] in s && forall c :: c in s[1..] ==> c in s;
      EscapeQuoteFree(s[1..]);
      assert s == [s[0]] + s[1..];
    }
  }

  function Quotes(n: nat): (r: string)
    ensures |r| == n
  {
    if n == 0 then "" else "'" + Quotes(n - 1)
  }

  lemma {:induction false} TwoMoreQuotes(n: nat)
    ensures Quotes(n) + "''" == Quotes(n + 2)
  {
    if n == 0 {
    } else {
      TwoMoreQuotes(n - 1);
      assert Quotes(n) + "''" == "'" + (Quotes(n - 1) + "''");
    }
  }

  /** A literal's text, read raw, never gains quotes in front. */
  lemma {:induction false} NoQuotesGained(n: nat, w: string, tail: string)
    requires n >= 1 && Ends(tail)
    ensures var r := ScanText(w + "'" + tail); r.Some? ==> r.value.0 != Quotes(n) + w
    decreases |w|
  {
    hide ScanText, Before, Quotes;
    var text := w + "'" + tail;
    var r := ScanText(text);
    assert Quotes(n) + w == "'" + (Quotes(n - 1) + w) by { FirstQuote(n); }
    if w == "" {
      assert text == "'" + tail;
      ScanEnds(tail);
    } else if w[0] != '\'' {
      assert text == [w[0]] + (w[1..] + "'" + tail);
      ScanPlain(w[0], w[1..] + "'" + tail);
    } else if |w| == 1 {
      assert text == "''" + tail && Quotes(n) + w == "'" + (Quotes(n - 1) + "'");
      ScanPair(tail);
      ScanTailFirst(tail);
      assert (Quotes(n - 1) + "'")[0] == '\'' by { if n > 1 { FirstQuote(n - 1); } }
    } else if w[1] != '\'' {
      assert text == "'" + (w[1..] + "'" + tail);
      ScanEnds(w[1..] + "'" + tail);
    } else {
      var rest := w[2..];
      assert w == "''" + rest && text == "''" + (rest + "'" + tail);
      ScanPair(rest + "'" + tail);
      NoQuotesGained(n + 1, rest, tail);
      TwoMoreQuotes(n - 1);
      assert Quotes(n - 1) + w == Quotes(n - 1) + "''" + rest;
      if r.Some? {
        assert r.value.0[1..] != Quotes(n - 1) + w;
        assert ("'" + (Quotes(n - 1) + w))[1..] == Quotes(n - 1) + w;
      }
    }
  }

  lemma FirstQuote(n: nat)
    requires n >= 1
    ensures Quotes(n) == "'" + Quotes(n - 1)
  {}

  lemma ScanEnds(tail: string)
    requires Ends(tail)
    ensures ScanText("'" + tail) == Some(("", tail))
  {
    assert ("'" + tail)[1..] == tail;
  }

  lemma ScanPlain(c: char, rest: string)
    requires c != '\''
    ensures ScanText([c] + rest) == Before(c, ScanText(rest))
    ensures var r := ScanText([c] + rest); r.Some? ==> r.value.0 != "" && r.value.0[0] == c
  {
    assert ([c] + rest)[1..] == rest;
  }

  lemma ScanPair(rest: string)
    ensures var r, after := ScanText("''" + rest), ScanText(rest);
      r == Before('\'', after) && (r.Some? ==> after.Some? && r.value.0 != "" && r.value.0[1..] == after.value.0)
  {
    assert ("''" + rest)[2..] == rest;
  }

  lemma ScanTailFirst(tail: string)
    requires Ends(tail)
    ensures var r := ScanText(tail); r.Some? ==> r.value.0 != "" && r.value.0[0] != '\''
  {}

  /** A text put between quotes as it is reads back as itself only if it has no quote. */
  lemma {:induction false} RawReadsBack(s: string, tail: string)
    requires Ends(tail)
    ensures ScanText(s + "'" + tail) == Some((s, tail)) <==> QuoteFree(s)
    ensures var r := ScanText(s + "'" + tail); r.Some? && r.value.0 == s ==> QuoteFree(s)
  {
    hide ScanText, Before, Quotes;
    var text := s + "'" + tail;
    if s == "" {
      assert text == "'" + tail;
      ScanEnds(tail);
    } else {
      var less := s[1..];
      assert s == [s[0]] + less;
      if s[0] != '\'' {
        assert text == [s[0]] + (less + "'" + tail);
        ScanPlain(s[0], less + "'" + tail);
        RawReadsBack(less, tail);
        assert QuoteFree(s) <==> QuoteFree(less);
        BeforeIs(s[0], ScanText(less + "'" + tail));
        assert ([s[0]] + less)[1..] == less;
      } else {
        assert !QuoteFree(s);
        QuoteFirst(s, tail);
      }
    }
  }

  lemma BeforeIs(c: char, rest: Option<(string, string)>)
    ensures var r := Before(c, rest); r.Some? ==>
      r.value.0 == [c] + rest.value.0 && r.value.0[1..] == rest.value.0 && r.value.1 == rest.value.1
  {}

  lemma QuoteFirst(s: string, tail: string)
    requires Ends(tail) && s != "" && s[0] == '\''
    ensures var r := ScanText(s + "'" + tail); r.Some? ==> r.value.0 != s
  {
    hide ScanText, Before;
    var text := s + "'" + tail;
    if |s| == 1 {
      assert text == "''" + tail;
      ScanPair(tail);
      ScanTailFirst(tail);
    } else if s[1] != '\'' {
      assert text == "'" + (s[1..] + "'" + tail);
      ScanEnds(s[1..] + "'" + tail);
    } else {
      var rest := s[2..];
      assert text == "''" + (rest + "'" + tail) && s[1..] == Quotes(1) + rest;
      ScanPair(rest + "'" + tail);
      NoQuotesGained(1, rest, tail);
    }
  }

  // ----- Numbers -----

  lemma {:induction false} DecimalReadsBack(n: nat)
    ensures ParseNat(Decimal(n)) == Some(n)
  {
    DecimalDigits(n);
    var s := Decimal(n);
    assert s[|s| - 1] == Digit(n % 10);
    if n >= 10 {
      DecimalReadsBack(n / 10);
      assert s[..|s| - 1] == Decimal(n / 10);
    }
  }

  lemma IntegerReadsBack(n: int)
    ensures ParseInteger(Integer(n)) == Some(n)
  {
    hide Decimal, ParseNat;
    if n < 0 {
      DecimalReadsBack(-n);
      assert Integer(n)[1..] == Decimal(-n);
    } else {
      DecimalReadsBack(n);
      DecimalDigits(n);
      assert Decimal(n)[0] in Decimal(n);
    }
  }

  /** A word of a VALUES list: no comma, no parenthesis, no quote. */
  ghost predicate IsWord(s: string) {
    s != "" && forall c :: c in s ==> c != ',' && c != ')' && c != '\''
  }

  lemma {:induction false} WordReadsBack(s: string, tail: string)
    requires IsWord(s) || s == ""
    requires tail != "" && (tail[0] == ',' || tail[0] == ')')
    ensures ScanWord(s + tail) == (s, tail)
  {
    if s == "" {
      assert s + tail == tail;
    } else {
      assert s[0] in s && forall c :: c in s[1..] ==> c in s;
      WordReadsBack(s[1..], tail);
      assert (s + tail)[1..] == s[1..] + tail;
      assert s == [s[0]] + s[1..];
    }
  }

  lemma IntegerIsWord(n: int)
    ensures IsWord(Integer(n)) && Integer(n) != "NULL"
  {
    DecimalDigits(if n < 0 then -n else n);
    var s := Integer(n);
    assert s[0] in s;
  }

  // ----- Lists -----

  /** `printed`, before a comma or the end of the list, reads as `literal`. */
  ghost predicate ReadsAs(printed: string, literal: Literal) {
    && (forall more :: ScanLiteral(printed + (", " + more)) == Some((literal, ", " + more)))
    && ScanLiteral(printed + ")") == Some((literal, ")"))
  }

  lemma QuotedLiteral(s: string, tail: string)
    ensures ScanLiteral(Quoted(s) + tail) ==
      match ScanText(s + "'" + tail) case Some(r) => Some((Text(r.0), r.1)) case None => None
  {
    var text := Quoted(s) + tail;
    assert text[0] == '\'' && text[1..] == s + "'" + tail;
  }

  lemma EscapedReadsAs(s: string)
    ensures ReadsAs(Quoted(Escape(s)), Text(s))
  {
    hide ScanText, ScanLiteral, Quoted, Escape;
    forall more ensures ScanLiteral(Quoted(Escape(s)) + (", " + more)) == Some((Text(s), ", " + more)) {
      QuotedLiteral(Escape(s), ", " + more);
      EscapedReadsBack(s, ", " + more);
    }
    QuotedLiteral(Escape(s), ")");
    EscapedReadsBack(s, ")");
  }

  lemma RawReadsAs(s: string)
    requires QuoteFree(s)
    ensures ReadsAs(Quoted(s), Text(s))
  {
    EscapeQuoteFree(s);
    EscapedReadsAs(s);
  }

  lemma WordReadsAs(s: string)
    requires IsWord(s)
    ensures ReadsAs(s, if s == "NULL" then Null else Bare(s))
  {
    assert s[0] in s;
    forall more ensures ScanLiteral(s + (", " + more)) == Some((if s == "NULL" then Null else Bare(s), ", " + more)) {
      WordReadsBack(s, ", " + more);
    }
    WordReadsBack(s, ")");
  }

  lemma ListFirst(printed: string, literal: Literal, more: string)
    requires ReadsAs(printed, literal)
    ensures ScanList(printed + ", " + more) == FollowedBy(literal, ScanList(more))
  {
    hide ScanLiteral;
    assert printed + ", " + more == printed + (", " + more);
    assert (", " + more)[..2] == ", " && (", " + more)[2..] == more;
    assert ScanLiteral(printed + ", " + more) == Some((literal, ", " + more));
  }

  lemma ListLast(printed: string, literal: Literal)
    requires ReadsAs(printed, literal)
    ensures ScanList(printed + ")") == Some([literal])
  {
    hide ScanLiteral;
  }

  /** A list that starts with a raw text, if it is read at all,
    starts with a literal that is that text only if it is quote-free. */
  lemma RawFirst(s: string, more: string)
    ensures var list := ScanList(Quoted(s) + ", " + more);
      list.Some? && list.value != [] && list.value[0] == Text(s) ==> QuoteFree(s)
  {
    hide ScanText;
    var text := Quoted(s) + ", " + more;
    assert text == Quoted(s) + (", " + more);
    QuotedLiteral(s, ", " + more);
    RawReadsBack(s, ", " + more);
  }

  // ----- The statement -----

  /** The literals of a row. */
  function RowLiterals(m: Migration, order: int, status: MigrationStatus, appliedAt: string): seq<Literal> {
    [Text(m.version), Text(m.name), Text(m.checksum), Text(m.upSql),
     if m.downSql.Some? then Text(m.downSql.value)
       else Null, Text(appliedAt), Bare(Integer(order)), Text(StatusText(status))]
  }

  lemma DownReadsAs(downSql: Option<string>)
    ensures ReadsAs(DownText(downSql), if downSql.Some? then Text(downSql.value) else Null)
  {
    hide ReadsAs;
    if downSql.Some? {
      EscapedReadsAs(downSql.value);
    } else {
      WordReadsAs("NULL");
    }
  }

  lemma StatusReadsAs(status: MigrationStatus)
    ensures ReadsAs(Quoted(StatusText(status)), Text(StatusText(status)))
  {
    hide ReadsAs;
    RawReadsAs(StatusText(status));
  }

  /** The list after its first three fields. */
  function Tail(m: Migration, order: int, status: MigrationStatus, appliedAt: string): string {
    Quoted(Escape(m.upSql)) + ", " +
      (DownText(m.downSql) + ", " +
        (Quoted(appliedAt) + ", " + (Integer(order) + ", " + (Quoted(StatusText(status)) + ")"))))
  }

  lemma TailReadsBack(m: Migration, order: int, status: MigrationStatus, appliedAt: string)
    requires QuoteFree(appliedAt)
    ensures ScanList(Tail(m, order, status, appliedAt)) == Some(RowLiterals(m, order, status, appliedAt)[3..])
  {
    hide ScanList, ReadsAs, Quoted, Escape, DownText, Integer, StatusText, IsWord;
    var r7 := Quoted(StatusText(status)) + ")";
    var r6 := Integer(order) + ", " + r7;
    var r5 := Quoted(appliedAt) + ", " + r6;
    var r4 := DownText(m.downSql) + ", " + r5;
    StatusReadsAs(status);
    ListLast(Quoted(StatusText(status)), Text(StatusText(status)));
    IntegerIsWord(order);
    WordReadsAs(Integer(order));
    ListFirst(Integer(order), Bare(Integer(order)), r7);
    RawReadsAs(appliedAt);
    ListFirst(Quoted(appliedAt), Text(appliedAt), r6);
    DownReadsAs(m.downSql);
    ListFirst(DownText(m.downSql), if m.downSql.Some? then Text(m.downSql.value) else Null, r5);
    EscapedReadsAs(m.upSql);
    ListFirst(Quoted(Escape(m.upSql)), Text(m.upSql), r4);
    assert RowLiterals(m, order, status, appliedAt)[3..] ==
      [Text(m.upSql)] + ([if m.downSql.Some? then Text(m.downSql.value) else Null]
      + ([Text(appliedAt)] + ([Bare(Integer(order))] + [Text(StatusText(status))])));
  }

  lemma ValuesReadBack(m: Migration, order: int, status: MigrationStatus, appliedAt: string)
    requires QuoteFree(appliedAt)
    ensures var list := ScanList(Values(m, order, status, appliedAt));
      && (QuoteFree(m.version) && QuoteFree(m.checksum) ==> list == Some(RowLiterals(m, order, status, appliedAt)))
      && (list.Some? && |list.value| == 8 && list.value[0] == Text(m.version) && list.value[2] == Text(m.checksum) ==>
            QuoteFree(m.version) && QuoteFree(m.checksum))
  {
    hide ScanList, ReadsAs, Quoted, Escape, DownText, Integer, StatusText;
    var r3 := Tail(m, order, status, appliedAt);
    var r2 := Quoted(m.checksum) + ", " + r3;
    var r1 := Quoted(Escape(m.name)) + ", " + r2;
    assert Values(m, order, status, appliedAt) == Quoted(m.version) + ", " + r1;
    RawFirst(m.version, r1);
    if QuoteFree(m.version) {
      RawReadsAs(m.version);
      ListFirst(Quoted(m.version), Text(m.version), r1);
      EscapedReadsAs(m.name);
      ListFirst(Quoted(Escape(m.name)), Text(m.name), r2);
      RawFirst(m.checksum, r3);
      if QuoteFree(m.checksum) {
        RawReadsAs(m.checksum);
        ListFirst(Quoted(m.checksum), Text(m.checksum), r3);
        TailReadsBack(m, order, status, appliedAt);
        var all := RowLiterals(m, order, status, appliedAt);
        assert all == [Text(m.version)] + ([Text(m.name)] + ([Text(m.checksum)] + all[3..]));
      }
    }
  }

  /**
   The INSERT text stores exactly the row it was built from, whatever the name
   and the SQL texts hold, if and only if the version and the checksum, which
   are not escaped, have no quote.
   */
  lemma InsertReadsBack(table: string, m: Migration, order: int, status: MigrationStatus, appliedAt: string)
    requires QuoteFree(appliedAt)
    ensures ReadInsert(table, InsertSql(table, m, order, status, appliedAt)) ==
      Some((RowOf(m, order, status), appliedAt))
      <==> QuoteFree(m.version) && QuoteFree(m.checksum)
  {
    hide ScanList, Values, Integer, ParseInteger, Prologue;
    var sql := InsertSql(table, m, order, status, appliedAt);
    assert Prologue(table) <= sql && sql[|Prologue(table)|..] == Values(m, order, status, appliedAt);
    ValuesReadBack(m, order, status, appliedAt);
    IntegerReadsBack(order);
  }

  /** An absent down SQL and the text NULL are stored apart. */
  lemma NullIsNotText(table: string, m: Migration, order: int, status: MigrationStatus, appliedAt: string)
    requires QuoteFree(appliedAt) && QuoteFree(m.version) && QuoteFree(m.checksum)
    ensures var absent, text := m.(downSql := None), m.(downSql := Some("NULL"));
      var a, t := ReadInsert(table, InsertSql(table, absent, order, status, appliedAt)),
        ReadInsert(table, InsertSql(table, text, order, status, appliedAt));
      a.Some? && t.Some? && a.value.0.downSql == None && t.value.0.downSql == Some("NULL")
  {
    hide ReadInsert, InsertSql;
    InsertReadsBack(table, m.(downSql := None), order, status, appliedAt);
    InsertReadsBack(table, m.(downSql := Some("NULL")), order, status, appliedAt);
  }

  // ----- UPDATE and DELETE -----

  function ByVersion(version: string): string {
    " WHERE version = '" + version + "'"
  }

  function DeleteSql(table: string, version: string): string {
    "DELETE FROM " + table + ByVersion(version)
  }

  function UpdateStatusSql(table: string, version: string, status: MigrationStatus): string {
    "UPDATE " + table + " SET status = '" + StatusText(status) + "'" + ByVersion(version)
  }

  function UpdateChecksumSql(table: string, version: string, checksum: string): string {
    "UPDATE " + table + " SET checksum = '" + checksum + "'" + ByVersion(version)
  }

  /** The version a statement that starts with `prologue` and ends in one literal selects. */
  function ReadCondition(prologue: string, sql: string): Option<string> {
    var start := prologue + " WHERE version = '";
    if start <= sql then
      var text := ScanText(sql[|start|..]);
      if text.Some? && text.value.1 == "" then Some(text.value.0) else None
    else None
  }

  /** The statements on one row select that row exactly if its version has no quote. */
  lemma ConditionReadsBack(table: string, version: string, status: MigrationStatus)
    ensures ReadCondition("DELETE FROM " + table, DeleteSql(table, version)) == Some(version) <==> QuoteFree(version)
    ensures ReadCondition("UPDATE " + table + " SET status = '" + StatusText(status) + "'",
      UpdateStatusSql(table, version, status)) == Some(version)
      <==> QuoteFree(version)
  {
    hide ScanText, StatusText;
    RawReadsBack(version, "");
    assert version + "'" + "" == version + "'";
    ConditionOf("DELETE FROM " + table, version);
    ConditionOf("UPDATE " + table + " SET status = '" + StatusText(status) + "'", version);
  }

  lemma ConditionOf(prologue: string, version: string)
    ensures ReadCondition(prologue, prologue + ByVersion(version)) ==
      var text := ScanText(version + "'"); if text.Some? && text.value.1 == "" then Some(text.value.0) else None
  {
    hide ScanText;
    var start := prologue + " WHERE version = '";
    var sql := prologue + ByVersion(version);
    assert sql == start + (version + "'");
    assert sql[|start|..] == version + "'";
  }

  /** The checksum an UPDATE of `table` sets, and the version it selects. */
  function ReadUpdateChecksum(table: string, sql: string): Option<(string, string)> {
    var start := "UPDATE " + table + " SET checksum = '";
    if start <= sql then
      match ScanText(sql[|start|..])
      case None => None
      case Some((checksum, rest)) =>
        match ReadCondition("", rest)
        case None => None
        case Some(version) => Some((checksum, version))
    else None
  }

  /** The statement stores its checksum in its row exactly if neither the checksum nor the version has a quote. */
  lemma UpdateChecksumReadsBack(table: string, version: string, checksum: string)
    ensures ReadUpdateChecksum(table, UpdateChecksumSql(table, version, checksum)) == Some((checksum, version))
      <==> QuoteFree(checksum) && QuoteFree(version)
  {
    hide ScanText, ReadCondition;
    var start := "UPDATE " + table + " SET checksum = '";
    var sql := UpdateChecksumSql(table, version, checksum);
    var tail := ByVersion(version);
    assert tail[0] == ' ';
    assert sql == start + (checksum + "'" + tail);
    assert sql[|start|..] == checksum + "'" + tail;
    RawReadsBack(checksum, tail);
    if QuoteFree(checksum) {
      ConditionOf("", version);
      assert "" + tail == tail;
      RawReadsBack(version, "");
      assert version + "'" + "" == version + "'";
    }
  }
}
