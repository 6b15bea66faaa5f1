/**
 * The statement builder: a table, a column list and a statement kind,
 * rendered as the text of one statement of the store's query dialect.
 * Only the text is produced; bound values travel separately.
 */
module QueryBuilder {
  import opened Wrappers

  /** The kind of statement a builder renders. */
  datatype QueryType = Select | Insert | Update

  /**
   * The keyword of each statement kind. Select and insert texts open with
   * theirs; update renders no text, so `UPDATE` never appears.
   */
  function Keyword(kind: QueryType): string {
    match kind
    case Select => "SELECT"
    case Insert => "INSERT INTO"
    case Update => "UPDATE"
  }

  /** The builder's state: one value per builder call chain. */
  datatype Builder = Builder(queryType: QueryType, table: string, columns: seq<string>)

  /** Sum of the lengths of `parts`. */
  function TotalLength(parts: seq<string>): nat {
    if |parts| == 0 then 0 else |parts[0]| + TotalLength(parts[1..])
  }

  /**
   * Rust's `[&str]::join(sep)`: the parts in order with `sep` between
   * consecutive parts, and nothing for an empty slice.
   */
  function Join(parts: seq<string>, sep: string): (r: string)
    ensures |parts| == 0 ==> r == ""
    ensures |parts| > 0 ==> |r| == TotalLength(parts) + (|parts| - 1) * |sep|
  {
    if |parts| == 0 then ""
    else if |parts| == 1 then parts[0]
    else parts[0] + sep + Join(parts[1..], sep)
  }

  /** One `?` placeholder per column, as the insert rendering maps each column to "?". */
  function Placeholders(n: nat): seq<string> {
    seq(n, _ => "?")
  }

  /** A new builder for `table`: a select with no columns. */
  function New(table: string): (b: Builder)
    ensures b.queryType == Select
    ensures b.table == table
    ensures b.columns == []
  {
    Builder(Select, table, [])
  }

  /** Replaces the statement kind and nothing else. */
  function WithQueryType(b: Builder, kind: QueryType): (r: Builder)
    ensures r.queryType == kind
    ensures r.table == b.table && r.columns == b.columns
  {
    b.(queryType := kind)
  }

  /** Replaces the column list and nothing else. */
  function WithColumns(b: Builder, columns: seq<string>): (r: Builder)
    ensures r.columns == columns
    ensures r.queryType == b.queryType && r.table == b.table
  {
    b.(columns := columns)
  }

  /** `SELECT <columns> FROM <table>`, the four parts joined by single spaces. */
  function BuildSelect(b: Builder): string {
    Join([Keyword(Select), Join(b.columns, ", "), "FROM", b.table], " ")
  }

  /** `INSERT INTO <table> (<columns>) VALUES (<one ? per column>)`. */
  function BuildInsert(b: Builder): string {
    Join([Keyword(Insert), b.table, "(" + Join(b.columns, ", ") + ")", "VALUES",
          "(" + Join(Placeholders(|b.columns|), ", ") + ")"], " ")
  }

  /** Update rendering is not implemented: it yields the empty string. */
  function BuildUpdate(b: Builder): string {
    ""
  }

  /** Four parts joined by a separator, written out. */
  lemma Join4(a: string, b: string, c: string, d: string, sep: string)
    ensures Join([a, b, c, d], sep) == a + sep + b + sep + c + sep + d
  {
    assert [a, b, c, d][1..] == [b, c, d];
    assert [b, c, d][1..] == [c, d];
    assert [c, d][1..] == [d];
    assert Join([c, d], sep) == c + sep + d;
    assert Join([b, c, d], sep) == b + sep + (c + sep + d);
    assert Join([a, b, c, d], sep) == a + sep + (b + sep + (c + sep + d));
  }

  /** Five parts joined by a separator, written out. */
  lemma Join5(a: string, b: string, c: string, d: string, e: string, sep: string)
    ensures Join([a, b, c, d, e], sep) == a + sep + b + sep + c + sep + d + sep + e
  {
    assert [a, b, c, d, e][1..] == [b, c, d, e];
    Join4(b, c, d, e, sep);
  }

  /** The select rendering, written out as one concatenation. */
  lemma SelectText(b: Builder)
    ensures BuildSelect(b) == "SELECT " + Join(b.columns, ", ") + " FROM " + b.table
  {
    var j := Join(b.columns, ", ");
    Join4("SELECT", j, "FROM", b.table, " ");
    assert "SELECT" + " " == "SELECT ";
    assert " " + "FROM" + " " == " FROM ";
  }

  /** Regrouping of the insert rendering's pieces. */
  lemma InsertPieces(t: string, j: string, p: string)
    ensures "INSERT INTO" + " " + t + " " + ("(" + j + ")") + " " + "VALUES" + " " + ("(" + p + ")")
         == "INSERT INTO " + t + " (" + j + ") VALUES (" + p + ")"
  {
  }

  /** The insert rendering, written out as one concatenation. */
  lemma InsertText(b: Builder)
    ensures BuildInsert(b) == "INSERT INTO " + b.table + " (" + Join(b.columns, ", ")
                              + ") VALUES (" + Join(Placeholders(|b.columns|), ", ") + ")"
  {
    var j := Join(b.columns, ", ");
    var p := Join(Placeholders(|b.columns|), ", ");
    Join5("INSERT INTO", b.table, "(" + j + ")", "VALUES", "(" + p + ")", " ");
    InsertPieces(b.table, j, p);
  }

  /**
   * The rendered statement text. It depends only on the builder's three
   * fields, and the builder is left as it was.
   */
  function Build(b: Builder): (r: string)
    ensures b.queryType == Select ==>
      r == "SELECT " + Join(b.columns, ", ") + " FROM " + b.table
    ensures b.queryType == Insert ==>
      r == "INSERT INTO " + b.table + " (" + Join(b.columns, ", ") + ") VALUES ("
           + Join(Placeholders(|b.columns|), ", ") + ")"
    ensures b.queryType == Update ==> r == ""
  {
    match b.queryType
    case Select => SelectText(b); BuildSelect(b)
    case Insert => InsertText(b); BuildInsert(b)
    case Update => BuildUpdate(b)
  }

  /** A new builder renders a select with an empty column part: two spaces before FROM. */
  lemma NewBuildsEmptySelect(table: string)
    ensures Build(New(table)) == "SELECT  FROM " + table
  {
  }

  /** The keyword of each kind. */
  lemma KeywordValues()
    ensures Keyword(Select) == "SELECT"
    ensures Keyword(Insert) == "INSERT INTO"
    ensures Keyword(Update) == "UPDATE"
  {
  }

  /** The statement keywords tell the three kinds apart. */
  lemma KeywordInjective(k1: QueryType, k2: QueryType)
    ensures Keyword(k1) == Keyword(k2) ==> k1 == k2
  {
  }

  lemma SelectExampleColumns()
    ensures Join(["id", "item_id", "item_name"], ", ") == "id, item_id, item_name"
  {
  }

  lemma SelectExampleText()
    ensures "SELECT " + "id, item_id, item_name" + " FROM " + "trading_post.trade"
         == "SELECT id, item_id, item_name FROM trading_post.trade"
  {
    assert "SELECT " + "id, item_id, item_name" == "SELECT id, item_id, item_name";
  }

  /** The select rendering of the repository's own unit test. */
  lemma SelectExample()
    ensures Build(WithColumns(New("trading_post.trade"), ["id", "item_id", "item_name"]))
         == "SELECT id, item_id, item_name FROM trading_post.trade"
  {
    var b := Builder(Select, "trading_post.trade", ["id", "item_id", "item_name"]);
    assert WithColumns(New("trading_post.trade"), ["id", "item_id", "item_name"]) == b;
    SelectExampleColumns();
    SelectExampleText();
  }

  lemma InsertExampleText()
    ensures "INSERT INTO " + "trading_post.trade" + " (" + "key, value" + ") VALUES (" + "?, ?" + ")"
         == "INSERT INTO trading_post.trade (key, value) VALUES (?, ?)"
  {
    // One literal concatenation per step keeps each equality small.
    var s1 := "INSERT INTO " + "trading_post.trade" + " (";
    assert s1 == "INSERT INTO trading_post.trade (";
    var s2 := s1 + "key, value" + ") VALUES (";
    assert s2 == "INSERT INTO trading_post.trade (key, value) VALUES (";
    assert s2 + "?, ?" + ")" == "INSERT INTO trading_post.trade (key, value) VALUES (?, ?)";
  }

  /** The insert rendering of the repository's own unit test. */
  lemma InsertExample()
    ensures Build(WithColumns(WithQueryType(New("trading_post.trade"), Insert), ["key", "value"]))
         == "INSERT INTO trading_post.trade (key, value) VALUES (?, ?)"
  {
    var b := Builder(Insert, "trading_post.trade", ["key", "value"]);
    assert WithColumns(WithQueryType(New("trading_post.trade"), Insert), ["key", "value"]) == b;
    assert Placeholders(2) == ["?", "?"];
    assert Join(b.columns, ", ") == "key, value";
    assert Join(Placeholders(2), ", ") == "?, ?";
    InsertExampleText();
  }

  // ---------------------------------------------------------------------------
  // Placeholder counting

  /** Number of occurrences of `c` in `s`. */
  function Count(c: char, s: string): nat {
    if |s| == 0 then 0 else (if s[0] == c then 1 else 0) + Count(c, s[1..])
  }

  lemma {:induction false} CountConcat(c: char, a: string, b: string)
    ensures Count(c, a + b) == Count(c, a) + Count(c, b)
  {
    if |a| == 0 {
      assert a + b == b;
    } else {
      assert (a + b)[1..] == a[1..] + b;
      CountConcat(c, a[1..], b);
    }
  }

  lemma {:induction false} CountAbsent(c: char, s: string)
    requires c !in s
    ensures Count(c, s) == 0
  {
    if |s| > 0 {
      assert forall k :: 0 <= k < |s[1..]| ==> s[1..][k] == s[k + 1];
      CountAbsent(c, s[1..]);
    }
  }

  /** A joined list holds `c` only if a part or the separator does. */
  lemma {:induction false} JoinAbsent(c: char, parts: seq<string>, sep: string)
    requires c !in sep
    requires forall i :: 0 <= i < |parts| ==> c !in parts[i]
    ensures c !in Join(parts, sep)
  {
    if |parts| > 1 {
      JoinAbsent(c, parts[1..], sep);
    }
  }

  /** The placeholder list renders exactly `n` question marks. */
  lemma {:induction false} PlaceholderCount(n: nat)
    ensures Count('?', Join(Placeholders(n), ", ")) == n
  {
    if n == 1 {
      assert Join(Placeholders(1), ", ") == "?";
    } else if n > 1 {
      var rest := Join(Placeholders(n - 1), ", ");
      assert Placeholders(n)[1..] == Placeholders(n - 1);
      assert Join(Placeholders(n), ", ") == "?" + (", " + rest);
      PlaceholderCount(n - 1);
      CountConcat('?', ", ", rest);
      CountConcat('?', "?", ", " + rest);
      CountAbsent('?', ", ");
    }
  }

  /** The fixed text of an insert statement holds no `?`. */
  lemma InsertFrameCount(t: string, j: string, p: string)
    requires '?' !in t && '?' !in j
    ensures Count('?', "INSERT INTO " + t + " (" + j + ") VALUES (" + p + ")") == Count('?', p)
  {
    var s1 := "INSERT INTO " + t;
    var s2 := s1 + " (";
    var s3 := s2 + j;
    var s4 := s3 + ") VALUES (";
    var s5 := s4 + p;
    CountAbsent('?', t);
    CountAbsent('?', j);
    CountConcat('?', "INSERT INTO ", t);
    CountConcat('?', s1, " (");
    CountConcat('?', s2, j);
    CountConcat('?', s3, ") VALUES (");
    CountConcat('?', s4, p);
    CountConcat('?', s5, ")");
    assert Count('?', "INSERT INTO ") == 0;
    assert Count('?', " (") == 0;
    assert Count('?', ") VALUES (") == 0;
    assert Count('?', ")") == 0;
  }

  /**
   * When neither the table nor any column name holds a `?`, an insert
   * statement holds exactly one placeholder per column.
   */
  lemma InsertPlaceholders(b: Builder)
    requires b.queryType == Insert
    requires '?' !in b.table
    requires forall i :: 0 <= i < |b.columns| ==> '?' !in b.columns[i]
    ensures Count('?', Build(b)) == |b.columns|
  {
    JoinAbsent('?', b.columns, ", ");
    PlaceholderCount(|b.columns|);
    InsertFrameCount(b.table, Join(b.columns, ", "), Join(Placeholders(|b.columns|), ", "));
  }

  // ---------------------------------------------------------------------------
  // Reading a column list back

  /** Splits `s` at every ", ", `cur` being the part read so far. */
  function SplitList(s: string, cur: string): seq<string>
    decreases |s|
  {
    if |s| == 0 then [cur]
    else if |s| >= 2 && s[..2] == ", " then [cur] + SplitList(s[2..], "")
    else SplitList(s[1..], cur + [s[0]])
  }

  lemma {:induction false} SplitAcrossPart(p: string, rest: string, cur: string)
    requires ',' !in p
    ensures SplitList(p + rest, cur) == SplitList(rest, cur + p)
    decreases |p|
  {
    if |p| == 0 {
      assert p + rest == rest;
      assert cur + p == cur;
    } else {
      assert (p + rest)[0] == p[0];
      assert (p + rest)[1..] == p[1..] + rest;
      assert forall k :: 0 <= k < |p[1..]| ==> p[1..][k] == p[k + 1];
      SplitAcrossPart(p[1..], rest, cur + [p[0]]);
      assert cur + [p[0]] + p[1..] == cur + p;
    }
  }

  lemma {:induction false} SplitJoin(parts: seq<string>, cur: string)
    requires |parts| > 0
    requires forall i :: 0 <= i < |parts| ==> ',' !in parts[i]
    ensures SplitList(Join(parts, ", "), cur) == [cur + parts[0]] + parts[1..]
  {
    if |parts| == 1 {
      SplitAcrossPart(parts[0], "", cur);
      assert parts[0] + "" == parts[0];
    } else {
      var rest := Join(parts[1..], ", ");
      assert Join(parts, ", ") == parts[0] + (", " + rest);
      SplitAcrossPart(parts[0], ", " + rest, cur);
      assert (", " + rest)[..2] == ", ";
      assert (", " + rest)[2..] == rest;
      SplitJoin(parts[1..], "");
      assert "" + parts[1] == parts[1];
      assert [parts[1]] + parts[1..][1..] == parts[1..];
    }
  }

  /** The column list of a select statement over `table`, if `text` is one. */
  function ParseSelectColumns(text: string, table: string): Option<seq<string>> {
    var pre := "SELECT ";
    var suf := " FROM " + table;
    if |text| >= |pre| + |suf| && text[..|pre|] == pre && text[|text| - |suf|..] == suf
    then Some(SplitList(text[|pre|..|text| - |suf|], ""))
    else None
  }

  /**
   * A select statement determines its column list: reading it back yields
   * the builder's columns, provided there is at least one and none holds a
   * comma.
   */
  lemma SelectColumnsRoundTrip(b: Builder)
    requires b.queryType == Select
    requires |b.columns| > 0
    requires forall i :: 0 <= i < |b.columns| ==> ',' !in b.columns[i]
    ensures ParseSelectColumns(Build(b), b.table) == Some(b.columns)
  {
    var text := Build(b);
    var j := Join(b.columns, ", ");
    var suf := " FROM " + b.table;
    assert text == "SELECT " + j + suf;
    assert text[..7] == "SELECT ";
    assert text[|text| - |suf|..] == suf;
    assert text[7..|text| - |suf|] == j;
    SplitJoin(b.columns, "");
    assert "" + b.columns[0] == b.columns[0];
    assert [b.columns[0]] + b.columns[1..] == b.columns;
  }
}
