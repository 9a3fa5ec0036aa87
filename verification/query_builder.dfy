/**
 * The listing-query builder `get_beverages`: it joins a tuple of column names,
 * appends a join keyword and an optional raw WHERE fragment, and always orders
 * by beverage name. Two variants exist: the accumulate-then-rstrip loop of
 * utils/beverage.py (copied verbatim in app/app.py) and the
 * first-column-then-", "-column loop of app/main.py.
 */
module QueryBuilder {
  import opened Common
  import Messages

  /** The characters `rstrip(", ")` removes. */
  const StripChars: set<char> := {',', ' '}

  /** The default arguments of `get_beverages`. */
  const DefaultColumns: seq<string> := ["beverageId", "beverageName"]
  const DefaultJoin: string := "LEFT JOIN"
  const DefaultWhere: string := ""

  /** The fixed text that closes every listing query. */
  const OrderClause: string := " ORDER BY beverageName ASC"

  /** A column text ends in a character that `rstrip(", ")` would not remove. */
  predicate EndsClean(s: string)
  {
    |s| != 0 && s[|s| - 1] !in StripChars
  }

  /** What the accumulation loop builds: each column followed by ", ". */
  function Accumulated(columns: seq<string>): string
  {
    if columns == [] then ""
    else Accumulated(columns[..|columns| - 1]) + columns[|columns| - 1] + ", "
  }

  /** Python's `s.rstrip(", ")`: the longest prefix that does not end in ',' or ' '. */
  function RStrip(s: string): (r: string)
    ensures r <= s
    ensures |r| == 0 || r[|r| - 1] !in StripChars
    ensures forall i :: |r| <= i < |s| ==> s[i] in StripChars
  {
    if |s| != 0 && s[|s| - 1] in StripChars then RStrip(s[..|s| - 1]) else s
  }

  /** The column text of utils/beverage.py: accumulate, then right-strip. */
  function ColumnText(columns: seq<string>): (r: string)
    ensures |r| == 0 || r[|r| - 1] !in StripChars
  {
    RStrip(Accumulated(columns))
  }

  /**
   * The columns joined by ", " in caller order, duplicates kept; this is
   * also what the loop of app/main.py builds.
   */
  function Joined(columns: seq<string>): string
    requires columns != []
  {
    if |columns| == 1 then columns[0]
    else Joined(columns[..|columns| - 1]) + ", " + columns[|columns| - 1]
  }

  /** The WHERE part: present exactly when the fragment is non-empty, verbatim. */
  function WhereClause(where: string): string
  {
    if where != "" then " WHERE " + where else ""
  }

  /** Everything of the query before the WHERE part, given the column text. */
  function Head(columnText: string, join: string): string
  {
    "SELECT " + columnText + " FROM beverages " + join + " locations ON beverageLocationId=locationId"
  }

  /** The query text, given the column text (shared by both variants). */
  function Assemble(columnText: string, join: string, where: string): string
  {
    Head(columnText, join) + WhereClause(where) + OrderClause
  }

  /** The query utils/beverage.py and app/app.py send. */
  function Query(columns: seq<string>, join: string, where: string): string
  {
    Assemble(ColumnText(columns), join, where)
  }

  /** The query app/main.py sends; it has none when no column is given. */
  function LegacyQuery(columns: seq<string>, join: string, where: string): Option<string>
  {
    if columns == [] then None else Some(Assemble(Joined(columns), join, where))
  }

  /**
   * The query-building part of `get_beverages` in utils/beverage.py and
   * app/app.py, with its accumulation loop and right-strip.
   */
  method BuildQuery(columns: seq<string>, join: string, where: string) returns (sql: string)
    ensures sql == Query(columns, join, where)
  {
    var sqlRows := "";
    for i := 0 to |columns|
      invariant sqlRows == Accumulated(columns[..i])
    {
      assert columns[..i + 1][..i] == columns[..i];
      sqlRows := sqlRows + columns[i] + ", ";
    }
    assert columns[..|columns|] == columns;
    sqlRows := RStrip(sqlRows);
    var sqlWhere := "";
    if where != "" {
      sqlWhere := " WHERE " + where;
    }
    sql := "SELECT " + sqlRows + " FROM beverages " + join
      + " locations ON beverageLocationId=locationId" + sqlWhere + " ORDER BY beverageName ASC";
  }

  /**
   * The query-building part of `get_beverages` in app/main.py. Its loop reads
   * `sqlRows` before the first assignment, catches the resulting error and
   * starts from the first column; with no column at all the variable is still
   * unbound when the query is formatted (None here), so no query exists.
   */
  method BuildLegacyQuery(columns: seq<string>, join: string, where: string) returns (sql: Option<string>)
    ensures sql == LegacyQuery(columns, join, where)
  {
    var sqlRows: Option<string> := None;
    for i := 0 to |columns|
      invariant i == 0 ==> sqlRows == None
      invariant i != 0 ==> sqlRows == Some(Joined(columns[..i]))
    {
      assert columns[..i + 1][..i] == columns[..i];
      match sqlRows
      case None => sqlRows := Some(columns[i]);
      case Some(s) => sqlRows := Some(s + ", " + columns[i]);
    }
    assert columns[..|columns|] == columns;
    var sqlWhere := if where != "" then " WHERE " + where else "";
    match sqlRows
    case None => sql := None;
    case Some(s) =>
      sql := Some("SELECT " + s + " FROM beverages " + join
        + " locations ON beverageLocationId=locationId" + sqlWhere + " ORDER BY beverageName ASC");
  }

  lemma {:induction false} AccumulatedIsJoined(columns: seq<string>)
    requires columns != []
    ensures Accumulated(columns) == Joined(columns) + ", "
    decreases |columns|
  {
    if |columns| > 1 {
      AccumulatedIsJoined(columns[..|columns| - 1]);
    } else {
      assert columns[..0] == [];
    }
  }

  /** Right-stripping a clean text followed by ", " gives the text back. */
  lemma RStripSeparator(s: string)
    requires |s| == 0 || EndsClean(s)
    ensures RStrip(s + ", ") == s
  {
    var t := s + ", ";
    assert t[..|t| - 1] == s + ",";
    assert (s + ",")[..|s|] == s;
  }

  /**
   * The rstrip variant builds the columns joined by ", " (in order, duplicates
   * kept) whenever the last column ends in neither ',' nor ' '.
   */
  lemma ColumnTextIsJoined(columns: seq<string>)
    requires columns != [] && EndsClean(columns[|columns| - 1])
    ensures ColumnText(columns) == Joined(columns)
  {
    AccumulatedIsJoined(columns);
    assert Accumulated(columns) == Joined(columns) + ", ";
    var joined, last := Joined(columns), columns[|columns| - 1];
    if |columns| > 1 {
      assert joined == Joined(columns[..|columns| - 1]) + ", " + last;
    }
    assert joined[|joined| - 1] == last[|last| - 1];
    RStripSeparator(joined);
  }

  /** With no column the rstrip variant's column text is empty. */
  lemma ColumnTextEmpty()
    ensures ColumnText([]) == ""
  {
  }

  /**
   * The two variants send the same query whenever the main.py variant has
   * one and the last column ends cleanly.
   */
  lemma VariantsAgree(columns: seq<string>, join: string, where: string)
    requires columns != [] && EndsClean(columns[|columns| - 1])
    ensures LegacyQuery(columns, join, where) == Some(Query(columns, join, where))
  {
    ColumnTextIsJoined(columns);
  }

  /**
   * With every default argument the query selects "beverageId, beverageName",
   * uses a LEFT JOIN and has no WHERE clause.
   */
  lemma DefaultQueryText()
    ensures Query(DefaultColumns, DefaultJoin, DefaultWhere)
      == Head("beverageId, beverageName", "LEFT JOIN") + OrderClause
  {
    ColumnTextIsJoined(DefaultColumns);
    assert DefaultColumns[..1] == ["beverageId"];
  }

  /**
   * Recovers the WHERE fragment from a query built with the given columns and
   * join: the inverse of the builder in its last argument.
   */
  function ParseWhere(sql: string, columns: seq<string>, join: string): Option<string>
  {
    var head := Head(ColumnText(columns), join);
    if |sql| < |head| + |OrderClause| || sql[..|head|] != head || sql[|sql| - |OrderClause|..] != OrderClause then None
    else
      var middle := sql[|head|..|sql| - |OrderClause|];
      if middle == "" then Some("")
      else if |middle| > 7 && middle[..7] == " WHERE " then Some(middle[7..])
      else None
  }

  /**
   * The fragment is carried verbatim: a query has a WHERE clause exactly
   * when the fragment is non-empty, and the clause is " WHERE " followed by
   * the fragment, so the fragment can be read back from the query.
   */
  lemma WhereRoundTrip(columns: seq<string>, join: string, where: string)
    ensures ParseWhere(Query(columns, join, where), columns, join) == Some(where)
  {
    var head := Head(ColumnText(columns), join);
    var sql := Query(columns, join, where);
    assert sql == head + WhereClause(where) + OrderClause;
    assert sql[..|head|] == head;
    assert sql[|sql| - |OrderClause|..] == OrderClause;
    assert sql[|head|..|sql| - |OrderClause|] == WhereClause(where);
    if where != "" {
      assert (" WHERE " + where)[..7] == " WHERE ";
      assert (" WHERE " + where)[7..] == where;
    }
  }

  /** A query has no WHERE clause exactly when the fragment is empty. */
  lemma WhereAbsentIff(columns: seq<string>, join: string, where: string)
    ensures Query(columns, join, where) == Head(ColumnText(columns), join) + OrderClause <==> where == ""
  {
    var head := Head(ColumnText(columns), join);
    if where != "" {
      assert |Query(columns, join, where)| > |head + OrderClause|;
    }
  }

  /** How a query run ends: sqlite3 returns its rows or raises. */
  datatype Execution<R> = Executed(rows: seq<R>) | Failed(fault: Fault)

  /**
   * What `get_beverages` gives its caller: the rows, `False` (app/main.py),
   * or no value at all, because utils/ and app/app.py return a variable that
   * the failing `try` never bound, which raises.
   */
  datatype Fetch<R> = Returned(rows: seq<R>) | ReturnedFalse | Raised

  datatype FetchOutcome<R> = FetchOutcome(flashes: seq<Flash>, result: Fetch<R>)

  /** The tail of `get_beverages`, after the query has run. */
  function FetchResult<R>(layout: Layout, exec: Execution<R>): (o: FetchOutcome<R>)
    ensures o.result.Returned? <==> exec.Executed?
    ensures o.result.Returned? ==> o.result.rows == exec.rows && o.flashes == []
    ensures o.result.ReturnedFalse? <==> exec.Failed? && layout == Legacy
    ensures exec.Failed? ==> |o.flashes| == 1 && o.flashes[0].category == Error
  {
    match exec
    case Executed(rows) => FetchOutcome([], Returned(rows))
    case Failed(fault) =>
      if layout == Legacy then
        FetchOutcome([Flash("An error occurred when fetching the beverages.", Error)], ReturnedFalse)
      else
        FetchOutcome([Flash(Messages.SaveFailure(fault), Error)], Raised)
  }
}
