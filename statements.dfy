/**
 * The SQL text the MySQL wrapper builds: the optional clauses of the `Table` builders,
 * the statement `Database.query` assembles from its checked arguments, the `LIMIT`
 * rewrite of `Database.sql_query`, and the DDL statements of `Database`.
 */
module Statements {
  import opened Wrappers
  import opened PyText
  import opened Values

  // ----- Optional clauses of the Table builders (pyFramework.py:125-184) -----

  /** `keyword + arg if arg else ''`: a clause, or nothing when the argument is `None` or empty. */
  function TextClause(keyword: string, arg: Option<string>): (r: string)
    requires keyword != ""
    ensures r == "" <==> arg.None? || arg.value == ""
    ensures r != "" ==> r == keyword + arg.value
  {
    if arg.Some? && arg.value != "" then keyword + arg.value else ""
  }

  function WhereClause(where: Option<string>): string
  {
    TextClause("WHERE ", where)
  }

  function GroupByClause(groupby: Option<string>): string
  {
    TextClause("GROUP BY ", groupby)
  }

  function OrderByClause(orderby: Option<string>): string
  {
    TextClause("ORDER BY ", orderby)
  }

  /** `'LIMIT ' + str(limit) if limit else ''`: `None` and `0` give nothing. */
  function LimitClause(limit: Option<int>): (r: string)
    ensures r == "" <==> limit.None? || limit.value == 0
  {
    if limit.Some? && limit.value != 0 then "LIMIT " + IntToString(limit.value) else ""
  }

  /** What `Table.select` passes as `extra`: the four clauses joined by single spaces. */
  function SelectExtra(where: Option<string>, limit: Option<int>, groupby: Option<string>,
                       orderby: Option<string>): string
  {
    Join([WhereClause(where), LimitClause(limit), OrderByClause(orderby), GroupByClause(groupby)], " ")
  }

  /**
   * The clauses of `select` come in the order WHERE, LIMIT, ORDER BY, GROUP BY, each
   * separated by exactly one space whether it is present or not.
   */
  lemma SelectExtraLayout(where: Option<string>, limit: Option<int>, groupby: Option<string>,
                          orderby: Option<string>)
    ensures SelectExtra(where, limit, groupby, orderby)
         == WhereClause(where) + " " + LimitClause(limit) + " " + OrderByClause(orderby) + " " + GroupByClause(groupby)
  {
    var parts := [WhereClause(where), LimitClause(limit), OrderByClause(orderby), GroupByClause(groupby)];
    assert parts[..3] == [WhereClause(where), LimitClause(limit), OrderByClause(orderby)];
    assert parts[..3][..2] == [WhereClause(where), LimitClause(limit)];
    assert parts[..3][..2][..1] == [WhereClause(where)];
    assert Join(parts[..3][..2], " ") == WhereClause(where) + " " + LimitClause(limit);
    assert Join(parts[..3], " ") == WhereClause(where) + " " + LimitClause(limit) + " " + OrderByClause(orderby);
  }

  /** With every clause absent `select` still passes three spaces, which are not trimmed. */
  lemma SelectExtraWithoutClauses()
    ensures SelectExtra(None, None, None, None) == "   "
  {
    SelectExtraLayout(None, None, None, None);
  }

  // ----- Database.query (pyFramework.py:446-512) -----

  const Methods: set<string> := {"distinct", "select", "insert", "delete", "update", "count"}

  predicate AllText(items: seq<Arg>)
  {
    forall i :: 0 <= i < |items| ==> items[i].StrArg?
  }

  /** Whether every key of a dict is a `str`, as `k + ','` and `f + '=\''` need. */
  predicate KeysAreText(entries: seq<(Arg, Arg)>)
  {
    forall i :: 0 <= i < |entries| ==> entries[i].0.StrArg?
  }

  /**
   * `MySQLdb.escape_string(v).decode()` for a `str` or `bytes` value: the escaped text, or
   * `None` when decoding the escaped bytes raises (a `UnicodeDecodeError` is a `ValueError`).
   */
  type Escaper = Arg -> Option<string>

  /** `escape_string(v).decode()`: `escape_string` takes only `str` and `bytes`, and raises `TypeError` otherwise. */
  function Escaped(v: Arg, esc: Escaper): (r: Result<string, DbError>)
    ensures r.Success? <==> (v.StrArg? || v.BytesArg?) && esc(v).Some?
    ensures r.Success? ==> r.value == esc(v).value
    ensures r.Failure? ==> r.error == (if v.StrArg? || v.BytesArg? then ValueError else TypeError)
  {
    if !v.StrArg? && !v.BytesArg? then Failure(TypeError)
    else if esc(v).None? then Failure(ValueError)
    else Success(esc(v).value)
  }

  /** Whether `fields` has the shape `query` demands of the (lower-cased) verb. */
  predicate FieldsFit(m: string, fields: Arg)
  {
    if m == "count" || m == "delete" then true
    else if m == "insert" || m == "update" then fields.DictArg?
    else if fields.ListArg? then AllText(fields.items)
    else fields == StrArg("all")
  }

  /** The checks `query` makes before it builds anything, in the order it makes them. */
  function CheckQuery(verb: Arg, tbl: Arg, fields: Arg, extra: Arg): (r: Option<DbError>)
    ensures r.None? <==> && verb.StrArg? && Lower(verb.s) in Methods && tbl.StrArg?
                         && FieldsFit(Lower(verb.s), fields)
                         && (extra.NoneArg? || (extra.StrArg? && ';' !in extra.s))
  {
    if !verb.StrArg? then Some(TypeError)
    else if Lower(verb.s) !in Methods then Some(ValueError)
    else if !tbl.StrArg? then Some(TypeError)
    else if !FieldsFit(Lower(verb.s), fields) then Some(TypeError)
    else if !extra.NoneArg? && !extra.StrArg? then Some(TypeError)
    else if extra.StrArg? && ';' in extra.s then Some(InvalidCommand)
    else None
  }

  /** The strings of a list of `str` arguments. */
  function Texts(items: seq<Arg>): (r: seq<string>)
    requires AllText(items)
    ensures |r| == |items|
  {
    if |items| == 0 then [] else Texts(items[..|items| - 1]) + [items[|items| - 1].s]
  }

  /** The keys of a dict whose keys are all `str`, in insertion order. */
  function DictKeys(entries: seq<(Arg, Arg)>): (r: seq<string>)
    requires KeysAreText(entries)
    ensures |r| == |entries|
  {
    if |entries| == 0 then [] else DictKeys(entries[..|entries| - 1]) + [entries[|entries| - 1].0.s]
  }

  /**
   * `'\'' + escape_string(v).decode() + '\''` for each value, in insertion order, or the
   * exception of the first value that cannot be escaped.
   */
  function QuotedValues(entries: seq<(Arg, Arg)>, esc: Escaper): (r: Result<seq<string>, DbError>)
    ensures r.Success? <==> forall i :: 0 <= i < |entries| ==> Escaped(entries[i].1, esc).Success?
    ensures r.Success? ==> |r.value| == |entries|
  {
    if |entries| == 0 then Success([])
    else
      var init := entries[..|entries| - 1];
      assert forall i :: 0 <= i < |init| ==> init[i] == entries[i];
      var quoted :- QuotedValues(init, esc);
      var v :- Escaped(entries[|entries| - 1].1, esc);
      Success(quoted + ["'" + v + "'"])
  }

  /**
   * `f + '=\'' + escape_string(v).decode() + '\''` for each pair, in insertion order, or the
   * exception of the first pair that fails: a non-`str` key before its value is escaped.
   */
  function Assignments(entries: seq<(Arg, Arg)>, esc: Escaper): (r: Result<seq<string>, DbError>)
    ensures r.Success? <==> forall i :: 0 <= i < |entries| ==> entries[i].0.StrArg? && Escaped(entries[i].1, esc).Success?
    ensures r.Success? ==> |r.value| == |entries|
  {
    if |entries| == 0 then Success([])
    else
      var init := entries[..|entries| - 1];
      assert forall i :: 0 <= i < |init| ==> init[i] == entries[i];
      var sets :- Assignments(init, esc);
      var e := entries[|entries| - 1];
      if !e.0.StrArg? then Failure(TypeError)
      else
        var v :- Escaped(e.1, esc);
        Success(sets + [e.0.s + "='" + v + "'"])
  }

  /** The select list after `keyword`: `*` for `'all'`, else the names joined by commas. */
  function SelectList(keyword: string, fields: Arg): string
    requires fields == StrArg("all") || (fields.ListArg? && AllText(fields.items))
  {
    if fields == StrArg("all") then keyword + "*" else ListAfter(keyword, Texts(fields.items), ",")
  }

  /**
   * The statement before the `extra` text and the `;`. An insert lists every key before it
   * escapes any value, so a non-`str` key raises `TypeError` first; an update raises at the
   * first pair that fails.
   */
  function StatementBody(m: string, tbl: string, fields: Arg, esc: Escaper): Result<string, DbError>
    requires m in Methods && FieldsFit(m, fields)
  {
    if m == "select" then Success(SelectList("SELECT ", fields) + " FROM " + tbl)
    else if m == "distinct" then Success(SelectList("SELECT DISTINCT ", fields) + " FROM " + tbl)
    else if m == "count" then Success("SELECT COUNT(*) FROM " + tbl)
    else if m == "delete" then Success("DELETE  FROM " + tbl)
    else if m == "insert" then
      if !KeysAreText(fields.entries) then Failure(TypeError)
      else
        var columns := ListAfter("INSERT INTO " + tbl + "(", DictKeys(fields.entries), ",") + ")";
        var values :- QuotedValues(fields.entries, esc);
        Success(ListAfter(columns + " VALUES(", values, ",") + ")")
    else
      var sets :- Assignments(fields.entries, esc);
      Success(ListAfter("UPDATE " + tbl + " SET ", sets, ","))
  }

  /** `' ' + extra` when `extra` is a non-empty string. */
  function ExtraSuffix(extra: Arg): string
  {
    if extra.StrArg? && extra.s != "" then " " + extra.s else ""
  }

  /** The statement `query` hands to `sql_query`, or the exception it raises first. */
  function QueryText(verb: Arg, tbl: Arg, fields: Arg, extra: Arg, esc: Escaper): (r: Result<string, DbError>)
    ensures CheckQuery(verb, tbl, fields, extra).Some? ==> r == Failure(CheckQuery(verb, tbl, fields, extra).value)
    ensures r.Success? ==> |r.value| > 0 && r.value[|r.value| - 1] == ';'
  {
    match CheckQuery(verb, tbl, fields, extra)
    case Some(e) => Failure(e)
    case None =>
      var body :- StatementBody(Lower(verb.s), tbl.s, fields, esc);
      Success(body + ExtraSuffix(extra) + ";")
  }

  /**
   * `query`'s checks and its string building, step by step as the code does them; it
   * produces exactly the statement (or the exception) `QueryText` describes.
   */
  method BuildQuery(verb: Arg, tbl: Arg, fields: Arg, extra: Arg, esc: Escaper)
    returns (r: Result<string, DbError>)
    ensures r == QueryText(verb, tbl, fields, extra, esc)
  {
    if !verb.StrArg? {
      return Failure(TypeError);
    }
    var m := Lower(verb.s);
    if m !in Methods {
      return Failure(ValueError);
    }
    if !tbl.StrArg? {
      return Failure(TypeError);
    }
    var fit := CheckFields(m, fields);
    if !fit {
      return Failure(TypeError);
    }
    if !extra.NoneArg? {
      if !extra.StrArg? {
        return Failure(TypeError);
      }
      if ';' in extra.s {
        return Failure(InvalidCommand);
      }
    }
    assert CheckQuery(verb, tbl, fields, extra).None?;
    var body :- BuildBody(m, tbl.s, fields, esc);
    var sql := body;
    if extra.StrArg? && extra.s != "" {
      sql := sql + " " + extra.s;
    }
    sql := sql + ";";
    assert sql == body + ExtraSuffix(extra) + ";";
    r := Success(sql);
  }

  /** `query`'s check of `fields` against the verb. */
  method CheckFields(m: string, fields: Arg) returns (fit: bool)
    ensures fit == FieldsFit(m, fields)
  {
    if m == "count" || m == "delete" {
      return true;
    }
    if m == "insert" || m == "update" {
      return fields.DictArg?;
    }
    if fields.ListArg? {
      var i := 0;
      while i < |fields.items|
        invariant 0 <= i <= |fields.items|
        invariant AllText(fields.items[..i])
      {
        if !fields.items[i].StrArg? {
          return false;
        }
        i := i + 1;
      }
      assert fields.items[..i] == fields.items;
      return true;
    }
    return fields == StrArg("all");
  }

  /** The statement `query` builds from arguments that passed its checks. */
  method BuildBody(m: string, tbl: string, fields: Arg, esc: Escaper)
    returns (r: Result<string, DbError>)
    requires m in Methods && FieldsFit(m, fields)
    ensures r == StatementBody(m, tbl, fields, esc)
  {
    UpperVerbs(m);
    var sql := Upper(m) + " ";
    if m == "select" || m == "count" || m == "distinct" || m == "delete" {
      var body := BuildRead(m, sql, tbl, fields, esc);
      r := Success(body);
    } else if m == "insert" {
      r := BuildInsert(sql, tbl, fields.entries, esc);
    } else {
      r := BuildUpdate(sql, tbl, fields.entries, esc);
    }
  }

  /** The `select`, `distinct`, `count` and `delete` branches of `query`, after `sql = method.upper() + ' '`. */
  method BuildRead(m: string, start: string, tbl: string, fields: Arg, ghost esc: Escaper) returns (sql: string)
    requires m == "select" || m == "count" || m == "distinct" || m == "delete"
    requires FieldsFit(m, fields) && (m != "distinct" ==> start == Upper(m) + " ")
    requires m == "select" ==> Upper(m) == "SELECT"
    requires m == "delete" ==> Upper(m) == "DELETE"
    ensures Success(sql) == StatementBody(m, tbl, fields, esc)
  {
    sql := start;
    if m == "select" || m == "distinct" {
      if m == "distinct" {
        sql := "SELECT DISTINCT ";
      } else {
        assert sql == "SELECT ";
      }
      if fields == StrArg("all") {
        sql := sql + "*";
      } else {
        sql := AppendEach(sql, Texts(fields.items));
      }
    } else if m == "count" {
      sql := "SELECT COUNT(*)";
    }
    sql := sql + " FROM " + tbl;
    assert m == "count" ==> sql == "SELECT COUNT(*) FROM " + tbl;
    assert m == "delete" ==> sql == "DELETE  FROM " + tbl;
  }

  /** The `insert` branch of `query`, after `sql = 'INSERT '`. */
  method BuildInsert(start: string, tbl: string, entries: seq<(Arg, Arg)>, esc: Escaper)
    returns (r: Result<string, DbError>)
    requires start == "INSERT "
    ensures r == StatementBody("insert", tbl, DictArg(entries), esc)
  {
    assert start + "INTO " + tbl + "(" == "INSERT INTO " + tbl + "(";
    var sql :- KeyEach(start + "INTO " + tbl + "(", entries);
    sql := sql + ")";
    sql := sql + " VALUES(";
    var values :- QuoteEach(sql, entries, esc);
    r := Success(values + ")");
  }

  /** The keys loop of the `insert` branch: `sql += i + ','` for each key, then the trim. */
  method KeyEach(prefix: string, entries: seq<(Arg, Arg)>) returns (r: Result<string, DbError>)
    ensures !KeysAreText(entries) ==> r == Failure(TypeError)
    ensures KeysAreText(entries) ==> r == Success(ListAfter(prefix, DictKeys(entries), ","))
  {
    var sql := prefix;
    var i := 0;
    while i < |entries|
      invariant 0 <= i <= |entries|
      invariant KeysAreText(entries[..i])
      invariant sql == prefix + Terminated(DictKeys(entries[..i]), ",")
    {
      if !entries[i].0.StrArg? {
        assert !KeysAreText(entries);
        return Failure(TypeError);
      }
      KeyStep(prefix, entries, i);
      sql := sql + entries[i].0.s + ",";
      i := i + 1;
    }
    assert entries[..i] == entries;
    TrimmedListAfter(prefix, DictKeys(entries), ",");
    r := Success(DropLast(sql));
  }

  /** One turn of the key loop: the text grows by the next key and a comma. */
  lemma KeyStep(prefix: string, entries: seq<(Arg, Arg)>, i: int)
    requires 0 <= i < |entries| && KeysAreText(entries[..i]) && entries[i].0.StrArg?
    ensures KeysAreText(entries[..i + 1])
    ensures prefix + Terminated(DictKeys(entries[..i]), ",") + entries[i].0.s + ","
         == prefix + Terminated(DictKeys(entries[..i + 1]), ",")
  {
    KeysSnoc(entries, i);
    TerminatedSnoc(DictKeys(entries[..i]), entries[i].0.s, ",");
  }

  /** One more `str` key adds one more column name. */
  lemma KeysSnoc(entries: seq<(Arg, Arg)>, i: int)
    requires 0 <= i < |entries| && KeysAreText(entries[..i]) && entries[i].0.StrArg?
    ensures KeysAreText(entries[..i + 1])
    ensures DictKeys(entries[..i + 1]) == DictKeys(entries[..i]) + [entries[i].0.s]
  {
    assert entries[..i + 1][..i] == entries[..i];
  }

  /**
   * The values loop of the `insert` branch: `sql += '\'' + escape_string(i).decode() + '\','`
   * for each value, then the trim.
   */
  method QuoteEach(prefix: string, entries: seq<(Arg, Arg)>, esc: Escaper)
    returns (r: Result<string, DbError>)
    ensures QuotedValues(entries, esc).Failure? ==> r == Failure(QuotedValues(entries, esc).error)
    ensures QuotedValues(entries, esc).Success? ==> r == Success(ListAfter(prefix, QuotedValues(entries, esc).value, ","))
  {
    var sql := prefix;
    var i := 0;
    ghost var quoted: seq<string> := [];
    while i < |entries|
      invariant 0 <= i <= |entries|
      invariant QuotedValues(entries[..i], esc) == Success(quoted)
      invariant sql == prefix + Terminated(quoted, ",")
    {
      var v := Escaped(entries[i].1, esc);
      if v.Failure? {
        QuoteStop(entries, i, esc);
        return Failure(v.error);
      }
      var item := "'" + v.value + "'";
      QuoteStep(prefix, entries, i, esc, quoted);
      sql := sql + item + ",";
      quoted := quoted + [item];
      i := i + 1;
    }
    assert entries[..i] == entries;
    TrimmedListAfter(prefix, quoted, ",");
    r := Success(DropLast(sql));
  }

  /** The `update` branch of `query`, after `sql = 'UPDATE '`. */
  method BuildUpdate(start: string, tbl: string, entries: seq<(Arg, Arg)>, esc: Escaper)
    returns (r: Result<string, DbError>)
    requires start == "UPDATE "
    ensures r == StatementBody("update", tbl, DictArg(entries), esc)
  {
    var sql := start + tbl + " SET ";
    assert sql == "UPDATE " + tbl + " SET ";
    r := AssignEach(sql, entries, esc);
  }

  /**
   * The loop of the `update` branch: `sql += f + '=\'' + escape_string(v).decode() + '\','`
   * for each pair, then the trim.
   */
  method AssignEach(prefix: string, entries: seq<(Arg, Arg)>, esc: Escaper)
    returns (r: Result<string, DbError>)
    ensures Assignments(entries, esc).Failure? ==> r == Failure(Assignments(entries, esc).error)
    ensures Assignments(entries, esc).Success? ==> r == Success(ListAfter(prefix, Assignments(entries, esc).value, ","))
  {
    var sql := prefix;
    var i := 0;
    ghost var sets: seq<string> := [];
    while i < |entries|
      invariant 0 <= i <= |entries|
      invariant Assignments(entries[..i], esc) == Success(sets)
      invariant sql == prefix + Terminated(sets, ",")
    {
      AssignmentSnoc(entries, i, esc);
      if !entries[i].0.StrArg? {
        AssignmentsFailOn(entries, i, esc);
        return Failure(TypeError);
      }
      var v := Escaped(entries[i].1, esc);
      if v.Failure? {
        AssignmentsFailOn(entries, i, esc);
        return Failure(v.error);
      }
      var item := entries[i].0.s + "='" + v.value + "'";
      TerminatedSnoc(sets, item, ",");
      sql := sql + item + ",";
      sets := sets + [item];
      i := i + 1;
    }
    assert entries[..i] == entries;
    TrimmedListAfter(prefix, sets, ",");
    r := Success(DropLast(sql));
  }

  /** One more dict value either adds one more quoted value or is the one that raises. */
  lemma ValueSnoc(entries: seq<(Arg, Arg)>, i: int, esc: Escaper)
    requires 0 <= i < |entries| && QuotedValues(entries[..i], esc).Success?
    ensures var v := Escaped(entries[i].1, esc);
      QuotedValues(entries[..i + 1], esc)
        == if v.Failure? then Failure(v.error) else Success(QuotedValues(entries[..i], esc).value + ["'" + v.value + "'"])
  {
    assert entries[..i + 1][..i] == entries[..i];
  }

  /** The loop of `QuoteEach` stops at a value that cannot be escaped, with its exception. */
  lemma QuoteStop(entries: seq<(Arg, Arg)>, i: int, esc: Escaper)
    requires 0 <= i < |entries| && QuotedValues(entries[..i], esc).Success?
    requires Escaped(entries[i].1, esc).Failure?
    ensures QuotedValues(entries, esc) == Failure(Escaped(entries[i].1, esc).error)
  {
    ValueSnoc(entries, i, esc);
    QuotedFailsOn(entries, i, esc);
  }

  /** One more escaped value extends both the quoted list and the statement text. */
  lemma QuoteStep(prefix: string, entries: seq<(Arg, Arg)>, i: int, esc: Escaper, quoted: seq<string>)
    requires 0 <= i < |entries| && QuotedValues(entries[..i], esc) == Success(quoted)
    requires Escaped(entries[i].1, esc).Success?
    ensures var item := "'" + Escaped(entries[i].1, esc).value + "'";
      QuotedValues(entries[..i + 1], esc) == Success(quoted + [item])
      && prefix + Terminated(quoted, ",") + item + "," == prefix + Terminated(quoted + [item], ",")
  {
    ValueSnoc(entries, i, esc);
    TerminatedSnoc(quoted, "'" + Escaped(entries[i].1, esc).value + "'", ",");
  }

  /** One more dict pair either adds one more assignment or is the one that raises. */
  lemma AssignmentSnoc(entries: seq<(Arg, Arg)>, i: int, esc: Escaper)
    requires 0 <= i < |entries| && Assignments(entries[..i], esc).Success?
    ensures var e := entries[i];
      var v := Escaped(e.1, esc);
      Assignments(entries[..i + 1], esc)
        == if !e.0.StrArg? then Failure(TypeError)
           else if v.Failure? then Failure(v.error)
           else Success(Assignments(entries[..i], esc).value + [e.0.s + "='" + v.value + "'"])
  {
    assert entries[..i + 1][..i] == entries[..i];
  }

  /** Once the prefix up to `i` raises, so does the whole dict, with the same exception. */
  lemma {:induction false} QuotedFailsOn(entries: seq<(Arg, Arg)>, i: int, esc: Escaper)
    requires 0 <= i < |entries| && QuotedValues(entries[..i + 1], esc).Failure?
    ensures QuotedValues(entries, esc) == Failure(QuotedValues(entries[..i + 1], esc).error)
    decreases |entries|
  {
    if i + 1 < |entries| {
      var init := entries[..|entries| - 1];
      assert init[..i + 1] == entries[..i + 1];
      QuotedFailsOn(init, i, esc);
    } else {
      assert entries[..i + 1] == entries;
    }
  }

  /** Once the prefix up to `i` raises, so does the whole dict, with the same exception. */
  lemma {:induction false} AssignmentsFailOn(entries: seq<(Arg, Arg)>, i: int, esc: Escaper)
    requires 0 <= i < |entries| && Assignments(entries[..i + 1], esc).Failure?
    ensures Assignments(entries, esc) == Failure(Assignments(entries[..i + 1], esc).error)
    decreases |entries|
  {
    if i + 1 < |entries| {
      var init := entries[..|entries| - 1];
      assert init[..i + 1] == entries[..i + 1];
      AssignmentsFailOn(init, i, esc);
    } else {
      assert entries[..i + 1] == entries;
    }
  }

  /** `method.upper()` for the verbs whose upper-cased name starts the statement. */
  lemma UpperVerbs(m: string)
    ensures m == "select" ==> Upper(m) == "SELECT"
    ensures m == "delete" ==> Upper(m) == "DELETE"
    ensures m == "insert" ==> Upper(m) == "INSERT"
    ensures m == "update" ==> Upper(m) == "UPDATE"
  {
    if m == "select" {
      UpperLetters(m, "SELECT");
    } else if m == "delete" {
      UpperLetters(m, "DELETE");
    } else if m == "insert" {
      UpperLetters(m, "INSERT");
    } else if m == "update" {
      UpperLetters(m, "UPDATE");
    }
  }

  /** `for i in items: out += i + ','` followed by `out = out[:-1]`. */
  method AppendEach(prefix: string, items: seq<string>) returns (out: string)
    ensures out == ListAfter(prefix, items, ",")
  {
    out := prefix;
    var i := 0;
    while i < |items|
      invariant 0 <= i <= |items|
      invariant out == prefix + Terminated(items[..i], ",")
    {
      TerminatedSnoc(items[..i], items[i], ",");
      out := out + items[i] + ",";
      assert items[..i + 1] == items[..i] + [items[i]];
      i := i + 1;
    }
    assert items[..i] == items;
    TrimmedListAfter(prefix, items, ",");
    out := DropLast(out);
  }

  // ----- Properties of the statement query builds -----

  /**
   * `query` fails exactly when one of its checks fails, or when an insert or update carries
   * a key that is not a `str` or a value `escape_string(v).decode()` cannot take.
   */
  lemma QueryFailsIff(verb: Arg, tbl: Arg, fields: Arg, extra: Arg, esc: Escaper)
    ensures QueryText(verb, tbl, fields, extra, esc).Failure?
        <==> CheckQuery(verb, tbl, fields, extra).Some?
             || ((Lower(verb.s) == "insert" || Lower(verb.s) == "update") &&
                 exists i :: 0 <= i < |fields.entries| &&
                   (!fields.entries[i].0.StrArg? || Escaped(fields.entries[i].1, esc).Failure?))
  {
  }

  /**
   * A `bytes` value is escaped like a `str` one: `query('insert', 't', {'a': b'x'})` sends
   * `INSERT INTO t(a) VALUES('x');` when `escape_string(b'x').decode()` is `'x'`.
   */
  lemma BytesValueInserted(esc: Escaper)
    requires esc(BytesArg([120])) == Some("x")
    ensures QueryText(StrArg("insert"), StrArg("t"), DictArg([(StrArg("a"), BytesArg([120]))]), NoneArg, esc)
         == Success("INSERT INTO t(a) VALUES('x');")
  {
    var entries := [(StrArg("a"), BytesArg([120]))];
    LowerKeepsLowercase("insert");
    assert DictKeys(entries) == ["a"];
    assert "'" + "x" + "'" == "'x'";
    InsertListsPair(entries, esc);
    var q := QuotedValues(entries, esc).value;
    assert entries[0].1 == BytesArg([120]);
    assert q == ["'x'"];
    assert "insert" != "select" && "insert" != "distinct" && "insert" != "count" && "insert" != "delete";
    assert "INSERT INTO " + "t" + "(" == "INSERT INTO t(";
    assert ListAfter("INSERT INTO t(", ["a"], ",") + ")" == "INSERT INTO t(a)";
    assert "INSERT INTO t(a)" + " VALUES(" == "INSERT INTO t(a) VALUES(";
    assert ListAfter("INSERT INTO t(a) VALUES(", ["'x'"], ",") + ")" == "INSERT INTO t(a) VALUES('x')";
    assert StatementBody("insert", "t", DictArg(entries), esc) == Success("INSERT INTO t(a) VALUES('x')");
    assert "INSERT INTO t(a) VALUES('x')" + ExtraSuffix(NoneArg) + ";" == "INSERT INTO t(a) VALUES('x');";
  }

  /** A dict key that is not a `str` makes an insert raise `TypeError` at the keys loop, whatever the values. */
  lemma NonTextKeyRaises(tbl: string, entries: seq<(Arg, Arg)>, i: int, esc: Escaper)
    requires 0 <= i < |entries| && !entries[i].0.StrArg?
    ensures StatementBody("insert", tbl, DictArg(entries), esc) == Failure(TypeError)
    ensures StatementBody("update", tbl, DictArg(entries), esc).Failure?
  {
  }

  /** The verb is compared case-insensitively. */
  lemma VerbCaseIgnored(a: string, b: string, tbl: Arg, fields: Arg, extra: Arg, esc: Escaper)
    requires Lower(a) == Lower(b)
    ensures QueryText(StrArg(a), tbl, fields, extra, esc) == QueryText(StrArg(b), tbl, fields, extra, esc)
  {
  }

  /**
   * A successful statement is the body, then `' ' + extra` when `extra` is non-empty,
   * then a single `;`; `extra` itself never holds a `;`.
   */
  lemma QueryTerminated(verb: Arg, tbl: Arg, fields: Arg, extra: Arg, esc: Escaper)
    requires QueryText(verb, tbl, fields, extra, esc).Success?
    ensures var s := QueryText(verb, tbl, fields, extra, esc).value;
            && |s| > 0 && s[|s| - 1] == ';'
            && (extra.StrArg? ==> ';' !in extra.s)
            && s[..|s| - 1] == StatementBody(Lower(verb.s), tbl.s, fields, esc).value + ExtraSuffix(extra)
  {
  }

  /** The column names and the quoted values of an insert line up one for one, in dict order. */
  lemma {:induction false} InsertListsPair(entries: seq<(Arg, Arg)>, esc: Escaper)
    requires KeysAreText(entries) && QuotedValues(entries, esc).Success?
    ensures |DictKeys(entries)| == |QuotedValues(entries, esc).value| == |entries|
    ensures forall k :: 0 <= k < |entries| ==>
              && DictKeys(entries)[k] == entries[k].0.s
              && QuotedValues(entries, esc).value[k] == "'" + esc(entries[k].1).value + "'"
  {
    if |entries| > 0 {
      InsertListsPair(entries[..|entries| - 1], esc);
    }
  }

  /** Each assignment of an update sets one key to its own quoted value, in dict order. */
  lemma {:induction false} UpdateAssignsEachKey(entries: seq<(Arg, Arg)>, esc: Escaper)
    requires Assignments(entries, esc).Success?
    ensures |Assignments(entries, esc).value| == |entries|
    ensures forall k :: 0 <= k < |entries| ==>
              Assignments(entries, esc).value[k] == entries[k].0.s + "='" + esc(entries[k].1).value + "'"
  {
    if |entries| > 0 {
      UpdateAssignsEachKey(entries[..|entries| - 1], esc);
    }
  }

  /** The select list names the requested columns in the order given. */
  lemma {:induction false} SelectNamesInOrder(items: seq<Arg>)
    requires AllText(items)
    ensures |Texts(items)| == |items|
    ensures forall k :: 0 <= k < |items| ==> Texts(items)[k] == items[k].s
  {
    if |items| > 0 {
      SelectNamesInOrder(items[..|items| - 1]);
    }
  }

  /**
   * `Table.select` with no clauses yields a statement with four spaces before the `;`,
   * because the three separators of the empty clauses are kept.
   */
  lemma BareSelectKeepsSpaces(esc: Escaper)
    ensures QueryText(StrArg("select"), StrArg("t"), ListArg([StrArg("a")]),
                      StrArg(SelectExtra(None, None, None, None)), esc)
         == Success("SELECT a FROM t    ;")
  {
    SelectExtraWithoutClauses();
    LowerKeepsLowercase("select");
    assert CheckQuery(StrArg("select"), StrArg("t"), ListArg([StrArg("a")]), StrArg("   ")) == None;
    SelectOneBody(esc);
    assert ExtraSuffix(StrArg("   ")) == "    ";
    assert "SELECT a FROM t" + "    " + ";" == "SELECT a FROM t    ;";
  }

  lemma SelectOneBody(esc: Escaper)
    ensures StatementBody("select", "t", ListArg([StrArg("a")]), esc) == Success("SELECT a FROM t")
  {
    var fields := ListArg([StrArg("a")]);
    assert Texts([StrArg("a")]) == ["a"];
    assert ListAfter("SELECT ", ["a"], ",") == "SELECT a";
    assert SelectList("SELECT ", fields) == "SELECT a";
    assert "SELECT a" + " FROM " + "t" == "SELECT a FROM t";
  }

  /** A delete carries two spaces before `FROM`. */
  lemma DeleteSpacing(esc: Escaper)
    ensures QueryText(StrArg("DELETE"), StrArg("t"), NoneArg, NoneArg, esc) == Success("DELETE  FROM t;")
  {
    assert Lower("DELETE") == "delete";
    assert CheckQuery(StrArg("DELETE"), StrArg("t"), NoneArg, NoneArg) == None;
    assert "delete" != "select" && "delete" != "distinct" && "delete" != "count";
    assert "DELETE  FROM " + "t" == "DELETE  FROM t";
    assert StatementBody("delete", "t", NoneArg, esc) == Success("DELETE  FROM t");
    assert StatementBody(Lower("DELETE"), "t", NoneArg, esc) == Success("DELETE  FROM t");
    assert "DELETE  FROM t" + ExtraSuffix(NoneArg) + ";" == "DELETE  FROM t;";
  }

  /** An empty select list is not rejected: the trailing-comma trim eats the space after `SELECT`. */
  lemma EmptySelectList(esc: Escaper)
    ensures QueryText(StrArg("select"), StrArg("t"), ListArg([]), NoneArg, esc) == Success("SELECT FROM t;")
  {
    LowerKeepsLowercase("select");
    assert DropLast("SELECT ") == "SELECT";
    assert Texts([]) == [];
    assert SelectList("SELECT ", ListArg([])) == "SELECT";
    assert "SELECT" + " FROM " + "t" == "SELECT FROM t";
    assert StatementBody("select", "t", ListArg([]), esc) == Success("SELECT FROM t");
    assert "SELECT FROM t" + ExtraSuffix(NoneArg) + ";" == "SELECT FROM t;";
  }

  /** An empty insert dict is not rejected: the trim eats both opening brackets. */
  lemma EmptyInsertDict(esc: Escaper)
    ensures QueryText(StrArg("insert"), StrArg("t"), DictArg([]), NoneArg, esc) == Success("INSERT INTO t) VALUES);")
  {
    LowerKeepsLowercase("insert");
    EmptyInsertBody(esc);
    assert "INSERT INTO t) VALUES)" + ExtraSuffix(NoneArg) + ";" == "INSERT INTO t) VALUES);";
  }

  lemma EmptyInsertBody(esc: Escaper)
    ensures StatementBody("insert", "t", DictArg([]), esc) == Success("INSERT INTO t) VALUES)")
  {
    assert DropLast("INSERT INTO t(") == "INSERT INTO t";
    assert DropLast("INSERT INTO t) VALUES(") == "INSERT INTO t) VALUES";
    assert DictKeys([]) == [] && QuotedValues([], esc) == Success([]);
    assert ListAfter("INSERT INTO " + "t" + "(", DictKeys([]), ",") + ")" == "INSERT INTO t)";
    assert ListAfter("INSERT INTO t)" + " VALUES(", [], ",") + ")" == "INSERT INTO t) VALUES)";
    assert "insert" != "select" && "insert" != "distinct" && "insert" != "count" && "insert" != "delete";
  }

  /** An empty update dict is not rejected: the trim eats the space after `SET`. */
  lemma EmptyUpdateDict(esc: Escaper)
    ensures QueryText(StrArg("update"), StrArg("t"), DictArg([]), NoneArg, esc) == Success("UPDATE t SET;")
  {
    LowerKeepsLowercase("update");
    EmptyUpdateBody(esc);
    assert "UPDATE t SET" + ExtraSuffix(NoneArg) + ";" == "UPDATE t SET;";
  }

  lemma EmptyUpdateBody(esc: Escaper)
    ensures StatementBody("update", "t", DictArg([]), esc) == Success("UPDATE t SET")
  {
    assert DropLast("UPDATE t SET ") == "UPDATE t SET";
    assert Assignments([], esc) == Success([]);
    assert ListAfter("UPDATE " + "t" + " SET ", [], ",") == "UPDATE t SET";
    assert "update" != "select" && "update" != "distinct" && "update" != "count" && "update" != "delete" && "update" != "insert";
  }

  // ----- The LIMIT rewrite of sql_query (pyFramework.py:373-378) -----

  /**
   * For a positive `limit`, the last character of `q` (meant to be its `;`) is replaced by
   * ` LIMIT [offset, ]limit;`; the offset is written only when positive.
   */
  function WithLimit(q: string, limit: int, offset: int): (r: string)
    ensures limit <= 0 ==> r == q
    ensures limit > 0 ==> |r| > 0 && r[|r| - 1] == ';'
  {
    if limit > 0 then
      DropLast(q) + " LIMIT " + (if offset > 0 then IntToString(offset) + ", " else "") + IntToString(limit) + ";"
    else q
  }

  /** On a statement built by `query`, the LIMIT lands after the `extra` text, before the `;`. */
  lemma LimitFollowsExtra(verb: Arg, tbl: Arg, fields: Arg, extra: Arg, esc: Escaper, limit: int)
    requires QueryText(verb, tbl, fields, extra, esc).Success?
    requires limit > 0
    ensures WithLimit(QueryText(verb, tbl, fields, extra, esc).value, limit, 0)
         == StatementBody(Lower(verb.s), tbl.s, fields, esc).value + ExtraSuffix(extra) + " LIMIT " + IntToString(limit) + ";"
  {
    var q := QueryText(verb, tbl, fields, extra, esc).value;
    QueryTerminated(verb, tbl, fields, extra, esc);
    assert WithLimit(q, limit, 0) == DropLast(q) + " LIMIT " + "" + IntToString(limit) + ";";
    assert DropLast(q) == StatementBody(Lower(verb.s), tbl.s, fields, esc).value + ExtraSuffix(extra);
  }

  /** The rewrite trusts that `q` ends with `;`: otherwise it cuts off a real character. */
  lemma LimitEatsLastCharacter()
    ensures WithLimit("SHOW TABLES", 2, 5) == "SHOW TABLE LIMIT 5, 2;"
  {
    assert IntToString(2) == "2";
    assert IntToString(5) == "5";
  }

  // ----- DDL statements of Database (pyFramework.py:612-846) -----

  /** One statement: a final `;` and no other. */
  predicate OneStatement(s: string)
  {
    |s| > 0 && s[|s| - 1] == ';' && ';' !in s[..|s| - 1]
  }

  /** The column definitions `make_table` accepts. */
  datatype TableDefs = DefsText(text: string) | DefsList(items: seq<string>) | DefsDict(entries: seq<(string, string)>)

  function DefPairs(entries: seq<(string, string)>): (r: seq<string>)
    ensures |r| == |entries|
  {
    if |entries| == 0 then [] else DefPairs(entries[..|entries| - 1]) + [entries[|entries| - 1].0 + " " + entries[|entries| - 1].1]
  }

  lemma {:induction false} DefPairsClean(entries: seq<(string, string)>)
    requires forall i :: 0 <= i < |entries| ==> ';' !in entries[i].0 && ';' !in entries[i].1
    ensures forall i :: 0 <= i < |DefPairs(entries)| ==> ';' !in DefPairs(entries)[i]
  {
    if |entries| > 0 {
      DefPairsClean(entries[..|entries| - 1]);
    }
  }

  /** The text between the brackets: a string as given, a list joined by `', '`, a dict as `k v` pairs joined by `', '`. */
  function DefsSql(defs: TableDefs): string
  {
    match defs
    case DefsText(t) => t
    case DefsList(items) => Join(items, ", ")
    case DefsDict(entries) => Join(DefPairs(entries), ", ")
  }

  predicate DefsClean(defs: TableDefs)
  {
    match defs
    case DefsText(t) => ';' !in t
    case DefsList(items) => forall i :: 0 <= i < |items| ==> ';' !in items[i]
    case DefsDict(entries) => forall i :: 0 <= i < |entries| ==> ';' !in entries[i].0 && ';' !in entries[i].1
  }

  lemma DefsSqlClean(defs: TableDefs)
    requires DefsClean(defs)
    ensures ';' !in DefsSql(defs)
  {
    match defs
    case DefsText(t) =>
    case DefsList(items) => JoinAvoids(items, ", ", ';');
    case DefsDict(entries) =>
      DefPairsClean(entries);
      JoinAvoids(DefPairs(entries), ", ", ';');
  }

  function CreateTableSql(name: string, defs: TableDefs, temp: bool, clobber: bool): (r: string)
    ensures |r| > 0 && r[|r| - 1] == ';'
  {
    "CREATE " + (if temp then "TEMPORARY " else "") + "TABLE " + (if clobber then "" else "IF NOT EXISTS ")
      + name + "(" + DefsSql(defs) + ");"
  }

  /** With `;`-free names and definitions, `make_table` sends a single statement. */
  lemma CreateTableOneStatement(name: string, defs: TableDefs, temp: bool, clobber: bool)
    requires ';' !in name && DefsClean(defs)
    ensures OneStatement(CreateTableSql(name, defs, temp, clobber))
  {
    DefsSqlClean(defs);
    var t := if temp then "TEMPORARY " else "";
    var c := if clobber then "" else "IF NOT EXISTS ";
    assert ';' !in t && ';' !in c;
    var body := "CREATE " + t + "TABLE " + c + name + "(" + DefsSql(defs) + ")";
    assert ';' !in body;
    Terminated1(body);
    assert CreateTableSql(name, defs, temp, clobber) == body + ";";
  }

  /** A `;`-free text closed by a `;` is one statement. */
  lemma Terminated1(body: string)
    requires ';' !in body
    ensures OneStatement(body + ";")
  {
    assert (body + ";")[..|body|] == body;
  }

  function DropTableSql(name: string, temp: bool): (r: string)
    ensures ';' !in name ==> OneStatement(r)
  {
    var r := "DROP " + (if temp then "TEMPORARY " else "") + "TABLE IF EXISTS " + name + ";";
    assert r[..|r| - 1] == "DROP " + (if temp then "TEMPORARY " else "") + "TABLE IF EXISTS " + name;
    r
  }

  function MoveTableSql(oldName: string, newName: string): (r: string)
    ensures ';' !in oldName && ';' !in newName ==> OneStatement(r)
  {
    var r := "ALTER TABLE " + oldName + " RENAME TO " + newName + ";";
    assert r[..|r| - 1] == "ALTER TABLE " + oldName + " RENAME TO " + newName;
    r
  }

  function TruncateTableSql(name: string): (r: string)
    ensures ';' !in name ==> OneStatement(r)
  {
    var r := "TRUNCATE TABLE " + name + ";";
    assert r[..|r| - 1] == "TRUNCATE TABLE " + name;
    r
  }

  function DescribeSql(name: string): (r: string)
    ensures ';' !in name ==> OneStatement(r)
  {
    var r := "DESCRIBE " + name + ";";
    assert r[..|r| - 1] == "DESCRIBE " + name;
    r
  }

  const ShowTablesSql: string := "SHOW TABLES;"

  /** `' FIRST'` when `after` is `first` in any case, `' AFTER ' + after` for any other non-empty `after`. */
  function Position(after: Option<string>): string
  {
    if after.None? || after.value == "" then ""
    else if Lower(after.value) == "first" then " FIRST"
    else " AFTER " + after.value
  }

  function AddColumnSql(name: string, field: string, definition: string, after: Option<string>): (r: string)
    ensures ';' !in name + field + definition && (after.Some? ==> ';' !in after.value) ==> OneStatement(r)
  {
    var r := "ALTER TABLE " + name + " ADD COLUMN " + field + " " + definition + Position(after) + ";";
    assert r[..|r| - 1] == "ALTER TABLE " + name + " ADD COLUMN " + field + " " + definition + Position(after);
    r
  }

  function DropColumnSql(name: string, field: string): (r: string)
    ensures ';' !in name + field ==> OneStatement(r)
  {
    var r := "ALTER TABLE " + name + " DROP COLUMN " + field + ";";
    assert r[..|r| - 1] == "ALTER TABLE " + name + " DROP COLUMN " + field;
    r
  }

  /** The column's new name is `new_name` when non-empty, else (as written) the table's name. */
  function AlterColumnSql(name: string, field: string, definition: string, newName: Option<string>): (r: string)
    ensures ';' !in name + field + definition && (newName.Some? ==> ';' !in newName.value) ==> OneStatement(r)
  {
    var target := if newName.Some? && newName.value != "" then newName.value else name;
    var r := "ALTER TABLE " + name + " CHANGE COLUMN " + field + " " + target + " " + definition + ";";
    assert r[..|r| - 1] == "ALTER TABLE " + name + " CHANGE COLUMN " + field + " " + target + " " + definition;
    r
  }

  function AddFkSql(name: string, table: string, field: string, reference: string): (r: string)
    ensures ';' !in name + table + field + reference ==> OneStatement(r)
  {
    var r := "ALTER TABLE " + table + " ADD CONSTRAINT fk_" + name + " FOREIGN KEY (" + field + ") REFERENCES " + reference + ";";
    assert r[..|r| - 1] == "ALTER TABLE " + table + " ADD CONSTRAINT fk_" + name + " FOREIGN KEY (" + field + ") REFERENCES " + reference;
    r
  }

  function DropFkSql(name: string, table: string): (r: string)
    ensures ';' !in name + table ==> OneStatement(r)
  {
    var r := "ALTER TABLE " + table + " DROP FOREIGN KEY fk_" + name + ";";
    assert r[..|r| - 1] == "ALTER TABLE " + table + " DROP FOREIGN KEY fk_" + name;
    r
  }

  /** `FIRST` is chosen exactly when `after` is `first` in any case; `None` and `''` add nothing. */
  lemma AddColumnPlacement(name: string, field: string, definition: string, after: Option<string>)
    ensures after.Some? && Lower(after.value) == "first"
            ==> AddColumnSql(name, field, definition, after) == "ALTER TABLE " + name + " ADD COLUMN " + field + " " + definition + " FIRST;"
    ensures after.Some? && after.value != "" && Lower(after.value) != "first"
            ==> AddColumnSql(name, field, definition, after) == "ALTER TABLE " + name + " ADD COLUMN " + field + " " + definition + " AFTER " + after.value + ";"
    ensures after.None? || after.value == ""
            ==> AddColumnSql(name, field, definition, after) == "ALTER TABLE " + name + " ADD COLUMN " + field + " " + definition + ";"
  {
    if after.Some? && Lower(after.value) == "first" {
      assert after.value != "";
    }
  }

  /** Without a new name, `alter_column` renames the column to the table's own name. */
  lemma AlterColumnWithoutNewName(name: string, field: string, definition: string)
    ensures AlterColumnSql(name, field, definition, None) == AlterColumnSql(name, field, definition, Some(name))
    ensures AlterColumnSql(name, field, definition, Some("")) == AlterColumnSql(name, field, definition, Some(name))
  {
  }
}
