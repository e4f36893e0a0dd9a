/**
 * The two classes of the MySQL wrapper. A `Table` names one table of a `Database`, keeps
 * the column descriptions `DESCRIBE` gave for it and turns its arguments into calls of
 * `Database.query`. A `Database` holds the connection state, the registry of `Table`s
 * (a list plus one attribute per table name) and, standing in for the MySQL driver, the
 * log of every call made on the driver and a server that answers each statement.
 */
module Framework {
  import opened Wrappers
  import opened PyText
  import opened Values
  import opened Shaping
  import opened Statements

  /** A call the wrapper makes on the driver. */
  datatype Call = DriverConnect | Execute(text: string) | DriverCommit | DriverRollback | Disconnect

  /** The keyword arguments `query` hands on to `sql_query`: `limit`, `offset`, `maxrows`. */
  datatype Options = Options(limit: Arg, offset: Arg, maxrows: Option<Arg>)

  const Defaults: Options := Options(IntArg(-1), IntArg(0), None)

  /** What one call of `sql_query` or `query` returns, and the driver log after it. */
  datatype Exchange = Exchange(result: Result<Reply, DbError>, log: seq<Call>)

  // ----- sql_query and query as functions of the log (pyFramework.py:363-433, 446-515) -----

  /** The argument checks of `sql_query` and its LIMIT rewrite. */
  function SqlText(q: Arg, opts: Options): (r: Result<string, DbError>)
    ensures r.Failure? <==> !q.StrArg? || !opts.limit.IntArg? || !opts.offset.IntArg?
    ensures r.Failure? ==> r.error == TypeError
    ensures r.Success? ==> r.value == WithLimit(q.s, opts.limit.i, opts.offset.i)
  {
    if !q.StrArg? || !opts.limit.IntArg? || !opts.offset.IntArg? then Failure(TypeError)
    else Success(WithLimit(q.s, opts.limit.i, opts.offset.i))
  }

  /**
   * `sql_query`: nothing reaches the driver when the connection is closed or an argument
   * is bad; otherwise exactly the rewritten statement is sent and the answer is shaped.
   */
  function SqlExchange(server: (seq<Call>, string) -> Answer, log: seq<Call>, open: bool, q: Arg, opts: Options): (x: Exchange)
    ensures !open ==> x == Exchange(Failure(NotConnected), log)
    ensures x.log == log <==> !open || SqlText(q, opts).Failure?
    ensures x.log != log ==> x.log == log + [Execute(SqlText(q, opts).value)]
                             && x.result == Shape(server(log, SqlText(q, opts).value), opts.maxrows)
  {
    if !open then Exchange(Failure(NotConnected), log)
    else match SqlText(q, opts)
      case Failure(e) => Exchange(Failure(e), log)
      case Success(text) => Exchange(Shape(server(log, text), opts.maxrows), log + [Execute(text)])
  }

  /**
   * `query`: a closed connection or any argument `query` rejects raises before a single
   * statement is sent; otherwise the built statement goes through `sql_query`.
   */
  function QueryExchange(server: (seq<Call>, string) -> Answer, esc: Escaper, log: seq<Call>, open: bool,
                         verb: Arg, tbl: Arg, fields: Arg, extra: Arg, opts: Options): (x: Exchange)
    ensures !open ==> x == Exchange(Failure(NotConnected), log)
    ensures QueryText(verb, tbl, fields, extra, esc).Failure? ==> x.log == log && x.result.Failure?
    ensures open && QueryText(verb, tbl, fields, extra, esc).Success?
            ==> x == SqlExchange(server, log, true, StrArg(QueryText(verb, tbl, fields, extra, esc).value), opts)
  {
    if !open then Exchange(Failure(NotConnected), log)
    else match QueryText(verb, tbl, fields, extra, esc)
      case Failure(e) => Exchange(Failure(e), log)
      case Success(text) => SqlExchange(server, log, true, StrArg(text), opts)
  }

  // ----- Column descriptions and join qualification (pyFramework.py:115-117, 196-210) -----

  /** Whether `row['Field']` exists and is a `str`, so that a prefix can be put before it. */
  predicate Renameable(row: Row)
  {
    Get(row, "Field").Some? && Get(row, "Field").value.Text?
  }

  /** `row['Field'] = prefix + '.' + row['Field']`: `KeyError` without a `Field`, `TypeError` for a non-`str` one. */
  function QualifyRow(row: Row, prefix: string): (r: Result<Row, DbError>)
    ensures r.Success? <==> Renameable(row)
  {
    match Get(row, "Field")
    case None => Failure(KeyError)
    case Some(Text(f)) => Success(Put(row, "Field", Text(prefix + "." + f)))
    case Some(_) => Failure(TypeError)
  }

  /** The rename loop of `join` over a list of column descriptions, stopping at the first bad one. */
  function QualifyRows(rows: seq<Row>, prefix: string): (r: Result<seq<Row>, DbError>)
    ensures r.Success? ==> |r.value| == |rows|
  {
    if |rows| == 0 then Success([])
    else
      var init := QualifyRows(rows[..|rows| - 1], prefix);
      var last := QualifyRow(rows[|rows| - 1], prefix);
      if init.Failure? then init
      else if last.Failure? then Failure(last.error)
      else Success(init.value + [last.value])
  }

  /** How many leading descriptions the rename loop gets through before it raises. */
  function Qualifiable(rows: seq<Row>, prefix: string): (k: nat)
    ensures k <= |rows|
    ensures forall i :: 0 <= i < k ==> QualifyRow(rows[i], prefix).Success?
    ensures k < |rows| ==> QualifyRow(rows[k], prefix).Failure?
  {
    if |rows| == 0 || QualifyRow(rows[0], prefix).Failure? then 0 else 1 + Qualifiable(rows[1..], prefix)
  }

  /**
   * The rename loop over whatever `cols` is. A list is renamed row by row; an empty dict,
   * `''` or `b''` has no rows to rename; a non-empty bare row raises `KeyError` (it is
   * indexed by position); anything else raises `TypeError`.
   */
  function Qualify(cols: Reply, prefix: string): (r: Result<Reply, DbError>)
    ensures r.Success? ==> r.value.RowList? == cols.RowList?
    ensures r.Success? && !cols.RowList? ==> r.value == cols && ColumnNames(cols) == Success([])
    ensures cols.RowList? ==> r == (var q :- QualifyRows(cols.rows, prefix); Success(RowList(q)))
  {
    match cols
    case RowList(rows) =>
      var q :- QualifyRows(rows, prefix);
      Success(RowList(q))
    case OneRow(row) => if |row| == 0 then Success(cols) else Failure(KeyError)
    case Scalar(Text(s)) => if s == "" then Success(cols) else Failure(TypeError)
    case Scalar(Bytes(b)) => if b == [] then Success(cols) else Failure(TypeError)
    case _ => Failure(TypeError)
  }

  /**
   * `cols += temp`, for a `temp` the rename loop got through: a list of descriptions, or an
   * empty dict, `''` or `b''`. A list is extended by the rows of `temp` (an empty value adds
   * none); a `str` or `bytes` can only be added to its own kind, which leaves it as it is;
   * everything else raises `TypeError`.
   */
  function Extend(cols: Reply, more: Reply): (r: Result<Reply, DbError>)
    requires more.RowList? || ColumnNames(more) == Success([])
    ensures r.Success? <==> cols.RowList? || (cols.Scalar? && more.Scalar? &&
                                              ((cols.cell.Text? && more.cell.Text?) || (cols.cell.Bytes? && more.cell.Bytes?)))
    ensures r.Success? && cols.RowList? ==>
              && r.value.RowList? && |r.value.rows| >= |cols.rows| && r.value.rows[..|cols.rows|] == cols.rows
              && r.value.rows[|cols.rows|..] == (if more.RowList? then more.rows else [])
    ensures r.Success? && !cols.RowList? ==> r.value == cols
  {
    match cols
    case RowList(rows) => Success(RowList(rows + if more.RowList? then more.rows else []))
    case Scalar(Text(a)) =>
      if more.Scalar? && more.cell.Text? then Success(Scalar(Text(a + more.cell.s))) else Failure(TypeError)
    case Scalar(Bytes(a)) =>
      if more.Scalar? && more.cell.Bytes? then Success(Scalar(Bytes(a + more.cell.b))) else Failure(TypeError)
    case _ => Failure(TypeError)
  }

  const JoinDirections: set<string> := {"inner", "left", "right"}

  /** The name of a joined table; note that no space is put before `AS`. */
  function JoinName(left: string, right: string, on: string, alias: Option<string>, direction: string): (r: string)
    ensures |r| >= |left| + |right| + |on| && r[..|left|] == left && r[|r| - |on|..] == on
  {
    left + " " + Upper(direction) + " JOIN " + right + (if alias.Some? && alias.value != "" then "AS " + alias.value else "") + " ON " + on
  }

  /** `a.join(b, 'x', alias='c')` names the joined table `a INNER JOIN bAS c ON x`. */
  lemma JoinNameGluesAlias()
    ensures JoinName("a", "b", "x", Some("c"), "inner") == "a INNER JOIN bAS c ON x"
  {
    UpperLetters("inner", "INNER");
  }

  /** The `Field` of every description: `KeyError` when one is missing. */
  function FieldCells(rows: seq<Row>): (r: Result<seq<Cell>, DbError>)
    ensures r.Success? <==> forall i :: 0 <= i < |rows| ==> Get(rows[i], "Field").Some?
    ensures r.Success? ==> |r.value| == |rows| && forall i :: 0 <= i < |rows| ==> r.value[i] == Get(rows[i], "Field").value
  {
    if |rows| == 0 then Success([])
    else
      var init :- FieldCells(rows[..|rows| - 1]);
      match Get(rows[|rows| - 1], "Field")
      case None => Failure(KeyError)
      case Some(c) => Success(init + [c])
  }

  /**
   * `[i['Field'] for i in cols]`. Iterating a bare row, a string or bytes yields keys,
   * characters or ints, none of which can be indexed by `'Field'`.
   */
  function ColumnNames(cols: Reply): (r: Result<seq<Cell>, DbError>)
    ensures cols.RowList? ==> r == FieldCells(cols.rows)
  {
    match cols
    case RowList(rows) => FieldCells(rows)
    case OneRow(row) => if |row| == 0 then Success([]) else Failure(TypeError)
    case Scalar(Text(s)) => if s == "" then Success([]) else Failure(TypeError)
    case Scalar(Bytes(b)) => if b == [] then Success([]) else Failure(TypeError)
    case _ => Failure(TypeError)
  }

  // ----- The class file of remake_class, make_table and move_table (pyFramework.py:583-591, 636-648, 707-720) -----

  /** The exception `'\t\tself.' + j['Field']` raises at the first description that has no `str` `Field`. */
  function FieldError(rows: seq<Row>): (e: Option<DbError>)
    ensures e.None? <==> forall i :: 0 <= i < |rows| ==> Renameable(rows[i])
    ensures e.Some? ==> e.value == KeyError || e.value == TypeError
  {
    if |rows| == 0 then None
    else if Get(rows[0], "Field").None? then Some(KeyError)
    else if !Get(rows[0], "Field").value.Text? then Some(TypeError)
    else FieldError(rows[1..])
  }

  /**
   * The exception the loop `for j in cols` that writes the class file raises, if any. A list
   * of descriptions fails at its first bad description; iterating a non-empty bare row,
   * string or bytes yields keys, characters or ints, which cannot be indexed by `'Field'`,
   * and `None` or an `int` cannot be iterated at all.
   */
  function ClassFileError(cols: Reply): (e: Option<DbError>)
    ensures cols.RowList? ==> (e.None? <==> forall i :: 0 <= i < |cols.rows| ==> Renameable(cols.rows[i]))
    ensures !cols.RowList? ==> (e.None? <==> ColumnNames(cols) == Success([]))
    ensures !cols.RowList? && e.Some? ==> e.value == TypeError
  {
    match cols
    case RowList(rows) => FieldError(rows)
    case OneRow(row) => if |row| == 0 then None else Some(TypeError)
    case Scalar(Text(s)) => if s == "" then None else Some(TypeError)
    case Scalar(Bytes(b)) => if b == [] then None else Some(TypeError)
    case _ => Some(TypeError)
  }

  /** The class-file loop over a list raises where `join`'s rename loop does, with the same exception. */
  lemma {:induction false} ClassFileFailsLikeRename(rows: seq<Row>, prefix: string)
    ensures FieldError(rows).None? <==> QualifyRows(rows, prefix).Success?
    ensures FieldError(rows).Some? ==> QualifyRows(rows, prefix) == Failure(FieldError(rows).value)
  {
    var k := Qualifiable(rows, prefix);
    FieldErrorAt(rows, prefix);
    if k < |rows| {
      QualifyRowsFailsAt(rows, prefix, k);
    } else {
      QualifyRowsPointwise(rows, prefix);
    }
  }

  /** `FieldError` is the exception of the row at `Qualifiable`, the first one that cannot be renamed. */
  lemma {:induction false} FieldErrorAt(rows: seq<Row>, prefix: string)
    ensures Qualifiable(rows, prefix) < |rows| <==> FieldError(rows).Some?
    ensures FieldError(rows).Some? ==> FieldError(rows).value == QualifyRow(rows[Qualifiable(rows, prefix)], prefix).error
  {
    if |rows| > 0 && QualifyRow(rows[0], prefix).Success? {
      FieldErrorAt(rows[1..], prefix);
    }
  }

  /** The class-file loop, without the writes: it stops at the first description it cannot use. */
  method WriteClass(cols: Reply) returns (e: Option<DbError>)
    ensures e == ClassFileError(cols)
  {
    if !cols.RowList? {
      return ClassFileError(cols);
    }
    var rows := cols.rows;
    var i := 0;
    while i < |rows|
      invariant 0 <= i <= |rows|
      invariant FieldError(rows) == FieldError(rows[i..])
    {
      assert rows[i..][1..] == rows[i + 1..];
      match Get(rows[i], "Field")
      case None =>
        return Some(KeyError);
      case Some(f) =>
        if !f.Text? {
          return Some(TypeError);
        }
      i := i + 1;
    }
    return None;
  }

  /** What `remake_class` amounts to: the exception of its `DESCRIBE`, else that of the class-file loop. */
  function ClassWritten(a: Result<Reply, DbError>): (r: Result<(), DbError>)
    ensures r.Success? <==> a.Success? && ClassFileError(a.value).None?
    ensures a.Failure? ==> r == Failure(a.error)
  {
    if a.Failure? then Failure(a.error)
    else if ClassFileError(a.value).Some? then Failure(ClassFileError(a.value).value)
    else Success(())
  }

  /**
   * A table with one column has one description, which `sql_query` collapses to a bare
   * row; iterating that row yields its keys, so the class-file loop raises `TypeError`.
   */
  lemma OneColumnClassFileRaises(description: Row)
    requires |description| > 1
    ensures ClassFileError(Collapse([description])) == Some(TypeError)
    ensures ClassWritten(Success(Collapse([description]))) == Failure(TypeError)
  {
  }

  // ----- The table registry (pyFramework.py:276, 652-655, 682-685, 723-726) -----

  /** `[i.name for i in ts]`. */
  function Names(ts: seq<Table>): (ns: seq<string>)
    ensures |ns| == |ts| && forall i :: 0 <= i < |ts| ==> ns[i] == ts[i].name
  {
    seq(|ts|, i requires 0 <= i < |ts| => ts[i].name)
  }

  /** `del ts[names.index(name)]` when `name` is registered: the first entry of that name goes. */
  function RemoveFirst(ts: seq<Table>, name: string): (r: seq<Table>)
    ensures |ts| - 1 <= |r| <= |ts|
  {
    if |ts| == 0 then []
    else if ts[0].name == name then ts[1..]
    else [ts[0]] + RemoveFirst(ts[1..], name)
  }

  /** `if name in table_names: del ...` then `_tables += [t]`, which raises while `_tables` is `None`. */
  function Reregister(tables: Option<seq<Table>>, name: string, t: Table): (r: Result<seq<Table>, DbError>)
    ensures tables.None? <==> r.Failure?
    ensures r.Failure? ==> r.error == TypeError
    ensures r.Success? ==> |r.value| > 0 && r.value[|r.value| - 1] == t
  {
    match tables
    case None => Failure(TypeError)
    case Some(ts) => Success(RemoveFirst(ts, name) + [t])
  }

  /** The registry removal of `drop_table`; nothing to remove while `_tables` is `None`. */
  function Deregister(tables: Option<seq<Table>>, name: string): (r: Option<seq<Table>>)
    ensures r.None? <==> tables.None?
  {
    match tables
    case None => None
    case Some(ts) => Some(RemoveFirst(ts, name))
  }

  /** The first cell of every row `SHOW TABLES` gave, as `[list(i.values())[0] for i in tbls]` computes it. */
  function FirstCells(shown: Reply): (r: Result<seq<Cell>, DbError>)
    ensures shown.RowList? ==> (r.Success? <==> forall i :: 0 <= i < |shown.rows| ==> |shown.rows[i]| > 0)
    ensures shown.RowList? && r.Success? ==> |r.value| == |shown.rows|
  {
    match shown
    case NoResult => Failure(TypeError)
    case RowList(rows) => FirstOfRows(rows)
    case OneRow(row) => if |row| == 0 then Success([]) else Failure(AttributeError)
    case Scalar(Text(s)) => if s == "" then Success([]) else Failure(AttributeError)
    case Scalar(Bytes(b)) => if b == [] then Success([]) else Failure(AttributeError)
    case Scalar(_) => Failure(TypeError)
  }

  function FirstOfRows(rows: seq<Row>): (r: Result<seq<Cell>, DbError>)
    ensures r.Success? <==> forall i :: 0 <= i < |rows| ==> |rows[i]| > 0
    ensures r.Success? ==> |r.value| == |rows| && forall i :: 0 <= i < |rows| ==> r.value[i] == rows[i][0].1
  {
    if |rows| == 0 then Success([])
    else
      var init :- FirstOfRows(rows[..|rows| - 1]);
      var last := rows[|rows| - 1];
      if |last| == 0 then Failure(IndexError) else Success(init + [last[0].1])
  }

  /** The table names as strings, when every cell is a `str`. */
  function CellTexts(cells: seq<Cell>): (ns: seq<string>)
    ensures |ns| == |cells|
    ensures forall i :: 0 <= i < |cells| && cells[i].Text? ==> ns[i] == cells[i].s
  {
    if |cells| == 0 then []
    else CellTexts(cells[..|cells| - 1]) + [if cells[|cells| - 1].Text? then cells[|cells| - 1].s else ""]
  }

  function DescribeCalls(names: seq<string>): (cs: seq<Call>)
    ensures |cs| == |names|
  {
    if |names| == 0 then [] else DescribeCalls(names[..|names| - 1]) + [Execute(DescribeSql(names[|names| - 1]))]
  }

  /** `[getattr(self, i) for i in names]`. */
  function Pick(attrs: map<string, Table>, names: seq<string>): (ts: seq<Table>)
    requires forall i :: 0 <= i < |names| ==> names[i] in attrs
    ensures |ts| == |names| && forall i :: 0 <= i < |names| ==> ts[i] == attrs[names[i]]
  {
    if |names| == 0 then [] else Pick(attrs, names[..|names| - 1]) + [attrs[names[|names| - 1]]]
  }

  /** `names.index(name)`. */
  function IndexOf(names: seq<string>, name: string): (k: nat)
    requires name in names
    ensures k < |names| && names[k] == name && name !in names[..k]
  {
    if names[0] == name then 0 else 1 + IndexOf(names[1..], name)
  }

  /** The names of a list, as a set. */
  function NameSet(names: seq<string>): set<string>
  {
    set n | n in names
  }

  predicate Distinct(names: seq<string>)
  {
    forall i, j :: 0 <= i < j < |names| ==> names[i] != names[j]
  }

  /**
   * The registry list and the per-name attributes agree: names are unique, every entry is
   * the attribute of its name, and every attribute is an entry.
   */
  predicate InStep(ts: seq<Table>, attrs: map<string, Table>)
  {
    && Distinct(Names(ts))
    && (forall i :: 0 <= i < |ts| ==> ts[i].name in attrs && attrs[ts[i].name] == ts[i])
    && (forall n :: n in attrs ==> n in Names(ts))
  }

  /**
   * The names `close` deletes the attributes of, in order: `TypeError` at the first
   * non-`str` name and `AttributeError` at the first name without an attribute (which
   * includes a name that comes a second time); `None` when every deletion succeeds.
   */
  function Unset(cells: seq<Cell>, attrs: map<string, Table>): (r: Option<DbError>)
    ensures r.Some? ==> r.value == TypeError || r.value == AttributeError
    ensures |cells| > 0 && !cells[0].Text? ==> r == Some(TypeError)
  {
    if |cells| == 0 then None
    else if !cells[0].Text? then Some(TypeError)
    else if cells[0].s !in attrs then Some(AttributeError)
    else Unset(cells[1..], attrs - {cells[0].s})
  }

  /** The result of a statement whose reply is thrown away: only its exception matters. */
  function Ignored(a: Result<Reply, DbError>): (r: Result<(), DbError>)
    ensures r.Success? <==> a.Success?
    ensures r.Failure? ==> r.error == a.error
  {
    if a.Failure? then Failure(a.error) else Success(())
  }

  // ----- The requests the Table builders hand to query (pyFramework.py:125-184) -----

  /** The arguments a `Table` method passes to `query` besides its own name. */
  datatype Request = Request(verb: string, fields: Arg, extra: Arg)

  function CountRequest(where: Option<string>): Request
  {
    Request("count", NoneArg, StrArg(WhereClause(where)))
  }

  function DeleteRequest(where: Option<string>): Request
  {
    Request("delete", NoneArg, StrArg(WhereClause(where)))
  }

  /** `distinct` computes its LIMIT and ORDER BY clauses and then passes only the WHERE clause. */
  function DistinctRequest(fields: Arg, where: Option<string>, limit: Option<int>, orderby: Option<string>): Request
  {
    var limitClause := LimitClause(limit);
    var orderClause := OrderByClause(orderby);
    Request("distinct", fields, StrArg(WhereClause(where)))
  }

  function InsertRequest(fields: Arg, extra: Arg): Request
  {
    Request("insert", fields, extra)
  }

  function SelectRequest(fields: Arg, where: Option<string>, limit: Option<int>, groupby: Option<string>,
                         orderby: Option<string>): Request
  {
    Request("select", fields, StrArg(SelectExtra(where, limit, groupby, orderby)))
  }

  function UpdateRequest(fields: Arg, where: Option<string>): Request
  {
    Request("update", fields, StrArg(WhereClause(where)))
  }

  // ----- Column descriptions as shared objects (pyFramework.py:104-123, 196-210) -----

  /** One column description: a dict of the list `DESCRIBE` gave, shared by every list that holds it. */
  class Description {
    var row: Row

    constructor (row: Row)
      ensures this.row == row
    {
      this.row := row;
    }
  }

  /** A list of column descriptions, shared by every `Table` whose `_cols` it is. */
  class DescList {
    var items: seq<Description>

    constructor (items: seq<Description>)
      ensures this.items == items
    {
      this.items := items;
    }
  }

  /** A `DESCRIBE` reply that is not a list of rows. */
  type Bare = r: Reply | !r.RowList? witness NoResult

  /** What `_cols` refers to: a list of description dicts, or the bare value a collapsed `DESCRIBE` gave. */
  datatype Cols = Listed(list: DescList) | Unlisted(bare: Bare)

  /** The list object `_cols` refers to, if it is a list. */
  function ListOf(c: Cols): set<DescList>
  {
    if c.Listed? then {c.list} else {}
  }

  /** The description dicts of `_cols`, in list order (none for a bare value). */
  function Items(c: Cols): seq<Description>
    reads ListOf(c)
  {
    if c.Listed? then c.list.items else []
  }

  /** Whether `m` gives a row for every dict of `items`. */
  predicate Covers(m: map<Description, Row>, items: seq<Description>)
  {
    forall i :: 0 <= i < |items| ==> items[i] in m
  }

  /** Every dict of `m` holds the row `m` gives it. */
  predicate Holding(m: map<Description, Row>)
    reads m.Keys
  {
    forall d :: d in m ==> d.row == m[d]
  }

  /** What the dicts of `items` hold now. */
  function Snapshot(items: seq<Description>): (m: map<Description, Row>)
    reads items
    ensures forall d :: d in m ==> d in items
    ensures Covers(m, items) && Holding(m)
  {
    map d | d in items :: d.row
  }

  /** The rows `m` gives the dicts of `items`, in list order. */
  function RowsOf(items: seq<Description>, m: map<Description, Row>): (rs: seq<Row>)
    requires Covers(m, items)
    ensures |rs| == |items| && forall i :: 0 <= i < |items| ==> rs[i] == m[items[i]]
  {
    seq(|items|, i requires 0 <= i < |items| && Covers(m, items) => m[items[i]])
  }

  /** The rows the dicts of `items` hold now, in list order. */
  function Rows(items: seq<Description>): (rs: seq<Row>)
    reads items
    ensures |rs| == |items| && forall i :: 0 <= i < |items| ==> rs[i] == items[i].row
  {
    if |items| == 0 then [] else Rows(items[..|items| - 1]) + [items[|items| - 1].row]
  }

  /** What `_cols` holds now: the rows of its list, or the bare value. */
  function Value(c: Cols): (v: Reply)
    reads ListOf(c), Items(c)
    ensures c.Listed? ==> v.RowList? && |v.rows| == |c.list.items|
                          && forall i :: 0 <= i < |c.list.items| ==> v.rows[i] == c.list.items[i].row
    ensures c.Unlisted? ==> v == c.bare
  {
    if c.Listed? then RowList(Rows(c.list.items)) else c.bare
  }

  /** What a rename loop leaves: the row every dict holds, and the exception it raised, if any. */
  datatype Pass = Pass(rows: map<Description, Row>, error: Option<DbError>)

  /**
   * `for i in range(len(cols)): cols[i]['Field'] = prefix + '.' + cols[i]['Field']` over the
   * dicts `items`, which hold `m` beforehand: each dict is renamed in place in turn until one
   * cannot be. A dict the list holds twice is renamed twice.
   */
  function RenameLoop(items: seq<Description>, m: map<Description, Row>, prefix: string): (p: Pass)
    requires Covers(m, items)
    ensures p.rows.Keys == m.Keys
    ensures forall d :: d in m && d !in items ==> p.rows[d] == m[d]
    ensures p.error.Some? ==> p.error.value == KeyError || p.error.value == TypeError
    decreases |items|
  {
    if |items| == 0 then Pass(m, None)
    else match QualifyRow(m[items[0]], prefix)
      case Failure(e) => Pass(m, Some(e))
      case Success(row) => RenameLoop(items[1..], m[items[0] := row], prefix)
  }

  /**
   * The rename loop over whatever `_cols` refers to, with `items` the dicts of its list. A
   * bare value is indexed but never changed: it gets through only when it is empty.
   */
  function Renaming(c: Cols, items: seq<Description>, m: map<Description, Row>, prefix: string): (p: Pass)
    requires Covers(m, items)
    ensures p.rows.Keys == m.Keys
    ensures c.Listed? ==> forall d :: d in m && d !in items ==> p.rows[d] == m[d]
    ensures c.Unlisted? ==> p.rows == m && (p.error.None? <==> Qualify(c.bare, prefix).Success?)
  {
    if c.Listed? then RenameLoop(items, m, prefix)
    else Pass(m, if Qualify(c.bare, prefix).Failure? then Some(Qualify(c.bare, prefix).error) else None)
  }

  /**
   * `cols += temp` once both rename loops got through, with `ri` the dicts of `temp`'s list
   * holding `rows`: the `_cols` of the new table, or the exception. A list is extended in
   * place, so the new table gets this table's very list; a `str` or `bytes` is only rebound,
   * to an equal value.
   */
  function Appended(left: Cols, right: Cols, ri: seq<Description>, rows: map<Description, Row>): (r: Result<Cols, DbError>)
    requires Covers(rows, ri)
    requires right.Unlisted? ==> ColumnNames(right.bare) == Success([])
    ensures r.Success? ==> r.value == left
    ensures left.Listed? ==> r.Success?
    ensures left.Unlisted? && right.Listed? ==> r == Failure(TypeError)
  {
    match left
    case Listed(_) => Success(left)
    case Unlisted(b) =>
      var v :- Extend(b, if right.Listed? then RowList(RowsOf(ri, rows)) else right.bare);
      Success(Unlisted(v))
  }

  /** What `join` leaves: the row every dict holds, the dicts of this table's list, and the new table's `_cols` or the exception. */
  datatype Work = Work(rows: map<Description, Row>, items: seq<Description>, joined: Result<Cols, DbError>)

  /**
   * The column work of `join`, with `li` and `ri` the dicts of the two lists and `m` what
   * the dicts hold beforehand: rename this table's dicts, then `tbl`'s (the same ones again
   * when the two share a list), then `cols += temp`.
   */
  function JoinWork(left: Cols, li: seq<Description>, right: Cols, ri: seq<Description>, m: map<Description, Row>,
                    leftName: string, rightName: string): (w: Work)
    requires Covers(m, li) && Covers(m, ri)
    ensures w.rows.Keys == m.Keys
    ensures forall d :: d in m && d !in li && d !in ri ==> w.rows[d] == m[d]
    ensures w.joined.Success? ==> w.joined.value == left
    ensures w.items == if w.joined.Success? && left.Listed? then li + (if right.Listed? then ri else []) else li
  {
    var p1 := Renaming(left, li, m, leftName);
    if p1.error.Some? then Work(p1.rows, li, Failure(p1.error.value))
    else
      var p2 := Renaming(right, ri, p1.rows, rightName);
      if p2.error.Some? then Work(p2.rows, li, Failure(p2.error.value))
      else
        var x := Appended(left, right, ri, p2.rows);
        Work(p2.rows, if x.Success? && left.Listed? then li + (if right.Listed? then ri else []) else li, x)
  }

  /** `JoinWork` after each of its steps: the first loop's exception, else the second's, else the extension. */
  lemma JoinWorkSteps(left: Cols, li: seq<Description>, right: Cols, ri: seq<Description>, m: map<Description, Row>,
                      leftName: string, rightName: string)
    requires Covers(m, li) && Covers(m, ri)
    ensures var w := JoinWork(left, li, right, ri, m, leftName, rightName);
      var p1 := Renaming(left, li, m, leftName);
      var p2 := Renaming(right, ri, p1.rows, rightName);
      && (p1.error.Some? ==> w == Work(p1.rows, li, Failure(p1.error.value)))
      && (p1.error.None? && p2.error.Some? ==> w == Work(p2.rows, li, Failure(p2.error.value)))
      && (p1.error.None? && p2.error.None? ==>
            && (right.Unlisted? ==> ColumnNames(right.bare) == Success([]))
            && w.rows == p2.rows && w.joined == Appended(left, right, ri, p2.rows))
  {
  }

  /** `cols += temp`: a list is extended in place by `temp`'s dicts (none for a bare value). */
  method Append(left: Cols, right: Cols, ghost rows: map<Description, Row>) returns (r: Result<Cols, DbError>)
    requires Covers(rows, Items(right)) && Holding(rows)
    requires right.Unlisted? ==> ColumnNames(right.bare) == Success([])
    modifies ListOf(left)
    ensures r == Appended(left, right, old(Items(right)), rows)
    ensures Items(left) == if left.Listed? then old(Items(left)) + old(Items(right)) else old(Items(left))
  {
    match left {
      case Listed(l) =>
        l.items := l.items + Items(right);
        r := Success(left);
      case Unlisted(b) =>
        var more := Value(right);
        assert right.Listed? ==> more.rows == RowsOf(Items(right), rows);
        var v :- Extend(b, more);
        r := Success(Unlisted(v));
    }
  }

  /** The rename loop of `join` over the dicts `items`, which hold `m`, renaming each in place. */
  method RenameItems(items: seq<Description>, prefix: string, ghost m: map<Description, Row>) returns (e: Option<DbError>)
    requires Covers(m, items) && Holding(m)
    modifies items
    ensures e == RenameLoop(items, m, prefix).error && Holding(RenameLoop(items, m, prefix).rows)
  {
    ghost var cur := m;
    var i := 0;
    while i < |items|
      invariant 0 <= i <= |items|
      invariant cur.Keys == m.Keys && Holding(cur)
      invariant RenameLoop(items[i..], cur, prefix) == RenameLoop(items, m, prefix)
    {
      var d := items[i];
      assert items[i..][1..] == items[i + 1..];
      var f := Get(d.row, "Field");
      if f.None? {
        return Some(KeyError);
      }
      if !f.value.Text? {
        return Some(TypeError);
      }
      d.row := Put(d.row, "Field", Text(prefix + "." + f.value.s));
      cur := cur[d := d.row];
      i := i + 1;
    }
    return None;
  }

  /** The rename loop over `_cols`; a bare value is only checked. */
  method RenameCols(c: Cols, prefix: string, ghost m: map<Description, Row>) returns (e: Option<DbError>)
    requires Covers(m, Items(c)) && Holding(m)
    modifies Items(c)
    ensures e == Renaming(c, Items(c), m, prefix).error && Holding(Renaming(c, Items(c), m, prefix).rows)
  {
    if c.Listed? {
      e := RenameItems(c.list.items, prefix, m);
    } else {
      var q := Qualify(c.bare, prefix);
      e := if q.Failure? then Some(q.error) else None;
    }
  }

  /** The dicts of `items` are pairwise different objects. */
  predicate Unshared(items: seq<Description>)
  {
    forall i, j :: 0 <= i < j < |items| ==> items[i] != items[j]
  }

  /** `_cols` is a list made in this call, of dicts made in this call, none of them twice. */
  twostate predicate FreshCols(new c: Cols)
    reads ListOf(c)
  {
    c.Listed? ==> fresh(c.list) && Unshared(c.list.items) && forall i :: 0 <= i < |c.list.items| ==> fresh(c.list.items[i])
  }

  /** A `DESCRIBE` reply as the driver hands it over: a new list of new dicts, or the bare value. */
  method NewCols(reply: Reply) returns (c: Cols)
    ensures Value(c) == reply
    ensures c.Listed? <==> reply.RowList?
    ensures FreshCols(c)
  {
    if !reply.RowList? {
      return Unlisted(reply);
    }
    var items: seq<Description> := [];
    while |items| < |reply.rows|
      invariant |items| <= |reply.rows| && Unshared(items)
      invariant forall i :: 0 <= i < |items| ==> fresh(items[i]) && items[i].row == reply.rows[i]
    {
      var d := new Description(reply.rows[|items|]);
      items := items + [d];
    }
    var l := new DescList(items);
    c := Listed(l);
    assert Value(c).rows == reply.rows;
  }

  class Table {
    const db: Database
    const name: string
    /** `_cols`: what `DESCRIBE` gave for the table. It is never rebound, but a list of descriptions is changed in place by `join`. */
    const cols: Cols
    /** What `_cols` held when the table was made. */
    ghost const described: Reply

    constructor (db: Database, name: string, cols: Cols, ghost described: Reply)
      requires Value(cols) == described
      ensures this.db == db && this.name == name && this.cols == cols && this.described == described
    {
      this.db := db;
      this.name := name;
      this.cols := cols;
      this.described := described;
    }

    /** The `col_names` property: the `Field` of every description, as the dicts hold it now. */
    function ColNames(): (r: Result<seq<Cell>, DbError>)
      reads ListOf(cols), Items(cols)
      ensures cols.Listed? ==> (r.Success? <==> forall i :: 0 <= i < |cols.list.items| ==> Get(cols.list.items[i].row, "Field").Some?)
      ensures cols.Listed? && r.Success? ==>
                |r.value| == |cols.list.items| && forall i :: 0 <= i < |r.value| ==> r.value[i] == Get(cols.list.items[i].row, "Field").value
      ensures cols.Unlisted? ==> (r.Success? <==> r == Success([])) && (r.Failure? ==> r.error == TypeError)
    {
      ColumnNames(Value(cols))
    }

    /** `query` on this table, as `Database.query` specifies it. */
    function Sent(h: seq<Call>, open: bool, req: Request, opts: Options): Exchange
    {
      QueryExchange(db.server, db.esc, h, open, StrArg(req.verb), StrArg(name), req.fields, req.extra, opts)
    }

    method Count(where: Option<string>, opts: Options) returns (r: Result<Reply, DbError>)
      modifies db`log
      ensures var x := Sent(old(db.log), db.handle, CountRequest(where), opts); r == x.result && db.log == x.log
    {
      var clause := if where.Some? && where.value != "" then "WHERE " + where.value else "";
      r := db.Query(StrArg("count"), StrArg(name), NoneArg, StrArg(clause), opts);
    }

    method Delete(where: Option<string>, opts: Options) returns (r: Result<Reply, DbError>)
      modifies db`log
      ensures var x := Sent(old(db.log), db.handle, DeleteRequest(where), opts); r == x.result && db.log == x.log
    {
      var clause := if where.Some? && where.value != "" then "WHERE " + where.value else "";
      r := db.Query(StrArg("delete"), StrArg(name), NoneArg, StrArg(clause), opts);
    }

    method Distinct(fields: Arg, where: Option<string>, limit: Option<int>, orderby: Option<string>, opts: Options)
      returns (r: Result<Reply, DbError>)
      modifies db`log
      ensures var x := Sent(old(db.log), db.handle, DistinctRequest(fields, where, limit, orderby), opts);
              r == x.result && db.log == x.log
    {
      var clause := if where.Some? && where.value != "" then "WHERE " + where.value else "";
      var limitClause := LimitClause(limit);
      var orderClause := OrderByClause(orderby);
      r := db.Query(StrArg("distinct"), StrArg(name), fields, StrArg(clause), opts);
    }

    method Insert(fields: Arg, extra: Arg, opts: Options) returns (r: Result<Reply, DbError>)
      modifies db`log
      ensures var x := Sent(old(db.log), db.handle, InsertRequest(fields, extra), opts); r == x.result && db.log == x.log
    {
      r := db.Query(StrArg("insert"), StrArg(name), fields, extra, opts);
    }

    method Select(fields: Arg, where: Option<string>, limit: Option<int>, groupby: Option<string>,
                  orderby: Option<string>, opts: Options) returns (r: Result<Reply, DbError>)
      modifies db`log
      ensures var x := Sent(old(db.log), db.handle, SelectRequest(fields, where, limit, groupby, orderby), opts);
              r == x.result && db.log == x.log
    {
      var extra := PyText.Join([WhereClause(where), LimitClause(limit), OrderByClause(orderby), GroupByClause(groupby)], " ");
      r := db.Query(StrArg("select"), StrArg(name), fields, StrArg(extra), opts);
    }

    method Update(fields: Arg, where: Option<string>, opts: Options) returns (r: Result<Reply, DbError>)
      modifies db`log
      ensures var x := Sent(old(db.log), db.handle, UpdateRequest(fields, where), opts); r == x.result && db.log == x.log
    {
      var clause := if where.Some? && where.value != "" then "WHERE " + where.value else "";
      r := db.Query(StrArg("update"), StrArg(name), fields, StrArg(clause), opts);
    }

    /**
     * `join`: `None` for an unknown direction; otherwise this table's description dicts and
     * then `tbl`'s are renamed in place, `tbl`'s are appended to this table's own list, and a
     * new `Table` over that very list is returned.
     */
    method Join(tbl: Table, on: string, alias: Option<string>, direction: string) returns (r: Result<Option<Table>, DbError>)
      modifies ListOf(cols), Items(cols), Items(tbl.cols)
      ensures Lower(direction) !in JoinDirections ==>
        r == Success(None) && Items(cols) == old(Items(cols)) && Holding(old(Snapshot(Items(cols) + Items(tbl.cols))))
      ensures Lower(direction) in JoinDirections ==>
        var w := JoinWork(cols, old(Items(cols)), tbl.cols, old(Items(tbl.cols)), old(Snapshot(Items(cols) + Items(tbl.cols))),
                          name, tbl.name);
        && Holding(w.rows) && Items(cols) == w.items
        && (w.joined.Failure? ==> r == Failure(w.joined.error))
        && (w.joined.Success? ==>
              && r.Success? && r.value.Some? && fresh(r.value.value)
              && r.value.value.name == JoinName(name, tbl.name, on, alias, direction)
              && r.value.value.db == db && r.value.value.cols == w.joined.value)
    {
      if Lower(direction) !in JoinDirections {
        return Success(None);
      }
      var joined := name + " " + Upper(direction) + " JOIN " + tbl.name
        + (if alias.Some? && alias.value != "" then "AS " + alias.value else "") + " ON " + on;
      ghost var m := Snapshot(Items(cols) + Items(tbl.cols));
      assert Covers(m, Items(cols)) && Covers(m, Items(tbl.cols));
      var c :- JoinCols(cols, tbl.cols, name, tbl.name, m);
      var t := new Table(db, joined, c, Value(c));
      return Success(Some(t));
    }
  }

  /** The two rename loops of `join`: this table's dicts, then `tbl`'s, stopping at the first exception. */
  method RenameBoth(left: Cols, right: Cols, leftName: string, rightName: string, ghost m: map<Description, Row>)
    returns (e: Option<DbError>)
    requires Covers(m, Items(left)) && Covers(m, Items(right)) && Holding(m)
    modifies Items(left), Items(right)
    ensures Items(left) == old(Items(left)) && Items(right) == old(Items(right))
    ensures var p1 := Renaming(left, old(Items(left)), m, leftName);
      var p2 := Renaming(right, old(Items(right)), p1.rows, rightName);
      if p1.error.Some? then e == p1.error && Holding(p1.rows) else e == p2.error && Holding(p2.rows)
  {
    ghost var li, ri := Items(left), Items(right);
    ghost var p1 := Renaming(left, li, m, leftName);
    e := RenameCols(left, leftName, m);
    assert Items(right) == ri;
    if e.Some? {
      return;
    }
    e := RenameCols(right, rightName, p1.rows);
  }

  /** The column work of `join` on the two tables' `_cols`, in place. */
  method JoinCols(left: Cols, right: Cols, leftName: string, rightName: string, ghost m: map<Description, Row>)
    returns (r: Result<Cols, DbError>)
    requires Covers(m, Items(left)) && Covers(m, Items(right)) && Holding(m)
    modifies ListOf(left), Items(left), Items(right)
    ensures var w := JoinWork(left, old(Items(left)), right, old(Items(right)), m, leftName, rightName);
      Holding(w.rows) && Items(left) == w.items && r == w.joined
  {
    ghost var li, ri := Items(left), Items(right);
    JoinWorkSteps(left, li, right, ri, m, leftName, rightName);
    ghost var p1 := Renaming(left, li, m, leftName);
    ghost var p2 := Renaming(right, ri, p1.rows, rightName);
    var e := RenameBoth(left, right, leftName, rightName, m);
    if e.Some? {
      return Failure(e.value);
    }
    r := Append(left, right, p2.rows);
  }

  /** A renamed description keeps its keys and has the prefixed name as its `Field`. */
  lemma QualifyRowRenames(row: Row, prefix: string)
    requires Renameable(row)
    ensures Keys(QualifyRow(row, prefix).value) == Keys(row)
    ensures Get(QualifyRow(row, prefix).value, "Field") == Some(Text(prefix + "." + Get(row, "Field").value.s))
    ensures forall k :: k != "Field" ==> Get(QualifyRow(row, prefix).value, k) == Get(row, k)
  {
    var cell := Text(prefix + "." + Get(row, "Field").value.s);
    PutKeepsKeys(row, "Field", cell);
    forall k | k != "Field" ensures Get(Put(row, "Field", cell), k) == Get(row, k) {
      PutKeepsOthers(row, "Field", cell, k);
    }
  }

  /** The rename loop succeeds exactly when every row can be renamed, and then renames each row. */
  lemma {:induction false} QualifyRowsPointwise(rows: seq<Row>, prefix: string)
    ensures QualifyRows(rows, prefix).Success? <==> forall j :: 0 <= j < |rows| ==> Renameable(rows[j])
    ensures QualifyRows(rows, prefix).Success? ==>
      forall j :: 0 <= j < |rows| ==> QualifyRows(rows, prefix).value[j] == QualifyRow(rows[j], prefix).value
  {
    if |rows| > 0 {
      var init := rows[..|rows| - 1];
      QualifyRowsPointwise(init, prefix);
      QualifyRowsStep(rows, prefix);
    }
  }

  /** One step of the induction above: the rows before the last one are the prefix `init`. */
  lemma QualifyRowsStep(rows: seq<Row>, prefix: string)
    requires |rows| > 0
    requires var init := rows[..|rows| - 1];
      && (QualifyRows(init, prefix).Success? <==> forall j :: 0 <= j < |init| ==> Renameable(init[j]))
      && (QualifyRows(init, prefix).Success? ==>
            forall j :: 0 <= j < |init| ==> QualifyRows(init, prefix).value[j] == QualifyRow(init[j], prefix).value)
    ensures QualifyRows(rows, prefix).Success? <==> forall j :: 0 <= j < |rows| ==> Renameable(rows[j])
    ensures QualifyRows(rows, prefix).Success? ==>
      forall j :: 0 <= j < |rows| ==> QualifyRows(rows, prefix).value[j] == QualifyRow(rows[j], prefix).value
  {
    var init := rows[..|rows| - 1];
    assert forall j :: 0 <= j < |init| ==> init[j] == rows[j];
  }

  /** The loop raises the exception of the first row it cannot rename. */
  lemma {:induction false} QualifyRowsFailsAt(rows: seq<Row>, prefix: string, k: nat)
    requires k < |rows| && QualifyRow(rows[k], prefix).Failure?
    requires forall j :: 0 <= j < k ==> QualifyRow(rows[j], prefix).Success?
    ensures QualifyRows(rows, prefix) == Failure(QualifyRow(rows[k], prefix).error)
  {
    var init := rows[..|rows| - 1];
    if k < |rows| - 1 {
      assert init[k] == rows[k];
      assert forall j :: 0 <= j < k ==> init[j] == rows[j];
      QualifyRowsFailsAt(init, prefix, k);
    } else {
      QualifyRowsPointwise(init, prefix);
      assert forall j :: 0 <= j < |init| ==> init[j] == rows[j];
    }
  }

  /** `Qualifiable` is the index of the first row that cannot be renamed. */
  lemma {:induction false} QualifiableAt(rows: seq<Row>, prefix: string, k: nat)
    requires k <= |rows|
    requires forall j :: 0 <= j < k ==> QualifyRow(rows[j], prefix).Success?
    requires k < |rows| ==> QualifyRow(rows[k], prefix).Failure?
    ensures Qualifiable(rows, prefix) == k
  {
    if k > 0 {
      assert forall j :: 0 <= j < k - 1 ==> rows[1..][j] == rows[j + 1];
      QualifiableAt(rows[1..], prefix, k - 1);
    }
  }

  class Database {
    const location: string
    const user: string
    const password: string
    const database: string
    /** The MySQL server: its answer to a statement, given every earlier call on the driver. */
    const server: (seq<Call>, string) -> Answer
    /** Whether the driver's `connect` succeeds, given every earlier call. */
    const admits: seq<Call> -> bool
    /** `MySQLdb.escape_string`. */
    const esc: Escaper

    /** Whether a driver connection is held (`_db` is not `None`). */
    var handle: bool
    /** `_tables`: `None` until a connect finds tables, and again after `close`. */
    var tables: Option<seq<Table>>
    /** The table attributes `setattr`/`delattr` manage, by table name. */
    var attrs: map<string, Table>
    /** Every call made on the driver so far. */
    var log: seq<Call>

    constructor (location: string, user: string, password: string, database: string,
                 server: (seq<Call>, string) -> Answer, admits: seq<Call> -> bool, esc: Escaper)
      ensures this.location == location && this.user == user && this.password == password && this.database == database
      ensures this.server == server && this.admits == admits && this.esc == esc
      ensures !handle && tables == None && attrs == map[] && log == []
    {
      this.location := location;
      this.user := user;
      this.password := password;
      this.database := database;
      this.server := server;
      this.admits := admits;
      this.esc := esc;
      handle := false;
      tables := None;
      attrs := map[];
      log := [];
    }

    /** The `open` property. */
    predicate IsOpen()
      reads this
    {
      handle
    }

    /** The `table_names` property: no names while `_tables` is `None` (or empty). */
    function TableNames(): (ns: seq<string>)
      reads this
      ensures tables.None? ==> ns == []
      ensures tables.Some? ==> |ns| == |tables.value| && forall i :: 0 <= i < |ns| ==> ns[i] == tables.value[i].name
    {
      if tables.Some? then Names(tables.value) else []
    }

    /** What `sql_query(text)` with its default arguments returns after the calls `h`. */
    function Answered(h: seq<Call>, text: string): Result<Reply, DbError>
    {
      Shape(server(h, text), None)
    }

    /** A run of statements sent one after the other through `sql_query`, stopping at the first exception. */
    function Batch(h: seq<Call>, texts: seq<string>): (x: Exchange)
      decreases texts
      ensures |x.log| <= |h| + |texts|
      ensures x.result.Success? ==> x.log == h + seq(|texts|, i requires 0 <= i < |texts| => Execute(texts[i]))
    {
      if |texts| == 0 then Exchange(Success(NoResult), h)
      else
        var a := Answered(h, texts[0]);
        if a.Failure? then Exchange(a, h + [Execute(texts[0])])
        else
          var x := Batch(h + [Execute(texts[0])], texts[1..]);
          assert x.result.Success? ==> x.log == h + seq(|texts|, i requires 0 <= i < |texts| => Execute(texts[i]));
          x
    }

    /** `sql_query`. */
    method SqlQuery(q: Arg, opts: Options) returns (r: Result<Reply, DbError>)
      modifies this`log
      ensures var x := SqlExchange(server, old(log), handle, q, opts); r == x.result && log == x.log
    {
      if !handle {
        return Failure(NotConnected);
      }
      if !q.StrArg? || !opts.limit.IntArg? || !opts.offset.IntArg? {
        return Failure(TypeError);
      }
      var text := q.s;
      if opts.limit.i > 0 {
        text := DropLast(text) + " LIMIT ";
        if opts.offset.i > 0 {
          text := text + IntToString(opts.offset.i) + ", ";
        }
        text := text + IntToString(opts.limit.i) + ";";
      }
      assert text == WithLimit(q.s, opts.limit.i, opts.offset.i);
      var answer := server(log, text);
      log := log + [Execute(text)];
      match answer
      case Refused =>
        return Failure(DriverError);
      case NoSet =>
        return Success(NoResult);
      case ResultSet(rows) =>
        var maxrows :- CheckMaxRows(opts.maxrows);
        var decoded :- DecodeRows(Fetch(rows, maxrows));
        return Success(Collapse(decoded));
    }

    /** `sql_query(text)` with the default arguments, as the other methods call it. */
    method Run(text: string) returns (r: Result<Reply, DbError>)
      requires handle
      modifies this`log
      ensures log == old(log) + [Execute(text)] && r == Answered(old(log), text)
    {
      r := SqlQuery(StrArg(text), Defaults);
    }

    /** `query`: validate, build the statement, hand it to `sql_query`. */
    method Query(verb: Arg, tbl: Arg, fields: Arg, extra: Arg, opts: Options) returns (r: Result<Reply, DbError>)
      modifies this`log
      ensures var x := QueryExchange(server, esc, old(log), handle, verb, tbl, fields, extra, opts);
              r == x.result && log == x.log
    {
      if !handle {
        return Failure(NotConnected);
      }
      var text :- BuildQuery(verb, tbl, fields, extra, esc);
      r := SqlQuery(StrArg(text), opts);
    }

    /**
     * `connect`: nothing when already open. Otherwise the driver connects (or raises), and
     * when `SHOW TABLES` lists tables each of them is described and set as an attribute,
     * and the registry becomes those attributes in the listed order.
     */
    method Connect() returns (r: Result<(), DbError>)
      modifies this`handle, this`log, this`attrs, this`tables
      ensures old(handle) ==> r == Success(()) && log == old(log) && handle
      ensures old(handle) ==> attrs == old(attrs) && tables == old(tables)
      ensures !old(handle) ==> (handle <==> admits(old(log)))
      ensures !old(handle) && !admits(old(log)) ==>
        r == Failure(DriverError) && log == old(log) + [DriverConnect] && attrs == old(attrs) && tables == old(tables)
      ensures !old(handle) && r.Success? ==> handle && Connected(old(log) + [DriverConnect], old(attrs), old(tables))
      ensures FreshTables()
    {
      if handle {
        return Success(());
      }
      var admitted := admits(log);
      log := log + [DriverConnect];
      if !admitted {
        return Failure(DriverError);
      }
      handle := true;
      r := LoadTables();
    }

    /** What `connect` does once the driver connected: list the tables, describe each, register them. */
    method LoadTables() returns (r: Result<(), DbError>)
      requires handle
      modifies this`log, this`attrs, this`tables
      ensures r.Success? ==> Connected(old(log), old(attrs), old(tables))
      ensures FreshTables()
    {
      var shown :- Run(ShowTablesSql);
      if !ReplyTruthy(shown) {
        return Success(());
      }
      var cells :- FirstCells(shown);
      var names :- DescribeEach(cells);
      ghost var base := old(log) + [Execute(ShowTablesSql)];
      assert Described(base, old(attrs), names);
      DescribedNamesSet(base, old(attrs), names);
      tables := Some(Pick(attrs, names));
      assert Described(base, old(attrs), names);
      return Success(());
    }

    /** The loop of `connect`: describe every listed table and set it as an attribute. */
    method DescribeEach(cells: seq<Cell>) returns (r: Result<seq<string>, DbError>)
      requires handle
      modifies this`log, this`attrs
      ensures r.Success? ==> (forall j :: 0 <= j < |cells| ==> cells[j].Text?) && r.value == CellTexts(cells)
      ensures r.Success? ==> Described(old(log), old(attrs), r.value)
      ensures FreshTables()
    {
      var names: seq<string> := [];
      ghost var replies: map<string, Reply> := map[];
      ghost var made: map<string, Table> := map[];
      while |names| < |cells|
        invariant handle
        invariant Progress(old(log), old(attrs), cells, names, replies, made)
        invariant FreshTables()
        decreases |cells| - |names|
      {
        if !cells[|names|].Text? {
          return Failure(TypeError);
        }
        var n := cells[|names|].s;
        var described;
        described, replies, made := DescribeNext(cells, old(log), old(attrs), names, replies, made);
        if described.Failure? {
          return Failure(described.error);
        }
        names := names + [n];
      }
      DescribedAll(old(log), old(attrs), cells, names, replies, made);
      return Success(names);
    }

    /** Once every cell is described, the loop of `connect` leaves the state `Described` states. */
    lemma DescribedAll(h0: seq<Call>, start: map<string, Table>, cells: seq<Cell>, names: seq<string>,
                       replies: map<string, Reply>, made: map<string, Table>)
      requires Progress(h0, start, cells, names, replies, made) && |names| == |cells|
      ensures (forall j :: 0 <= j < |cells| ==> cells[j].Text?) && names == CellTexts(cells)
      ensures Described(h0, start, names)
    {
      assert names == CellTexts(cells);
      DescribesKeys(h0, names);
    }

    /**
     * The first `|names|` cells are the names `names`, each described in turn after the
     * calls `h0` and registered over the attributes `start`.
     */
    ghost predicate Progress(h0: seq<Call>, start: map<string, Table>, cells: seq<Cell>, names: seq<string>,
                       replies: map<string, Reply>, made: map<string, Table>)
      reads this`log, this`attrs, made.Values
    {
      && |names| <= |cells|
      && (forall j :: 0 <= j < |names| ==> cells[j].Text? && names[j] == cells[j].s)
      && log == h0 + DescribeCalls(names)
      && Describes(h0, names) == Success(replies)
      && Registered(start, made, replies)
    }

    /** One turn of the loop of `connect`, for the next cell, which holds a name. */
    method DescribeNext(cells: seq<Cell>, ghost h0: seq<Call>, ghost start: map<string, Table>, names: seq<string>,
                        ghost replies: map<string, Reply>, ghost made: map<string, Table>)
      returns (r: Result<(), DbError>, ghost replies': map<string, Reply>, ghost made': map<string, Table>)
      requires handle && Progress(h0, start, cells, names, replies, made)
      requires |names| < |cells| && cells[|names|].Text?
      modifies this`log, this`attrs
      ensures r.Success? ==> Progress(h0, start, cells, names + [cells[|names|].s], replies', made')
      ensures FreshTables()
    {
      var n := cells[|names|].s;
      replies', made' := replies, made;
      ghost var before := log;
      r := SetDescribed(n, start, made, replies);
      if r.Failure? {
        return;
      }
      replies' := replies[n := attrs[n].described];
      made' := made[n := attrs[n]];
      ProgressStep(h0, start, cells, names, replies, replies', made', before);
    }

    /** The state after one more `DESCRIBE` and its attribute is one step further along. */
    lemma ProgressStep(h0: seq<Call>, start: map<string, Table>, cells: seq<Cell>, names: seq<string>,
                       replies: map<string, Reply>, replies': map<string, Reply>, made': map<string, Table>,
                       before: seq<Call>)
      requires |names| < |cells| && cells[|names|].Text?
      requires forall j :: 0 <= j < |names| ==> cells[j].Text? && names[j] == cells[j].s
      requires before == h0 + DescribeCalls(names) && Describes(h0, names) == Success(replies)
      requires log == before + [Execute(DescribeSql(cells[|names|].s))]
      requires Answered(before, DescribeSql(cells[|names|].s)).Success?
      requires replies' == replies[cells[|names|].s := Answered(before, DescribeSql(cells[|names|].s)).value]
      requires Registered(start, made', replies')
      ensures Progress(h0, start, cells, names + [cells[|names|].s], replies', made')
    {
      var n := cells[|names|].s;
      DescribeCallsSnoc(names, n);
      DescribesSnoc(h0, names, n);
    }

    /**
     * The attributes are those of `start` except that each of `made` is set, as a `Table`
     * of its name holding the reply in `replies`.
     */
    ghost predicate Registered(start: map<string, Table>, made: map<string, Table>, replies: map<string, Reply>)
      reads this`attrs, made.Values
    {
      Holds(made, replies) && Overlaid(start, made)
    }

    /** Each of `made` is a `Table` of this database, of its name, holding the reply in `replies`. */
    ghost predicate Holds(made: map<string, Table>, replies: map<string, Reply>)
      reads made.Values
    {
      && made.Keys == replies.Keys
      && (forall n :: n in made ==> made[n].name == n && made[n].db == this && made[n].described == replies[n])
    }

    /** The attributes are those of `start` with each of `made` set over them. */
    predicate Overlaid(start: map<string, Table>, made: map<string, Table>)
      reads this`attrs
    {
      OverlaidOn(attrs, start, made)
    }

    /** The map `a` is `start` with each of `made` set over it. */
    static predicate OverlaidOn(a: map<string, Table>, start: map<string, Table>, made: map<string, Table>)
    {
      && (forall n :: n in made ==> n in a && a[n] == made[n])
      && (forall n :: n in a && n !in made ==> n in start && a[n] == start[n])
      && start.Keys <= a.Keys
    }

    /** Setting one more table over both maps keeps the overlay. */
    static lemma OverlaidOneMore(a: map<string, Table>, start: map<string, Table>, made: map<string, Table>,
                                 n: string, t: Table)
      requires OverlaidOn(a, start, made)
      ensures OverlaidOn(a[n := t], start, made[n := t])
    {
    }

    /** One step of the loop of `connect`: `setattr(self, n, Table(self, n, self.sql_query('DESCRIBE ' + n + ';')))`. */
    method SetDescribed(n: string, ghost start: map<string, Table>, ghost made: map<string, Table>,
                        ghost replies: map<string, Reply>) returns (r: Result<(), DbError>)
      requires handle && Registered(start, made, replies)
      modifies this`log, this`attrs
      ensures log == old(log) + [Execute(DescribeSql(n))]
      ensures r.Success? <==> Answered(old(log), DescribeSql(n)).Success?
      ensures FreshTables()
      ensures r.Success? ==>
        && n in attrs && attrs[n].described == Answered(old(log), DescribeSql(n)).value
        && Registered(start, made[n := attrs[n]], replies[n := attrs[n].described])
    {
      var cols :- Run(DescribeSql(n));
      SetTable(n, cols, start, made, replies);
      r := Success(());
    }

    /** `setattr(self, n, Table(self, n, cols))`. */
    method SetTable(n: string, cols: Reply, ghost start: map<string, Table>, ghost made: map<string, Table>,
                    ghost replies: map<string, Reply>)
      requires Registered(start, made, replies)
      modifies this`attrs
      ensures n in attrs && attrs[n].described == cols && Value(attrs[n].cols) == cols && FreshCols(attrs[n].cols)
      ensures FreshTables()
      ensures Registered(start, made[n := attrs[n]], replies[n := cols])
    {
      var c := NewCols(cols);
      var t := new Table(this, n, c, cols);
      HoldsOneMore(made, replies, t, cols);
      OverlaidOneMore(attrs, start, made, n, t);
      attrs := attrs[n := t];
    }

    /** Setting one more table keeps every other table as it holds. */
    lemma HoldsOneMore(made: map<string, Table>, replies: map<string, Reply>, t: Table, cols: Reply)
      requires Holds(made, replies) && t.db == this && t.described == cols
      ensures Holds(made[t.name := t], replies[t.name := cols])
    {
    }

    /**
     * The `DESCRIBE` replies for `names` sent one after the other after the calls `h`, by
     * name (a name listed twice keeps its last reply), or the first exception.
     */
    function Describes(h: seq<Call>, names: seq<string>): (r: Result<map<string, Reply>, DbError>)
    {
      if |names| == 0 then Success(map[])
      else
        var init := names[..|names| - 1];
        var last := names[|names| - 1];
        var m := Describes(h, init);
        var d := Answered(h + DescribeCalls(init), DescribeSql(last));
        if m.Failure? then m
        else if d.Failure? then Failure(d.error)
        else Success(m.value[last := d.value])
    }

    /** Every described name has a reply. */
    lemma {:induction false} DescribesKeys(h: seq<Call>, names: seq<string>)
      requires Describes(h, names).Success?
      ensures forall i :: 0 <= i < |names| ==> names[i] in Describes(h, names).value
    {
      if |names| > 0 {
        var init := names[..|names| - 1];
        DescribesKeys(h, init);
        assert forall i :: 0 <= i < |init| ==> init[i] == names[i];
      }
    }

    lemma DescribesSnoc(h: seq<Call>, names: seq<string>, n: string)
      requires Describes(h, names).Success?
      ensures Describes(h, names + [n]) ==
        var d := Answered(h + DescribeCalls(names), DescribeSql(n));
        if d.Failure? then Failure(d.error) else Success(Describes(h, names).value[n := d.value])
    {
      assert (names + [n])[..|names|] == names;
    }

    /**
     * After the calls `h`, every one of `names` was described in turn and set as an
     * attribute holding its reply (a name listed twice keeps its last one); every other
     * attribute is as in `start`.
     */
    ghost predicate Described(h: seq<Call>, start: map<string, Table>, names: seq<string>)
      reads this`log, this`attrs, attrs.Values
    {
      && log == h + DescribeCalls(names)
      && Describes(h, names).Success?
      && var replies := Describes(h, names).value;
      && (forall i :: 0 <= i < |names| ==> names[i] in replies)
      && (forall n :: n in replies ==>
            && n in attrs && attrs[n].name == n && attrs[n].db == this && attrs[n].described == replies[n])
      && (forall n :: n in attrs && n !in replies ==> n in start && attrs[n] == start[n])
      && start.Keys <= attrs.Keys
    }

    /** A successful connect has logged the `SHOW TABLES;` statement right after the calls `h`. */
    lemma ConnectedLogStarts(h: seq<Call>, start: map<string, Table>, registry: Option<seq<Table>>)
      requires Connected(h, start, registry)
      ensures |log| >= |h| + 1 && log[..|h| + 1] == h + [Execute(ShowTablesSql)]
    {
      var base := h + [Execute(ShowTablesSql)];
      if ReplyTruthy(Answered(h, ShowTablesSql).value) {
        var names := CellTexts(FirstCells(Answered(h, ShowTablesSql).value).value);
        assert log == base + DescribeCalls(names);
      }
      assert log[..|base|] == base;
    }

    /** Every described name is an attribute. */
    lemma DescribedNamesSet(h: seq<Call>, start: map<string, Table>, names: seq<string>)
      requires Described(h, start, names)
      ensures forall i :: 0 <= i < |names| ==> names[i] in attrs
    {
    }

    /**
     * The state `connect` leaves when the driver connected with the calls `h` behind it and
     * nothing raised, from the attributes `start` and the registry `registry`.
     */
    ghost predicate Connected(h: seq<Call>, start: map<string, Table>, registry: Option<seq<Table>>)
      reads this`log, this`attrs, this`tables, attrs.Values
    {
      var shown := Answered(h, ShowTablesSql);
      var base := h + [Execute(ShowTablesSql)];
      && shown.Success?
      && if !ReplyTruthy(shown.value) then log == base && attrs == start && tables == registry
         else
           var cells := FirstCells(shown.value);
           && cells.Success?
           && (forall i :: 0 <= i < |cells.value| ==> cells.value[i].Text?)
           && var names := CellTexts(cells.value);
           && Described(base, start, names)
           && tables == Some(Pick(attrs, names))
    }

    /** Every attribute that is new or replaced holds a newly made `Table`. */
    twostate predicate FreshTables()
      reads this`attrs
    {
      forall n :: n in attrs && (n !in old(attrs) || attrs[n] != old(attrs)[n]) ==> fresh(attrs[n])
    }

    /** `commit`: only an open connection is committed. */
    method Commit()
      modifies this`log
      ensures log == old(log) + if handle then [DriverCommit] else []
    {
      if handle {
        log := log + [DriverCommit];
      }
    }

    /** `rollback`: only an open connection is rolled back. */
    method Rollback()
      modifies this`log
      ensures log == old(log) + if handle then [DriverRollback] else []
    {
      if handle {
        log := log + [DriverRollback];
      }
    }

    /**
     * `close`: nothing when closed. Otherwise the registry becomes `None`, the attribute of
     * every table `SHOW TABLES` lists is deleted, and only then is the driver closed.
     */
    method Close() returns (r: Result<(), DbError>)
      modifies this`handle, this`log, this`attrs, this`tables
      ensures !old(handle) ==> r == Success(()) && !handle && log == old(log) && attrs == old(attrs) && tables == old(tables)
      ensures old(handle) ==> tables == None
      ensures old(handle) ==> (r.Success? <==> !handle)
      ensures old(handle) ==> var shown := Answered(old(log), ShowTablesSql);
        && (shown.Failure? ==> r == Failure(shown.error) && log == old(log) + [Execute(ShowTablesSql)] && attrs == old(attrs))
        && (shown.Success? && FirstCells(shown.value).Failure? ==>
              r == Failure(FirstCells(shown.value).error) && log == old(log) + [Execute(ShowTablesSql)] && attrs == old(attrs))
        && (shown.Success? && FirstCells(shown.value).Success? ==>
              var cells := FirstCells(shown.value).value;
              && (r.Failure? <==> Unset(cells, old(attrs)).Some?)
              && (r.Failure? ==> r.error == Unset(cells, old(attrs)).value && log == old(log) + [Execute(ShowTablesSql)])
              && (r.Success? ==>
                    && log == old(log) + [Execute(ShowTablesSql), Disconnect]
                    && (forall n :: n in attrs <==> n in old(attrs) && n !in CellTexts(cells))))
      ensures forall n :: n in attrs ==> n in old(attrs) && attrs[n] == old(attrs)[n]
    {
      if !handle {
        return Success(());
      }
      tables := None;
      var shown :- Run(ShowTablesSql);
      var cells :- FirstCells(shown);
      var e := UnsetEach(cells);
      if e.Some? {
        return Failure(e.value);
      }
      log := log + [Disconnect];
      handle := false;
      return Success(());
    }

    /** The loop of `close`: `delattr(self, n)` for every listed name, in order, until one raises. */
    method UnsetEach(cells: seq<Cell>) returns (e: Option<DbError>)
      modifies this`attrs
      ensures e == Unset(cells, old(attrs))
      ensures e.None? ==> forall n :: n in attrs <==> n in old(attrs) && n !in CellTexts(cells)
      ensures forall n :: n in attrs ==> n in old(attrs) && attrs[n] == old(attrs)[n]
    {
      var i := 0;
      ghost var gone: seq<string> := [];
      while i < |cells|
        invariant 0 <= i <= |cells| && |gone| == i
        invariant forall j :: 0 <= j < i ==> cells[j].Text? && gone[j] == cells[j].s
        invariant Unset(cells, old(attrs)) == Unset(cells[i..], attrs)
        invariant forall n :: n in attrs <==> n in old(attrs) && n !in gone
        invariant forall n :: n in attrs ==> attrs[n] == old(attrs)[n]
      {
        if !cells[i].Text? {
          return Some(TypeError);
        }
        if cells[i].s !in attrs {
          return Some(AttributeError);
        }
        assert cells[i..][1..] == cells[i + 1..];
        attrs := attrs - {cells[i].s};
        gone := gone + [cells[i].s];
        i := i + 1;
      }
      assert gone == CellTexts(cells);
      return None;
    }

    /** `reconnect`: `close`, then `connect`. */
    method Reconnect() returns (r: Result<(), DbError>)
      modifies this`handle, this`log, this`attrs, this`tables
      ensures r.Success? ==> handle
      ensures !old(handle) && r.Success? ==> Connected(old(log) + [DriverConnect], old(attrs), old(tables))
      ensures old(handle) && r.Success? ==>
        |log| >= |old(log)| + 3 && log[..|old(log)| + 3] == old(log) + [Execute(ShowTablesSql), Disconnect, DriverConnect]
    {
      ghost var wasOpen := handle;
      var closed :- Close();
      assert !wasOpen ==> log == old(log) && attrs == old(attrs) && tables == old(tables) && !handle;
      assert wasOpen ==> log == old(log) + [Execute(ShowTablesSql), Disconnect] && !handle;
      ghost var h, a, t := log + [DriverConnect], attrs, tables;
      r := Connect();
      if wasOpen && r.Success? {
        ConnectedLogStarts(h, a, t);
        assert log[..|old(log)| + 3] == log[..|h| + 1][..|old(log)| + 3];
      }
    }

    /**
     * `remake_class`: the table is described again and its class file is written from the
     * reply, which raises unless every description has a `str` `Field`.
     */
    method RemakeClass(name: string) returns (r: Result<(), DbError>)
      modifies this`log
      ensures !handle ==> r == Success(()) && log == old(log)
      ensures handle ==> log == old(log) + [Execute(DescribeSql(name))] && r == ClassWritten(Answered(old(log), DescribeSql(name)))
    {
      if !handle {
        return Success(());
      }
      var cols :- Run(DescribeSql(name));
      var e := WriteClass(cols);
      r := if e.Some? then Failure(e.value) else Success(());
    }

    /** A statement whose reply is thrown away, sent only while open. */
    method Statement(text: string) returns (r: Result<(), DbError>)
      modifies this`log
      ensures !handle ==> r == Success(()) && log == old(log)
      ensures handle ==> log == old(log) + [Execute(text)] && r == Ignored(Answered(old(log), text))
    {
      if handle {
        var a := Run(text);
        r := Ignored(a);
      } else {
        r := Success(());
      }
    }

    /**
     * The registry update shared by `make_table`, `move_table` and the column methods:
     * `name` is described, its `Table` replaces the attribute `replacing`, and it replaces
     * the first registry entry called `replacing` by being appended at the end. With
     * `writeClass` the class file is written first, and its loop may raise.
     */
    method Refresh(name: string, replacing: string, writeClass: bool) returns (r: Result<Option<Table>, DbError>)
      requires handle
      modifies this`log, this`attrs, this`tables
      ensures Refreshed(old(log), name, replacing, writeClass, r)
    {
      var cols :- Run(DescribeSql(name));
      if writeClass {
        var e := WriteClass(cols);
        if e.Some? {
          return Failure(e.value);
        }
      }
      var c := NewCols(cols);
      var t := new Table(this, name, c, cols);
      attrs := (attrs - {replacing})[name := t];
      var registered :- Reregister(tables, replacing, t);
      tables := Some(registered);
      r := Success(Some(t));
    }

    /** The state after `Refresh` with the calls `h` behind it. */
    twostate predicate Refreshed(h: seq<Call>, name: string, replacing: string, writeClass: bool,
                                 new r: Result<Option<Table>, DbError>)
      reads this`log, this`attrs, this`tables, attrs.Values, if name in attrs then ListOf(attrs[name].cols) else {}
    {
      var d := Answered(h, DescribeSql(name));
      var c := if writeClass then ClassWritten(d) else Ignored(d);
      && log == h + [Execute(DescribeSql(name))]
      && (c.Failure? ==> r == Failure(c.error) && attrs == old(attrs) && tables == old(tables))
      && (c.Success? ==>
            && name in attrs
            && fresh(attrs[name])
            && attrs[name].db == this && attrs[name].name == name
            && attrs[name].described == d.value && FreshCols(attrs[name].cols)
            && attrs == (old(attrs) - {replacing})[name := attrs[name]]
            && (old(tables).None? ==> r == Failure(TypeError) && tables == None)
            && (old(tables).Some? ==>
                  && r == Success(Some(attrs[name]))
                  && tables == Some(RemoveFirst(old(tables).value, replacing) + [attrs[name]])))
    }

    /**
     * The state after the statements `texts`, then the exception `check` if there is one,
     * then `Refresh`, with the calls `h` before them.
     */
    twostate predicate Staged(h: seq<Call>, new texts: seq<string>, new check: Option<DbError>, name: string, replacing: string,
                              writeClass: bool, new r: Result<Option<Table>, DbError>)
      reads this`log, this`attrs, this`tables, attrs.Values, if name in attrs then ListOf(attrs[name].cols) else {}
    {
      var b := Batch(h, texts);
      if b.result.Failure? then r == Failure(b.result.error) && log == b.log && attrs == old(attrs) && tables == old(tables)
      else if check.Some? then r == Failure(check.value) && log == b.log && attrs == old(attrs) && tables == old(tables)
      else Refreshed(b.log, name, replacing, writeClass, r)
    }

    /** `make_table`: `None` while closed; with `mkClass` the class file is written from the description. */
    method MakeTable(name: string, defs: TableDefs, temp: bool, clobber: bool, mkClass: bool)
      returns (r: Result<Option<Table>, DbError>)
      modifies this`log, this`attrs, this`tables
      ensures !handle ==> r == Success(None) && log == old(log) && attrs == old(attrs) && tables == old(tables)
      ensures handle ==> Staged(old(log), [CreateTableSql(name, defs, temp, clobber)], None, name, name, mkClass, r)
    {
      if !handle {
        return Success(None);
      }
      var created :- Run(CreateTableSql(name, defs, temp, clobber));
      r := Refresh(name, name, mkClass);
    }

    /** `drop_table`, without the class file: the entry and the attribute of `name` go. */
    method DropTable(name: string, temp: bool) returns (r: Result<(), DbError>)
      modifies this`log, this`attrs, this`tables
      ensures !handle ==> r == Success(()) && log == old(log) && attrs == old(attrs) && tables == old(tables)
      ensures handle ==> var a := Answered(old(log), DropTableSql(name, temp));
        && log == old(log) + [Execute(DropTableSql(name, temp))]
        && (a.Failure? ==> r == Failure(a.error) && attrs == old(attrs) && tables == old(tables))
        && (a.Success? ==> r == Success(()) && tables == Deregister(old(tables), name) && attrs == old(attrs) - {name})
    {
      if !handle {
        return Success(());
      }
      var dropped :- Run(DropTableSql(name, temp));
      tables := Deregister(tables, name);
      attrs := attrs - {name};
      r := Success(());
    }

    /**
     * `move_table`: the table is described under its new name; with `mvClass` the class
     * file is written from that description.
     */
    method MoveTable(oldName: string, newName: string, mvClass: bool) returns (r: Result<Option<Table>, DbError>)
      modifies this`log, this`attrs, this`tables
      ensures !handle ==> r == Success(None) && log == old(log) && attrs == old(attrs) && tables == old(tables)
      ensures handle ==> Staged(old(log), [MoveTableSql(oldName, newName)], None, newName, oldName, mvClass, r)
    {
      if !handle {
        return Success(None);
      }
      var moved :- Run(MoveTableSql(oldName, newName));
      r := Refresh(newName, oldName, mvClass);
    }

    /** `truncate_table`. */
    method TruncateTable(name: string) returns (r: Result<(), DbError>)
      modifies this`log
      ensures !handle ==> r == Success(()) && log == old(log)
      ensures handle ==> log == old(log) + [Execute(TruncateTableSql(name))]
                         && r == Ignored(Answered(old(log), TruncateTableSql(name)))
    {
      r := Statement(TruncateTableSql(name));
    }

    /** The statements a column method sends before describing the table again. */
    function ColumnTexts(sql: string, name: string, alterClass: bool): (texts: seq<string>)
    {
      [sql] + if alterClass then [DescribeSql(name)] else []
    }

    /** The exception of the class-file loop of `remake_class` when `sql` is followed by it, if any. */
    function RemakeCheck(h: seq<Call>, sql: string, name: string, alterClass: bool): Option<DbError>
      reads this
    {
      if !alterClass then None
      else match Answered(h + [Execute(sql)], DescribeSql(name))
        case Success(cols) => ClassFileError(cols)
        case Failure(_) => None
    }

    /** The shared tail of `add_column`, `drop_column` and `alter_column`. */
    method AlterThen(sql: string, name: string, alterClass: bool) returns (r: Result<Option<Table>, DbError>)
      requires handle
      modifies this`log, this`attrs, this`tables
      ensures Staged(old(log), ColumnTexts(sql, name, alterClass), RemakeCheck(old(log), sql, name, alterClass), name, name, false, r)
    {
      ghost var h := log;
      ghost var texts := ColumnTexts(sql, name, alterClass);
      assert texts[0] == sql && texts[1..] == if alterClass then [DescribeSql(name)] else [];
      var altered :- Run(sql);
      if alterClass {
        ghost var h1 := log;
        assert Batch(h1, [DescribeSql(name)]) == (var a := Answered(h1, DescribeSql(name));
          if a.Failure? then Exchange(a, h1 + [Execute(DescribeSql(name))]) else Batch(h1 + [Execute(DescribeSql(name))], []));
        var remade :- RemakeClass(name);
      }
      r := Refresh(name, name, false);
    }

    /** `add_column`: `None` while closed. */
    method AddColumn(name: string, field: string, definition: string, after: Option<string>, alterClass: bool)
      returns (r: Result<Option<Table>, DbError>)
      modifies this`log, this`attrs, this`tables
      ensures !handle ==> r == Success(None) && log == old(log) && attrs == old(attrs) && tables == old(tables)
      ensures handle ==> Staged(old(log), ColumnTexts(AddColumnSql(name, field, definition, after), name, alterClass),
                                 RemakeCheck(old(log), AddColumnSql(name, field, definition, after), name, alterClass), name, name, false, r)
    {
      if !handle {
        return Success(None);
      }
      r := AlterThen(AddColumnSql(name, field, definition, after), name, alterClass);
    }

    /** `drop_column`: `None` while closed. */
    method DropColumn(name: string, field: string, alterClass: bool) returns (r: Result<Option<Table>, DbError>)
      modifies this`log, this`attrs, this`tables
      ensures !handle ==> r == Success(None) && log == old(log) && attrs == old(attrs) && tables == old(tables)
      ensures handle ==> Staged(old(log), ColumnTexts(DropColumnSql(name, field), name, alterClass),
                                 RemakeCheck(old(log), DropColumnSql(name, field), name, alterClass), name, name, false, r)
    {
      if !handle {
        return Success(None);
      }
      r := AlterThen(DropColumnSql(name, field), name, alterClass);
    }

    /** `alter_column`: `None` while closed. */
    method AlterColumn(name: string, field: string, definition: string, newName: Option<string>, alterClass: bool)
      returns (r: Result<Option<Table>, DbError>)
      modifies this`log, this`attrs, this`tables
      ensures !handle ==> r == Success(None) && log == old(log) && attrs == old(attrs) && tables == old(tables)
      ensures handle ==> Staged(old(log), ColumnTexts(AlterColumnSql(name, field, definition, newName), name, alterClass),
                                 RemakeCheck(old(log), AlterColumnSql(name, field, definition, newName), name, alterClass), name, name, false, r)
    {
      if !handle {
        return Success(None);
      }
      r := AlterThen(AlterColumnSql(name, field, definition, newName), name, alterClass);
    }

    /** `add_fk`. */
    method AddFk(name: string, table: string, field: string, reference: string) returns (r: Result<(), DbError>)
      modifies this`log
      ensures !handle ==> r == Success(()) && log == old(log)
      ensures handle ==> log == old(log) + [Execute(AddFkSql(name, table, field, reference))]
                         && r == Ignored(Answered(old(log), AddFkSql(name, table, field, reference)))
    {
      r := Statement(AddFkSql(name, table, field, reference));
    }

    /** `drop_fk`. */
    method DropFk(name: string, table: string) returns (r: Result<(), DbError>)
      modifies this`log
      ensures !handle ==> r == Success(()) && log == old(log)
      ensures handle ==> log == old(log) + [Execute(DropFkSql(name, table))]
                         && r == Ignored(Answered(old(log), DropFkSql(name, table)))
    {
      r := Statement(DropFkSql(name, table));
    }
  }

  lemma DescribeCallsSnoc(names: seq<string>, n: string)
    ensures DescribeCalls(names + [n]) == DescribeCalls(names) + [Execute(DescribeSql(n))]
  {
    assert (names + [n])[..|names|] == names;
  }

  // ----- The registry, close and join, stated over values -----

  /** `del ts[names.index(name)]` removes exactly the entry at the first index of `name`. */
  lemma RemoveFirstSplices(ts: seq<Table>, name: string)
    requires name in Names(ts)
    ensures var k := IndexOf(Names(ts), name);
            RemoveFirst(ts, name) == ts[..k] + ts[k + 1..]
  {
    var ns := Names(ts);
    var k := IndexOf(ns, name);
    assert forall j :: 0 <= j < k ==> ns[..k][j] == ts[j].name;
    RemoveFirstAt(ts, name, k);
  }

  lemma {:induction false} RemoveFirstAt(ts: seq<Table>, name: string, k: nat)
    requires k < |ts| && ts[k].name == name
    requires forall j :: 0 <= j < k ==> ts[j].name != name
    ensures RemoveFirst(ts, name) == ts[..k] + ts[k + 1..]
  {
    if k > 0 {
      var tail := ts[1..];
      assert tail[k - 1].name == name;
      assert forall j :: 0 <= j < k - 1 ==> tail[j].name != name by {
        forall j | 0 <= j < k - 1 ensures tail[j].name != name { assert tail[j] == ts[j + 1]; }
      }
      RemoveFirstAt(tail, name, k - 1);
      assert RemoveFirst(ts, name) == [ts[0]] + RemoveFirst(tail, name);
      assert tail[..k - 1] == ts[1..k] && tail[k..] == ts[k + 1..];
      assert [ts[0]] + ts[1..k] == ts[..k];
    }
  }

  /** Without an entry of that name the registry list is left as it is. */
  lemma {:induction false} RemoveFirstAbsent(ts: seq<Table>, name: string)
    requires forall j :: 0 <= j < |ts| ==> ts[j].name != name
    ensures RemoveFirst(ts, name) == ts
  {
    if |ts| > 0 {
      assert forall j :: 0 <= j < |ts| - 1 ==> ts[1..][j] == ts[j + 1];
      RemoveFirstAbsent(ts[1..], name);
    }
  }

  /**
   * Re-registering `name` deletes its first entry (if any) and appends the new table at
   * the end; every other entry keeps its place in the order.
   */
  lemma ReregisterKeepsOrder(ts: seq<Table>, name: string, t: Table)
    ensures name in Names(ts) ==>
              var k := IndexOf(Names(ts), name); Reregister(Some(ts), name, t) == Success(ts[..k] + ts[k + 1..] + [t])
    ensures name !in Names(ts) ==> Reregister(Some(ts), name, t) == Success(ts + [t])
  {
    if name in Names(ts) {
      RemoveFirstSplices(ts, name);
    } else {
      assert forall j :: 0 <= j < |ts| ==> Names(ts)[j] == ts[j].name;
      RemoveFirstAbsent(ts, name);
    }
  }

  /** `drop_table` removes only the first entry of the dropped name. */
  lemma DeregisterRemovesOnlyName(ts: seq<Table>, name: string)
    ensures name in Names(ts) ==>
              var k := IndexOf(Names(ts), name); Deregister(Some(ts), name) == Some(ts[..k] + ts[k + 1..])
    ensures name !in Names(ts) ==> Deregister(Some(ts), name) == Some(ts)
  {
    if name in Names(ts) {
      RemoveFirstSplices(ts, name);
    } else {
      assert forall j :: 0 <= j < |ts| ==> Names(ts)[j] == ts[j].name;
      RemoveFirstAbsent(ts, name);
    }
  }

  /** Deleting a name from a list and its attributes alike keeps them in step. */
  lemma InStepWithout(ts: seq<Table>, attrs: map<string, Table>, name: string)
    requires InStep(ts, attrs)
    ensures InStep(RemoveFirst(ts, name), attrs - {name})
  {
    if name in Names(ts) {
      var k := IndexOf(Names(ts), name);
      RemoveFirstSplices(ts, name);
      SpliceInStep(ts, attrs, k);
    } else {
      WithoutAbsent(ts, attrs, name);
    }
  }

  lemma WithoutAbsent(ts: seq<Table>, attrs: map<string, Table>, name: string)
    requires InStep(ts, attrs) && name !in Names(ts)
    ensures RemoveFirst(ts, name) == ts && attrs - {name} == attrs
  {
    assert forall j :: 0 <= j < |ts| ==> Names(ts)[j] == ts[j].name;
    RemoveFirstAbsent(ts, name);
  }

  lemma SpliceInStep(ts: seq<Table>, attrs: map<string, Table>, k: nat)
    requires InStep(ts, attrs) && k < |ts|
    ensures InStep(ts[..k] + ts[k + 1..], attrs - {Names(ts)[k]})
  {
    var r := ts[..k] + ts[k + 1..];
    SpliceIndices(ts, k);
    SpliceDistinct(ts, k);
    SpliceEntries(ts, attrs, k);
    SpliceCovers(ts, attrs, k);
  }

  lemma SpliceIndices(ts: seq<Table>, k: nat)
    requires k < |ts|
    ensures var r := ts[..k] + ts[k + 1..];
      && |r| == |ts| - 1
      && (forall i :: 0 <= i < k ==> r[i] == ts[i])
      && (forall i :: k <= i < |r| ==> r[i] == ts[i + 1])
  {
  }

  lemma SpliceDistinct(ts: seq<Table>, k: nat)
    requires k < |ts| && Distinct(Names(ts))
    ensures Distinct(Names(ts[..k] + ts[k + 1..]))
  {
    NamesSplice(ts, k);
    DistinctSplice(Names(ts), k);
  }

  lemma NamesSplice(ts: seq<Table>, k: nat)
    requires k < |ts|
    ensures Names(ts[..k] + ts[k + 1..]) == Names(ts)[..k] + Names(ts)[k + 1..]
  {
    NamesConcat(ts[..k], ts[k + 1..]);
    NamesSlice(ts, 0, k);
    NamesSlice(ts, k + 1, |ts|);
    assert ts[..k] == ts[0..k] && ts[k + 1..] == ts[k + 1..|ts|];
  }

  lemma NamesConcat(a: seq<Table>, b: seq<Table>)
    ensures Names(a + b) == Names(a) + Names(b)
  {
    var l, r := Names(a + b), Names(a) + Names(b);
    forall i | 0 <= i < |l| ensures l[i] == r[i] {
      if i < |a| {
        assert (a + b)[i] == a[i];
      } else {
        assert (a + b)[i] == b[i - |a|];
      }
    }
  }

  lemma NamesSlice(ts: seq<Table>, lo: nat, hi: nat)
    requires lo <= hi <= |ts|
    ensures Names(ts[lo..hi]) == Names(ts)[lo..hi]
  {
    var l, r := Names(ts[lo..hi]), Names(ts)[lo..hi];
    forall i | 0 <= i < |l| ensures l[i] == r[i] {
      assert ts[lo..hi][i] == ts[lo + i];
    }
  }

  lemma DistinctSplice(ns: seq<string>, k: nat)
    requires k < |ns| && Distinct(ns)
    ensures Distinct(ns[..k] + ns[k + 1..])
  {
    var r := ns[..k] + ns[k + 1..];
    forall i, j | 0 <= i < j < |r| ensures r[i] != r[j] {
      var i', j' := if i < k then i else i + 1, if j < k then j else j + 1;
      assert r[i] == ns[i'] && r[j] == ns[j'];
    }
  }

  lemma SpliceEntries(ts: seq<Table>, attrs: map<string, Table>, k: nat)
    requires InStep(ts, attrs) && k < |ts|
    ensures var r := ts[..k] + ts[k + 1..];
      forall i :: 0 <= i < |r| ==> r[i].name in attrs - {ts[k].name} && (attrs - {ts[k].name})[r[i].name] == r[i]
  {
    var r := ts[..k] + ts[k + 1..];
    SpliceIndices(ts, k);
    var ns := Names(ts);
    forall i | 0 <= i < |r| ensures r[i].name in attrs - {ts[k].name} && (attrs - {ts[k].name})[r[i].name] == r[i] {
      var i' := if i < k then i else i + 1;
      assert r[i] == ts[i'] && ns[i'] != ns[k];
    }
  }

  lemma SpliceCovers(ts: seq<Table>, attrs: map<string, Table>, k: nat)
    requires InStep(ts, attrs) && k < |ts|
    ensures forall n :: n in attrs - {ts[k].name} ==> n in Names(ts[..k] + ts[k + 1..])
  {
    var r := ts[..k] + ts[k + 1..];
    SpliceIndices(ts, k);
    var ns, rs := Names(ts), Names(r);
    forall n | n in attrs - {ts[k].name} ensures n in rs {
      var j :| 0 <= j < |ns| && ns[j] == n;
      if j < k {
        assert rs[j] == n;
      } else {
        assert rs[j - 1] == n;
      }
    }
  }

  /** Appending a table whose name is not yet registered, and setting its attribute, keeps them in step. */
  lemma InStepAppend(ts: seq<Table>, attrs: map<string, Table>, t: Table)
    requires InStep(ts, attrs) && t.name !in attrs
    ensures InStep(ts + [t], attrs[t.name := t])
  {
    var r := ts + [t];
    var ns, rs := Names(ts), Names(r);
    assert forall i :: 0 <= i < |ts| ==> rs[i] == ns[i];
    assert Distinct(rs) by {
      forall i, j | 0 <= i < j < |r| ensures rs[i] != rs[j] {
        if j == |ts| {
          assert ts[i].name in attrs;
        }
      }
    }
    forall n | n in attrs[t.name := t] ensures n in rs {
      if n == t.name {
        assert rs[|ts|] == n;
      } else {
        var j :| 0 <= j < |ns| && ns[j] == n;
        assert rs[j] == n;
      }
    }
  }

  /**
   * The registry update of `make_table`, `move_table` and the column methods keeps the
   * list and the attributes in step, unless a table is moved onto a name that is already
   * registered under another table.
   */
  lemma RefreshKeepsInStep(ts: seq<Table>, attrs: map<string, Table>, replacing: string, t: Table)
    requires InStep(ts, attrs)
    requires t.name == replacing || t.name !in attrs
    ensures InStep(RemoveFirst(ts, replacing) + [t], (attrs - {replacing})[t.name := t])
  {
    InStepWithout(ts, attrs, replacing);
    InStepAppend(RemoveFirst(ts, replacing), attrs - {replacing}, t);
  }

  /**
   * Moving a table onto a name another registered table has leaves that name in the list
   * twice: the old entry is not removed, only the moved one is.
   */
  lemma MoveOntoRegisteredDuplicates(ts: seq<Table>, attrs: map<string, Table>, oldName: string, t: Table)
    requires InStep(ts, attrs)
    requires oldName in attrs && t.name in attrs && t.name != oldName
    ensures !Distinct(Names(RemoveFirst(ts, oldName) + [t]))
  {
    InStepWithout(ts, attrs, oldName);
    var r := RemoveFirst(ts, oldName);
    var rs := Names(r);
    assert t.name in attrs - {oldName};
    var j :| 0 <= j < |rs| && rs[j] == t.name;
    var all := Names(r + [t]);
    assert all[j] == t.name && all[|r|] == t.name;
  }

  /**
   * `close` deletes every attribute without raising exactly when every listed name is a
   * `str` with an attribute and no name is listed twice.
   */
  lemma {:induction false} UnsetSucceedsIff(cells: seq<Cell>, attrs: map<string, Table>)
    ensures Unset(cells, attrs).None? <==>
              && (forall i :: 0 <= i < |cells| ==> cells[i].Text? && cells[i].s in attrs)
              && (forall i, j :: 0 <= i < j < |cells| ==> cells[i] != cells[j])
  {
    if |cells| > 0 && cells[0].Text? && cells[0].s in attrs {
      var tail, rest := cells[1..], attrs - {cells[0].s};
      UnsetSucceedsIff(tail, rest);
      assert forall i :: 0 <= i < |tail| ==> tail[i] == cells[i + 1];
      if Unset(cells, attrs).None? {
        forall i, j | 0 <= i < j < |cells| ensures cells[i] != cells[j] {
          if i > 0 {
            assert tail[i - 1] != tail[j - 1];
          } else {
            assert tail[j - 1].s in rest;
          }
        }
      } else {
        UnsetTailConditions(cells, attrs);
      }
    }
  }

  lemma UnsetTailConditions(cells: seq<Cell>, attrs: map<string, Table>)
    requires |cells| > 0 && cells[0].Text?
    ensures var tail, rest := cells[1..], attrs - {cells[0].s};
      (&& (forall i :: 0 <= i < |cells| ==> cells[i].Text? && cells[i].s in attrs)
       && (forall i, j :: 0 <= i < j < |cells| ==> cells[i] != cells[j]))
      ==> (&& (forall i :: 0 <= i < |tail| ==> tail[i].Text? && tail[i].s in rest)
           && (forall i, j :: 0 <= i < j < |tail| ==> tail[i] != tail[j]))
  {
    var tail, rest := cells[1..], attrs - {cells[0].s};
    if (forall i :: 0 <= i < |cells| ==> cells[i].Text? && cells[i].s in attrs)
       && (forall i, j :: 0 <= i < j < |cells| ==> cells[i] != cells[j]) {
      forall i | 0 <= i < |tail| ensures tail[i].Text? && tail[i].s in rest {
        assert tail[i] == cells[i + 1] && cells[0] != cells[i + 1];
      }
      forall i, j | 0 <= i < j < |tail| ensures tail[i] != tail[j] {
        assert tail[i] == cells[i + 1] && tail[j] == cells[j + 1];
      }
    }
  }

  /**
   * Over distinct dicts the rename loop gets through the first `Qualifiable` rows: those
   * dicts hold their renamed rows, the others are untouched, and the loop raises the
   * exception of the first row it cannot rename.
   */
  lemma {:induction false} RenameLoopAt(items: seq<Description>, m: map<Description, Row>, prefix: string)
    requires Covers(m, items) && Unshared(items)
    ensures var rows := RowsOf(items, m);
      var k := Qualifiable(rows, prefix);
      var p := RenameLoop(items, m, prefix);
      && (p.error.None? <==> k == |items|)
      && (k < |items| ==> p.error == Some(QualifyRow(rows[k], prefix).error))
      && (forall j :: 0 <= j < |items| ==> p.rows[items[j]] == if j < k then QualifyRow(rows[j], prefix).value else rows[j])
    decreases |items|
  {
    var rows := RowsOf(items, m);
    if |items| > 0 && QualifyRow(rows[0], prefix).Success? {
      var d, rest := items[0], items[1..];
      var m' := m[d := QualifyRow(rows[0], prefix).value];
      RenameLoopStep(items, m, prefix);
      RenameLoopAt(rest, m', prefix);
      var p := RenameLoop(rest, m', prefix);
      assert p.rows[d] == m'[d];
      forall j | 1 <= j < |items|
        ensures p.rows[items[j]] == if j < Qualifiable(rows, prefix) then QualifyRow(rows[j], prefix).value else rows[j]
      {
        assert items[j] == rest[j - 1] && rows[j] == rows[1..][j - 1];
      }
    }
  }

  /** One successful rename: the loop goes on over the other dicts, with the first one renamed. */
  lemma RenameLoopStep(items: seq<Description>, m: map<Description, Row>, prefix: string)
    requires Covers(m, items) && Unshared(items) && |items| > 0
    requires QualifyRow(m[items[0]], prefix).Success?
    ensures var m' := m[items[0] := QualifyRow(m[items[0]], prefix).value];
      && items[0] !in items[1..]
      && Covers(m', items[1..]) && Unshared(items[1..])
      && RowsOf(items[1..], m') == RowsOf(items, m)[1..]
      && Qualifiable(RowsOf(items, m), prefix) == 1 + Qualifiable(RowsOf(items, m)[1..], prefix)
      && RenameLoop(items, m, prefix) == RenameLoop(items[1..], m', prefix)
  {
    var rows := RowsOf(items, m);
    var d, rest := items[0], items[1..];
    var m' := m[d := QualifyRow(rows[0], prefix).value];
    assert forall j :: 0 <= j < |rest| ==> rest[j] == items[j + 1] && rest[j] != d;
    assert d !in rest;
    assert RowsOf(rest, m') == rows[1..];
  }

  /** Over distinct dicts the rename loop is `QualifyRows` on their rows: the same exception, or the renamed rows. */
  lemma RenameLoopQualifies(items: seq<Description>, m: map<Description, Row>, prefix: string)
    requires Covers(m, items) && Unshared(items)
    ensures var p := RenameLoop(items, m, prefix);
      var q := QualifyRows(RowsOf(items, m), prefix);
      && (p.error.None? <==> q.Success?)
      && (p.error.Some? ==> q == Failure(p.error.value))
      && (p.error.None? ==> RowsOf(items, p.rows) == q.value)
  {
    var rows := RowsOf(items, m);
    RenameLoopAt(items, m, prefix);
    QualifyRowsPointwise(rows, prefix);
    if Qualifiable(rows, prefix) < |items| {
      QualifyRowsFailsAt(rows, prefix, Qualifiable(rows, prefix));
    }
  }

  /** The two lists hold no dict twice and share none. */
  lemma UnsharedHalves(li: seq<Description>, ri: seq<Description>)
    requires Unshared(li + ri)
    ensures Unshared(li) && Unshared(ri)
    ensures forall i, j :: 0 <= i < |li| && 0 <= j < |ri| ==> li[i] != ri[j]
  {
    assert forall i :: 0 <= i < |li| ==> (li + ri)[i] == li[i];
    assert forall j :: 0 <= j < |ri| ==> (li + ri)[|li| + j] == ri[j];
  }

  /** A rename loop over distinct dicts that all have a `str` `Field` gets through and renames every one. */
  lemma RenameLoopRenamesAll(items: seq<Description>, m: map<Description, Row>, prefix: string)
    requires Covers(m, items) && Unshared(items)
    requires forall j :: 0 <= j < |items| ==> Renameable(m[items[j]])
    ensures var p := RenameLoop(items, m, prefix);
      && p.error.None?
      && forall j :: 0 <= j < |items| ==> Renames(m[items[j]], p.rows[items[j]], prefix)
  {
    QualifiableAt(RowsOf(items, m), prefix, |items|);
    RenameLoopAt(items, m, prefix);
    var p := RenameLoop(items, m, prefix);
    forall j | 0 <= j < |items| ensures Renames(m[items[j]], p.rows[items[j]], prefix) {
      QualifyRowRenames(m[items[j]], prefix);
    }
  }

  /**
   * Joining two tables whose lists share no dict and whose descriptions all have a `str`
   * `Field`: the new table gets this table's own list, now this table's dicts followed by
   * the other table's; each of this table's dicts has its `Field` prefixed by its name and
   * each of the other's by the other name, all other keys and values unchanged.
   */
  lemma JoinQualifiesBoth(l: DescList, li: seq<Description>, r: DescList, ri: seq<Description>, m: map<Description, Row>,
                          leftName: string, rightName: string)
    requires Covers(m, li) && Covers(m, ri) && Unshared(li + ri)
    requires forall j :: 0 <= j < |li| ==> Renameable(m[li[j]])
    requires forall j :: 0 <= j < |ri| ==> Renameable(m[ri[j]])
    ensures var w := JoinWork(Listed(l), li, Listed(r), ri, m, leftName, rightName);
      && w.joined == Success(Listed(l)) && w.items == li + ri
      && (forall j :: 0 <= j < |li| ==> Renames(m[li[j]], w.rows[li[j]], leftName))
      && (forall j :: 0 <= j < |ri| ==> Renames(m[ri[j]], w.rows[ri[j]], rightName))
  {
    UnsharedHalves(li, ri);
    RenameLoopRenamesAll(li, m, leftName);
    var p1 := RenameLoop(li, m, leftName);
    forall j | 0 <= j < |ri| ensures p1.rows[ri[j]] == m[ri[j]] {
      assert ri[j] !in li;
    }
    RenameLoopRenamesAll(ri, p1.rows, rightName);
    var p2 := RenameLoop(ri, p1.rows, rightName);
    forall j | 0 <= j < |li| ensures p2.rows[li[j]] == p1.rows[li[j]] {
      assert li[j] !in ri;
    }
    JoinWorkSteps(Listed(l), li, Listed(r), ri, m, leftName, rightName);
  }

  /**
   * A table joined with itself renames its one list twice, so every `Field` gets the prefix
   * twice, and then appends the list to itself: every dict is in it twice.
   */
  lemma SelfJoinDoubles(l: DescList, li: seq<Description>, m: map<Description, Row>, name: string)
    requires Covers(m, li) && Unshared(li)
    requires forall j :: 0 <= j < |li| ==> Renameable(m[li[j]])
    ensures var w := JoinWork(Listed(l), li, Listed(l), li, m, name, name);
      && w.joined == Success(Listed(l)) && w.items == li + li
      && (forall j :: 0 <= j < |li| ==> Renames(m[li[j]], w.rows[li[j]], name + "." + name))
  {
    RenameLoopRenamesAll(li, m, name);
    var p1 := RenameLoop(li, m, name);
    RenameLoopRenamesAll(li, p1.rows, name);
    var p2 := RenameLoop(li, p1.rows, name);
    forall j | 0 <= j < |li| ensures Renames(m[li[j]], p2.rows[li[j]], name + "." + name) {
      TwiceRenamed(m[li[j]], p1.rows[li[j]], p2.rows[li[j]], name);
    }
  }

  /**
   * `j = a.join(b, ...)` followed by `j.join(c, ...)`: `j` holds `a`'s very list, so the second
   * join renames `b`'s dicts a second time, under `j`'s name, and appends `c`'s dicts to `a`'s
   * list as well.
   */
  lemma ChainedJoinRenamesAgain(l: DescList, li: seq<Description>, r: DescList, ri: seq<Description>,
                                c: DescList, ci: seq<Description>, m: map<Description, Row>,
                                a: string, b: string, j: string, cn: string)
    requires Covers(m, li) && Covers(m, ri) && Covers(m, ci) && Unshared(li + ri + ci)
    requires forall k :: 0 <= k < |li| ==> Renameable(m[li[k]])
    requires forall k :: 0 <= k < |ri| ==> Renameable(m[ri[k]])
    requires forall k :: 0 <= k < |ci| ==> Renameable(m[ci[k]])
    ensures var w1 := JoinWork(Listed(l), li, Listed(r), ri, m, a, b);
      var w2 := JoinWork(Listed(l), w1.items, Listed(c), ci, w1.rows, j, cn);
      && w1.items == li + ri && w2.joined == Success(Listed(l)) && w2.items == li + ri + ci
      && (forall k :: 0 <= k < |ri| ==> Renames(m[ri[k]], w1.rows[ri[k]], b) && Renames(w1.rows[ri[k]], w2.rows[ri[k]], j))
  {
    UnsharedHalves(li + ri, ci);
    JoinQualifiesBoth(l, li, r, ri, m, a, b);
    var w1 := JoinWork(Listed(l), li, Listed(r), ri, m, a, b);
    var lr := li + ri;
    assert Covers(w1.rows, lr) && Covers(w1.rows, ci);
    forall k | 0 <= k < |lr| ensures Renameable(w1.rows[lr[k]]) {
      if k < |li| {
        assert lr[k] == li[k];
      } else {
        assert lr[k] == ri[k - |li|];
      }
    }
    forall k | 0 <= k < |ci| ensures w1.rows[ci[k]] == m[ci[k]] {
      assert ci[k] !in lr;
    }
    JoinQualifiesBoth(l, lr, c, ci, w1.rows, j, cn);
    forall k | 0 <= k < |ri| ensures ri[k] == lr[|li| + k] {
    }
  }

  /**
   * When one of this table's descriptions has no `str` `Field`, the join raises the
   * exception the class-file loop would raise on them, before `tbl`'s dicts are touched;
   * the dicts before the bad one stay renamed.
   */
  lemma JoinStopsAtLeft(l: DescList, li: seq<Description>, right: Cols, ri: seq<Description>, m: map<Description, Row>,
                        leftName: string, rightName: string)
    requires Covers(m, li) && Covers(m, ri) && Unshared(li)
    requires FieldError(RowsOf(li, m)).Some?
    ensures var w := JoinWork(Listed(l), li, right, ri, m, leftName, rightName);
      && w.joined == Failure(FieldError(RowsOf(li, m)).value) && w.items == li
      && (forall d :: d in m && d !in li ==> w.rows[d] == m[d])
  {
    RenameLoopQualifies(li, m, leftName);
    ClassFileFailsLikeRename(RowsOf(li, m), leftName);
  }

  /**
   * Descriptions that collapsed to `''` pass both rename loops and `'' += ''` succeeds, so the
   * join gives a table over `''`; `'' += b''` raises `TypeError`.
   */
  lemma EmptyTextJoin(m: map<Description, Row>, leftName: string, rightName: string)
    ensures JoinWork(Unlisted(Scalar(Text(""))), [], Unlisted(Scalar(Text(""))), [], m, leftName, rightName)
         == Work(m, [], Success(Unlisted(Scalar(Text("")))))
    ensures JoinWork(Unlisted(Scalar(Text(""))), [], Unlisted(Scalar(Bytes([]))), [], m, leftName, rightName).joined
         == Failure(TypeError)
  {
  }

  /** `b` is `a` with its `Field` prefixed by `prefix` and a dot, keys and all other values unchanged. */
  ghost predicate Renames(a: Row, b: Row, prefix: string)
  {
    && Renameable(a)
    && Keys(b) == Keys(a)
    && Get(b, "Field") == Some(Text(prefix + "." + Get(a, "Field").value.s))
    && (forall k :: k != "Field" ==> Get(b, k) == Get(a, k))
  }

  lemma TwiceRenamed(a: Row, b: Row, c: Row, name: string)
    requires Renames(a, b, name) && Renames(b, c, name)
    ensures Renames(a, c, name + "." + name)
  {
    var f := Get(a, "Field").value.s;
    assert name + "." + (name + "." + f) == (name + "." + name) + "." + f;
  }

  /** The text a `Table` method's request makes `query` send. */
  function RequestText(req: Request, name: string, esc: Escaper): Result<string, DbError>
  {
    QueryText(StrArg(req.verb), StrArg(name), req.fields, req.extra, esc)
  }

  /** `' WHERE w'` for a non-empty `where`, as it lands in the statement. */
  function WhereText(where: Option<string>): string
  {
    if where.Some? && where.value != "" then " WHERE " + where.value else ""
  }

  lemma WhereSuffix(where: Option<string>)
    ensures ExtraSuffix(StrArg(WhereClause(where))) == WhereText(where)
    ensures ';' in WhereClause(where) <==> where.Some? && ';' in where.value
  {
    if where.Some? && where.value != "" {
      assert " " + ("WHERE " + where.value) == " WHERE " + where.value;
      assert WhereClause(where) == "WHERE " + where.value;
    }
  }

  /** `count` sends `SELECT COUNT(*) FROM t[ WHERE w];`, and refuses a `where` holding a `;`. */
  lemma CountStatement(name: string, where: Option<string>, esc: Escaper)
    ensures where.Some? && ';' in where.value ==> RequestText(CountRequest(where), name, esc) == Failure(InvalidCommand)
    ensures !(where.Some? && ';' in where.value) ==>
              RequestText(CountRequest(where), name, esc) == Success("SELECT COUNT(*) FROM " + name + WhereText(where) + ";")
  {
    LowerKeepsLowercase("count");
    WhereSuffix(where);
  }

  /** `delete` sends `DELETE  FROM t[ WHERE w];` (two spaces), and refuses a `where` holding a `;`. */
  lemma DeleteStatement(name: string, where: Option<string>, esc: Escaper)
    ensures where.Some? && ';' in where.value ==> RequestText(DeleteRequest(where), name, esc) == Failure(InvalidCommand)
    ensures !(where.Some? && ';' in where.value) ==>
              RequestText(DeleteRequest(where), name, esc) == Success("DELETE  FROM " + name + WhereText(where) + ";")
  {
    LowerKeepsLowercase("delete");
    WhereSuffix(where);
  }

  /** `distinct` computes its LIMIT and ORDER BY clauses but sends the same statement without them. */
  lemma DistinctIgnoresLimitAndOrder(fields: Arg, where: Option<string>, limit: Option<int>, orderby: Option<string>,
                                     name: string, esc: Escaper)
    ensures RequestText(DistinctRequest(fields, where, limit, orderby), name, esc)
         == RequestText(DistinctRequest(fields, where, None, None), name, esc)
  {
  }
}
