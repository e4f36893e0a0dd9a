/**
 * The data that flows between the MySQL wrapper and its driver: driver cells and rows,
 * the shapes `sql_query` returns, the loosely typed arguments `query` accepts, and the
 * exceptions the wrapper raises.
 */
module Values {
  import opened Wrappers

  newtype byte = x: int | 0 <= x < 256

  /** One value in a fetched row, as the driver hands it over. */
  datatype Cell = Null | Int(i: int) | Text(s: string) | Bytes(b: seq<byte>)

  /** A fetched row in dictionary form: column name to cell, in column order. */
  type Row = seq<(string, Cell)>

  /**
   * What `sql_query` returns: `None` for a statement without a result set, a list of rows,
   * one bare row, or one bare value.
   */
  datatype Reply = NoResult | RowList(rows: seq<Row>) | OneRow(row: Row) | Scalar(cell: Cell)

  /**
   * A Python argument whose type `query` checks at run time: `None`, an `int`, a `str`,
   * `bytes`, a `list`, a `dict` as its key-value pairs in insertion order, or anything else.
   */
  datatype Arg = NoneArg | IntArg(i: int) | StrArg(s: string) | BytesArg(b: seq<byte>) | ListArg(items: seq<Arg>)
               | DictArg(entries: seq<(Arg, Arg)>) | OtherArg

  /**
   * The exceptions the wrapper raises or lets through. `NotConnected` and `InvalidCommand`
   * are the two plain `Exception`s the source raises itself; `DriverError` is whatever the
   * driver raises for a statement or a connection attempt.
   */
  datatype DbError = NotConnected | InvalidCommand | TypeError | ValueError | KeyError
                   | AttributeError | IndexError | DriverError

  /**
   * What the driver does with one statement: refuses it (a driver exception), runs it
   * without a result set (`store_result()` gives `None`), or gives a result set of rows.
   */
  datatype Answer = Refused | NoSet | ResultSet(rows: seq<Row>)

  /** Python truthiness of a cell. */
  predicate CellTruthy(c: Cell)
  {
    match c
    case Null => false
    case Int(i) => i != 0
    case Text(s) => s != ""
    case Bytes(b) => b != []
  }

  /** Python truthiness of what `sql_query` returned. */
  predicate ReplyTruthy(r: Reply)
  {
    match r
    case NoResult => false
    case RowList(rows) => rows != []
    case OneRow(row) => row != []
    case Scalar(c) => CellTruthy(c)
  }

  /** The keys of a row, in order. */
  function Keys(row: Row): (ks: seq<string>)
    ensures |ks| == |row|
    ensures forall i :: 0 <= i < |row| ==> ks[i] == row[i].0
  {
    if |row| == 0 then [] else Keys(row[..|row| - 1]) + [row[|row| - 1].0]
  }

  /** `row[key]`: the value under the first occurrence of `key`. */
  function Get(row: Row, key: string): Option<Cell>
  {
    if |row| == 0 then None
    else if row[0].0 == key then Some(row[0].1)
    else Get(row[1..], key)
  }

  /** `row[key] = cell` for a key the row has: the value changes in place, the key order does not. */
  function Put(row: Row, key: string, cell: Cell): (r: Row)
    ensures |r| == |row|
  {
    if |row| == 0 then []
    else if row[0].0 == key then [(key, cell)] + row[1..]
    else [row[0]] + Put(row[1..], key, cell)
  }

  /** A key is found exactly when the row has it. */
  lemma {:induction false} GetFindsKey(row: Row, key: string)
    ensures Get(row, key).Some? <==> key in Keys(row)
  {
    if |row| > 0 {
      GetFindsKey(row[1..], key);
      assert Keys(row) == [row[0].0] + Keys(row[1..]);
    }
  }

  /** An assignment to a present key keeps the keys and their order, and the key then reads back the new value. */
  lemma {:induction false} PutKeepsKeys(row: Row, key: string, cell: Cell)
    ensures Keys(Put(row, key, cell)) == Keys(row)
    ensures Get(row, key).Some? ==> Get(Put(row, key, cell), key) == Some(cell)
  {
    if |row| > 0 {
      PutKeepsKeys(row[1..], key, cell);
      var r := Put(row, key, cell);
      assert Keys(r) == [r[0].0] + Keys(r[1..]) by { KeysCons(r); }
      assert Keys(row) == [row[0].0] + Keys(row[1..]) by { KeysCons(row); }
    }
  }

  /** An assignment to `key` leaves the value of every other key as it was. */
  lemma {:induction false} PutKeepsOthers(row: Row, key: string, cell: Cell, k: string)
    requires k != key
    ensures Get(Put(row, key, cell), k) == Get(row, k)
  {
    if |row| > 0 && row[0].0 != key {
      PutKeepsOthers(row[1..], key, cell, k);
    }
  }

  lemma KeysCons(row: Row)
    requires |row| > 0
    ensures Keys(row) == [row[0].0] + Keys(row[1..])
  {
  }
}
