/**
 * How `Database.sql_query` turns the driver's result set into its return value
 * (pyFramework.py:386-433): fetch at most `maxrows` rows, decode `bytes` cells through
 * their Python text form, then collapse one row to a bare row and one cell to a bare value.
 */
module Shaping {
  import opened Wrappers
  import opened PyText
  import opened Values

  function HexDigit(d: nat): char
    requires d < 16
  {
    if d < 10 then ('0' as int + d) as char else ('a' as int + d - 10) as char
  }

  /** The quote CPython puts around a bytes repr: `"` when the bytes hold `'` but no `"`. */
  function ReprQuote(b: seq<byte>): char
  {
    if 39 in b && 34 !in b then '"' else '\''
  }

  /** How CPython's bytes repr spells one byte inside quote `q`. */
  function ReprByte(c: byte, q: char): string
  {
    if c as int == q as int || c == 92 then ['\\', c as int as char]
    else if c == 9 then "\\t"
    else if c == 10 then "\\n"
    else if c == 13 then "\\r"
    else if c < 32 || c >= 127 then ['\\', 'x', HexDigit(c as int / 16), HexDigit(c as int % 16)]
    else [c as int as char]
  }

  function ReprBody(b: seq<byte>, q: char): string
  {
    if |b| == 0 then "" else ReprBody(b[..|b| - 1], q) + ReprByte(b[|b| - 1], q)
  }

  /** Python's `str(v)` for a `bytes` value `v`: `b'ab'`, `b'\x01'`, `b"it's"`. */
  function BytesText(b: seq<byte>): (t: string)
    ensures |t| >= 3 && t[0] == 'b' && t[1] == ReprQuote(b) && t[|t| - 1] == ReprQuote(b)
  {
    var q := ReprQuote(b);
    "b" + [q] + ReprBody(b, q) + [q]
  }

  /** The characters of a byte string read one byte per character. */
  function Latin1(b: seq<byte>): (s: string)
    ensures |s| == |b|
    ensures forall i :: 0 <= i < |b| ==> s[i] as int == b[i] as int
  {
    if |b| == 0 then "" else Latin1(b[..|b| - 1]) + [b[|b| - 1] as int as char]
  }

  /** Python's `s[start:stop]` for `0 <= start` and `0 <= stop <= |s|`. */
  function Slice(s: string, start: nat, stop: nat): string
    requires stop <= |s|
  {
    if start >= stop then "" else s[start..stop]
  }

  predicate IsHexDigit(c: char)
  {
    '0' <= c <= '9' || 'a' <= c <= 'f' || 'A' <= c <= 'F'
  }

  function HexDigitValue(c: char): nat
    requires IsHexDigit(c)
  {
    if '0' <= c <= '9' then c as int - '0' as int
    else if 'a' <= c <= 'f' then c as int - 'a' as int + 10
    else c as int - 'A' as int + 10
  }

  predicate IsSpace(c: char)
  {
    c == ' ' || c == '\t' || c == '\n' || c == '\r' || c == '\U{B}' || c == '\U{C}'
  }

  /** `s.strip()` for ASCII whitespace, as `int()` does before parsing. */
  function Strip(s: string): string
  {
    if |s| > 0 && IsSpace(s[0]) then Strip(s[1..])
    else if |s| > 0 && IsSpace(s[|s| - 1]) then Strip(s[..|s| - 1])
    else s
  }

  /** Hex digits with single underscores between them, the digits `int(s, 16)` accepts. */
  predicate HexLiteral(s: string)
  {
    && |s| > 0
    && IsHexDigit(s[0])
    && HexChars(s)
    && forall i :: 0 <= i < |s| && s[i] == '_' ==> i + 1 < |s| && IsHexDigit(s[i + 1])
  }

  predicate HexChars(s: string)
  {
    forall i :: 0 <= i < |s| ==> IsHexDigit(s[i]) || s[i] == '_'
  }

  function HexValue(s: string): nat
    requires HexChars(s)
  {
    if |s| == 0 then 0
    else if s[|s| - 1] == '_' then HexValue(s[..|s| - 1])
    else 16 * HexValue(s[..|s| - 1]) + HexDigitValue(s[|s| - 1])
  }

  /**
   * Python's `int(s, 16)` on the text that follows `b'\x` in a bytes repr. That text starts
   * with a hex digit, so a sign or a `0x` prefix never reaches it.
   */
  function ParseHex(s: string): Option<nat>
  {
    var t := Strip(s);
    if HexLiteral(t) then Some(HexValue(t)) else None
  }

  /**
   * The decoding `sql_query` applies to every cell of a dictionary row: a `bytes` value whose
   * text form contains `\x` is read as the hex number `int(str(v)[4:-1], 16)`, any other
   * `bytes` value becomes the text `str(v)[2:-1]`, and every other cell is left alone.
   */
  function DecodeCell(c: Cell): (r: Result<Cell, DbError>)
    ensures !c.Bytes? ==> r == Success(c)
    ensures r.Success? ==> !r.value.Bytes?
    ensures r.Failure? ==> r.error == ValueError
  {
    match c
    case Bytes(b) =>
      var t := BytesText(b);
      if Contains(t, "\\x") then
        match ParseHex(Slice(t, 4, |t| - 1))
        case Some(n) => Success(Int(n))
        case None => Failure(ValueError)
      else Success(Text(t[2..|t| - 1]))
    case _ => Success(c)
  }

  /** The dictionary comprehension over one row: same keys, same order, decoded cells. */
  function DecodeRow(row: Row): (r: Result<Row, DbError>)
    ensures r.Failure? ==> r.error == ValueError
  {
    if |row| == 0 then Success([])
    else
      var init :- DecodeRow(row[..|row| - 1]);
      var cell :- DecodeCell(row[|row| - 1].1);
      Success(init + [(row[|row| - 1].0, cell)])
  }

  function DecodeRows(rows: seq<Row>): (r: Result<seq<Row>, DbError>)
    ensures r.Success? ==> |r.value| == |rows|
    ensures r.Failure? ==> r.error == ValueError
  {
    if |rows| == 0 then Success([])
    else
      var init :- DecodeRows(rows[..|rows| - 1]);
      var row :- DecodeRow(rows[|rows| - 1]);
      Success(init + [row])
  }

  /** `fetch_row(maxrows=m)`: all rows for `m == 0`, otherwise at most the first `m`. */
  function Fetch(rows: seq<Row>, maxrows: nat): (r: seq<Row>)
    ensures maxrows == 0 ==> r == rows
    ensures maxrows > 0 ==> |r| == if maxrows < |rows| then maxrows else |rows|
    ensures r == rows[..|r|]
  {
    if maxrows == 0 || maxrows >= |rows| then rows else rows[..maxrows]
  }

  /** The `maxrows` keyword: absent means all rows; it must be a non-negative `int`. */
  function CheckMaxRows(maxrows: Option<Arg>): (r: Result<nat, DbError>)
    ensures maxrows.None? ==> r == Success(0)
    ensures r.Success? && maxrows.Some? ==> maxrows.value == IntArg(r.value)
    ensures r.Failure? <==> maxrows.Some? && (!maxrows.value.IntArg? || maxrows.value.i < 0)
  {
    match maxrows
    case None => Success(0)
    case Some(IntArg(m)) => if m < 0 then Failure(ValueError) else Success(m)
    case Some(_) => Failure(TypeError)
  }

  /** The result-shape collapse: one row becomes a bare row, one cell a bare value. */
  function Collapse(rows: seq<Row>): (r: Reply)
    ensures r.Scalar? <==> |rows| == 1 && |rows[0]| == 1
    ensures r.OneRow? <==> |rows| == 1 && |rows[0]| != 1
    ensures r.RowList? <==> |rows| != 1
    ensures Expand(r, if |rows| == 1 && |rows[0]| == 1 then rows[0][0].0 else "") == rows
  {
    if |rows| == 1 then
      if |rows[0]| == 1 then
        assert rows[0] == [(rows[0][0].0, rows[0][0].1)];
        assert rows == [rows[0]];
        Scalar(rows[0][0].1)
      else OneRow(rows[0])
    else RowList(rows)
  }

  /** The rows a reply stands for, given the column name a bare value came from. */
  function Expand(reply: Reply, column: string): seq<Row>
  {
    match reply
    case NoResult => []
    case RowList(rows) => rows
    case OneRow(row) => [row]
    case Scalar(c) => [[(column, c)]]
  }

  /**
   * Everything `sql_query` does after the driver answered: `None` without a result set
   * (before `maxrows` is even looked at), otherwise check `maxrows`, fetch, decode, collapse.
   */
  function Shape(answer: Answer, maxrows: Option<Arg>): (r: Result<Reply, DbError>)
    ensures answer.Refused? ==> r == Failure(DriverError)
    ensures answer.NoSet? ==> r == Success(NoResult)
    ensures answer.ResultSet? && CheckMaxRows(maxrows).Failure? ==> r == Failure(CheckMaxRows(maxrows).error)
    ensures answer.ResultSet? && answer.rows == [] && CheckMaxRows(maxrows).Success? ==> r == Success(RowList([]))
  {
    match answer
    case Refused => Failure(DriverError)
    case NoSet => Success(NoResult)
    case ResultSet(rows) =>
      var m :- CheckMaxRows(maxrows);
      var decoded :- DecodeRows(Fetch(rows, m));
      Success(Collapse(decoded))
  }

  /** A row whose every cell decodes decodes (the converse is part of `DecodeRowPointwise`). */
  lemma {:induction false} DecodeRowSucceeds(row: Row)
    requires forall i :: 0 <= i < |row| ==> DecodeCell(row[i].1).Success?
    ensures DecodeRow(row).Success?
  {
    if |row| > 0 {
      var init := row[..|row| - 1];
      assert forall i :: 0 <= i < |init| ==> init[i] == row[i];
      DecodeRowSucceeds(init);
      assert DecodeCell(row[|row| - 1].1).Success?;
    }
  }

  /** A decoded row keeps the keys and their order, and holds the decoded cells. */
  lemma {:induction false} DecodeRowPointwise(row: Row)
    requires DecodeRow(row).Success?
    ensures |DecodeRow(row).value| == |row|
    ensures forall i :: 0 <= i < |row| ==>
      DecodeRow(row).value[i].0 == row[i].0 && DecodeCell(row[i].1) == Success(DecodeRow(row).value[i].1)
  {
    if |row| > 0 {
      var init := row[..|row| - 1];
      DecodeRowLast(row);
      DecodeRowPointwise(init);
      assert forall i :: 0 <= i < |init| ==> init[i] == row[i];
    }
  }

  lemma DecodeRowLast(row: Row)
    requires |row| > 0 && DecodeRow(row).Success?
    ensures DecodeRow(row[..|row| - 1]).Success? && DecodeCell(row[|row| - 1].1).Success?
    ensures DecodeRow(row).value
         == DecodeRow(row[..|row| - 1]).value + [(row[|row| - 1].0, DecodeCell(row[|row| - 1].1).value)]
  {
  }

  /** Decoding keeps the keys of every row and every cell that is not `bytes`. */
  lemma DecodeRowKeepsKeys(row: Row)
    requires DecodeRow(row).Success?
    ensures Keys(DecodeRow(row).value) == Keys(row)
    ensures forall i :: 0 <= i < |row| && !row[i].1.Bytes? ==> DecodeRow(row).value[i] == row[i]
  {
    DecodeRowPointwise(row);
  }

  /** A list of rows whose every row decodes decodes (the converse is part of `DecodeRowsPointwise`). */
  lemma {:induction false} DecodeRowsSucceeds(rows: seq<Row>)
    requires forall i :: 0 <= i < |rows| ==> DecodeRow(rows[i]).Success?
    ensures DecodeRows(rows).Success?
  {
    if |rows| > 0 {
      var init := rows[..|rows| - 1];
      assert forall i :: 0 <= i < |init| ==> init[i] == rows[i];
      DecodeRowsSucceeds(init);
      assert DecodeRow(rows[|rows| - 1]).Success?;
    }
  }

  /** Decoding a list of rows keeps the number and the order of the rows. */
  lemma {:induction false} DecodeRowsPointwise(rows: seq<Row>)
    requires DecodeRows(rows).Success?
    ensures |DecodeRows(rows).value| == |rows|
    ensures forall i :: 0 <= i < |rows| ==> DecodeRow(rows[i]) == Success(DecodeRows(rows).value[i])
  {
    if |rows| > 0 {
      var init := rows[..|rows| - 1];
      DecodeRowsPointwise(init);
      assert forall i :: 0 <= i < |init| ==> init[i] == rows[i];
    }
  }

  lemma {:induction false} ReprBodyPlain(b: seq<byte>)
    requires forall i :: 0 <= i < |b| ==> 32 <= b[i] < 127 && b[i] != 92 && b[i] != 39
    ensures ReprBody(b, '\'') == Latin1(b)
  {
    if |b| > 0 {
      ReprBodyPlain(b[..|b| - 1]);
    }
  }

  /**
   * Printable ASCII bytes with no backslash and no single quote come back as the same
   * characters: the `str(v)[2:-1]` branch strips exactly the `b'` and the closing quote.
   */
  lemma PrintableBytesDecodeToText(b: seq<byte>)
    requires forall i :: 0 <= i < |b| ==> 32 <= b[i] < 127 && b[i] != 92 && b[i] != 39
    ensures DecodeCell(Bytes(b)) == Success(Text(Latin1(b)))
  {
    var t := BytesText(b);
    PlainBytesText(b);
    assert !Contains(t, "\\x") && t[2..|t| - 1] == Latin1(b);
  }

  lemma PlainBytesText(b: seq<byte>)
    requires forall i :: 0 <= i < |b| ==> 32 <= b[i] < 127 && b[i] != 92 && b[i] != 39
    ensures !Contains(BytesText(b), "\\x")
    ensures BytesText(b)[2..|BytesText(b)| - 1] == Latin1(b)
  {
    var l := Latin1(b);
    PlainBytesShape(b);
    var t := BytesText(b);
    assert t[2..|t| - 1] == l;
    NoBackslash(b);
    QuotedHasNoBackslash(l);
    ContainsFirstChar(t, "\\x");
  }

  lemma PlainBytesShape(b: seq<byte>)
    requires forall i :: 0 <= i < |b| ==> 32 <= b[i] < 127 && b[i] != 92 && b[i] != 39
    ensures BytesText(b) == "b'" + Latin1(b) + "'"
  {
    var q := ReprQuote(b);
    assert q == '\'';
    ReprBodyPlain(b);
    assert "b" + [q] == "b'" && [q] == "'";
  }

  lemma QuotedHasNoBackslash(l: string)
    requires forall i :: 0 <= i < |l| ==> l[i] != '\\'
    ensures '\\' !in "b'" + l + "'"
  {
    var t := "b'" + l + "'";
    forall i | 0 <= i < |t| ensures t[i] != '\\' {
      if 2 <= i < |t| - 1 {
        assert t[i] == l[i - 2];
      }
    }
  }

  lemma NoBackslash(b: seq<byte>)
    requires forall i :: 0 <= i < |b| ==> b[i] != 92
    ensures forall i :: 0 <= i < |b| ==> Latin1(b)[i] != '\\'
  {
  }

  lemma HexDigitRoundTrip(d: nat)
    requires d < 16
    ensures IsHexDigit(HexDigit(d)) && HexDigitValue(HexDigit(d)) == d && !IsSpace(HexDigit(d))
  {
  }

  /**
   * A single byte that the repr writes as `\xhh` (a control byte other than tab, newline
   * and carriage return, or a byte from 0x7f up) comes back as its numeric value.
   */
  lemma ControlByteDecodesToInt(c: byte)
    requires (c < 32 && c != 9 && c != 10 && c != 13) || c >= 127
    ensures DecodeCell(Bytes([c])) == Success(Int(c as int))
  {
    var hi, lo := c as int / 16, c as int % 16;
    EscapedByteText(c);
    var t := BytesText([c]);
    ContainsIn(t, "\\x", 2);
    assert Slice(t, 4, |t| - 1) == [HexDigit(hi), HexDigit(lo)];
    HexPairParses(hi, lo);
  }

  /** The repr of one byte written as `\xhh`. */
  lemma EscapedByteText(c: byte)
    requires (c < 32 && c != 9 && c != 10 && c != 13) || c >= 127
    ensures BytesText([c]) == ['b', '\'', '\\', 'x', HexDigit(c as int / 16), HexDigit(c as int % 16), '\'']
  {
    assert ReprQuote([c]) == '\'';
    assert [c][..0] == [];
    assert ReprBody([c], '\'') == ['\\', 'x', HexDigit(c as int / 16), HexDigit(c as int % 16)];
  }

  /** Two hex digits as the repr writes them parse back to their value. */
  lemma HexPairParses(hi: nat, lo: nat)
    requires hi < 16 && lo < 16
    ensures ParseHex([HexDigit(hi), HexDigit(lo)]) == Some(16 * hi + lo)
  {
    var s := [HexDigit(hi), HexDigit(lo)];
    HexDigitRoundTrip(hi);
    HexDigitRoundTrip(lo);
    assert Strip(s) == s;
    assert HexLiteral(s);
    assert s[..1] == [HexDigit(hi)] && [HexDigit(hi)][..0] == [];
    assert HexValue([HexDigit(hi)]) == hi;
  }

  /**
   * Two escaped bytes cannot be decoded: `b'\x01\x02'[4:-1]` is `01\x02`, which is no
   * hex number, so `sql_query` raises `ValueError` for such a cell.
   */
  lemma TwoControlBytesRejected()
    ensures DecodeCell(Bytes([1, 2])) == Failure(ValueError)
  {
    TwoControlBytesText();
    var t := BytesText([1, 2]);
    ContainsIn(t, "\\x", 2);
    assert Slice(t, 4, |t| - 1) == ['0', '1', '\\', 'x', '0', '2'];
    EscapeIsNoHex();
  }

  lemma EscapeIsNoHex()
    ensures ParseHex(['0', '1', '\\', 'x', '0', '2']) == None
  {
    var s := ['0', '1', '\\', 'x', '0', '2'];
    assert Strip(s) == s;
    assert !IsHexDigit(s[2]);
  }

  lemma TwoControlBytesText()
    ensures BytesText([1, 2]) == ['b', '\'', '\\', 'x', '0', '1', '\\', 'x', '0', '2', '\'']
  {
    var b: seq<byte> := [1, 2];
    assert ReprQuote(b) == '\'';
    assert ReprByte(1, '\'') == ['\\', 'x', '0', '1'];
    assert ReprByte(2, '\'') == ['\\', 'x', '0', '2'];
    assert b[..1] == [1] && b[..1][..0] == [];
    assert ReprBody([1], '\'') == ReprByte(1, '\'');
    assert ReprBody(b, '\'') == ReprByte(1, '\'') + ReprByte(2, '\'');
  }

  /** A one-row, one-column result cannot be told apart from the same value under another name. */
  lemma CollapseForgetsColumnName(c: Cell, a: string, b: string)
    ensures Collapse([[(a, c)]]) == Collapse([[(b, c)]]) == Scalar(c)
  {
  }
}
