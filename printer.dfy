/**
 * `colorprinter` (printer.py): a formatter that wraps printed text in ANSI "select graphic
 * rendition" control sequences (ECMA-48, section 8.3.117), using the `38;5;n` / `48;5;n`
 * 256-colour selectors for foreground and background. Only the `ret=True` path, which returns
 * the assembled string instead of printing it, is modelled.
 */
module Printer {
  import opened Wrappers
  import opened PyText

  /**
   * The Python values `print` is handed. Tuples hold integers. `PyObj` is any other object
   * (a float, a list, bytes, a `str` subclass, ...), given by its `str()` and by what its
   * `upper()` gives as far as comparing it with 'WHITE' goes: None when it has no `upper()`,
   * the upper-cased text for a `str` subclass, and for `bytes` or `bytearray` (whose `upper()`
   * never equals a str) the `str()` of the upper-cased bytes. Only a background's truth value
   * is ever asked, and an object background adds nothing whatever its truth, so objects are
   * taken to be true.
   */
  datatype PyVal =
    | PyNone
    | PyBool(b: bool)
    | PyInt(i: int)
    | PyStr(s: string)
    | PyTuple(items: seq<int>)
    | PyObj(text: string, upper: Option<string>)

  /** The exceptions the `ret=True` path can raise. */
  datatype PrintError = TypeError | AssertionError | AttributeError | IndexError

  const ESC: char := '\U{1B}'

  /** `_END`, the "reset all attributes" sequence. */
  const END: string := "\U{1B}[0m"

  /** `_colors['BOLD']` and `_colors['UNDERLINE']`. */
  const BOLD: string := "\U{1B}[1m"
  const UNDERLINE: string := "\U{1B}[4m"

  function IntStrings(t: seq<int>): (r: seq<string>)
    ensures |r| == |t|
    ensures forall i :: 0 <= i < |t| ==> r[i] == IntToString(t[i])
  {
    seq(|t|, i requires 0 <= i < |t| => IntToString(t[i]))
  }

  /** Python's `str(v)`. */
  function Str(v: PyVal): string
  {
    match v
    case PyNone => "None"
    case PyBool(b) => if b then "True" else "False"
    case PyInt(i) => IntToString(i)
    case PyStr(s) => s
    case PyTuple(t) => "(" + Join(IntStrings(t), ", ") + (if |t| == 1 then ",)" else ")")
    case PyObj(text, _) => text
  }

  function Strs(args: seq<PyVal>): (r: seq<string>)
    ensures |r| == |args|
    ensures forall i :: 0 <= i < |args| ==> r[i] == Str(args[i])
  {
    seq(|args|, i requires 0 <= i < |args| => Str(args[i]))
  }

  /** Python's truth value. */
  predicate Truthy(v: PyVal)
  {
    match v
    case PyNone => false
    case PyBool(b) => b
    case PyInt(i) => i != 0
    case PyStr(s) => s != ""
    case PyTuple(t) => |t| > 0
    case PyObj(_, _) => true
  }

  // ----- The two colour tables, with `OrderedDict` semantics -----

  /** `_colors`, the pairs in the order the source lists them. */
  const ColorPairs: seq<(string, string)> := [
    ("BLACK", "\U{1B}[30m"), ("DARKRED", "\U{1B}[31m"), ("DARKGREEN", "\U{1B}[32m"),
    ("ORANGE", "\U{1B}[33m"), ("DARKBLUE", "\U{1B}[34m"), ("PURPLE", "\U{1B}[35m"),
    ("DARKCYAN", "\U{1B}[36m"), ("LIGHTGREY", "\U{1B}[37m"), ("LIGHTGRAY", "\U{1B}[37m"),
    ("DARKGREY", "\U{1B}[90m"), ("DARKGRAY", "\U{1B}[90m"), ("RED", "\U{1B}[91m"),
    ("GREEN", "\U{1B}[92m"), ("YELLOW", "\U{1B}[93m"), ("BLUE", "\U{1B}[94m"),
    ("MAGENTA", "\U{1B}[95m"), ("CYAN", "\U{1B}[96m"), ("GREY", "\U{1B}[97m"),
    ("GRAY", "\U{1B}[97m"), ("BOLD", "\U{1B}[1m"), ("UNDERLINE", "\U{1B}[4m"),
    ("ULINE", "\U{1B}[4m")
  ]

  /** `_bgs`; LIGHTGREY is listed twice and LIGHTGRAY not at all. */
  const BgPairs: seq<(string, string)> := [
    ("BLACK", "\U{1B}[40m"), ("DARKRED", "\U{1B}[41m"), ("DARKGREEN", "\U{1B}[42m"),
    ("ORANGE", "\U{1B}[43m"), ("DARKBLUE", "\U{1B}[44m"), ("PURPLE", "\U{1B}[45m"),
    ("DARKCYAN", "\U{1B}[46m"), ("LIGHTGREY", "\U{1B}[47m"), ("LIGHTGREY", "\U{1B}[47m"),
    ("DARKGREY", "\U{1B}[100m"), ("DARKGRAY", "\U{1B}[100m"), ("RED", "\U{1B}[101m"),
    ("GREEN", "\U{1B}[102m"), ("YELLOW", "\U{1B}[103m"), ("BLUE", "\U{1B}[104m"),
    ("MAGENTA", "\U{1B}[105m"), ("CYAN", "\U{1B}[106m"), ("GREY", "\U{1B}[107m"),
    ("GRAY", "\U{1B}[107m")
  ]

  /** The keys of `OrderedDict(pairs)`: each key once, at the place it first occurs. */
  function DictKeys(pairs: seq<(string, string)>): seq<string>
  {
    if |pairs| == 0 then []
    else
      var ks := DictKeys(pairs[..|pairs| - 1]);
      if pairs[|pairs| - 1].0 in ks then ks else ks + [pairs[|pairs| - 1].0]
  }

  /** `OrderedDict(pairs)[key]`, or None for a missing key; a later pair overrides an earlier one. */
  function Lookup(pairs: seq<(string, string)>, key: string): Option<string>
  {
    if |pairs| == 0 then None
    else if pairs[|pairs| - 1].0 == key then Some(pairs[|pairs| - 1].1)
    else Lookup(pairs[..|pairs| - 1], key)
  }

  /** `key in d.keys()` is exactly "`d[key]` succeeds". */
  lemma {:induction false} LookupFindsKey(pairs: seq<(string, string)>, key: string)
    ensures Lookup(pairs, key).Some? <==> key in DictKeys(pairs)
  {
    if |pairs| > 0 {
      LookupFindsKey(pairs[..|pairs| - 1], key);
    }
  }

  /** An ordered dict lists no key twice. */
  lemma {:induction false} DictKeysDistinct(pairs: seq<(string, string)>)
    ensures forall i, j :: 0 <= i < j < |DictKeys(pairs)| ==> DictKeys(pairs)[i] != DictKeys(pairs)[j]
  {
    if |pairs| > 0 {
      DictKeysDistinct(pairs[..|pairs| - 1]);
    }
  }

  /** Every key of the dict is the key of some pair, and every pair's key is a key of the dict. */
  lemma {:induction false} DictKeysArePairKeys(pairs: seq<(string, string)>, key: string)
    ensures key in DictKeys(pairs) <==> exists i :: 0 <= i < |pairs| && pairs[i].0 == key
  {
    if |pairs| > 0 {
      var init := pairs[..|pairs| - 1];
      DictKeysArePairKeys(init, key);
      if exists i :: 0 <= i < |init| && init[i].0 == key {
        var i :| 0 <= i < |init| && init[i].0 == key;
        assert pairs[i].0 == key;
      }
      if exists i :: 0 <= i < |pairs| && pairs[i].0 == key {
        var i :| 0 <= i < |pairs| && pairs[i].0 == key;
        if i < |init| {
          assert init[i].0 == key;
        }
      }
    }
  }

  /** A well-formed SGR sequence: ESC, `[`, parameters, `m`. */
  predicate IsSgr(code: string)
  {
    |code| >= 3 && code[0] == ESC && code[1] == '[' && code[|code| - 1] == 'm'
  }

  /** A value looked up in a table whose values are all SGR sequences is one. */
  lemma {:induction false} LookupKeepsSgr(pairs: seq<(string, string)>, key: string)
    requires forall i :: 0 <= i < |pairs| ==> IsSgr(pairs[i].1)
    ensures Lookup(pairs, key).Some? ==> IsSgr(Lookup(pairs, key).value)
  {
    if |pairs| > 0 && pairs[|pairs| - 1].0 != key {
      LookupKeepsSgr(pairs[..|pairs| - 1], key);
    }
  }

  /** The style codes `print` prefixes are the table's own BOLD and UNDERLINE entries. */
  lemma StyleCodesFromTable()
    ensures Lookup(ColorPairs, "BOLD") == Some(BOLD) && Lookup(ColorPairs, "UNDERLINE") == Some(UNDERLINE)
  {
    assert ColorPairs[19].0 == "BOLD" && ColorPairs[20].0 == "UNDERLINE";
    LookupLastOccurrence(ColorPairs, 19);
    LookupLastOccurrence(ColorPairs, 20);
  }

  /** The keys of `keys` that are not in `excluded`, in their order (a list comprehension). */
  function Without(keys: seq<string>, excluded: seq<string>): (r: seq<string>)
    ensures |r| <= |keys|
    ensures forall k :: k in r <==> k in keys && k !in excluded
  {
    if |keys| == 0 then []
    else
      var last := keys[|keys| - 1];
      Without(keys[..|keys| - 1], excluded) + (if last in excluded then [] else [last])
  }

  /** `colors()`: the text colour names, without the aliases and the two styles. */
  function Colors(): (r: seq<string>)
    ensures forall k :: k in r <==> k in DictKeys(ColorPairs) && k !in ["GRAY", "DARKGRAY", "LIGHTGRAY", "BOLD", "UNDERLINE", "ULINE"]
  {
    Without(DictKeys(ColorPairs), ["GRAY", "DARKGRAY", "LIGHTGRAY", "BOLD", "UNDERLINE", "ULINE"])
  }

  /** `backgrounds()`: the background colour names, without the grey aliases. */
  function Backgrounds(): (r: seq<string>)
    ensures forall k :: k in r <==> k in DictKeys(BgPairs) && k !in ["GRAY", "DARKGRAY", "LIGHTGRAY"]
  {
    Without(DictKeys(BgPairs), ["GRAY", "DARKGRAY", "LIGHTGRAY"])
  }

  /** Filtering keeps the order: it distributes over concatenation. */
  lemma {:induction false} WithoutConcat(a: seq<string>, b: seq<string>, excluded: seq<string>)
    ensures Without(a + b, excluded) == Without(a, excluded) + Without(b, excluded)
  {
    if |b| > 0 {
      var init, last := b[..|b| - 1], b[|b| - 1];
      var tail := if last in excluded then [] else [last];
      WithoutConcat(a, init, excluded);
      assert (a + b)[..|a + b| - 1] == a + init && (a + b)[|a + b| - 1] == last;
      calc {
        Without(a + b, excluded);
        Without(a + init, excluded) + tail;
        Without(a, excluded) + Without(init, excluded) + tail;
        Without(a, excluded) + (Without(init, excluded) + tail);
      }
    } else {
      assert a + b == a;
    }
  }

  lemma {:induction false} LookupAbsent(pairs: seq<(string, string)>, key: string)
    requires forall i :: 0 <= i < |pairs| ==> pairs[i].0 != key
    ensures Lookup(pairs, key) == None
  {
    if |pairs| > 0 {
      LookupAbsent(pairs[..|pairs| - 1], key);
    }
  }

  lemma {:induction false} LookupLastOccurrence(pairs: seq<(string, string)>, i: nat)
    requires i < |pairs|
    requires forall j :: i < j < |pairs| ==> pairs[j].0 != pairs[i].0
    ensures Lookup(pairs, pairs[i].0) == Some(pairs[i].1)
  {
    if i < |pairs| - 1 {
      LookupLastOccurrence(pairs[..|pairs| - 1], i);
    }
  }

  /**
   * LIGHTGRAY names a text colour (SGR 37, like LIGHTGREY) but no background: `_bgs` lists
   * LIGHTGREY twice instead.
   */
  lemma LightgrayIsTextColourOnly()
    ensures Lookup(ColorPairs, "LIGHTGRAY") == Some("\U{1B}[37m")
    ensures Lookup(BgPairs, "LIGHTGRAY") == None && Lookup(BgPairs, "LIGHTGREY") == Some("\U{1B}[47m")
  {
    assert ColorPairs[8].0 == "LIGHTGRAY";
    LookupLastOccurrence(ColorPairs, 8);
    LookupAbsent(BgPairs, "LIGHTGRAY");
    assert BgPairs[8].0 == "LIGHTGREY";
    LookupLastOccurrence(BgPairs, 8);
  }

  // ----- Colour selection -----

  /** An `(r, g, b)` tuple with every component in [0,6). */
  predicate IsRgb(t: seq<int>)
  {
    |t| == 3 && 0 <= t[0] < 6 && 0 <= t[1] < 6 && 0 <= t[2] < 6
  }

  /** The 6x6x6 colour cube index `16 + 36r + 6g + b`, which lies in [16,231]. */
  function CubeIndex(t: seq<int>): (n: nat)
    requires IsRgb(t)
    ensures 16 <= n <= 231
  {
    16 + 36 * t[0] + 6 * t[1] + t[2]
  }

  /** The inverse: the `(r, g, b)` of a cube index. */
  function CubeColour(n: int): (t: seq<int>)
    requires 16 <= n <= 231
    ensures IsRgb(t)
  {
    [(n - 16) / 36, (n - 16) / 6 % 6, (n - 16) % 6]
  }

  /** Each colour tuple has its own index ... */
  lemma CubeColourOfIndex(t: seq<int>)
    requires IsRgb(t)
    ensures CubeColour(CubeIndex(t)) == t
  {
    var m := 36 * t[0] + 6 * t[1] + t[2];
    assert m / 36 == t[0] && m % 36 == 6 * t[1] + t[2];
    assert m / 6 == 6 * t[0] + t[1] && m % 6 == t[2];
    assert (6 * t[0] + t[1]) % 6 == t[1];
  }

  /** ... and every index in [16,231] is one colour tuple's. */
  lemma CubeIndexOfColour(n: int)
    requires 16 <= n <= 231
    ensures CubeIndex(CubeColour(n)) == n
  {
    var m := n - 16;
    assert m == 36 * (m / 36) + m % 36;
    assert m % 36 == 6 * (m / 6 % 6) + m % 6;
  }

  /** `'\033[38;5;' + str(n) + 'm'`, the 256-colour foreground selector. */
  function Fore256(n: nat): string
  {
    "\U{1B}[38;5;" + NatToString(n) + "m"
  }

  /** `'\033[48;5;' + str(n) + 'm'`, the 256-colour background selector. */
  function Back256(n: nat): string
  {
    "\U{1B}[48;5;" + NatToString(n) + "m"
  }

  /**
   * The escape sequence a text colour selects: a table name (any case) or 'white', an
   * `(r, g, b)` tuple, or an int in [0,256); None for a value that is no colour.
   */
  function ColourCode(c: PyVal): Option<string>
  {
    match c
    case PyStr(s) =>
      if s == "" then None
      else if Upper(s) == "WHITE" then Some(Fore256(255))
      else Lookup(ColorPairs, Upper(s))
    case PyTuple(t) => if IsRgb(t) then Some(Fore256(CubeIndex(t))) else None
    case PyInt(i) => if 0 <= i < 256 then Some(Fore256(i)) else None
    case _ => None
  }

  /** Every colour selects a well-formed SGR sequence. */
  lemma ColourCodeIsSgr(c: PyVal)
    ensures ColourCode(c).Some? ==> IsSgr(ColourCode(c).value)
  {
    if c.PyStr? && c.s != "" && Upper(c.s) != "WHITE" {
      assert forall i :: 0 <= i < |ColorPairs| ==> IsSgr(ColorPairs[i].1);
      LookupKeepsSgr(ColorPairs, Upper(c.s));
    }
  }

  /** What `out` holds after the colour branch: the colour's code, or `str(clr) + sep`. */
  function Lead(c: PyVal, hasArgs: bool, sep: string): string
  {
    if hasArgs && ColourCode(c).Some? then ColourCode(c).value else Str(c) + sep
  }

  /** `clr.upper()`, when `clr` has that method: a str's upper-cased text, or an object's. */
  function UpperOf(clr: PyVal): (r: Option<string>)
    ensures r.None? <==> !clr.PyStr? && !(clr.PyObj? && clr.upper.Some?)
    ensures clr.PyStr? ==> r == Some(Upper(clr.s))
  {
    match clr
    case PyStr(s) => Some(Upper(s))
    case PyObj(_, u) => u
    case _ => None
  }

  /**
   * The background code appended to `out`, or the exception the background raises. A false
   * `bg` adds nothing, and so does a true value that is neither str, tuple nor int. An int
   * background calls `clr.upper()`: AttributeError when `clr` has no such method, and 255
   * whenever it gives 'WHITE', whatever the int.
   */
  function BgCode(bg: PyVal, clr: PyVal): (r: Result<string, PrintError>)
    ensures !Truthy(bg) || !(bg.PyStr? || bg.PyTuple? || bg.PyInt?) ==> r == Success("")
    ensures r.Failure? ==> r.error == if bg.PyInt? && UpperOf(clr).None? then AttributeError else AssertionError
    ensures bg.PyInt? && Truthy(bg) && UpperOf(clr) == Some("WHITE") ==> r == Success(Back256(255))
    ensures bg.PyInt? && Truthy(bg) && UpperOf(clr).Some? && UpperOf(clr).value != "WHITE" ==>
      r == if 0 <= bg.i < 256 then Success(Back256(bg.i)) else Failure(AssertionError)
  {
    if !Truthy(bg) then Success("")
    else
      match bg
      case PyStr(s) =>
        (match Lookup(BgPairs, Upper(s))
         case Some(code) => Success(code)
         case None => Failure(AssertionError))
      case PyTuple(t) => if IsRgb(t) then Success(Back256(CubeIndex(t))) else Failure(AssertionError)
      case PyInt(i) =>
        var up := UpperOf(clr);
        if up.None? then Failure(AttributeError)
        else if up.value == "WHITE" then Success(Back256(255))
        else if 0 <= i < 256 then Success(Back256(i))
        else Failure(AssertionError)
      case _ => Success("")
  }

  /** Every background code is a well-formed SGR sequence. */
  lemma BgCodeIsSgr(bg: PyVal, clr: PyVal)
    ensures BgCode(bg, clr).Success? && BgCode(bg, clr).value != "" ==> IsSgr(BgCode(bg, clr).value)
  {
    if bg.PyStr? && Truthy(bg) {
      assert forall i :: 0 <= i < |BgPairs| ==> IsSgr(BgPairs[i].1);
      LookupKeepsSgr(BgPairs, Upper(bg.s));
    }
  }

  /** The separator: the `sep` keyword when args remain (TypeError unless a str), else one space. */
  function SepText(sep: Option<PyVal>, rest: seq<PyVal>): (r: Result<string, PrintError>)
    ensures r.Failure? <==> sep.Some? && |rest| > 0 && !sep.value.PyStr?
    ensures r.Failure? ==> r.error == TypeError
    ensures sep.None? || |rest| == 0 ==> r == Success(" ")
  {
    if sep.Some? && |rest| > 0 then
      if sep.value.PyStr? then Success(sep.value.s) else Failure(TypeError)
    else Success(" ")
  }

  /** `clr=None` takes the first arg as the colour, and drops it from the args only when more follow. */
  function Shift(clr: PyVal, args: seq<PyVal>): (s: (seq<PyVal>, PyVal))
    requires !(clr.PyNone? && |args| == 0)
    ensures !clr.PyNone? ==> s == (args, clr)
    ensures clr.PyNone? ==> s.1 == args[0] && (|args| > 1 <==> [s.1] + s.0 == args) && (|args| == 1 ==> s.0 == args)
  {
    if !clr.PyNone? then (args, clr)
    else if |args| > 1 then (args[1..], args[0])
    else (args, args[0])
  }

  /** The style prefix: underline outermost, then bold. */
  function Styles(bold: bool, uline: bool): string
  {
    (if uline then UNDERLINE else "") + (if bold then BOLD else "")
  }

  /** The last step: `out[0]` fails on an empty string, and a leading ESC earns a reset. */
  function Finish(out: string): Result<Option<string>, PrintError>
  {
    if |out| == 0 then Failure(IndexError)
    else if out[0] == ESC then Success(Some(out + END))
    else Success(Some(out))
  }

  /**
   * What `colorprinter.print(clr, *args, bold=, uline=, bg=, ignore=, sep=, ret=True)` returns:
   * None for no colour and no args; with `ignore`, `str` of everything joined by spaces;
   * otherwise styles, colour (or the colour's text), background and the args joined by the
   * separator. `sep` is None when the keyword is not passed.
   */
  function Render(clr: PyVal, args: seq<PyVal>, bold: bool, uline: bool, bg: PyVal, ignore: bool,
                  sep: Option<PyVal>): Result<Option<string>, PrintError>
  {
    if clr.PyNone? && |args| == 0 then Success(None)
    else
      var (rest, c) := Shift(clr, args);
      if ignore then Success(Some(Join([Str(c)] + Strs(rest), " ")))
      else
        var s :- SepText(sep, rest);
        var code :- BgCode(bg, c);
        var coloured := Lead(c, |rest| > 0, s) + code;
        Finish(Styles(bold, uline) + coloured + Join(Strs(rest), s))
  }

  /** The loop `for i in args: out += str(i) + sep`. */
  method AppendArgs(out: string, args: seq<PyVal>, sep: string) returns (r: string)
    ensures r == out + Terminated(Strs(args), sep)
  {
    r := out;
    var i := 0;
    while i < |args|
      invariant 0 <= i <= |args|
      invariant r == out + Terminated(Strs(args)[..i], sep)
    {
      ArgStep(out, args, i, sep);
      r := r + Str(args[i]) + sep;
      i := i + 1;
    }
    assert Strs(args)[..i] == Strs(args);
  }

  /** One more argument appended: the text grows by its `str()` and the separator. */
  lemma ArgStep(out: string, args: seq<PyVal>, i: int, sep: string)
    requires 0 <= i < |args|
    ensures out + Terminated(Strs(args)[..i], sep) + Str(args[i]) + sep == out + Terminated(Strs(args)[..i + 1], sep)
  {
    assert Strs(args)[..i + 1] == Strs(args)[..i] + [Str(args[i])];
    TerminatedSnoc(Strs(args)[..i], Str(args[i]), sep);
  }

  /** The `ignore` branch: `str(clr)` and then each arg, each followed by a space, minus the last space. */
  method PlainText(c: PyVal, rest: seq<PyVal>) returns (out: string)
    ensures out == Join([Str(c)] + Strs(rest), " ")
  {
    if |rest| > 0 {
      out := AppendArgs(Str(c) + " ", rest, " ");
      TerminatedCons(Str(c), Strs(rest), " ");
      TerminatedIsJoinThenSep([Str(c)] + Strs(rest), " ");
      out := DropLast(out);
    } else {
      assert [Str(c)] + Strs(rest) == [Str(c)];
      out := Str(c);
    }
  }

  /** Appending the args and trimming the last separator joins them with it. */
  method JoinArgs(out: string, rest: seq<PyVal>, s: string) returns (r: string)
    requires |rest| > 0
    ensures r == out + Join(Strs(rest), s)
  {
    r := AppendArgs(out, rest, s);
    TerminatedIsJoinThenSep(Strs(rest), s);
    assert r == out + Join(Strs(rest), s) + s;
    if |s| > 0 {
      r := r[..|r| - |s|];
    }
  }

  /**
   * The colour, background and style part of `print`: the colour's code or text, then the
   * background's code, with bold and then underline prefixed.
   */
  method Decorate(c: PyVal, hasArgs: bool, s: string, bg: PyVal, bold: bool, uline: bool)
    returns (r: Result<string, PrintError>)
    ensures BgCode(bg, c).Failure? ==> r == Failure(BgCode(bg, c).error)
    ensures BgCode(bg, c).Success? ==> r == Success(Styles(bold, uline) + (Lead(c, hasArgs, s) + BgCode(bg, c).value))
  {
    var out := Lead(c, hasArgs, s);
    var code := BgCode(bg, c);
    if code.Failure? {
      return Failure(code.error);
    }
    out := out + code.value;
    ghost var base := out;
    if bold {
      out := BOLD + out;
    }
    if uline {
      out := UNDERLINE + out;
    }
    StylesPrefix(bold, uline, base);
    assert out == Styles(bold, uline) + base;
    return Success(out);
  }

  /** `colorprinter.print` with `ret=True`, assembling the string as the source does. */
  method Print(clr: PyVal, args: seq<PyVal>, bold: bool, uline: bool, bg: PyVal, ignore: bool,
               sep: Option<PyVal>) returns (r: Result<Option<string>, PrintError>)
    ensures r == Render(clr, args, bold, uline, bg, ignore, sep)
  {
    var c, rest := clr, args;
    if c.PyNone? && |rest| == 0 {
      return Success(None);
    } else if c.PyNone? {
      c := rest[0];
      if |rest| > 1 {
        rest := rest[1..];
      }
    }
    assert Shift(clr, args) == (rest, c);
    if ignore {
      var out := PlainText(c, rest);
      return Success(Some(out));
    }
    var s := " ";
    if sep.Some? && |rest| > 0 {
      if !sep.value.PyStr? {
        return Failure(TypeError);
      }
      s := sep.value.s;
    }
    assert SepText(sep, rest) == Success(s);
    var decorated := Decorate(c, |rest| > 0, s, bg, bold, uline);
    if decorated.Failure? {
      return Failure(decorated.error);
    }
    var out := decorated.value;
    ghost var styled := out;
    if |rest| > 0 {
      out := JoinArgs(out, rest, s);
    } else {
      assert Join(Strs(rest), s) == "" && out == styled + "";
    }
    assert out == styled + Join(Strs(rest), s);
    RenderFinishes(clr, args, bold, uline, bg, sep, rest, c, s, BgCode(bg, c).value);
    assert Render(clr, args, bold, uline, bg, ignore, sep) == Finish(out);
    if |out| == 0 {
      return Failure(IndexError);
    }
    if out[0] == ESC {
      out := out + END;
    }
    return Success(Some(out));
  }

  /** Prefixing bold and then underline prefixes the style string. */
  lemma StylesPrefix(bold: bool, uline: bool, base: string)
    ensures (if uline then UNDERLINE else "") + ((if bold then BOLD else "") + base) == Styles(bold, uline) + base
  {
    if bold && uline {
      assert UNDERLINE + (BOLD + base) == (UNDERLINE + BOLD) + base;
    } else if bold {
      assert "" + (BOLD + base) == ("" + BOLD) + base;
    } else if uline {
      assert UNDERLINE + ("" + base) == (UNDERLINE + "") + base;
    } else {
      assert "" + ("" + base) == ("" + "") + base;
    }
  }

  /** Render, once the arguments, separator and background code are settled. */
  lemma RenderFinishes(clr: PyVal, args: seq<PyVal>, bold: bool, uline: bool, bg: PyVal, sep: Option<PyVal>,
                       rest: seq<PyVal>, c: PyVal, s: string, code: string)
    requires !(clr.PyNone? && |args| == 0) && Shift(clr, args) == (rest, c)
    requires SepText(sep, rest) == Success(s) && BgCode(bg, c) == Success(code)
    ensures Render(clr, args, bold, uline, bg, false, sep)
         == Finish(Styles(bold, uline) + (Lead(c, |rest| > 0, s) + code) + Join(Strs(rest), s))
  {
  }

  // ----- What the returned string looks like -----

  /** The styles are SGR sequences, so styles followed by an escape sequence start with ESC. */
  lemma StylesThenColourStartsWithEsc(bold: bool, uline: bool, code: string, rest: string)
    requires |code| > 0 && code[0] == ESC
    ensures (Styles(bold, uline) + code + rest)[0] == ESC
  {
    if uline || bold {
      assert (Styles(bold, uline) + code + rest)[0] == Styles(bold, uline)[0];
    } else {
      assert (Styles(bold, uline) + code + rest)[0] == code[0];
    }
  }

  /**
   * A colour with args to print: the styles, the colour's code, the background's code, the args
   * joined by the separator, and the reset, since the result then starts with ESC.
   */
  lemma ColouredArgs(clr: PyVal, args: seq<PyVal>, bold: bool, uline: bool, bg: PyVal, sep: Option<PyVal>,
                     s: string, b: string)
    requires !clr.PyNone? && |args| > 0 && ColourCode(clr).Some?
    requires SepText(sep, args) == Success(s) && BgCode(bg, clr) == Success(b)
    ensures Render(clr, args, bold, uline, bg, false, sep)
         == Success(Some(Styles(bold, uline) + (ColourCode(clr).value + b) + Join(Strs(args), s) + END))
  {
    var code := ColourCode(clr).value;
    ColourCodeIsSgr(clr);
    assert (code + b)[0] == ESC;
    StylesThenColourStartsWithEsc(bold, uline, code + b, Join(Strs(args), s));
  }

  /**
   * A value that is no colour, or any value with nothing else to print, is printed as its text
   * and the separator, before the args; nothing is escaped unless the text itself starts with ESC.
   */
  lemma TextFallback(clr: PyVal, args: seq<PyVal>, bg: PyVal, sep: Option<PyVal>, s: string)
    requires !clr.PyNone? && (|args| == 0 || ColourCode(clr).None?)
    requires SepText(sep, args) == Success(s) && !Truthy(bg)
    requires |Str(clr)| > 0 && Str(clr)[0] != ESC
    ensures Render(clr, args, false, false, bg, false, sep) == Success(Some(Str(clr) + s + Join(Strs(args), s)))
  {
    RenderUnfolds(clr, args, false, false, bg, sep, s, "");
    TextLead(clr, |args| > 0, s, Join(Strs(args), s));
    PlainFinish(Str(clr), s, Join(Strs(args), s));
  }

  /** Without a colour code to use, the lead is the value's text and the separator. */
  lemma TextLead(c: PyVal, hasArgs: bool, sep: string, rest: string)
    requires !hasArgs || ColourCode(c).None?
    ensures Styles(false, false) + (Lead(c, hasArgs, sep) + "") + rest == Str(c) + sep + rest
  {
    assert Lead(c, hasArgs, sep) == Str(c) + sep;
  }

  /** Text that does not start with ESC is returned as it is. */
  lemma PlainFinish(head: string, mid: string, tail: string)
    requires |head| > 0 && head[0] != ESC
    ensures Finish(head + mid + tail) == Success(Some(head + mid + tail))
  {
    assert (head + mid + tail)[0] == head[0];
  }

  /** With a colour given and no `ignore`, Render is Finish of styles, lead, background and args. */
  lemma RenderUnfolds(clr: PyVal, args: seq<PyVal>, bold: bool, uline: bool, bg: PyVal, sep: Option<PyVal>,
                      s: string, code: string)
    requires !clr.PyNone? && SepText(sep, args) == Success(s) && BgCode(bg, clr) == Success(code)
    ensures Render(clr, args, bold, uline, bg, false, sep)
         == Finish(Styles(bold, uline) + (Lead(clr, |args| > 0, s) + code) + Join(Strs(args), s))
  {
    assert Shift(clr, args) == (args, clr);
  }

  /** A `sep` that is not a str raises TypeError once there are args, before anything else is looked at. */
  lemma BadSeparatorRaises(clr: PyVal, args: seq<PyVal>, bold: bool, uline: bool, bg: PyVal, v: PyVal)
    requires !clr.PyNone? && |args| > 0 && !v.PyStr?
    ensures Render(clr, args, bold, uline, bg, false, Some(v)) == Failure(TypeError)
  {
  }

  /** 'white', in any case, selects colour 255, and makes any int background 255 as well. */
  lemma WhiteIs255(w: string, i: int)
    requires Upper(w) == "WHITE"
    ensures ColourCode(PyStr(w)) == Some(Fore256(255))
    ensures i != 0 ==> BgCode(PyInt(i), PyStr(w)) == Success(Back256(255))
  {
  }

  /** A background called 'lightgray', in any case, fails its assertion, although the text colour exists. */
  lemma LightgrayBackgroundRaises(clr: PyVal, args: seq<PyVal>, bold: bool, uline: bool, name: string,
                                  sep: Option<PyVal>)
    requires Upper(name) == "LIGHTGRAY" && !(clr.PyNone? && |args| == 0)
    requires SepText(sep, Shift(clr, args).0).Success?
    ensures Render(clr, args, bold, uline, PyStr(name), false, sep) == Failure(AssertionError)
    ensures ColourCode(PyStr(name)) == Some("\U{1B}[37m")
  {
    LightgrayIsTextColourOnly();
  }

  /** An int background calls `clr.upper()`, so it raises AttributeError when the colour has no such method. */
  lemma IntBackgroundNeedsUpper(clr: PyVal, args: seq<PyVal>, bold: bool, uline: bool, i: int,
                                sep: Option<PyVal>)
    requires i != 0 && !(clr.PyNone? && |args| == 0) && UpperOf(Shift(clr, args).1).None?
    requires SepText(sep, Shift(clr, args).0).Success?
    ensures Render(clr, args, bold, uline, PyInt(i), false, sep) == Failure(AttributeError)
  {
  }

  /**
   * A bytes colour has `upper()`, so an int background is appended after its text:
   * `print(b'x', 'y', bg=5, ret=True)` returns `"b'x' " + ESC[48;5;5m + "y"`.
   */
  lemma BytesColourTakesIntBackground()
    ensures Render(PyObj("b'x'", Some("b'X'")), [PyStr("y")], false, false, PyInt(5), false, None)
         == Success(Some("b'x' " + Back256(5) + "y"))
  {
    var clr := PyObj("b'x'", Some("b'X'"));
    RenderUnfolds(clr, [PyStr("y")], false, false, PyInt(5), None, " ", Back256(5));
    assert Strs([PyStr("y")]) == ["y"];
    assert Join(["y"], " ") == "y";
    var out := "b'x' " + Back256(5) + "y";
    assert Styles(false, false) + (Lead(clr, true, " ") + Back256(5)) + Join(Strs([PyStr("y")]), " ") == out;
    PlainFinish("b'x' ", Back256(5), "y");
  }

  /** `colorprinter.reverse(*args, ret=True)`: colour 255 on background 232. */
  function Reverse(args: seq<PyVal>, bold: bool, uline: bool, ignore: bool, sep: Option<PyVal>)
    : (r: Result<Option<string>, PrintError>)
    ensures !ignore ==> r.Failure?
  {
    Render(PyInt(255), args, bold, uline, PyInt(232), ignore, sep)
  }

  /** Unless `ignore` is set, `reverse` always raises: its int background meets an int colour. */
  lemma ReverseRaises(args: seq<PyVal>, bold: bool, uline: bool, sep: Option<PyVal>)
    ensures Reverse(args, bold, uline, false, sep)
         == Failure(if sep.Some? && |args| > 0 && !sep.value.PyStr? then TypeError else AttributeError)
  {
  }

  /** The plain text of a colour and args holds ESC only if one of their texts does. */
  lemma ItemsAvoidEsc(c: PyVal, rest: seq<PyVal>)
    requires ESC !in Str(c) && forall i :: 0 <= i < |rest| ==> ESC !in Str(rest[i])
    ensures ESC !in Join([Str(c)] + Strs(rest), " ")
  {
    var items := [Str(c)] + Strs(rest);
    forall i | 0 <= i < |items| ensures ESC !in items[i] {
      if i > 0 {
        assert items[i] == Str(rest[i - 1]);
      }
    }
    JoinAvoids(items, " ", ESC);
  }

  /** With `ignore`, nothing is escaped: ESC appears in the result only if some value's text holds one. */
  lemma IgnoreAddsNoEscapes(clr: PyVal, args: seq<PyVal>, bold: bool, uline: bool, bg: PyVal, sep: Option<PyVal>)
    requires !(clr.PyNone? && |args| == 0)
    requires ESC !in Str(clr) && forall i :: 0 <= i < |args| ==> ESC !in Str(args[i])
    ensures Render(clr, args, bold, uline, bg, true, sep).Success?
    ensures Render(clr, args, bold, uline, bg, true, sep).value.Some?
    ensures ESC !in Render(clr, args, bold, uline, bg, true, sep).value.value
  {
    var (rest, c) := Shift(clr, args);
    forall i | 0 <= i < |rest| ensures ESC !in Str(rest[i]) {
      if clr.PyNone? && |args| > 1 {
        assert rest[i] == args[i + 1];
      }
    }
    ItemsAvoidEsc(c, rest);
    assert Render(clr, args, bold, uline, bg, true, sep) == Success(Some(Join([Str(c)] + Strs(rest), " ")));
  }

  /** With `clr=None`, a lone arg is both the colour and the text ... */
  lemma LoneArgIsColourAndText(a: PyVal, bold: bool, uline: bool, bg: PyVal, ignore: bool, sep: Option<PyVal>)
    ensures Render(PyNone, [a], bold, uline, bg, ignore, sep) == Render(a, [a], bold, uline, bg, ignore, sep)
  {
  }

  /** ... while of several args the first is the colour and the others the text. */
  lemma FirstArgIsColour(a: PyVal, rest: seq<PyVal>, bold: bool, uline: bool, bg: PyVal, ignore: bool,
                         sep: Option<PyVal>)
    requires !a.PyNone? && |rest| > 0
    ensures Render(PyNone, [a] + rest, bold, uline, bg, ignore, sep) == Render(a, rest, bold, uline, bg, ignore, sep)
  {
    assert ([a] + rest)[1..] == rest;
  }

  /** So `print(None, 'hi', ret=True)` gives 'hi hi', while `print('hi', ret=True)` gives 'hi '. */
  lemma LoneWordExamples()
    ensures Render(PyNone, [PyStr("hi")], false, false, PyStr(""), false, None) == Success(Some("hi hi"))
    ensures Render(PyStr("hi"), [], false, false, PyStr(""), false, None) == Success(Some("hi "))
  {
    UpperLetters("hi", "HI");
    LookupAbsent(ColorPairs, "HI");
    assert ColourCode(PyStr("hi")) == None;
    assert Lead(PyStr("hi"), true, " ") == "hi " && Lead(PyStr("hi"), false, " ") == "hi ";
    assert Join(Strs([PyStr("hi")]), " ") == "hi" && Join(Strs([]), " ") == "";
    assert Styles(false, false) + ("hi " + "") + "hi" == "hi hi";
    assert Styles(false, false) + ("hi " + "") + "" == "hi ";
  }
}
