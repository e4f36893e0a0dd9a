/**
 * The handful of Python `str` operations the modelled code relies on:
 * `sep.join(items)`, `s[:-1]`, ASCII `lower()`/`upper()`, substring tests and `str(int)`.
 */
module PyText {

  /** Python's `sep.join(items)`. */
  function Join(items: seq<string>, sep: string): string
  {
    if |items| == 0 then ""
    else if |items| == 1 then items[0]
    else Join(items[..|items| - 1], sep) + sep + items[|items| - 1]
  }

  /** What a loop `for i in items: out += i + sep` appends to `out`. */
  function Terminated(items: seq<string>, sep: string): string
  {
    if |items| == 0 then "" else Terminated(items[..|items| - 1], sep) + items[|items| - 1] + sep
  }

  /** One more loop iteration appends one more item and separator. */
  lemma TerminatedSnoc(items: seq<string>, x: string, sep: string)
    ensures Terminated(items + [x], sep) == Terminated(items, sep) + x + sep
  {
    assert (items + [x])[..|items|] == items;
  }

  /** Each item followed by `sep` is the join followed by one `sep`. */
  lemma {:induction false} TerminatedIsJoinThenSep(items: seq<string>, sep: string)
    requires |items| > 0
    ensures Terminated(items, sep) == Join(items, sep) + sep
  {
    var init := items[..|items| - 1];
    if |init| > 0 {
      TerminatedIsJoinThenSep(init, sep);
    }
  }

  /** A first item followed by `sep` comes before the rest of the items. */
  lemma {:induction false} TerminatedCons(x: string, items: seq<string>, sep: string)
    ensures Terminated([x] + items, sep) == x + sep + Terminated(items, sep)
  {
    if |items| > 0 {
      var init := items[..|items| - 1];
      TerminatedCons(x, init, sep);
      assert ([x] + items)[..|items|] == [x] + init;
    }
  }

  /** A character that occurs in no item and not in the separator does not occur in the join. */
  lemma {:induction false} JoinAvoids(items: seq<string>, sep: string, c: char)
    requires c !in sep
    requires forall i :: 0 <= i < |items| ==> c !in items[i]
    ensures c !in Join(items, sep)
  {
    if |items| > 1 {
      JoinAvoids(items[..|items| - 1], sep, c);
    }
  }

  /** Python's `s[:-1]`, which gives `''` for the empty string. */
  function DropLast(s: string): (r: string)
    ensures |s| > 0 ==> s == r + [s[|s| - 1]]
    ensures |s| == 0 ==> r == ""
  {
    if |s| == 0 then "" else s[..|s| - 1]
  }

  /**
   * The text that `out = prefix; for i in items: out += i + sep; out = out[:-1]` leaves
   * behind for a one-character separator: the joined items after `prefix`, or `prefix`
   * minus its last character when there are no items.
   */
  function ListAfter(prefix: string, items: seq<string>, sep: string): string
  {
    if |items| == 0 then DropLast(prefix) else prefix + Join(items, sep)
  }

  lemma TrimmedListAfter(prefix: string, items: seq<string>, sep: string)
    requires |sep| == 1
    ensures DropLast(prefix + Terminated(items, sep)) == ListAfter(prefix, items, sep)
  {
    if |items| > 0 {
      TerminatedIsJoinThenSep(items, sep);
      assert prefix + Terminated(items, sep) == (prefix + Join(items, sep)) + sep;
    }
  }

  function LowerChar(c: char): char
  {
    if 'A' <= c <= 'Z' then (c as int + 32) as char else c
  }

  function UpperChar(c: char): char
  {
    if 'a' <= c <= 'z' then (c as int - 32) as char else c
  }

  /** `s.lower()` restricted to ASCII letters. */
  function Lower(s: string): (r: string)
    ensures |r| == |s|
    ensures forall i :: 0 <= i < |s| ==> r[i] == LowerChar(s[i])
  {
    if |s| == 0 then "" else Lower(s[..|s| - 1]) + [LowerChar(s[|s| - 1])]
  }

  /** `s.upper()` restricted to ASCII letters. */
  function Upper(s: string): (r: string)
    ensures |r| == |s|
    ensures forall i :: 0 <= i < |s| ==> r[i] == UpperChar(s[i])
  {
    if |s| == 0 then "" else Upper(s[..|s| - 1]) + [UpperChar(s[|s| - 1])]
  }

  /** A string without capital letters is its own `lower()`. */
  lemma LowerKeepsLowercase(s: string)
    requires forall i :: 0 <= i < |s| ==> !('A' <= s[i] <= 'Z')
    ensures Lower(s) == s
  {
    assert forall i :: 0 <= i < |s| ==> Lower(s)[i] == s[i];
  }

  /** `s.upper()` is `u` when they agree character by character. */
  lemma UpperLetters(s: string, u: string)
    requires |s| == |u| && forall i :: 0 <= i < |s| ==> UpperChar(s[i]) == u[i]
    ensures Upper(s) == u
  {
    assert forall i :: 0 <= i < |s| ==> Upper(s)[i] == u[i];
  }

  /** Python's `sub in s` for a substring. */
  predicate Contains(s: string, sub: string)
  {
    if |s| < |sub| then false else s[..|sub|] == sub || Contains(s[1..], sub)
  }

  lemma {:induction false} ContainsIn(s: string, sub: string, k: nat)
    requires k + |sub| <= |s| && s[k..k + |sub|] == sub
    ensures Contains(s, sub)
  {
    if k > 0 {
      assert s[1..][k - 1..k - 1 + |sub|] == sub;
      ContainsIn(s[1..], sub, k - 1);
    }
  }

  lemma {:induction false} ContainsAt(s: string, sub: string) returns (k: nat)
    requires Contains(s, sub)
    ensures k + |sub| <= |s| && s[k..k + |sub|] == sub
  {
    if s[..|sub|] == sub {
      k := 0;
    } else {
      var j := ContainsAt(s[1..], sub);
      assert s[1..][j..j + |sub|] == s[j + 1..j + 1 + |sub|];
      k := j + 1;
    }
  }

  /** A substring can only occur where its first character does. */
  lemma {:induction false} ContainsFirstChar(s: string, sub: string)
    requires |sub| > 0
    ensures Contains(s, sub) ==> sub[0] in s
  {
    if |s| >= |sub| && s[..|sub|] != sub {
      ContainsFirstChar(s[1..], sub);
    }
  }

  function DigitChar(d: nat): char
    requires d < 10
  {
    ('0' as int + d) as char
  }

  /** Python's `str(n)` for a natural number. */
  function NatToString(n: nat): (r: string)
    ensures |r| > 0
    ensures forall i :: 0 <= i < |r| ==> '0' <= r[i] <= '9'
  {
    if n < 10 then [DigitChar(n)] else NatToString(n / 10) + [DigitChar(n % 10)]
  }

  /** The number a string of decimal digits spells. */
  function DigitsValue(s: string): nat
    requires forall i :: 0 <= i < |s| ==> '0' <= s[i] <= '9'
  {
    if |s| == 0 then 0 else 10 * DigitsValue(s[..|s| - 1]) + (s[|s| - 1] as int - '0' as int)
  }

  /** `str(n)` spells `n` in decimal, without leading zeros. */
  lemma {:induction false} NatToStringValue(n: nat)
    ensures DigitsValue(NatToString(n)) == n
    ensures n == 0 <==> NatToString(n) == "0"
    ensures n > 0 ==> NatToString(n)[0] != '0'
  {
    if n >= 10 {
      NatToStringValue(n / 10);
      var s := NatToString(n);
      assert s[..|s| - 1] == NatToString(n / 10);
    }
  }

  /** Python's `str(i)` for an integer. */
  function IntToString(i: int): string
  {
    if i < 0 then "-" + NatToString(-i) else NatToString(i)
  }
}
