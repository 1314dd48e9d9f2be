/** Decimal formatting and parsing of integers, and `str.split("_")` field
    access, as the plugin uses them to build cache keys and to read the
    asset primary key out of a multi-order form field name. */
module Text {

  datatype Option<+T> = None | Some(value: T)

  predicate IsDigit(c: char) {
    '0' <= c <= '9'
  }

  predicate AllDigits(s: string) {
    forall i :: 0 <= i < |s| ==> IsDigit(s[i])
  }

  function DigitChar(d: nat): (c: char)
    requires d < 10
    ensures IsDigit(c) && c as int - '0' as int == d
  {
    (d + '0' as int) as char
  }

  function DigitValue(c: char): (d: nat)
    requires IsDigit(c)
    ensures d < 10 && DigitChar(d) == c
  {
    c as int - '0' as int
  }

  /** `str(n)` for a non-negative integer: no sign, no leading zeros. */
  function NatToString(n: nat): (s: string)
    ensures |s| >= 1 && AllDigits(s)
    ensures (|s| == 1) == (n < 10)
    decreases n
  {
    if n < 10 then [DigitChar(n)] else NatToString(n / 10) + [DigitChar(n % 10)]
  }

  /** `str(i)` for any integer. */
  function IntToString(i: int): (s: string)
    ensures |s| >= 1
    ensures '_' !in s
  {
    if i < 0 then "-" + NatToString(-i) else NatToString(i)
  }

  lemma {:induction false} NatToStringInjective(a: nat, b: nat)
    requires NatToString(a) == NatToString(b)
    ensures a == b
    decreases a
  {
    if a >= 10 && b >= 10 {
      var sa, sb := NatToString(a), NatToString(b);
      assert sa[|sa| - 1] == DigitChar(a % 10) && sb[|sb| - 1] == DigitChar(b % 10);
      assert sa[..|sa| - 1] == NatToString(a / 10);
      assert sb[..|sb| - 1] == NatToString(b / 10);
      NatToStringInjective(a / 10, b / 10);
    }
  }

  /** Different integers render as different strings. */
  lemma IntToStringInjective(a: int, b: int)
    requires IntToString(a) == IntToString(b)
    ensures a == b
  {
    var sa, sb := IntToString(a), IntToString(b);
    assert (sa[0] == '-') == (a < 0) && (sb[0] == '-') == (b < 0);
    if a < 0 {
      assert sa[1..] == NatToString(-a) && sb[1..] == NatToString(-b);
      NatToStringInjective(-a, -b);
    } else {
      NatToStringInjective(a, b);
    }
  }

  /** Value of a non-empty string of decimal digits, read left to right. */
  function DigitsValue(s: string): (n: nat)
    requires |s| >= 1 && AllDigits(s)
    decreases |s|
  {
    if |s| == 1 then DigitValue(s[0])
    else 10 * DigitsValue(s[..|s| - 1]) + DigitValue(s[|s| - 1])
  }

  /** Python's `int(s)` on the forms it accepts here: an optional sign
      followed by one or more ASCII digits; anything else raises
      ValueError, which is `None`. */
  function ParseInt(s: string): (r: Option<int>)
    ensures r.Some? ==> |s| >= 1
    ensures (|s| >= 1 && AllDigits(s)) ==> r == Some(DigitsValue(s))
  {
    if |s| >= 2 && s[0] == '-' && AllDigits(s[1..]) then Some(0 - DigitsValue(s[1..]) as int)
    else if |s| >= 2 && s[0] == '+' && AllDigits(s[1..]) then Some(DigitsValue(s[1..]))
    else if |s| >= 1 && AllDigits(s) then Some(DigitsValue(s))
    else None
  }

  /** Python allows single underscores between digits in `int(s)`. */
  predicate UnderscoresBetweenDigits(s: string) {
    forall i :: 0 <= i < |s| && s[i] == '_' ==> 0 < i < |s| - 1 && IsDigit(s[i - 1]) && IsDigit(s[i + 1])
  }

  function WithoutUnderscores(s: string): (r: string)
    ensures '_' !in r
    ensures '_' !in s ==> r == s
    decreases |s|
  {
    if |s| == 0 then []
    else WithoutUnderscores(s[..|s| - 1]) + (if s[|s| - 1] == '_' then [] else [s[|s| - 1]])
  }

  /** Python's `int(s)` on a string, including underscore digit
      separators: the separators are dropped and the rest parsed as by
      `ParseInt`. */
  function ParsePyInt(s: string): Option<int> {
    if UnderscoresBetweenDigits(s) then ParseInt(WithoutUnderscores(s)) else None
  }

  /** On strings without underscores the two parsers agree. */
  lemma ParsePyIntWithoutSeparators(s: string)
    ensures '_' !in s ==> ParsePyInt(s) == ParseInt(s)
  {
  }

  lemma SeparatorBetweenDigits()
    ensures UnderscoresBetweenDigits("1_0")
  {
    var s := "1_0";
    forall i | 0 <= i < |s| && s[i] == '_' ensures 0 < i < |s| - 1 && IsDigit(s[i - 1]) && IsDigit(s[i + 1]) {
      assert i == 1;
    }
  }

  lemma SeparatorDropped()
    ensures WithoutUnderscores("1_0") == "10"
  {
    assert "1"[..0] == [] && WithoutUnderscores("1") == "1";
    assert "1_"[..1] == "1" && WithoutUnderscores("1_") == "1";
    assert "1_0"[..2] == "1_";
  }

  lemma TenParsed()
    ensures ParseInt("10") == Some(10)
  {
    assert AllDigits("10");
    assert "10"[..1] == "1";
  }

  /** A separator between digits is dropped. */
  lemma ParsePyIntSeparated()
    ensures ParsePyInt("1_0") == Some(10)
  {
    SeparatorBetweenDigits();
    SeparatorDropped();
    TenParsed();
  }

  /** A separator that is not between two digits makes `int()` fail. */
  lemma ParsePyIntMisplacedSeparator()
    ensures ParsePyInt("_1") == None && ParsePyInt("1_") == None && ParsePyInt("1__0") == None
  {
    assert "_1"[0] == '_';
    assert "1_"[1] == '_';
    assert "1__0"[1] == '_' && "1__0"[2] == '_';
  }

  lemma {:induction false} DigitsValueOfNatToString(n: nat)
    ensures DigitsValue(NatToString(n)) == n
    decreases n
  {
    if n >= 10 {
      var s := NatToString(n);
      assert s[..|s| - 1] == NatToString(n / 10);
      DigitsValueOfNatToString(n / 10);
    }
  }

  /** Parsing what `IntToString` printed gives the integer back. */
  lemma ParseIntRoundTrip(i: int)
    ensures ParseInt(IntToString(i)) == Some(i)
  {
    if i < 0 {
      var s := IntToString(i);
      assert s[1..] == NatToString(-i);
      DigitsValueOfNatToString(-i);
    } else {
      DigitsValueOfNatToString(i);
    }
  }

  /** Index of the first `c` in `s`, or `|s|` when there is none. */
  function IndexOf(s: string, c: char): (i: nat)
    ensures i <= |s|
    ensures i < |s| ==> s[i] == c
    ensures forall j :: 0 <= j < i ==> s[j] != c
  {
    if |s| == 0 then 0 else if s[0] == c then 0 else 1 + IndexOf(s[1..], c)
  }

  /** `s.split("_")[k]`: `None` when there are fewer than k + 1 fields
      (Python raises IndexError). */
  function SplitField(s: string, k: nat): (r: Option<string>)
    ensures r.Some? ==> '_' !in r.value
    decreases k
  {
    var i := IndexOf(s, '_');
    if k == 0 then Some(s[..i])
    else if i == |s| then None
    else SplitField(s[i + 1..], k - 1)
  }

  lemma SplitFieldAfterUnderscore(head: string, tail: string, k: nat)
    requires '_' !in head
    ensures SplitField(head + "_" + tail, k + 1) == SplitField(tail, k)
  {
    var s := head + "_" + tail;
    assert IndexOf(s, '_') == |head| by {
      assert s == head + ("_" + tail);
      IndexOfAfterFree(head, "_" + tail, '_');
    }
    assert s[|head| + 1..] == tail;
  }

  lemma {:induction false} IndexOfAfterFree(head: string, rest: string, c: char)
    requires c !in head
    requires |rest| >= 1 && rest[0] == c
    ensures IndexOf(head + rest, c) == |head|
    decreases |head|
  {
    if |head| > 0 {
      assert (head + rest)[1..] == head[1..] + rest;
      IndexOfAfterFree(head[1..], rest, c);
    }
  }

  /** Splits `a + "_" + b` at its last `_` when `b` holds none. */
  lemma SplitAtLastUnderscore(a: string, b: string, c: string, d: string)
    requires '_' !in b && '_' !in d
    requires a + "_" + b == c + "_" + d
    ensures a == c && b == d
  {
    var s := a + "_" + b;
    assert s[|a|] == '_' && s[|c|] == '_';
    assert forall k :: |a| < k < |s| ==> s[k] != '_' by {
      forall k | |a| < k < |s| ensures s[k] != '_' {
        assert s[k] == b[k - |a| - 1];
      }
    }
    assert forall k :: |c| < k < |s| ==> s[k] != '_' by {
      forall k | |c| < k < |s| ensures s[k] != '_' {
        assert s[k] == (c + "_" + d)[k] == d[k - |c| - 1];
      }
    }
    assert |a| == |c|;
    assert a == s[..|a|] && c == s[..|c|];
    assert b == s[|a| + 1..] && d == s[|c| + 1..];
  }
}
