/** The Python string primitives the modelled code relies on:
    `sub in s`, `re.split(c, s)` / `s.split(c)` for a one-character literal
    separator, `strip()` / `rstrip()`, `isdigit()`, `str(n)` and `int(s)`.
 */
module Text {
  import opened Base

  /** Python `needle in hay` for two strings. */
  predicate Contains(hay: string, needle: string)
    decreases |hay|
  {
    needle <= hay || (|hay| > 0 && Contains(hay[1..], needle))
  }

  lemma {:induction false} ContainsInfix(a: string, b: string, c: string)
    ensures Contains(a + b + c, b)
    decreases |a|
  {
    if |a| == 0 {
      assert a + b + c == b + c;
    } else {
      assert (a + b + c)[1..] == a[1..] + b + c;
      ContainsInfix(a[1..], b, c);
    }
  }

  lemma {:induction false} ContainsLonger(hay: string, needle: string)
    requires Contains(hay, needle)
    ensures |needle| <= |hay|
    decreases |hay|
  {
    if !(needle <= hay) {
      ContainsLonger(hay[1..], needle);
    }
  }

  /** `re.split(sep, s)` for a separator that is one literal character
      (equivalently `s.split(sep)`): the pieces between occurrences of `sep`,
      empty pieces kept, at least one piece. */
  function Split(s: string, sep: char): (parts: seq<string>)
    ensures |parts| >= 1
    ensures forall i :: 0 <= i < |parts| ==> sep !in parts[i]
    decreases |s|
  {
    if |s| == 0 then [""]
    else
      var rest := Split(s[1..], sep);
      if s[0] == sep then [""] + rest
      else [[s[0]] + rest[0]] + rest[1..]
  }

  /** `sep.join(parts)`. */
  function Join(parts: seq<string>, sep: char): string
    requires |parts| >= 1
  {
    if |parts| == 1 then parts[0] else parts[0] + [sep] + Join(parts[1..], sep)
  }

  function Last<T>(s: seq<T>): T
    requires |s| > 0
  {
    s[|s| - 1]
  }

  /** Joining the pieces back with the separator gives the original string. */
  lemma {:induction false} JoinSplit(s: string, sep: char)
    ensures Join(Split(s, sep), sep) == s
    decreases |s|
  {
    if |s| > 0 {
      JoinSplit(s[1..], sep);
      var rest := Split(s[1..], sep);
      if s[0] == sep {
        assert Split(s, sep) == [""] + rest;
        assert ([""] + rest)[1..] == rest;
      } else {
        var parts := Split(s, sep);
        assert parts == [[s[0]] + rest[0]] + rest[1..];
        if |rest| == 1 {
          assert parts == [[s[0]] + rest[0]];
        } else {
          assert parts[1..] == rest[1..];
        }
      }
    }
  }

  lemma {:induction false} SplitNoSep(s: string, sep: char)
    requires sep !in s
    ensures Split(s, sep) == [s]
    decreases |s|
  {
    if |s| > 0 {
      assert sep !in s[1..];
      SplitNoSep(s[1..], sep);
      assert [s[0]] + s[1..] == s;
    }
  }

  /** Splitting around one separator splits both sides independently. */
  lemma {:induction false} SplitConcat(a: string, b: string, sep: char)
    ensures Split(a + [sep] + b, sep) == Split(a, sep) + Split(b, sep)
    decreases |a|
  {
    if |a| == 0 {
      assert a + [sep] + b == [sep] + b;
      assert ([sep] + b)[1..] == b;
    } else {
      var s := a + [sep] + b;
      assert s[0] == a[0];
      assert s[1..] == a[1..] + [sep] + b;
      SplitConcat(a[1..], b, sep);
    }
  }

  /** Splitting a join of separator-free pieces gives the pieces back. */
  lemma {:induction false} SplitJoin(parts: seq<string>, sep: char)
    requires |parts| >= 1
    requires forall i :: 0 <= i < |parts| ==> sep !in parts[i]
    ensures Split(Join(parts, sep), sep) == parts
    decreases |parts|
  {
    SplitNoSep(parts[0], sep);
    if |parts| > 1 {
      SplitJoin(parts[1..], sep);
      SplitConcat(parts[0], Join(parts[1..], sep), sep);
      assert [parts[0]] + parts[1..] == parts;
    }
  }

  /** Splitting a text that starts with a word and a separator. */
  lemma SplitAfterWord(w: string, rest: string, sep: char)
    requires sep !in w
    ensures Split(w + [sep] + rest, sep) == [w] + Split(rest, sep)
  {
    SplitConcat(w, rest, sep);
    SplitNoSep(w, sep);
  }

  /** The last piece of `a + sep + b` is `b` when `b` has no separator. */
  lemma LastPieceAfterSeparator(a: string, b: string, sep: char)
    requires sep !in b
    ensures Last(Split(a + [sep] + b, sep)) == b
  {
    SplitConcat(a, b, sep);
    SplitNoSep(b, sep);
  }

  /** The first piece of `a + sep + b` is `a` when `a` has no separator. */
  lemma FirstPieceBeforeSeparator(a: string, b: string, sep: char)
    requires sep !in a
    ensures Split(a + [sep] + b, sep)[0] == a
  {
    SplitConcat(a, b, sep);
    SplitNoSep(a, sep);
  }

  /** Python's whitespace for `str.strip()` on byte strings. */
  predicate IsSpace(c: char) {
    c == ' ' || c == '\t' || c == '\n' || c == '\r' || c == '\U{0B}' || c == '\U{0C}'
  }

  /** `s.rstrip()`: the longest prefix not ending in whitespace. */
  function RStrip(s: string): (r: string)
    ensures r <= s
    ensures |r| == 0 || !IsSpace(r[|r| - 1])
    ensures forall i :: |r| <= i < |s| ==> IsSpace(s[i])
    decreases |s|
  {
    if |s| > 0 && IsSpace(s[|s| - 1]) then RStrip(s[..|s| - 1]) else s
  }

  /** `s.lstrip()`: the longest suffix not starting with whitespace. */
  function LStrip(s: string): (r: string)
    ensures |r| <= |s| && r == s[|s| - |r|..]
    ensures |r| == 0 || !IsSpace(r[0])
    ensures forall i :: 0 <= i < |s| - |r| ==> IsSpace(s[i])
    decreases |s|
  {
    if |s| > 0 && IsSpace(s[0]) then LStrip(s[1..]) else s
  }

  /** `s.strip()`. */
  function Strip(s: string): string {
    LStrip(RStrip(s))
  }

  predicate IsDigit(c: char) {
    '0' <= c <= '9'
  }

  /** Python 2 `str.isdigit()`: non-empty and only ASCII digits. */
  predicate IsDigits(s: string) {
    |s| > 0 && forall i :: 0 <= i < |s| ==> IsDigit(s[i])
  }

  /** The number a string of decimal digits denotes. */
  function DigitsValue(s: string): nat
    requires forall i :: 0 <= i < |s| ==> IsDigit(s[i])
  {
    if |s| == 0 then 0
    else
      assert IsDigit(s[|s| - 1]);
      DigitsValue(s[..|s| - 1]) * 10 + (s[|s| - 1] as int - '0' as int)
  }

  function DigitChar(d: nat): (c: char)
    requires d < 10
    ensures IsDigit(c) && c as int - '0' as int == d
  {
    ('0' as int + d) as char
  }

  /** `str(n)` for a non-negative integer. */
  function NatToString(n: nat): (s: string)
    ensures IsDigits(s)
  {
    if n < 10 then [DigitChar(n)] else NatToString(n / 10) + [DigitChar(n % 10)]
  }

  /** `str(n)` reads back as `n`. */
  lemma {:induction false} NatToStringValue(n: nat)
    ensures DigitsValue(NatToString(n)) == n
  {
    if n >= 10 {
      var s := NatToString(n);
      assert s[..|s| - 1] == NatToString(n / 10);
      NatToStringValue(n / 10);
    }
  }

  lemma NatToStringHasNo(n: nat, c: char)
    requires !IsDigit(c)
    ensures c !in NatToString(n)
  {
  }

  /** Python `int(s)` in base 10: surrounding whitespace allowed, an optional
      sign, then digits; anything else raises ValueError. */
  function PyInt(s: string): (r: Py<int>)
    ensures IsDigits(Strip(s)) ==> r == Returned(DigitsValue(Strip(s)))
    ensures r.Raised? ==> r.exception == ValueError
  {
    var t := Strip(s);
    if IsDigits(t) then Returned(DigitsValue(t))
    else if |t| >= 2 && t[0] == '-' && IsDigits(t[1..]) then Returned(0 - DigitsValue(t[1..]) as int)
    else if |t| >= 2 && t[0] == '+' && IsDigits(t[1..]) then Returned(DigitsValue(t[1..]))
    else Raised(ValueError)
  }

  /** `int(str(n)) == n`. */
  lemma IntOfNatToString(n: nat)
    ensures PyInt(NatToString(n)) == Returned(n)
  {
    var s := NatToString(n);
    assert RStrip(s) == s;
    assert LStrip(s) == s;
    NatToStringValue(n);
  }

  /** `str(n)` for any integer. */
  function IntToString(n: int): string {
    if n < 0 then "-" + NatToString(-n) else NatToString(n)
  }

  /** The text of an error whose payload is a remote call's
      (exit code, stdout, stderr) tuple. */
  function ShowTriple(t: Triple): string {
    "(" + IntToString(t.exit) + ", '" + t.stdout + "', '" + t.stderr + "')"
  }

  /** `s.replace(c, "")`. */
  function Without(s: string, c: char): (r: string)
    ensures c !in r
    ensures c !in s ==> r == s
  {
    var keep := (x: char) => x != c;
    if c in s then Filter(s, keep)
    else
      FilterKeepsAll(s, keep);
      Filter(s, keep)
  }

  /** Trailing whitespace after a word that does not end in whitespace is
      what `rstrip()` removes. */
  lemma {:induction false} RStripTrailing(a: string, w: string)
    requires |a| > 0 && !IsSpace(a[|a| - 1])
    requires forall k :: 0 <= k < |w| ==> IsSpace(w[k])
    ensures RStrip(a + w) == a
    decreases |w|
  {
    if |w| == 0 {
      assert a + w == a;
    } else {
      var s := a + w;
      assert s[..|s| - 1] == a + w[..|w| - 1];
      RStripTrailing(a, w[..|w| - 1]);
    }
  }
}
