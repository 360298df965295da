/** Python string operations shared by the text models. */
module Text {

  // Characters for which `str.isspace` holds.
  predicate IsSpace(c: char) {
    || '\t' <= c <= '\r' || '\U{1c}' <= c <= ' ' || c == '\U{85}' || c == '\U{a0}'
    || c == '\U{1680}' || '\U{2000}' <= c <= '\U{200a}' || c == '\U{2028}' || c == '\U{2029}'
    || c == '\U{202f}' || c == '\U{205f}' || c == '\U{3000}'
  }

  /** The blanks of ordinary text, and that no printing ASCII character is one. */
  lemma OrdinarySpaces(c: char)
    ensures c == ' ' || c == '\t' || c == '\n' || c == '\r' ==> IsSpace(c)
    ensures '!' <= c <= '~' ==> !IsSpace(c)
  {
  }

  /** Position of the first `c` in `s`, or `|s|`. */
  function IndexOf(s: string, c: char): (k: nat)
    ensures k <= |s|
    ensures c !in s[..k]
    ensures k < |s| ==> s[k] == c
  {
    if s == "" || s[0] == c then 0 else 1 + IndexOf(s[1..], c)
  }

  lemma {:induction false} IndexOfAppend(a: string, b: string, c: char)
    ensures IndexOf(a + b, c) == if IndexOf(a, c) < |a| then IndexOf(a, c) else |a| + IndexOf(b, c)
  {
    if a == "" {
      assert a + b == b;
    } else {
      assert (a + b)[1..] == a[1..] + b;
      if a[0] != c {
        IndexOfAppend(a[1..], b, c);
      }
    }
  }

  lemma {:induction false} IndexOfAbsent(s: string, c: char)
    requires c !in s
    ensures IndexOf(s, c) == |s|
  {
  }

  /** `s.split(sep)`: never empty. */
  function SplitOn(s: string, sep: char): (parts: seq<string>)
    ensures parts != []
    decreases |s|
  {
    var k := IndexOf(s, sep);
    if k == |s| then [s] else [s[..k]] + SplitOn(s[k + 1..], sep)
  }

  lemma SplitOnNone(s: string, sep: char)
    requires sep !in s
    ensures SplitOn(s, sep) == [s]
  {
  }

  lemma SplitOnFirst(first: string, rest: string, sep: char)
    requires sep !in first
    ensures SplitOn(first + [sep] + rest, sep) == [first] + SplitOn(rest, sep)
  {
    var s := first + [sep] + rest;
    IndexOfAbsent(first, sep);
    IndexOfAppend(first, [sep] + rest, sep);
    assert s == first + ([sep] + rest);
    assert IndexOf([sep] + rest, sep) == 0;
    assert s[..|first|] == first && s[|first| + 1..] == rest;
  }

  /** `s.strip()`. */
  function Strip(s: string): string {
    if s == "" then s
    else if IsSpace(s[0]) then Strip(s[1..])
    else if IsSpace(s[|s| - 1]) then Strip(s[..|s| - 1])
    else s
  }

  /** What stripping takes off: blanks at both ends, all of them, and nothing else. */
  lemma {:induction false} StripIs(s: string) returns (before: string, after: string)
    ensures s == before + Strip(s) + after
    ensures forall c | c in before || c in after :: IsSpace(c)
    ensures Strip(s) != "" ==> !IsSpace(Strip(s)[0]) && !IsSpace(Strip(s)[|Strip(s)| - 1])
  {
    before, after := "", "";
    if s == "" {
    } else if IsSpace(s[0]) {
      var rest := s[1..];
      before, after := StripIs(rest);
      assert Strip(s) == Strip(rest);
      hide Strip;
      assert s == [s[0]] + rest;
      before := [s[0]] + before;
    } else if IsSpace(s[|s| - 1]) {
      var rest := s[..|s| - 1];
      before, after := StripIs(rest);
      assert Strip(s) == Strip(rest);
      hide Strip;
      assert s == rest + [s[|s| - 1]];
      after := after + [s[|s| - 1]];
    } else {
      assert s == "" + s + "";
    }
  }

  // -- decimal numbers ---------------------------------------------------------------

  predicate IsDigit(c: char) {
    '0' <= c <= '9'
  }

  predicate AllDigits(s: string) {
    forall c | c in s :: IsDigit(c)
  }

  function Decimal(n: nat): (s: string)
    ensures s != "" && forall c | c in s :: IsDigit(c)
  {
    if n < 10 then [('0' as int + n) as char] else Decimal(n / 10) + [('0' as int + n % 10) as char]
  }

  /** `int(s)` for a string of digits. */
  function NatOf(s: string): nat
    requires forall c | c in s :: IsDigit(c)
  {
    if s == "" then 0
    else
      var last := s[|s| - 1];
      assert last in s && IsDigit(last);
      NatOf(s[..|s| - 1]) * 10 + (last as int - '0' as int)
  }

  lemma {:induction false} DecimalRoundTrip(n: nat)
    ensures NatOf(Decimal(n)) == n
  {
    var s := Decimal(n);
    if n >= 10 {
      DecimalRoundTrip(n / 10);
      assert s[..|s| - 1] == Decimal(n / 10);
    } else {
      assert s[..0] == "";
    }
  }

  /** Place by place: the last digit is the remainder by ten, the others are the quotient. */
  lemma DecimalPlaces(n: nat)
    ensures var digits, d := "0123456789", Decimal(n);
            d[|d| - 1] == digits[n % 10] && d[..|d| - 1] == if n < 10 then "" else Decimal(n / 10)
  {
    var d := Decimal(n);
    if n >= 10 {
      assert d[..|d| - 1] == Decimal(n / 10);
    }
  }

  lemma {:induction false} DecimalInjective(m: nat, n: nat)
    requires Decimal(m) == Decimal(n)
    ensures m == n
  {
    DecimalRoundTrip(m);
    DecimalRoundTrip(n);
  }
}
