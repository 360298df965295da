/** Text layer of the Unraid query rewriter: the token pattern, the space join and dotted paths. */
module QueryText {
  import opened Text

  // -- tokens ------------------------------------------------------------------------

  predicate IsNameStart(c: char) {
    'A' <= c <= 'Z' || 'a' <= c <= 'z' || c == '_'
  }

  predicate IsNameChar(c: char) {
    IsNameStart(c) || '0' <= c <= '9'
  }

  /** Length of the longest prefix of name characters. */
  function NameLen(s: string): (n: nat)
    ensures n <= |s|
    ensures forall i | 0 <= i < n :: IsNameChar(s[i])
    ensures n < |s| ==> !IsNameChar(s[n])
  {
    if s == "" || !IsNameChar(s[0]) then 0 else 1 + NameLen(s[1..])
  }

  /** How much of `s` the first alternative of the token pattern that matches takes. */
  function TokenLen(s: string): (n: nat)
    requires s != "" && !IsSpace(s[0])
    ensures 1 <= n <= |s|
  {
    if s[0] == '(' && IndexOf(s, ')') < |s| then IndexOf(s, ')') + 1
    else if IsNameStart(s[0]) then NameLen(s)
    else 1
  }

  /** All matches of the token pattern, left to right. */
  function Lex(s: string): (ts: seq<string>)
    ensures "" !in ts
    decreases |s|
  {
    if s == "" then []
    else if IsSpace(s[0]) then Lex(s[1..])
    else [s[..TokenLen(s)]] + Lex(s[TokenLen(s)..])
  }

  /** Pieces joined by one space. */
  function Join(parts: seq<string>): string {
    if |parts| == 0 then ""
    else if |parts| == 1 then parts[0]
    else parts[0] + " " + Join(parts[1..])
  }

  /** A whole field or operation name: `[A-Za-z_][A-Za-z0-9_]*`. */
  predicate IsName(t: string) {
    && t != "" && !('0' <= t[0] <= '9')
    && forall c | c in t :: 'A' <= c <= 'Z' || 'a' <= c <= 'z' || '0' <= c <= '9' || c == '_'
  }

  /** A parenthesised argument list: it opens first and closes at its only `)`. */
  predicate IsArguments(t: string) {
    |t| >= 2 && t[0] == '(' && t[|t| - 1] == ')' && ')' !in t[..|t| - 1]
  }

  /** A bracketless token of any other kind, such as a digit or a sign. */
  predicate IsMark(t: string) {
    |t| == 1 && !IsSpace(t[0]) && t[0] != '('
    && !('A' <= t[0] <= 'Z' || 'a' <= t[0] <= 'z' || t[0] == '_')
  }

  predicate IsClosedToken(t: string) {
    IsName(t) || IsArguments(t) || IsMark(t)
  }

  lemma {:induction false} NameLenAppend(a: string, b: string)
    requires b == "" || !IsNameChar(b[0])
    ensures NameLen(a + b) == NameLen(a)
  {
    if a == "" {
      assert a + b == b;
    } else {
      assert (a + b)[1..] == a[1..] + b;
      NameLenAppend(a[1..], b);
    }
  }

  lemma TokenLenAppend(a: string, b: string)
    requires a != "" && !IsSpace(a[0])
    requires b == "" || !IsNameChar(b[0])
    requires a[0] == '(' && IndexOf(a, ')') == |a| ==> ')' !in b
    ensures TokenLen(a + b) == TokenLen(a)
  {
    IndexOfAppend(a, b, ')');
    if a[0] == '(' && IndexOf(a, ')') == |a| {
      assert IndexOf(b, ')') == |b|;
    } else {
      NameLenAppend(a, b);
    }
  }

  /** Lexing splits at a boundary no token can straddle. */
  lemma {:induction false} LexAppend(a: string, b: string)
    requires b == "" || !IsNameChar(b[0])
    requires "(" !in Lex(a) || ')' !in b
    ensures Lex(a + b) == Lex(a) + Lex(b)
    decreases |a|
  {
    if a == "" {
      assert a + b == b;
    } else if IsSpace(a[0]) {
      assert (a + b)[1..] == a[1..] + b;
      LexAppend(a[1..], b);
    } else {
      var n := TokenLen(a);
      assert Lex(a)[0] == a[..n];
      assert a[0] == '(' && IndexOf(a, ')') == |a| ==> a[..n] == "(";
      TokenLenAppend(a, b);
      assert (a + b)[..n] == a[..n] && (a + b)[n..] == a[n..] + b;
      LexAppend(a[n..], b);
      hide IndexOf, NameLen, TokenLen, IsSpace;
    }
  }

  lemma LexSpace(a: string, b: string)
    requires "(" !in Lex(a) || ')' !in b
    ensures Lex(a + " " + b) == Lex(a) + Lex(b)
  {
    assert (" " + b)[1..] == b;
    assert a + " " + b == a + (" " + b);
    LexAppend(a, " " + b);
  }

  lemma {:induction false} NameLenWhole(t: string)
    requires forall c | c in t :: IsNameChar(c)
    ensures NameLen(t) == |t|
  {
    if t != "" {
      NameLenWhole(t[1..]);
    }
  }

  lemma {:induction false} FirstClosing(args: string, rest: string)
    requires IsArguments(args)
    ensures IndexOf(args + rest, ')') == |args| - 1
  {
    var body := args[..|args| - 1];
    assert args + rest == body + ([')'] + rest);
    IndexOfAbsent(body, ')');
    IndexOfAppend(body, [')'] + rest, ')');
  }

  // -- the token pattern, kind by kind -----------------------------------------------

  // Not a character that can go on a name.
  predicate EndsName(rest: string) {
    rest == ""
    || !('A' <= rest[0] <= 'Z' || 'a' <= rest[0] <= 'z' || '0' <= rest[0] <= '9' || rest[0] == '_')
  }

  /** A maximal run of name characters that begins with no digit is one token. */
  lemma LexName(name: string, rest: string)
    requires IsName(name) && EndsName(rest)
    ensures Lex(name + rest) == [name] + Lex(rest)
  {
    var s := name + rest;
    assert name[0] in name && s[0] == name[0] && IsNameStart(s[0]) && !IsSpace(s[0]);
    NameLenWhole(name);
    NameLenAppend(name, rest);
    assert s[..|name|] == name && s[|name|..] == rest;
  }

  /** From an opening parenthesis to the next closing one is one token, whatever is between. */
  lemma LexArguments(args: string, rest: string)
    requires IsArguments(args)
    ensures Lex(args + rest) == [args] + Lex(rest)
  {
    var s := args + rest;
    assert s[0] == args[0] == '(';
    FirstClosing(args, rest);
    assert s[..|args|] == args && s[|args|..] == rest;
  }

  /** Any other character that is no blank is its own token: a brace, a digit, a sign, and an opening
      parenthesis that nothing closes. */
  lemma LexMark(mark: string, rest: string)
    requires IsMark(mark) || (mark == "(" && ')' !in rest)
    ensures Lex(mark + rest) == [mark] + Lex(rest)
  {
    var s := mark + rest;
    assert s[0] == mark[0] && s[..1] == mark && s[1..] == rest;
    if mark == "(" {
      IndexOfAbsent(s, ')');
    }
  }

  /** Blanks give no token, and end the one before. */
  lemma LexBlank(c: char, rest: string)
    requires IsSpace(c)
    ensures Lex("") == [] && Lex([c] + rest) == Lex(rest)
    ensures EndsName([c] + rest)
  {
    assert ([c] + rest)[1..] == rest;
  }

  lemma ClosedIsNotOpen(t: string)
    requires IsClosedToken(t)
    ensures t != "" && t != "("
    ensures IsName(t) ==> t[0] != '(' && t[0] != '{' && t[0] != '}'
  {
    assert t[0] in t;
  }

  lemma LexClosedToken(t: string)
    requires IsClosedToken(t)
    ensures Lex(t) == [t] && "(" !in Lex(t)
  {
    ClosedIsNotOpen(t);
    assert t + "" == t && Lex("") == [];
    if IsName(t) {
      LexName(t, "");
    } else if IsArguments(t) {
      LexArguments(t, "");
    } else {
      LexMark(t, "");
    }
  }

  // -- joined output lexes back ------------------------------------------------------

  function LexAll(parts: seq<string>): seq<string> {
    if parts == [] then [] else Lex(parts[0]) + LexAll(parts[1..])
  }

  lemma {:induction false} LexAllAppend(a: seq<string>, b: seq<string>)
    ensures LexAll(a + b) == LexAll(a) + LexAll(b)
  {
    if a == [] {
      assert a + b == b;
    } else {
      assert (a + b)[1..] == a[1..] + b;
      LexAllAppend(a[1..], b);
    }
  }

  /** Joining pieces with spaces and lexing gives the pieces' own tokens, as long as no piece
      leaves a parenthesis open. */
  lemma {:induction false} LexJoin(parts: seq<string>)
    requires forall p | p in parts :: "(" !in Lex(p)
    ensures Lex(Join(parts)) == LexAll(parts)
  {
    if |parts| == 0 {
    } else if |parts| == 1 {
      assert parts[1..] == [];
    } else {
      LexJoin(parts[1..]);
      LexSpace(parts[0], Join(parts[1..]));
    }
  }

  // What the lexer produces from any text at all: closed tokens, and open parentheses that no
  // later token closes.
  ghost predicate Relexable(ts: seq<string>) {
    ts == []
    || (Relexable(ts[1..])
        && (IsClosedToken(ts[0]) || (ts[0] == "(" && forall t | t in ts[1..] :: ')' !in t)))
  }

  lemma {:induction false} TokensComeFromText(s: string)
    ensures forall t, c | t in Lex(s) && c in t :: c in s
    decreases |s|
  {
    if s == "" {
    } else if IsSpace(s[0]) {
      TokensComeFromText(s[1..]);
    } else {
      TokensComeFromText(s[TokenLen(s)..]);
    }
  }

  lemma {:induction false} LexIsRelexable(s: string)
    ensures Relexable(Lex(s))
    decreases |s|
  {
    if s == "" {
    } else if IsSpace(s[0]) {
      LexIsRelexable(s[1..]);
    } else {
      var n := TokenLen(s);
      var t, rest := s[..n], s[n..];
      LexIsRelexable(rest);
      assert Lex(s)[1..] == Lex(rest);
      if s[0] == '(' && IndexOf(s, ')') < |s| {
        assert t + rest == s;
        IndexOfAppend(t, rest, ')');
        assert ')' == t[n - 1] && t[..n - 1] == s[..IndexOf(s, ')')];
        assert IsArguments(t);
      } else if IsNameStart(s[0]) {
        assert forall c | c in t :: IsNameChar(c);
        assert IsName(t);
      } else if s[0] == '(' {
        TokensComeFromText(rest);
        assert ')' !in s[..|s|] && s[..|s|] == s;
      } else {
        assert IsMark(t);
      }
    }
  }

  lemma {:induction false} JoinAddsNoParenthesis(ts: seq<string>)
    requires forall t | t in ts :: ')' !in t
    ensures ')' !in Join(ts)
  {
    if |ts| > 1 {
      JoinAddsNoParenthesis(ts[1..]);
    }
  }

  lemma {:induction false} RelexTokens(ts: seq<string>)
    requires Relexable(ts)
    ensures Lex(Join(ts)) == ts
  {
    if ts == [] {
    } else {
      RelexTokens(ts[1..]);
      if IsClosedToken(ts[0]) {
        LexClosedToken(ts[0]);
      } else {
        JoinAddsNoParenthesis(ts[1..]);
        LexMark("(", "");
        assert "(" + "" == "(" && Lex("") == [];
      }
      if |ts| > 1 {
        LexSpace(ts[0], Join(ts[1..]));
      }
    }
  }

  /** Any document: printing its tokens with spaces and lexing again changes nothing. */
  lemma LexerPrinterRoundTrip(document: string)
    ensures Lex(Join(Lex(document))) == Lex(document)
  {
    LexIsRelexable(document);
    RelexTokens(Lex(document));
  }

  // -- dotted paths ------------------------------------------------------------------

  /** `path.split(".")`: never empty. */
  function Split(path: string): (parts: seq<string>)
    ensures parts != []
  {
    SplitOn(path, '.')
  }

  /** `".".join(parts)`. */
  function Dotted(parts: seq<string>): string {
    if |parts| == 0 then ""
    else if |parts| == 1 then parts[0]
    else parts[0] + "." + Dotted(parts[1..])
  }

  /** An error path of plain field names comes back from its dotted form part by part. */
  lemma {:induction false} SplitDotted(parts: seq<string>)
    requires parts != []
    requires forall p | p in parts :: '.' !in p
    ensures Split(Dotted(parts)) == parts
  {
    if |parts| == 1 {
      SplitOnNone(parts[0], '.');
    } else {
      SplitDotted(parts[1..]);
      SplitOnFirst(parts[0], Dotted(parts[1..]), '.');
      assert Dotted(parts) == parts[0] + ['.'] + Dotted(parts[1..]);
    }
  }
}
