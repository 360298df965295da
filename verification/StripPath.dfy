/** Dropping one leaf field from a GraphQL document: the token loop of `strip_path` and
    `strip_fields`, against leaf removal on selection trees. */
module StripPath {
  import opened Wrappers
  import opened QueryText

  // -- selection trees ---------------------------------------------------------------

  /** A selection set, as a first-field/remaining-fields list. `arguments` is the
      parenthesised text after the name, or empty. */
  datatype Selection =
    | End
    | Leaf(name: string, arguments: string, rest: Selection)
    | Composite(name: string, arguments: string, inner: Selection, rest: Selection)

  /** One operation: everything before the first brace, and its selection set. */
  datatype Document = Document(head: seq<string>, fields: Selection)

  ghost predicate WellFormedFields(sel: Selection) {
    sel.End?
    || (&& IsName(sel.name)
        && (sel.arguments == "" || IsArguments(sel.arguments))
        && WellFormedFields(sel.rest)
        && (sel.Composite? ==> WellFormedFields(sel.inner)))
  }

  ghost predicate WellFormed(doc: Document) {
    WellFormedFields(doc.fields) && forall t | t in doc.head :: IsClosedToken(t) && t != "{"
  }

  function FieldTokens(name: string, arguments: string): seq<string> {
    if arguments == "" then [name] else [name, arguments]
  }

  function PrintFields(sel: Selection): seq<string> {
    match sel
    case End => []
    case Leaf(name, arguments, rest) => FieldTokens(name, arguments) + PrintFields(rest)
    case Composite(name, arguments, inner, rest) =>
      FieldTokens(name, arguments) + ["{"] + PrintFields(inner) + ["}"] + PrintFields(rest)
  }

  /** The tokens of a document. */
  function Print(doc: Document): seq<string> {
    doc.head + ["{"] + PrintFields(doc.fields) + ["}"]
  }

  // The same tokens grouped as the rewriter writes them, each name glued to its arguments.
  function GluedFields(sel: Selection): seq<string> {
    match sel
    case End => []
    case Leaf(name, arguments, rest) => [name + arguments] + GluedFields(rest)
    case Composite(name, arguments, inner, rest) =>
      [name + arguments] + ["{"] + GluedFields(inner) + ["}"] + GluedFields(rest)
  }

  function Glued(doc: Document): seq<string> {
    doc.head + ["{"] + GluedFields(doc.fields) + ["}"]
  }

  // -- removal, by descent along the path --------------------------------------------

  /** The tree without the leaf fields at `target`. */
  function Remove(sel: Selection, target: seq<string>): Selection
    decreases sel
  {
    match sel
    case End => End
    case Leaf(name, arguments, rest) =>
      if target == [name] then Remove(rest, target) else Leaf(name, arguments, Remove(rest, target))
    case Composite(name, arguments, inner, rest) =>
      var inner' := if |target| > 1 && target[0] == name then Remove(inner, target[1..]) else inner;
      Composite(name, arguments, inner', Remove(rest, target))
  }

  /** A field of a document, by the names leading to it. */
  datatype Entry = Entry(path: seq<string>, arguments: string, leaf: bool)

  /** Every field in document order: an account of a tree that does not mention tokens. */
  function Entries(sel: Selection, prefix: seq<string>): seq<Entry> {
    match sel
    case End => []
    case Leaf(name, arguments, rest) =>
      [Entry(prefix + [name], arguments, true)] + Entries(rest, prefix)
    case Composite(name, arguments, inner, rest) =>
      [Entry(prefix + [name], arguments, false)] + Entries(inner, prefix + [name])
      + Entries(rest, prefix)
  }

  function Without(es: seq<Entry>, target: seq<string>): seq<Entry> {
    if es == [] then []
    else (if es[0].leaf && es[0].path == target then [] else [es[0]]) + Without(es[1..], target)
  }

  lemma {:induction false} WithoutAppend(a: seq<Entry>, b: seq<Entry>, target: seq<string>)
    ensures Without(a + b, target) == Without(a, target) + Without(b, target)
  {
    if a == [] {
      assert a + b == b;
    } else {
      assert (a + b)[0] == a[0] && (a + b)[1..] == a[1..] + b;
      WithoutAppend(a[1..], b, target);
      var first := if a[0].leaf && a[0].path == target then [] else [a[0]];
      assert first + (Without(a[1..], target) + Without(b, target))
          == first + Without(a[1..], target) + Without(b, target);
    }
  }

  lemma {:induction false} EntriesExtendPrefix(sel: Selection, prefix: seq<string>)
    ensures forall e | e in Entries(sel, prefix) :: prefix < e.path
  {
    match sel
    case End =>
    case Leaf(_, _, rest) => EntriesExtendPrefix(rest, prefix);
    case Composite(name, _, inner, rest) =>
      EntriesExtendPrefix(inner, prefix + [name]);
      EntriesExtendPrefix(rest, prefix);
  }

  lemma {:induction false} WithoutForeign(es: seq<Entry>, target: seq<string>)
    requires forall e | e in es :: e.path != target
    ensures Without(es, target) == es
  {
    if es != [] {
      WithoutForeign(es[1..], target);
    }
  }

  lemma {:induction false} RemoveEntriesFrom(sel: Selection, prefix: seq<string>, target: seq<string>)
    requires target != []
    ensures Entries(Remove(sel, target), prefix) == Without(Entries(sel, prefix), prefix + target)
    decreases sel
  {
    match sel
    case End =>
    case Leaf(name, _, rest) =>
      RemoveEntriesFrom(rest, prefix, target);
      assert (prefix + [name] == prefix + target) <==> (target == [name]) by {
        assert (prefix + [name])[|prefix|..] == [name] && (prefix + target)[|prefix|..] == target;
      }
    case Composite(name, arguments, inner, rest) =>
      RemoveEntriesFrom(rest, prefix, target);
      var head := [Entry(prefix + [name], arguments, false)];
      var inside := Entries(inner, prefix + [name]);
      WithoutAppend(head + inside, Entries(rest, prefix), prefix + target);
      WithoutAppend(head, inside, prefix + target);
      if |target| > 1 && target[0] == name {
        RemoveEntriesFrom(inner, prefix + [name], target[1..]);
        assert prefix + [name] + target[1..] == prefix + target;
      } else {
        EntriesExtendPrefix(inner, prefix + [name]);
        forall e | e in inside
          ensures e.path != prefix + target
        {
          assert prefix + [name] < e.path;
          assert e.path[|prefix|] == name;
        }
        WithoutForeign(inside, prefix + target);
      }
  }

  /** Removal takes out exactly the leaves at the path: every other field, composite or leaf,
      keeps its arguments and its place. */
  lemma RemoveEntries(sel: Selection, target: seq<string>)
    requires target != []
    ensures Entries(Remove(sel, target), []) == Without(Entries(sel, []), target)
  {
    RemoveEntriesFrom(sel, [], target);
    assert [] + target == target;
  }

  lemma {:induction false} RemoveKeepsForm(sel: Selection, target: seq<string>)
    requires WellFormedFields(sel)
    ensures WellFormedFields(Remove(sel, target))
    decreases sel
  {
    if !sel.End? {
      RemoveKeepsForm(sel.rest, target);
      if sel.Composite? && |target| > 1 {
        RemoveKeepsForm(sel.inner, target[1..]);
      }
    }
  }

  // -- the token loop ----------------------------------------------------------------

  /** The loop's variables. */
  datatype Scan = Scan(out: seq<string>, stack: seq<string>, name: Option<string>, text: string)

  function FlushLeaf(s: Scan, target: seq<string>): Scan
    requires target != []
  {
    var keep := s.name.Some? && !(s.stack == target[..|target| - 1] && s.name.value == target[|target| - 1]);
    Scan(if keep then s.out + [s.text] else s.out, s.stack, None, "")
  }

  function Step(s: Scan, tok: string, target: seq<string>): Scan
    requires target != [] && tok != ""
  {
    if tok == "{" then
      (match s.name
       case Some(n) => Scan(s.out + [s.text, tok], s.stack + [n], None, "")
       case None => s.(out := s.out + [tok]))
    else if tok == "}" then
      var f := FlushLeaf(s, target);
      f.(out := f.out + [tok], stack := if f.stack == [] then [] else f.stack[..|f.stack| - 1])
    else if tok[0] == '(' then s.(text := s.text + tok)
    else FlushLeaf(s, target).(name := Some(tok), text := tok)
  }

  function Run(s: Scan, toks: seq<string>, target: seq<string>): Scan
    requires target != [] && "" !in toks
  {
    if toks == [] then s
    else
      var last := |toks| - 1;
      Step(Run(s, toks[..last], target), toks[last], target)
  }

  lemma {:induction false} RunAppend(s: Scan, a: seq<string>, b: seq<string>, target: seq<string>)
    requires target != [] && "" !in a && "" !in b
    ensures Run(s, a + b, target) == Run(Run(s, a, target), b, target)
    decreases |b|
  {
    if b == [] {
      assert a + b == a;
    } else {
      var last := |b| - 1;
      assert (a + b)[..|a + b| - 1] == a + b[..last];
      RunAppend(s, a, b[..last], target);
    }
  }

  lemma RunNone(s: Scan, target: seq<string>)
    requires target != []
    ensures Run(s, [], target) == s
  {
  }

  lemma RunNext(s: Scan, tokens: seq<string>, i: nat, k: nat, target: seq<string>)
    requires target != [] && "" !in tokens && i <= k < |tokens|
    ensures Run(s, tokens[i..k + 1], target) == Step(Run(s, tokens[i..k], target), tokens[k], target)
  {
    assert tokens[i..k + 1][..k - i] == tokens[i..k];
  }

  lemma RunOne(s: Scan, tok: string, target: seq<string>)
    requires target != [] && tok != ""
    ensures Run(s, [tok], target) == Step(s, tok, target)
  {
  }

  /** Reading a name and its arguments leaves them pending. */
  lemma RunField(s: Scan, name: string, arguments: string, target: seq<string>)
    requires target != [] && IsName(name) && (arguments == "" || IsArguments(arguments))
    ensures "" !in FieldTokens(name, arguments)
    ensures Run(s, FieldTokens(name, arguments), target)
         == Scan(FlushLeaf(s, target).out, s.stack, Some(name), name + arguments)
  {
    ClosedIsNotOpen(name);
    RunOne(s, name, target);
    if arguments == "" {
      assert name + arguments == name;
    } else {
      RunAppend(s, [name], [arguments], target);
      assert [name] + [arguments] == [name, arguments];
      RunOne(Step(s, name, target), arguments, target);
    }
  }

  lemma {:induction false} NoEmptyTokens(sel: Selection)
    requires WellFormedFields(sel)
    ensures "" !in PrintFields(sel)
  {
    if !sel.End? {
      NoEmptyTokens(sel.rest);
      if sel.Composite? {
        NoEmptyTokens(sel.inner);
      }
    }
  }

  // What removal does to a selection set whose enclosing fields are `stack`.
  function RemoveUnder(sel: Selection, stack: seq<string>, target: seq<string>): Selection {
    if stack < target then Remove(sel, target[|stack|..]) else sel
  }

  // The scan after `sel`, once a pending leaf has been written or dropped.
  function AfterFields(s: Scan, sel: Selection, target: seq<string>): Scan
    requires target != []
  {
    Scan(FlushLeaf(s, target).out + GluedFields(RemoveUnder(sel, s.stack, target)), s.stack, None, "")
  }

  /** The loop invariant over a whole selection set: the stack is the path of the enclosing
      fields, and what has been written is the tree without the target leaf. */
  lemma {:induction false} RunFields(s: Scan, sel: Selection, target: seq<string>)
    requires target != [] && WellFormedFields(sel)
    requires "" !in PrintFields(sel)
    ensures FlushLeaf(Run(s, PrintFields(sel), target), target) == AfterFields(s, sel, target)
    decreases sel, 1
  {
    match sel
    case End => assert RemoveUnder(sel, s.stack, target) == End;
    case Leaf(_, _, _) => RunLeaf(s, sel, target);
    case Composite(_, _, _, _) => RunComposite(s, sel, target);
  }

  // Going on after a leaf with its text pending comes to the same.
  lemma AfterLeaf(s: Scan, sel: Selection, target: seq<string>)
    requires target != [] && sel.Leaf?
    ensures var pending := Scan(FlushLeaf(s, target).out, s.stack, Some(sel.name), sel.name + sel.arguments);
            AfterFields(pending, sel.rest, target) == AfterFields(s, sel, target)
  {
    RemoveLeafUnder(sel, s.stack, target);
    hide RemoveUnder, GluedFields;
  }

  lemma {:induction false} RunLeaf(s: Scan, sel: Selection, target: seq<string>)
    requires target != [] && WellFormedFields(sel) && sel.Leaf?
    requires "" !in PrintFields(sel)
    ensures FlushLeaf(Run(s, PrintFields(sel), target), target) == AfterFields(s, sel, target)
    decreases sel, 0
  {
    var toks := FieldTokens(sel.name, sel.arguments);
    assert PrintFields(sel) == toks + PrintFields(sel.rest);
    RunField(s, sel.name, sel.arguments, target);
    NoEmptyTokens(sel.rest);
    hide Run, Step, PrintFields, FieldTokens, AfterFields, FlushLeaf;
    RunAppend(s, toks, PrintFields(sel.rest), target);
    RunFields(Run(s, toks, target), sel.rest, target);
    AfterLeaf(s, sel, target);
  }

  // The scan just inside a composite field.
  function Inside(s: Scan, sel: Selection, target: seq<string>): Scan
    requires target != [] && sel.Composite?
  {
    Scan(FlushLeaf(s, target).out + [sel.name + sel.arguments] + ["{"], s.stack + [sel.name], None, "")
  }

  // The scan just after a composite field's closing brace.
  function Closed(s: Scan, sel: Selection, target: seq<string>): Scan
    requires target != [] && sel.Composite?
  {
    var inner := GluedFields(RemoveUnder(sel.inner, s.stack + [sel.name], target));
    Scan(Inside(s, sel, target).out + inner + ["}"], s.stack, None, "")
  }

  lemma OpenBrace(s: Scan, sel: Selection, target: seq<string>)
    requires target != [] && WellFormedFields(sel) && sel.Composite?
    ensures "" !in FieldTokens(sel.name, sel.arguments)
    ensures Step(Run(s, FieldTokens(sel.name, sel.arguments), target), "{", target) == Inside(s, sel, target)
  {
    RunField(s, sel.name, sel.arguments, target);
    var out := FlushLeaf(s, target).out;
    assert out + [sel.name + sel.arguments, "{"] == out + [sel.name + sel.arguments] + ["{"];
  }

  lemma CloseBrace(s: Scan, sel: Selection, target: seq<string>, atEnd: Scan)
    requires target != [] && sel.Composite?
    requires FlushLeaf(atEnd, target) == AfterFields(Inside(s, sel, target), sel.inner, target)
    ensures Step(atEnd, "}", target) == Closed(s, sel, target)
  {
  }

  lemma AfterComposite(s: Scan, sel: Selection, target: seq<string>)
    requires target != [] && sel.Composite?
    ensures AfterFields(Closed(s, sel, target), sel.rest, target) == AfterFields(s, sel, target)
  {
  }

  lemma {:induction false} RunComposite(s: Scan, sel: Selection, target: seq<string>)
    requires target != [] && WellFormedFields(sel) && sel.Composite?
    requires "" !in PrintFields(sel)
    ensures FlushLeaf(Run(s, PrintFields(sel), target), target) == AfterFields(s, sel, target)
    decreases sel, 0
  {
    NoEmptyTokens(sel.inner);
    NoEmptyTokens(sel.rest);
    OpenBrace(s, sel, target);
    RunCompositeTokens(s, sel, target);
    var inside := Inside(s, sel, target);
    RunFields(inside, sel.inner, target);
    CloseBrace(s, sel, target, Run(inside, PrintFields(sel.inner), target));
    RunFields(Closed(s, sel, target), sel.rest, target);
    AfterComposite(s, sel, target);
  }

  lemma RunCompositeTokens(s: Scan, sel: Selection, target: seq<string>)
    requires target != [] && WellFormedFields(sel) && sel.Composite?
    requires "" !in FieldTokens(sel.name, sel.arguments)
    requires "" !in PrintFields(sel.inner) && "" !in PrintFields(sel.rest)
    ensures "" !in PrintFields(sel)
    ensures var s2 := Step(Run(s, FieldTokens(sel.name, sel.arguments), target), "{", target);
            Run(s, PrintFields(sel), target)
            == Run(Step(Run(s2, PrintFields(sel.inner), target), "}", target), PrintFields(sel.rest), target)
  {
    var toks, inner, rest := FieldTokens(sel.name, sel.arguments), PrintFields(sel.inner), PrintFields(sel.rest);
    var s1 := Run(s, toks, target);
    RunAppend(s, toks + ["{"] + inner + ["}"], rest, target);
    RunAppend(s, toks + ["{"] + inner, ["}"], target);
    RunAppend(s, toks + ["{"], inner, target);
    RunAppend(s, toks, ["{"], target);
    RunOne(s1, "{", target);
    RunOne(Run(Step(s1, "{", target), inner, target), "}", target);
  }

  lemma RemoveLeafUnder(sel: Selection, stack: seq<string>, target: seq<string>)
    requires sel.Leaf? && target != []
    ensures GluedFields(RemoveUnder(sel, stack, target))
         == (if stack == target[..|target| - 1] && sel.name == target[|target| - 1] then []
             else [sel.name + sel.arguments]) + GluedFields(RemoveUnder(sel.rest, stack, target))
  {
  }

  /** What `strip_path` writes for a token list, before joining. */
  function StripTokens(tokens: seq<string>, target: seq<string>): seq<string>
    requires target != [] && "" !in tokens
  {
    var i := FirstBrace(tokens);
    Run(Scan(tokens[..i], [], None, ""), tokens[i..], target).out
  }

  /** Where the operation keyword, name and variables end. */
  function FirstBrace(tokens: seq<string>): (i: nat)
    ensures i <= |tokens|
    ensures "{" !in tokens[..i]
    ensures i < |tokens| ==> tokens[i] == "{"
  {
    if tokens == [] || tokens[0] == "{" then 0 else 1 + FirstBrace(tokens[1..])
  }

  lemma {:induction false} FirstBraceIs(tokens: seq<string>, i: nat)
    requires i <= |tokens| && "{" !in tokens[..i]
    requires i < |tokens| ==> tokens[i] == "{"
    ensures FirstBrace(tokens) == i
  {
  }

  /** The document with the leaf at `target` taken out. */
  function RemoveFrom(doc: Document, target: seq<string>): Document {
    doc.(fields := Remove(doc.fields, target))
  }

  /** The scan of a printed document writes the printed document without the target leaf. */
  lemma StripTokensRemoves(doc: Document, target: seq<string>)
    requires WellFormed(doc) && target != []
    requires "" !in Print(doc)
    ensures StripTokens(Print(doc), target) == Glued(RemoveFrom(doc, target))
  {
    var body := PrintFields(doc.fields);
    var tokens := Print(doc);
    FirstBraceIs(tokens, |doc.head|) by {
      assert tokens[..|doc.head|] == doc.head;
    }
    assert tokens[|doc.head|..] == ["{"] + body + ["}"] && tokens[..|doc.head|] == doc.head;
    var s0 := Scan(doc.head, [], None, "");
    var s1 := Scan(doc.head + ["{"], [], None, "");
    NoEmptyTokens(doc.fields);
    RunAppend(s0, ["{"] + body, ["}"], target);
    RunAppend(s0, ["{"], body, target);
    RunOne(s0, "{", target);
    RunFields(s1, doc.fields, target);
    RunOne(Run(s1, body, target), "}", target);
    assert target[0..] == target;
  }

  // -- the written text lexes back to the tree ---------------------------------------

  lemma LexField(name: string, arguments: string)
    requires IsName(name) && (arguments == "" || IsArguments(arguments))
    ensures Lex(name + arguments) == FieldTokens(name, arguments)
    ensures "(" !in FieldTokens(name, arguments)
  {
    LexClosedToken(name);
    if arguments == "" {
      assert name + arguments == name;
    } else {
      LexClosedToken(arguments);
      LexAppend(name, arguments);
    }
  }

  lemma LexOne(t: string)
    ensures LexAll([t]) == Lex(t)
  {
  }

  lemma {:induction false} LexGluedFields(sel: Selection)
    requires WellFormedFields(sel)
    ensures LexAll(GluedFields(sel)) == PrintFields(sel)
    ensures forall p | p in GluedFields(sel) :: "(" !in Lex(p)
  {
    hide Lex, LexAll;
    match sel
    case End => assert LexAll([]) == [] by { LexAllNone(); }
    case Leaf(name, arguments, rest) =>
      LexField(name, arguments);
      LexOne(name + arguments);
      LexGluedFields(rest);
      LexAllAppend([name + arguments], GluedFields(rest));
    case Composite(name, arguments, inner, rest) =>
      LexField(name, arguments);
      LexGluedFields(inner);
      LexGluedFields(rest);
      LexBraced([name + arguments], GluedFields(inner), GluedFields(rest));
      LexOne(name + arguments);
      LexClosedToken("{");
      LexClosedToken("}");
  }

  lemma LexAllNone()
    ensures LexAll([]) == []
  {
  }

  lemma LexBraced(a: seq<string>, inner: seq<string>, rest: seq<string>)
    ensures LexAll(a + ["{"] + inner + ["}"] + rest)
         == LexAll(a) + ["{"] + LexAll(inner) + ["}"] + LexAll(rest)
  {
    LexClosedToken("{");
    LexClosedToken("}");
    LexOne("{");
    LexOne("}");
    LexAllAppend(a + ["{"] + inner + ["}"], rest);
    LexAllAppend(a + ["{"] + inner, ["}"]);
    LexAllAppend(a + ["{"], inner);
    LexAllAppend(a, ["{"]);
  }

  lemma {:induction false} LexAllClosed(ts: seq<string>)
    requires forall t | t in ts :: IsClosedToken(t)
    ensures LexAll(ts) == ts
  {
    if ts != [] {
      LexClosedToken(ts[0]);
      LexAllClosed(ts[1..]);
    }
  }

  lemma LexGlued(doc: Document)
    requires WellFormed(doc)
    ensures LexAll(Glued(doc)) == Print(doc)
  {
    var glued := GluedFields(doc.fields);
    LexGluedFields(doc.fields);
    LexAllClosed(doc.head);
    LexBraced(doc.head, glued, []);
    LexAllNone();
    assert doc.head + ["{"] + glued + ["}"] + [] == Glued(doc);
  }

  lemma GluedIsClosed(doc: Document, p: string)
    requires WellFormed(doc) && p in Glued(doc)
    ensures "(" !in Lex(p)
  {
    LexGluedFields(doc.fields);
    if p !in GluedFields(doc.fields) {
      assert IsClosedToken(p);
      LexClosedToken(p);
    }
  }

  /** Lexing the space-joined output of a well-formed document gives its tokens back. */
  lemma GluedLexesBack(doc: Document)
    requires WellFormed(doc)
    ensures Lex(Join(Glued(doc))) == Print(doc)
  {
    forall p | p in Glued(doc) {
      GluedIsClosed(doc, p);
    }
    LexJoin(Glued(doc));
    LexGlued(doc);
  }

  /** `strip_path` as text to text. */
  function StripText(document: string, path: string): string {
    Join(StripTokens(Lex(document), Split(path)))
  }

  /** On every well-formed document, stripping a path is removing the leaf from the tree, and
      the result is again the text of a well-formed document. */
  lemma StripTextRemovesLeaf(document: string, doc: Document, path: string)
    requires WellFormed(doc) && Lex(document) == Print(doc)
    ensures StripText(document, path) == Join(Glued(RemoveFrom(doc, Split(path))))
    ensures WellFormed(RemoveFrom(doc, Split(path)))
    ensures Lex(StripText(document, path)) == Print(RemoveFrom(doc, Split(path)))
  {
    StripTokensRemoves(doc, Split(path));
    RemoveKeepsForm(doc.fields, Split(path));
    GluedLexesBack(RemoveFrom(doc, Split(path)));
  }

  // -- one ordinary document, end to end ---------------------------------------------

  lemma Joined(first: string, rest: seq<string>, text: string, whole: string)
    requires rest != [] && Join(rest) == text && whole == first + " " + text
    ensures Join([first] + rest) == whole
  {
    assert ([first] + rest)[1..] == rest;
  }

  lemma ExampleText(tail: seq<string>, text: string)
    requires tail != [] && Join(tail) == text
    ensures Join(["query", "{", "info", "{"] + tail) == "query { info { " + text
  {
    hide Join;
    Joined("{", tail, text, "{ " + text);
    Joined("info", ["{"] + tail, "{ " + text, "info { " + text);
    assert ["info"] + (["{"] + tail) == ["info", "{"] + tail;
    Joined("{", ["info", "{"] + tail, "info { " + text, "{ info { " + text);
    assert ["{"] + (["info", "{"] + tail) == ["{", "info", "{"] + tail;
    Joined("query", ["{", "info", "{"] + tail, "{ info { " + text, "query { info { " + text);
    assert ["query"] + (["{", "info", "{"] + tail) == ["query", "{", "info", "{"] + tail;
  }

  lemma ExampleEnds()
    ensures Join(["uptime", "}", "}"]) == "uptime } }"
    ensures Join(["os", "uptime", "}", "}"]) == "os uptime } }"
  {
    assert Join(["}"]) == "}";
    hide Join;
    Joined("}", ["}"], "}", "} }");
    Joined("uptime", ["}", "}"], "} }", "uptime } }");
    Joined("os", ["uptime", "}", "}"], "uptime } }", "os uptime } }");
    assert ["}"] + ["}"] == ["}", "}"];
    assert ["uptime"] + ["}", "}"] == ["uptime", "}", "}"];
    assert ["os"] + ["uptime", "}", "}"] == ["os", "uptime", "}", "}"];
  }

  // The example's document, around what is inside `info`.
  function InfoQuery(info: Selection): Document {
    Document(["query"], Composite("info", "", info, End))
  }

  lemma ExampleIsWellFormed(info: Selection)
    requires WellFormedFields(info)
    ensures WellFormed(InfoQuery(info))
  {
    assert IsName("query") && IsName("info");
  }

  lemma ExampleGlued(info: Selection)
    ensures Glued(InfoQuery(info)) == ["query", "{", "info", "{"] + (GluedFields(info) + ["}", "}"])
  {
    assert "info" + "" == "info";
    var fields := Composite("info", "", info, End);
    assert GluedFields(fields) == ["info", "{"] + GluedFields(info) + ["}"];
  }

  lemma ExampleLeaves()
    ensures var uptime := Leaf("uptime", "", End);
            var both := Leaf("os", "", uptime);
            && GluedFields(uptime) == ["uptime"] && GluedFields(both) == ["os", "uptime"]
            && WellFormedFields(both) && WellFormedFields(uptime)
            && RemoveFrom(InfoQuery(both), ["info", "os"]) == InfoQuery(uptime)
  {
    assert IsName("os") && IsName("uptime");
    assert "os" + "" == "os" && "uptime" + "" == "uptime";
    assert ["info", "os"][1..] == ["os"];
    var uptime := Leaf("uptime", "", End);
    assert GluedFields(uptime) == ["uptime"];
    assert WellFormedFields(uptime);
  }

  lemma ExamplePath()
    ensures Split("info.os") == ["info", "os"]
  {
    SplitDotted(["info", "os"]);
    assert ["info", "os"][1..] == ["os"];
    assert "info" + "." + "os" == "info.os";
  }

  /** One overflow at `info.os`, from document text to document text. */
  lemma OsIsStripped()
    ensures StripText("query { info { os uptime } }", "info.os") == "query { info { uptime } }"
  {
    var uptime := Leaf("uptime", "", End);
    var both := Leaf("os", "", uptime);
    hide Join, Lex, StripText, Glued, GluedFields, Print, WellFormed, WellFormedFields, RemoveFrom, Split;
    ExampleLeaves();
    ExampleEnds();
    assert ["os", "uptime"] + ["}", "}"] == ["os", "uptime", "}", "}"];
    assert ["uptime"] + ["}", "}"] == ["uptime", "}", "}"];
    ExampleText(["os", "uptime", "}", "}"], "os uptime } }");
    ExampleText(["uptime", "}", "}"], "uptime } }");
    ExampleGlued(both);
    ExampleGlued(uptime);
    ExampleIsWellFormed(both);
    GluedLexesBack(InfoQuery(both));
    ExamplePath();
    assert "query { info { " + "os uptime } }" == "query { info { os uptime } }";
    assert "query { info { " + "uptime } }" == "query { info { uptime } }";
    StripTextRemovesLeaf("query { info { os uptime } }", InfoQuery(both), "info.os");
  }

  lemma StripTextIs(document: string, path: string)
    ensures StripText(document, path) == Join(StripTokens(Lex(document), Split(path)))
  {
  }

  /** The token loop itself. */
  method StripLeaf(document: string, path: string) returns (stripped: string)
    ensures stripped == StripText(document, path)
    ensures forall doc | WellFormed(doc) && Lex(document) == Print(doc) ::
              Lex(stripped) == Print(RemoveFrom(doc, Split(path)))
  {
    hide Lex, Split, Join, FirstBrace, StripText, Print, RemoveFrom, WellFormed, Run;
    var target := Split(path);
    var out, stack, name, text := [], [], None, "";
    var tokens := Lex(document);
    var i := 0;
    while i < |tokens| && tokens[i] != "{"
      invariant 0 <= i <= |tokens|
      invariant out == tokens[..i] && "{" !in out
    {
      out := out + [tokens[i]];
      i := i + 1;
    }
    FirstBraceIs(tokens, i);
    ghost var start := Scan(out, stack, name, text);
    var k := i;
    assert Scan(out, stack, name, text) == Run(start, tokens[i..i], target) by {
      RunNone(start, target);
      assert tokens[i..i] == [];
    }
    while k < |tokens|
      invariant i <= k <= |tokens|
      invariant Scan(out, stack, name, text) == Run(start, tokens[i..k], target)
    {
      var tok := tokens[k];
      RunNext(start, tokens, i, k, target);
      if tok == "{" {
        if name.Some? {
          stack := stack + [name.value];
          out := out + [text];
          name, text := None, "";
        }
        out := out + [tok];
      } else if tok == "}" {
        if name.Some? && !(stack == target[..|target| - 1] && name.value == target[|target| - 1]) {
          out := out + [text];
        }
        name, text := None, "";
        out := out + [tok];
        if stack != [] {
          stack := stack[..|stack| - 1];
        }
      } else if tok[0] == '(' {
        text := text + tok;
      } else {
        if name.Some? && !(stack == target[..|target| - 1] && name.value == target[|target| - 1]) {
          out := out + [text];
        }
        name, text := Some(tok), tok;
      }
      k := k + 1;
    }
    assert tokens[i..k] == tokens[i..] && tokens[..i] == start.out;
    stripped := Join(out);
    StripTextIs(document, path);
    forall doc | WellFormed(doc) && Lex(document) == Print(doc)
      ensures Lex(stripped) == Print(RemoveFrom(doc, target))
    {
      StripTextRemovesLeaf(document, doc, path);
    }
  }
}
