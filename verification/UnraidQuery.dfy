/** Remembered overflow paths: `strip_fields` as one removal of a set of leaves, and the retry
    loop of `query_raw`. */
module UnraidQuery {
  import opened Sequences
  import opened QueryText
  import opened StripPath

  // -- removing a set of leaves at once ----------------------------------------------

  function Tails(paths: set<seq<string>>, name: string): set<seq<string>> {
    set p | p in paths && |p| > 1 && p[0] == name :: p[1..]
  }

  /** The tree without any leaf whose path is in `paths`, in one pass. */
  function RemoveSet(sel: Selection, paths: set<seq<string>>): Selection
    decreases sel
  {
    match sel
    case End => End
    case Leaf(name, arguments, rest) =>
      if [name] in paths then RemoveSet(rest, paths) else Leaf(name, arguments, RemoveSet(rest, paths))
    case Composite(name, arguments, inner, rest) =>
      Composite(name, arguments, RemoveSet(inner, Tails(paths, name)), RemoveSet(rest, paths))
  }

  lemma {:induction false} RemoveNothing(sel: Selection)
    ensures RemoveSet(sel, {}) == sel
    decreases sel
  {
    if !sel.End? {
      RemoveNothing(sel.rest);
      if sel.Composite? {
        assert Tails({}, sel.name) == {};
        RemoveNothing(sel.inner);
      }
    }
  }

  /** Removing one more leaf is removing the larger set. */
  lemma {:induction false} RemoveOneMore(sel: Selection, paths: set<seq<string>>, t: seq<string>)
    requires t != []
    ensures Remove(RemoveSet(sel, paths), t) == RemoveSet(sel, paths + {t})
    decreases sel
  {
    if !sel.End? {
      RemoveOneMore(sel.rest, paths, t);
      if sel.Composite? {
        var tails := Tails(paths, sel.name);
        if |t| > 1 && t[0] == sel.name {
          RemoveOneMore(sel.inner, tails, t[1..]);
          assert Tails(paths + {t}, sel.name) == tails + {t[1..]};
        } else {
          assert Tails(paths + {t}, sel.name) == tails;
        }
      }
    }
  }

  predicate Selects(sel: Selection, path: seq<string>) {
    exists e | e in Entries(sel, []) :: e.leaf && e.path == path
  }

  // An entry inside a composite field, seen from inside and from outside.
  lemma TailOfPath(prefix: seq<string>, name: string, path: seq<string>, paths: set<seq<string>>)
    requires prefix + [name] < path
    ensures path[|prefix| + 1..] in Tails(paths, name) <==> path[|prefix|..] in paths
  {
    var tail := path[|prefix|..];
    assert tail[0] == name && tail[1..] == path[|prefix| + 1..];
    if path[|prefix| + 1..] in Tails(paths, name) {
      var p :| p in paths && |p| > 1 && p[0] == name && p[1..] == tail[1..];
      assert p == tail;
    }
  }

  lemma {:induction false} EntryStaysIff(sel: Selection, paths: set<seq<string>>, prefix: seq<string>, e: Entry)
    ensures e in Entries(RemoveSet(sel, paths), prefix)
       <==> e in Entries(sel, prefix) && !(e.leaf && |prefix| <= |e.path| && e.path[|prefix|..] in paths)
    decreases sel
  {
    match sel
    case End =>
    case Leaf(name, arguments, rest) =>
      EntryStaysIff(rest, paths, prefix, e);
      assert (prefix + [name])[|prefix|..] == [name];
    case Composite(name, arguments, inner, rest) =>
      EntryStaysIff(rest, paths, prefix, e);
      EntryStaysIff(inner, Tails(paths, name), prefix + [name], e);
      EntriesExtendPrefix(inner, prefix + [name]);
      if prefix + [name] < e.path {
        TailOfPath(prefix, name, e.path, paths);
      }
  }

  /** Removing a set of paths leaves a path selected exactly when it was selected and is not among
      them. */
  lemma SelectedAfterIff(sel: Selection, paths: set<seq<string>>, t: seq<string>)
    ensures Selects(RemoveSet(sel, paths), t) <==> Selects(sel, t) && t !in paths
  {
    forall e: Entry
      ensures e in Entries(RemoveSet(sel, paths), []) <==> e in Entries(sel, []) && !(e.leaf && e.path in paths)
    {
      EntryStaysIff(sel, paths, [], e);
      assert e.path[0..] == e.path;
    }
  }

  // -- strip_fields ------------------------------------------------------------------

  function Paths(dropped: seq<string>): set<seq<string>> {
    set d | d in dropped :: Split(d)
  }

  /** The document with every dropped leaf taken out. */
  function Prune(doc: Document, dropped: seq<string>): Document {
    doc.(fields := RemoveSet(doc.fields, Paths(dropped)))
  }

  function StripAllText(document: string, dropped: seq<string>): string {
    if dropped == [] then document
    else StripText(StripAllText(document, dropped[..|dropped| - 1]), dropped[|dropped| - 1])
  }

  /** `strip_fields` is one removal of the set of dropped paths. */
  lemma {:induction false} StripAllTextPrunes(document: string, doc: Document, dropped: seq<string>)
    requires WellFormed(doc) && Lex(document) == Print(doc)
    ensures WellFormed(Prune(doc, dropped))
    ensures Lex(StripAllText(document, dropped)) == Print(Prune(doc, dropped))
    ensures dropped != [] ==> StripAllText(document, dropped) == Join(Glued(Prune(doc, dropped)))
  {
    if dropped == [] {
      assert Paths(dropped) == {};
      RemoveNothing(doc.fields);
    } else {
      var n := |dropped| - 1;
      StripAllTextPrunes(document, doc, dropped[..n]);
      PruneOneMore(doc, dropped);
      StripTextRemovesLeaf(StripAllText(document, dropped[..n]), Prune(doc, dropped[..n]), dropped[n]);
    }
  }

  lemma PruneOneMore(doc: Document, dropped: seq<string>)
    requires dropped != []
    ensures Prune(doc, dropped)
         == RemoveFrom(Prune(doc, dropped[..|dropped| - 1]), Split(dropped[|dropped| - 1]))
  {
    var n := |dropped| - 1;
    RemoveOneMore(doc.fields, Paths(dropped[..n]), Split(dropped[n]));
    assert Paths(dropped) == Paths(dropped[..n]) + {Split(dropped[n])} by {
      assert dropped == dropped[..n] + [dropped[n]];
    }
  }

  /** Pruning what was already pruned by some of the paths. */
  lemma PruneAgain(doc: Document, some: seq<string>, all: seq<string>)
    requires some <= all
    ensures Prune(Prune(doc, some), all) == Prune(doc, all)
  {
    assert Paths(some) + Paths(all) == Paths(all);
    RemoveSetTwice(doc.fields, Paths(some), Paths(all));
  }

  /** The order in which the paths were remembered does not matter, nor do repetitions. */
  lemma StripOrderIsFree(document: string, doc: Document, a: seq<string>, b: seq<string>)
    requires WellFormed(doc) && Lex(document) == Print(doc)
    requires forall d :: d in a <==> d in b
    ensures StripAllText(document, a) == StripAllText(document, b)
  {
    if a == [] {
      NonEmptyHas(b);
    } else {
      assert a[0] in b;
      SamePaths(a, b);
      StripAllTextPrunes(document, doc, a);
      StripAllTextPrunes(document, doc, b);
    }
  }

  lemma NonEmptyHas(s: seq<string>)
    ensures s != [] ==> exists d :: d in s
  {
    if s != [] {
      assert s[0] in s;
    }
  }

  lemma SamePaths(a: seq<string>, b: seq<string>)
    requires forall d :: d in a <==> d in b
    ensures Paths(a) == Paths(b)
  {
  }

  /** Stripping twice is stripping once. */
  lemma StripIsIdempotent(document: string, doc: Document, dropped: seq<string>)
    requires WellFormed(doc) && Lex(document) == Print(doc)
    ensures StripAllText(StripAllText(document, dropped), dropped) == StripAllText(document, dropped)
  {
    StripAllTextPrunes(document, doc, dropped);
    StripAllTextPrunes(StripAllText(document, dropped), Prune(doc, dropped), dropped);
    PruneAgain(doc, dropped, dropped);
  }

  lemma {:induction false} RemoveSetTwice(sel: Selection, a: set<seq<string>>, b: set<seq<string>>)
    ensures RemoveSet(RemoveSet(sel, a), b) == RemoveSet(sel, a + b)
    decreases sel
  {
    if !sel.End? {
      RemoveSetTwice(sel.rest, a, b);
      if sel.Composite? {
        RemoveSetTwice(sel.inner, Tails(a, sel.name), Tails(b, sel.name));
        assert Tails(a + b, sel.name) == Tails(a, sel.name) + Tails(b, sel.name);
      }
    }
  }

  /** The fold over the remembered paths; `StripAllTextPrunes` says what it amounts to. */
  method StripFields(document: string, dropped: seq<string>) returns (stripped: string)
    ensures stripped == StripAllText(document, dropped)
  {
    stripped := document;
    for i := 0 to |dropped|
      invariant stripped == StripAllText(document, dropped[..i])
    {
      assert dropped[..i + 1][..i] == dropped[..i];
      stripped := StripLeaf(stripped, dropped[i]);
    }
    assert dropped[..|dropped|] == dropped;
  }

  // -- query_raw ---------------------------------------------------------------------

  /** What the API client does with one document. */
  datatype Reply = Data(payload: string) | Overflow(path: string, leaf: string) | Failure(reason: string)

  datatype Outcome = Returned(payload: string) | RaisedOverflow(path: string) | RaisedOther(reason: string) | GaveUp

  const MAX_ATTEMPTS := 8

  // A server that only ever complains about a leaf the document it was sent still selects.
  ghost predicate Honest(server: (nat, string) -> Reply, doc: Document) {
    forall n: nat, text, dropped ::
      Lex(text) == Print(Prune(doc, dropped)) && server(n, text).Overflow? ==>
        && server(n, text).leaf != "?"
        && Selects(Prune(doc, dropped).fields, Split(server(n, text).path))
  }

  // Attempt 0 sends the document stripped of the `known` paths the call started with; each later
  // attempt strips what was sent last, with one more path.
  function TextAt(strip: (string, seq<string>) -> string, document: string, known: nat,
                  after: seq<string>, attempt: nat): string
    requires known + attempt <= |after|
  {
    strip(if attempt == 0 then document else TextAt(strip, document, known, after, attempt - 1),
          after[..known + attempt])
  }

  lemma {:induction false} TextAtEarlier(strip: (string, seq<string>) -> string, document: string,
                                         known: nat, after: seq<string>, path: string, attempt: nat)
    requires known + attempt <= |after|
    ensures TextAt(strip, document, known, after + [path], attempt)
         == TextAt(strip, document, known, after, attempt)
  {
    assert (after + [path])[..known + attempt] == after[..known + attempt];
    if attempt > 0 {
      TextAtEarlier(strip, document, known, after, path, attempt - 1);
    }
  }

  ghost predicate Resent(strip: (string, seq<string>) -> string, document: string,
                         before: seq<string>, after: seq<string>, sent: seq<string>)
  {
    && before <= after
    && |sent| <= |after| - |before| + 1
    && (forall i | 0 <= i < |sent| :: sent[i] == TextAt(strip, document, |before|, after, i))
  }

  /** `text` is the document without the known paths, and selects none of them. */
  ghost predicate Carries(text: string, doc: Document, known: seq<string>) {
    && Lex(text) == Print(Prune(doc, known))
    && forall p | p in known :: !Selects(Prune(doc, known).fields, Split(p))
  }

  /** Every attempt carried exactly the document without the paths known at that moment, and so
      selected none of them. */
  ghost predicate SentPruned(doc: Document, before: seq<string>, after: seq<string>, sent: seq<string>)
  {
    && before <= after
    && |sent| <= |after| - |before| + 1
    && (forall i | 0 <= i < |sent| :: Carries(sent[i], doc, after[..|before| + i]))
  }

  /** Every path added by the call was named by the reply to the attempt before it. */
  ghost predicate AddedByOverflow(server: (nat, string) -> Reply, before: seq<string>, after: seq<string>,
                                  sent: seq<string>)
  {
    && before <= after
    && |after| - |before| <= |sent|
    && (forall i | 0 <= i < |after| - |before| ::
          server(i, sent[i]).Overflow? && server(i, sent[i]).path == after[|before| + i])
  }

  lemma StripAgain(text: string, doc: Document, some: seq<string>, all: seq<string>)
    requires WellFormed(doc) && WellFormed(Prune(doc, some)) && Lex(text) == Print(Prune(doc, some))
    requires some <= all
    ensures Lex(StripAllText(text, all)) == Print(Prune(doc, all))
  {
    StripAllTextPrunes(text, Prune(doc, some), all);
    PruneAgain(doc, some, all);
  }

  lemma {:induction false} TextAtIsPruned(document: string, doc: Document, known: nat,
                                          after: seq<string>, attempt: nat)
    requires WellFormed(doc) && Lex(document) == Print(doc)
    requires known + attempt <= |after|
    ensures Lex(TextAt(StripAllText, document, known, after, attempt))
         == Print(Prune(doc, after[..known + attempt]))
  {
    hide StripAllText, RemoveSet, Print, Lex;
    if attempt == 0 {
      StripAllTextPrunes(document, doc, after[..known]);
    } else {
      TextAtIsPruned(document, doc, known, after, attempt - 1);
      var some := after[..known + attempt - 1];
      StripAllTextPrunes(document, doc, some);
      StripAgain(TextAt(StripAllText, document, known, after, attempt - 1), doc, some, after[..known + attempt]);
    }
  }

  lemma ResentSelectsNothingDropped(document: string, doc: Document, before: seq<string>,
                                    after: seq<string>, sent: seq<string>)
    requires WellFormed(doc) && Lex(document) == Print(doc)
    requires Resent(StripAllText, document, before, after, sent)
    ensures SentPruned(doc, before, after, sent)
  {
    hide TextAt, StripAllText, RemoveSet, Print, Lex, Split, Entries;
    forall i | 0 <= i < |sent|
      ensures Carries(sent[i], doc, after[..|before| + i])
    {
      TextAtIsPruned(document, doc, |before|, after, i);
      forall p | p in after[..|before| + i] {
        SelectedAfterIff(doc.fields, Paths(after[..|before| + i]), Split(p));
      }
    }
  }

  lemma HonestOverflowIsNew(server: (nat, string) -> Reply, doc: Document, known: seq<string>,
                            attempt: nat, text: string)
    requires Carries(text, doc, known) && Honest(server, doc)
    ensures server(attempt, text).Overflow? ==>
              server(attempt, text).leaf != "?" && server(attempt, text).path !in known
  {
  }

  lemma ResendOnce(strip: (string, seq<string>) -> string, document: string, before: seq<string>,
                   after: seq<string>, sent: seq<string>, path: string)
    requires sent != [] && |after| == |before| + |sent| - 1
    requires Resent(strip, document, before, after, sent)
    ensures Resent(strip, document, before, after + [path],
                   sent + [strip(sent[|sent| - 1], after + [path])])
  {
    forall i | 0 <= i < |sent| {
      TextAtEarlier(strip, document, |before|, after, path, i);
    }
    assert (after + [path])[..|after| + 1] == after + [path];
  }

  lemma SentEarlier(strip: (string, seq<string>) -> string, document: string, before: seq<string>,
                    after: seq<string>, sent: seq<string>, next: string)
    requires Resent(strip, document, before, after, sent + [next])
    ensures Resent(strip, document, before, after, sent)
  {
  }

  class Unraid {
    /** Overflowing paths in the order they were met; the source's dictionary maps each to itself. */
    var dropped: seq<string>

    constructor ()
      ensures dropped == []
    {
      dropped := [];
    }

    /** Sends the stripped document, and again after each overflow on a path not seen before,
        at most eight times. */
    method QueryRaw(document: string, server: (nat, string) -> Reply)
      returns (outcome: Outcome, sent: seq<string>)
      requires Distinct(dropped)
      modifies this
      ensures Distinct(dropped)
      ensures 1 <= |sent| <= 8
      ensures AddedByOverflow(server, old(dropped), dropped, sent)
      ensures outcome.GaveUp? ==> |sent| == 8 && |dropped| == |old(dropped)| + 8
      ensures !outcome.GaveUp? ==>
                && |dropped| == |old(dropped)| + |sent| - 1
                && (var last := server(|sent| - 1, sent[|sent| - 1]);
                    match outcome
                    case Returned(payload) => last == Data(payload)
                    case RaisedOther(reason) => last == Failure(reason)
                    case RaisedOverflow(path) =>
                      last.Overflow? && last.path == path && (path in dropped || last.leaf == "?")
                    case GaveUp => true)
      ensures forall doc | WellFormed(doc) && Lex(document) == Print(doc) ::
                SentPruned(doc, old(dropped), dropped, sent)
      // a server that complains only about selected leaves is never the cause of an error
      ensures forall doc | WellFormed(doc) && Lex(document) == Print(doc) && Honest(server, doc) ::
                !outcome.RaisedOverflow?
    {
      hide StripAllText;
      ghost var before := dropped;
      var text := StripFields(document, dropped);
      sent := [];
      outcome := GaveUp;
      assert dropped[..|dropped|] == dropped;
      for attempt := 0 to MAX_ATTEMPTS
        invariant outcome.GaveUp? && |sent| == attempt
        invariant Distinct(dropped) && before <= dropped && |dropped| == |before| + attempt
        invariant AddedByOverflow(server, before, dropped, sent)
        invariant Resent(StripAllText, document, before, dropped, sent + [text])
      {
        sent := sent + [text];
        match server(attempt, text)
        case Data(payload) =>
          outcome := Returned(payload);
          break;
        case Failure(reason) =>
          outcome := RaisedOther(reason);
          break;
        case Overflow(path, leaf) =>
          if path in dropped || leaf == "?" {
            outcome := RaisedOverflow(path);
            break;
          }
          ghost var known := dropped;
          dropped := dropped + [path];
          text := StripFields(text, dropped);
          ResendOnce(StripAllText, document, before, known, sent, path);
      }
      if outcome.GaveUp? {
        SentEarlier(StripAllText, document, before, dropped, sent, text);
      }
      AttemptsArePruned(document, server, before, dropped, sent, outcome);
    }
  }

  lemma AttemptsArePruned(document: string, server: (nat, string) -> Reply, before: seq<string>,
                          after: seq<string>, sent: seq<string>, outcome: Outcome)
    requires sent != [] && Resent(StripAllText, document, before, after, sent)
    requires outcome.RaisedOverflow? ==>
               && |after| == |before| + |sent| - 1
               && (var last := server(|sent| - 1, sent[|sent| - 1]);
                   last.Overflow? && (last.path in after || last.leaf == "?"))
    ensures forall doc | WellFormed(doc) && Lex(document) == Print(doc) ::
              SentPruned(doc, before, after, sent)
    ensures forall doc | WellFormed(doc) && Lex(document) == Print(doc) && Honest(server, doc) ::
              !outcome.RaisedOverflow?
  {
    hide StripAllText, WellFormed, Lex, Print, Resent, Honest, Prune;
    var n := |sent| - 1;
    assert after[..|after|] == after;
    forall doc | WellFormed(doc) && Lex(document) == Print(doc)
      ensures SentPruned(doc, before, after, sent)
      ensures Honest(server, doc) ==> !outcome.RaisedOverflow?
    {
      ResentSelectsNothingDropped(document, doc, before, after, sent);
      if Honest(server, doc) {
        HonestOverflowIsNew(server, doc, after[..|before| + n], n, sent[n]);
      }
    }
  }
}
