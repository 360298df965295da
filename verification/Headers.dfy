/** Header rows: blank names filled, repeated names numbered, rows keyed by header. */
module Headers {
  import opened Text
  import opened Sequences

  /** The name of column `i` before repeats are numbered. */
  function Filled(headers: seq<string>, i: nat): string
    requires i < |headers|
  {
    var name := Strip(headers[i]);
    if name != "" then name else "column_" + Decimal(i + 1)
  }

  function FilledNames(headers: seq<string>): (names: seq<string>)
    ensures |names| == |headers|
  {
    seq(|headers|, i requires 0 <= i < |headers| => Filled(headers, i))
  }

  function Occurrences(names: seq<string>, name: string): (n: nat)
    ensures n == 0 <==> name !in names
  {
    if names == [] then 0
    else
      assert names == names[..|names| - 1] + [names[|names| - 1]];
      Occurrences(names[..|names| - 1], name) + if names[|names| - 1] == name then 1 else 0
  }

  function Numbered(name: string, k: nat): string {
    name + "_" + Decimal(k)
  }

  // Which repeat of its name column `i` is, counting from 1.
  function Repeat(names: seq<string>, i: nat): (k: nat)
    requires i < |names|
    ensures k >= 1
  {
    Occurrences(names[..i + 1], names[i])
  }

  /** What column `i` is called in the end: its name if it is the first of that name. */
  function Renamed(names: seq<string>, i: nat): string
    requires i < |names|
  {
    var k := Repeat(names, i);
    if k == 1 then names[i] else Numbered(names[i], k)
  }

  function RenamedAll(names: seq<string>): (out: seq<string>)
    ensures |out| == |names|
  {
    seq(|names|, i requires 0 <= i < |names| => Renamed(names, i))
  }

  datatype Note = Note(name: string, renamed: string)

  function Notes(names: seq<string>): seq<Note> {
    if names == [] then []
    else
      var i := |names| - 1;
      Notes(names[..i]) + if Repeat(names, i) == 1 then [] else [Note(names[i], Renamed(names, i))]
  }

  // `seen` counts every name met so far.
  ghost predicate Counts(seen: map<string, nat>, names: seq<string>) {
    forall name :: if name in seen then seen[name] == Occurrences(names, name) >= 1 else Occurrences(names, name) == 0
  }

  // One more column: how the counts and the notes go on.
  lemma OneMoreColumn(names: seq<string>, i: nat, seen: map<string, nat>)
    requires i < |names| && Counts(seen, names[..i])
    ensures Repeat(names, i) == if names[i] in seen then seen[names[i]] + 1 else 1
    ensures names[i] in seen ==> Repeat(names, i) > 1
    ensures Counts(seen[names[i] := Repeat(names, i)], names[..i + 1])
    ensures Notes(names[..i + 1])
         == Notes(names[..i]) + if Repeat(names, i) == 1 then [] else [Note(names[i], Renamed(names, i))]
  {
    assert names[..i + 1][..i] == names[..i];
    assert names[..i + 1][..i + 1] == names[..i + 1];
  }

  /** The loop of `suffix_duplicates`. */
  method SuffixDuplicates(headers: seq<string>) returns (out: seq<string>, notes: seq<Note>)
    ensures HeadersFrom(headers, |headers|, FilledNames(headers), out)
    ensures out == RenamedAll(FilledNames(headers))
    ensures notes == Notes(FilledNames(headers))
  {
    var seen: map<string, nat> := map[];
    out, notes := [], [];
    ghost var names := FilledNames(headers);
    hide Counts, Repeat, Notes, Decimal, Strip, Occurrences, HeadersFrom;
    assert names[..0] == [];
    NothingSeen();
    for i := 0 to |headers|
      invariant |out| == i && forall j | 0 <= j < i :: out[j] == Renamed(names, j)
      invariant notes == Notes(names[..i])
      invariant Counts(seen, names[..i])
    {
      var name := Strip(headers[i]);
      if name == "" {
        name := "column_" + Decimal(i + 1);
      }
      assert name == names[i];
      OneMoreColumn(names, i, seen);
      if name in seen {
        seen := seen[name := seen[name] + 1];
        var renamed := name + "_" + Decimal(seen[name]);
        assert renamed == Renamed(names, i);
        notes := notes + [Note(name, renamed)];
        out := out + [renamed];
      } else {
        seen := seen[name := 1];
        out := out + [name];
      }
    }
    assert names[..|headers|] == names;
    NamesOfAll(headers, out);
  }

  lemma NamesOfAll(headers: seq<string>, out: seq<string>)
    requires |out| == |headers| && forall j | 0 <= j < |out| :: out[j] == Renamed(FilledNames(headers), j)
    ensures out == RenamedAll(FilledNames(headers))
    ensures HeadersFrom(headers, |headers|, FilledNames(headers), out)
  {
    HeadersAre(headers, headers);
    hide Renamed;
  }

  lemma NothingSeen()
    ensures Notes([]) == [] && Counts(map[], [])
  {
  }

  /** A name that is some other name with one of the numbers its repeats are given. */
  predicate Clashes(names: seq<string>, i: nat, j: nat, k: nat)
    requires i < |names| && j < |names|
  {
    2 <= k <= Occurrences(names, names[j]) && names[i] == Numbered(names[j], k)
  }

  ghost predicate Clash(names: seq<string>) {
    exists i: nat, j: nat, k: nat | i < |names| && j < |names| :: Clashes(names, i, j, k)
  }

  lemma {:induction false} LaterIsMore(names: seq<string>, i: nat, j: nat, name: string)
    requires i <= j <= |names|
    ensures Occurrences(names[..i], name) <= Occurrences(names[..j], name)
    ensures i < j && names[j - 1] == name ==> Occurrences(names[..i], name) < Occurrences(names[..j], name)
    decreases j
  {
    if i < j {
      LaterIsMore(names, i, j - 1, name);
      assert names[..j][..j - 1] == names[..j - 1];
    }
  }

  // The k-th repeat of a name stands somewhere.
  lemma {:induction false} RepeatAt(names: seq<string>, name: string, k: nat) returns (j: nat)
    requires 1 <= k <= Occurrences(names, name)
    ensures j < |names| && names[j] == name && Repeat(names, j) == k
  {
    var n := |names| - 1;
    if names[n] == name && k == Occurrences(names, name) {
      j := n;
      assert names[..n + 1] == names;
    } else {
      j := RepeatAt(names[..n], name, k);
      assert names[..n][..j + 1] == names[..j + 1];
    }
  }

  // The number follows the last underscore.
  lemma LastUnderscore(name: string, k: nat)
    ensures var s := Numbered(name, k);
            && |s| > |name| && s[|name|] == '_' && s[..|name|] == name && s[|name| + 1..] == Decimal(k)
            && forall p | |name| < p < |s| :: s[p] != '_'
  {
  }

  lemma NumberedApart(a: string, m: nat, b: string, n: nat)
    requires Numbered(a, m) == Numbered(b, n)
    ensures a == b && m == n
  {
    LastUnderscore(a, m);
    LastUnderscore(b, n);
    hide Numbered, Decimal;
    assert |a| == |b|;
    DecimalInjective(m, n);
  }

  // A column and an earlier one of the same name are numbered differently.
  lemma RepeatsDiffer(names: seq<string>, i: nat, j: nat)
    requires i < |names| && j < |names| && i != j && names[i] == names[j]
    ensures Repeat(names, i) != Repeat(names, j)
  {
    var low, high := if i < j then i else j, if i < j then j else i;
    LaterIsMore(names, low + 1, high + 1, names[i]);
  }

  lemma RepeatIsBounded(names: seq<string>, i: nat)
    requires i < |names|
    ensures Repeat(names, i) <= Occurrences(names, names[i])
  {
    LaterIsMore(names, i + 1, |names|, names[i]);
    assert names[..|names|] == names;
  }

  // Two columns that end up with the same name give a clash.
  lemma SameNameClashes(names: seq<string>, i: nat, j: nat)
    requires i < |names| && j < |names| && i != j && Renamed(names, i) == Renamed(names, j)
    ensures Clash(names)
  {
    RepeatIsBounded(names, i);
    RepeatIsBounded(names, j);
    hide Occurrences, Repeat, Numbered;
    var k, m := Repeat(names, i), Repeat(names, j);
    if names[i] == names[j] {
      RepeatsDiffer(names, i, j);
    }
    if k > 1 && m > 1 {
      NumberedApart(names[i], k, names[j], m);
    }
    assert Clashes(names, i, j, m) || Clashes(names, j, i, k);
  }

  // The first column of the name and the k-th repeat of the other end up the same.
  lemma ClashRepeats(names: seq<string>)
    requires Clash(names)
    ensures !Distinct(RenamedAll(names))
  {
    var i: nat, j: nat, k: nat :| i < |names| && j < |names| && Clashes(names, i, j, k);
    hide Clash, Occurrences, Repeat;
    assert |names[i]| > |names[j]|;
    var p := RepeatAt(names, names[i], 1);
    var q := RepeatAt(names, names[j], k);
    assert RenamedAll(names)[p] == names[i] && RenamedAll(names)[q] == names[i];
  }

  /** The final names are pairwise distinct exactly when no name already looks like a numbered
      repeat that another name produces. */
  lemma DistinctUnlessClash(headers: seq<string>)
    ensures Distinct(RenamedAll(FilledNames(headers))) <==> !Clash(FilledNames(headers))
  {
    var names := FilledNames(headers);
    hide FilledNames, Clash, Renamed;
    var out := RenamedAll(names);
    if Clash(names) {
      ClashRepeats(names);
    } else if !Distinct(out) {
      var i, j :| 0 <= i < j < |out| && out[i] == out[j];
      SameNameClashes(names, i, j);
    }
  }

  /** Such headers exist: the third column is called what the second one is renamed to. */
  lemma QtyClashes()
    ensures var headers := ["Qty", "Qty", "Qty_2"];
            Clash(FilledNames(headers)) && !Distinct(RenamedAll(FilledNames(headers)))
  {
    var headers := ["Qty", "Qty", "Qty_2"];
    var names := FilledNames(headers);
    assert Strip("Qty") == "Qty" && Strip("Qty_2") == "Qty_2";
    assert names == headers;
    assert names[..2] == ["Qty", "Qty"] && names[..2][..1] == ["Qty"] && names[..3] == names;
    assert Occurrences(["Qty"], "Qty") == 1;
    assert Occurrences(names, "Qty") == 2;
    assert Decimal(2) == "2";
    assert Clashes(names, 2, 0, 2);
    DistinctUnlessClash(headers);
  }

  /** Length is kept, and the first column of each name keeps it. */
  lemma FirstsAreKept(headers: seq<string>, i: nat)
    requires i < |headers|
    ensures |RenamedAll(FilledNames(headers))| == |headers|
    ensures Filled(headers, i) !in FilledNames(headers)[..i]
            <==> RenamedAll(FilledNames(headers))[i] == Filled(headers, i)
  {
  }

  /** A renamed repeat comes with a note saying so, and nothing else is noted. */
  lemma {:induction false} NotedExactly(names: seq<string>, i: nat)
    requires i < |names|
    ensures Repeat(names, i) > 1 <==> Note(names[i], Renamed(names, i)) in Notes(names)
  {
    NotesAreLonger(names);
    if Repeat(names, i) > 1 {
      NotedRepeat(names, i);
    }
  }

  lemma RepeatInPrefix(names: seq<string>, n: nat, i: nat)
    requires i < n <= |names|
    ensures Repeat(names[..n], i) == Repeat(names, i) && Renamed(names[..n], i) == Renamed(names, i)
  {
    assert names[..n][..i + 1] == names[..i + 1];
  }

  lemma {:induction false} NotedRepeat(names: seq<string>, i: nat)
    requires i < |names| && Repeat(names, i) > 1
    ensures Note(names[i], Renamed(names, i)) in Notes(names)
  {
    hide Repeat, Renamed;
    var n := |names| - 1;
    if i < n {
      RepeatInPrefix(names, n, i);
      NotedRepeat(names[..n], i);
    }
  }

  // A note always names a longer new name.
  lemma {:induction false} NotesAreLonger(names: seq<string>)
    ensures forall note | note in Notes(names) :: |note.renamed| > |note.name|
  {
    if names != [] {
      NotesAreLonger(names[..|names| - 1]);
    }
  }

  // -- rows keyed by header ----------------------------------------------------------

  /** `dict(zip(headers, row, strict=True))`: a later column overwrites an earlier one. */
  function RowObject(headers: seq<string>, row: seq<string>): (cells: map<string, string>)
    requires |headers| == |row|
    ensures forall h :: h in cells <==> h in headers
  {
    if headers == [] then map[]
    else
      var n := |headers| - 1;
      assert headers == headers[..n] + [headers[n]];
      RowObject(headers[..n], row[..n])[headers[n] := row[n]]
  }

  predicate KeepsCells(headers: seq<string>, row: seq<string>)
    requires |headers| == |row|
  {
    forall i | 0 <= i < |headers| :: RowObject(headers, row)[headers[i]] == row[i]
  }

  // The last column of a name decides its cell.
  lemma {:induction false} LastCellStays(headers: seq<string>, row: seq<string>, i: nat)
    requires |headers| == |row| && i < |headers|
    requires forall j | i < j < |headers| :: headers[j] != headers[i]
    ensures headers[i] in RowObject(headers, row) && RowObject(headers, row)[headers[i]] == row[i]
  {
    var n := |headers| - 1;
    if i < n {
      LastCellStays(headers[..n], row[..n], i);
    }
  }

  lemma DistinctKeepsCells(headers: seq<string>, row: seq<string>)
    requires |headers| == |row| && Distinct(headers)
    ensures KeepsCells(headers, row)
  {
    hide RowObject;
    forall i | 0 <= i < |headers| ensures RowObject(headers, row)[headers[i]] == row[i] {
      LastCellStays(headers, row, i);
    }
  }

  // The row whose cells are all different, to show what a repeated header loses.
  function Labelled(n: nat): (row: seq<string>)
    ensures |row| == n
  {
    seq(n, i requires 0 <= i < n => Decimal(i))
  }

  lemma RepeatedLosesCell(headers: seq<string>, i: nat, j: nat)
    requires i < j < |headers| && headers[i] == headers[j]
    ensures !KeepsCells(headers, Labelled(|headers|))
  {
    hide RowObject, Decimal;
    var row := Labelled(|headers|);
    assert row[i] != row[j] by {
      if row[i] == row[j] {
        DecimalInjective(i, j);
      }
    }
  }

  // -- headers and objects, column by column -----------------------------------------

  predicate Blanks(s: string) {
    forall c | c in s :: IsSpace(c)
  }

  /** `name` is `cell` without the blanks around it. */
  ghost predicate Trimmed(cell: string, name: string) {
    && (exists before, after :: Blanks(before) && Blanks(after) && cell == before + name + after)
    && (name != "" ==> !IsSpace(name[0]) && !IsSpace(name[|name| - 1]))
  }

  // The cell of column `j`; a short row has empty cells.
  function CellAt(row: seq<string>, j: nat): string {
    if j < |row| then row[j] else ""
  }

  function Earlier(names: seq<string>, j: nat): set<nat>
    requires j < |names|
  {
    set i: nat | i < j && names[i] == names[j]
  }

  /** The headers a first row gives at a width: the trimmed cell, `column_1`, `column_2` and so on for
      a blank one, and from the second column of one name on the name with the number it is of it. */
  ghost predicate HeadersFrom(row: seq<string>, width: nat, names: seq<string>, headers: seq<string>) {
    && |headers| == |names| == width
    && (forall j | 0 <= j < width ::
          if Blanks(CellAt(row, j)) then names[j] == "column_" + Decimal(j + 1)
          else Trimmed(CellAt(row, j), names[j]))
    && (forall j | 0 <= j < width ::
          headers[j] == if Earlier(names, j) == {} then names[j]
                        else names[j] + "_" + Decimal(|Earlier(names, j)| + 1))
  }

  /** An object has the headers as its keys, each with the cell of the last column of that header. */
  ghost predicate KeyedBy(headers: seq<string>, row: seq<string>, cells: map<string, string>) {
    && (forall h :: h in cells <==> h in headers)
    && (forall j | 0 <= j < |headers| && headers[j] !in headers[j + 1..] ::
          headers[j] in cells && cells[headers[j]] == CellAt(row, j))
  }

  lemma StripTrims(cell: string)
    ensures Trimmed(cell, Strip(cell)) && (Strip(cell) == "" <==> Blanks(cell))
  {
    var before, after := StripIs(cell);
    assert Blanks(before) && Blanks(after);
    hide Strip, IsSpace;
    if Strip(cell) != "" {
      assert cell[|before|] == Strip(cell)[0];
    }
  }

  lemma {:induction false} OccurrencesCount(names: seq<string>, name: string)
    ensures var at := set i: nat | i < |names| && names[i] == name;
            |at| == Occurrences(names, name)
  {
    var at := set i: nat | i < |names| && names[i] == name;
    if names == [] {
      assert at == {};
    } else {
      var n := |names| - 1;
      OccurrencesCount(names[..n], name);
      var before := set i: nat | i < |names[..n]| && names[..n][i] == name;
      assert at == if names[n] == name then before + {n} else before;
    }
  }

  lemma RepeatCounts(names: seq<string>, j: nat)
    requires j < |names|
    ensures Repeat(names, j) == |Earlier(names, j)| + 1
  {
    assert names[..j + 1][..j] == names[..j];
    OccurrencesCount(names[..j], names[j]);
    var at := set i: nat | i < |names[..j]| && names[..j][i] == names[j];
    assert at == Earlier(names, j);
  }

  lemma HeadersAre(row: seq<string>, padded: seq<string>)
    requires |row| <= |padded| && forall j | 0 <= j < |padded| :: padded[j] == CellAt(row, j)
    ensures HeadersFrom(row, |padded|, FilledNames(padded), RenamedAll(FilledNames(padded)))
  {
    var names := FilledNames(padded);
    hide Decimal, Strip, Repeat, Trimmed, Blanks, Earlier;
    forall j | 0 <= j < |padded|
      ensures if Blanks(CellAt(row, j)) then names[j] == "column_" + Decimal(j + 1)
              else Trimmed(CellAt(row, j), names[j])
    {
      StripTrims(padded[j]);
    }
    forall j | 0 <= j < |padded|
      ensures RenamedAll(names)[j] == if Earlier(names, j) == {} then names[j]
                                      else names[j] + "_" + Decimal(|Earlier(names, j)| + 1)
    {
      RepeatCounts(names, j);
      assert Earlier(names, j) == {} <==> |Earlier(names, j)| == 0;
    }
  }

  lemma ObjectIs(headers: seq<string>, row: seq<string>, padded: seq<string>)
    requires |row| <= |padded| == |headers| && forall j | 0 <= j < |padded| :: padded[j] == CellAt(row, j)
    ensures KeyedBy(headers, row, RowObject(headers, padded))
  {
    forall j | 0 <= j < |headers| && headers[j] !in headers[j + 1..]
      ensures headers[j] in RowObject(headers, padded) && RowObject(headers, padded)[headers[j]] == CellAt(row, j)
    {
      forall k | j < k < |headers|
        ensures headers[k] != headers[j]
      {
        assert headers[k] == headers[j + 1..][k - j - 1];
      }
      LastCellStays(headers, padded, j);
    }
  }

  /** Reading rows as objects keeps every cell of every row exactly when no header clashes. */
  lemma ObjectsKeepCells(headers: seq<string>)
    ensures (forall row: seq<string> | |row| == |headers| :: KeepsCells(RenamedAll(FilledNames(headers)), row))
            <==> !Clash(FilledNames(headers))
  {
    hide FilledNames, Renamed, Clash, KeepsCells;
    DistinctUnlessClash(headers);
    var out := RenamedAll(FilledNames(headers));
    if Distinct(out) {
      forall row: seq<string> | |row| == |headers| ensures KeepsCells(out, row) {
        DistinctKeepsCells(out, row);
      }
    } else {
      var i, j :| 0 <= i < j < |out| && out[i] == out[j];
      RepeatedLosesCell(out, i, j);
    }
  }
}
