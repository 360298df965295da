/** Building a proxy from its row and its upstream: the snapshot protocol, and why the exported
    set only shrinks between edits. */
module ProxySource {
  import opened Wrappers
  import opened Names
  import opened Toolsets

  /** What the upstream does while a build lists its tools. */
  datatype Visit = Unreachable | Listed(tools: seq<Tool>)

  function ApplyLists(snapshot: seq<Tool>, allow: seq<string>, deny: seq<string>): seq<Tool> {
    if snapshot == [] then []
    else
      var t := snapshot[0];
      var keep := (allow == [] || t.name in allow) && t.name !in deny;
      (if keep then [t] else []) + ApplyLists(snapshot[1..], allow, deny)
  }

  /** The export, as a filter: members, in snapshot order, nothing else. */
  lemma {:induction false} ApplyListsIs(snapshot: seq<Tool>, allow: seq<string>, deny: seq<string>, t: Tool)
    ensures t in ApplyLists(snapshot, allow, deny)
       <==> t in snapshot && (allow == [] || t.name in allow) && t.name !in deny
  {
    if snapshot != [] {
      ApplyListsIs(snapshot[1..], allow, deny, t);
    }
  }

  /** Entry by entry and in order: each tool of the snapshot is kept once or not at all. */
  lemma {:induction false} ApplyListsInOrder(snapshot: seq<Tool>, t: Tool, allow: seq<string>, deny: seq<string>)
    ensures ApplyLists([], allow, deny) == []
    ensures ApplyLists(snapshot + [t], allow, deny)
         == ApplyLists(snapshot, allow, deny)
            + if (allow == [] || t.name in allow) && t.name !in deny then [t] else []
  {
    if snapshot != [] {
      assert (snapshot + [t])[1..] == snapshot[1..] + [t];
      ApplyListsInOrder(snapshot[1..], t, allow, deny);
    }
  }

  function DiffNames(stored: seq<Tool>, live: seq<Tool>): (seq<string>, seq<string>) {
    (Sorted(ToolNames(live) - ToolNames(stored)), Sorted(ToolNames(stored) - ToolNames(live)))
  }

  /** The upstream of the row after a build and the tools the build exports, or None when there is
      nothing to serve. */
  function Rebuild(u: ProxyUpstream, v: Visit): (ProxyUpstream, Option<seq<Tool>>) {
    match v
    case Unreachable =>
      (u, if u.tools == [] then None else Some(ApplyLists(u.tools, u.allow, u.deny)))
    case Listed(live) =>
      var added := if u.tools == [] then [] else DiffNames(u.tools, live).0;
      var u' := if added != [] || u.tools != live then Synced(u, live, added) else u;
      (u', Some(ApplyLists(live, u'.allow, u'.deny)))
  }

  predicate Offers(tools: seq<Tool>, n: string) {
    exists t | t in tools :: t.name == n
  }

  /** What a build leaves behind, name by name. It fails only without an upstream and without a
      snapshot. A list that differs from the stored one replaces it: names that are gone leave both
      lists, and names new since the stored snapshot, if there was one, are denied. Exported are the
      tools listed, or else the stored ones, that the lists let through. */
  ghost predicate BuildOutcome(u: ProxyUpstream, v: Visit, u': ProxyUpstream, exported: Option<seq<Tool>>) {
    var snapshot := if v.Listed? then v.tools else u.tools;
    && (exported.None? <==> v.Unreachable? && u.tools == [])
    && (exported.Some? ==>
          forall t :: t in exported.value
                 <==> t in snapshot && (u'.allow == [] || t.name in u'.allow) && t.name !in u'.deny)
    && (snapshot == u.tools ==> u' == u)
    && (snapshot != u.tools ==>
          && u'.tools == snapshot && u'.url == u.url && u'.prefix == u.prefix
          && (forall n :: n in u'.allow <==> n in u.allow && Offers(snapshot, n))
          && (forall n :: n in u'.deny
                     <==> Offers(snapshot, n) && (n in u.deny || (u.tools != [] && !Offers(u.tools, n)))))
  }

  lemma RebuildIs(u: ProxyUpstream, v: Visit)
    ensures BuildOutcome(u, v, Rebuild(u, v).0, Rebuild(u, v).1)
  {
    var (u', exported) := Rebuild(u, v);
    var snapshot := if v.Listed? then v.tools else u.tools;
    forall t: Tool {
      ApplyListsIs(snapshot, u'.allow, u'.deny, t);
    }
    if v.Listed? {
      if v.tools == u.tools {
        assert ToolNames(u.tools) - ToolNames(u.tools) == {};
      } else {
        var added := if u.tools == [] then [] else DiffNames(u.tools, v.tools).0;
        forall n: string
          ensures n in u'.allow <==> n in u.allow && Offers(snapshot, n)
          ensures n in u'.deny
                  <==> Offers(snapshot, n) && (n in u.deny || (u.tools != [] && !Offers(u.tools, n)))
        {
          SyncedIs(u, v.tools, added, n);
          assert n in ToolNames(u.tools) <==> Offers(u.tools, n);
          assert n in ToolNames(v.tools) <==> Offers(v.tools, n);
        }
      }
    }
  }

  /** The build of a proxy toolset against the rows: its own row's upstream and the export as
      `BuildOutcome` says, and nothing else. */
  method BuildProxy(repo: ToolsetsRepo, key: string, v: Visit) returns (exported: Option<seq<Tool>>)
    requires key in repo.rows && repo.rows[key].upstream.Some?
    modifies repo
    ensures key in repo.rows
    ensures var (u', tools) := Rebuild(old(repo.rows[key].upstream.value), v);
            && BuildOutcome(old(repo.rows[key].upstream.value), v, u', exported) && exported == tools
            && repo.rows == old(repo.rows)[key := old(repo.rows[key]).(upstream := Some(u'))]
  {
    var row := repo.rows[key];
    var u := row.upstream.value;
    RebuildIs(u, v);
    hide BuildOutcome;
    assert repo.rows == repo.rows[key := row.(upstream := Some(u))];
    match v
    case Unreachable =>
      if u.tools == [] {
        return None;
      }
      exported := Some(ApplyLists(u.tools, u.allow, u.deny));
    case Listed(live) =>
      var added := DiffNames(u.tools, live).0;
      if u.tools == [] {
        added := [];
      }
      if added != [] || u.tools != live {
        var _ := repo.SyncSnapshot(key, live, added);
      }
      var latest := repo.Get(key);
      var now := latest.value.upstream.value;
      exported := Some(ApplyLists(live, now.allow, now.deny));
  }

  // -- the exported set --------------------------------------------------------------

  /** Names a row exports from its own snapshot. */
  function Exported(u: ProxyUpstream): set<string> {
    set n | n in ToolNames(u.tools) && (u.allow == [] || n in u.allow) && n !in u.deny
  }

  /** After a build that serves, what is exported is what the row now says. */
  lemma BuildExportsRow(u: ProxyUpstream, v: Visit)
    requires Rebuild(u, v).1.Some?
    ensures ToolNames(Rebuild(u, v).1.value) == Exported(Rebuild(u, v).0)
  {
    var (u', tools) := Rebuild(u, v);
    var snapshot := if v.Listed? then v.tools else u.tools;
    forall n
      ensures n in ToolNames(tools.value) <==> n in Exported(u')
    {
      if n in ToolNames(tools.value) {
        var t :| t in tools.value && t.name == n;
        ApplyListsIs(snapshot, u'.allow, u'.deny, t);
      }
      if n in Exported(u') {
        var t :| t in snapshot && t.name == n;
        ApplyListsIs(snapshot, u'.allow, u'.deny, t);
      }
    }
  }

  /** Building again against the same list changes nothing. */
  lemma RebuildSettles(u: ProxyUpstream, v: Visit)
    ensures Rebuild(Rebuild(u, v).0, v).0 == Rebuild(u, v).0
  {
    if v.Listed? {
      var u' := Rebuild(u, v).0;
      assert u'.tools == v.tools;
      assert ToolNames(v.tools) - ToolNames(v.tools) == {};
    }
  }

  predicate AllowedSurvives(u: ProxyUpstream, live: seq<Tool>) {
    exists n :: n in u.allow && n in ToolNames(live)
  }

  /** The guards under which a rebuild adds nothing to the export: the list is the stored one; or
      there is a stored snapshot and the allow list is empty, keeps a live tool, or leaves nothing
      behind that is not denied; or there was no snapshot and the first list exports nothing. */
  predicate ShrinkGuard(u: ProxyUpstream, live: seq<Tool>) {
    if live == u.tools then true
    else if u.tools == [] then
      forall n | n in ToolNames(live) :: n in u.deny || (AllowedSurvives(u, live) && n !in u.allow)
    else
      || u.allow == []
      || AllowedSurvives(u, live)
      || forall n | n in ToolNames(live) * ToolNames(u.tools) :: n in u.deny
  }

  lemma SyncedExports(u: ProxyUpstream, live: seq<Tool>, added: seq<string>, n: string)
    requires Elements(added) <= ToolNames(live)
    ensures n in Exported(Synced(u, live, added))
       <==> && n in ToolNames(live)
            && (!AllowedSurvives(u, live) || n in u.allow)
            && n !in u.deny && n !in added
  {
    var u' := Synced(u, live, added);
    assert u'.allow == [] <==> !AllowedSurvives(u, live) by {
      if u'.allow != [] {
        assert u'.allow[0] in u'.allow;
      }
      if AllowedSurvives(u, live) {
        var m :| m in u.allow && m in ToolNames(live);
        assert m in u'.allow;
      }
    }
  }

  // The export after a list that is not the stored one.
  lemma ChangedListExports(u: ProxyUpstream, live: seq<Tool>, n: string)
    requires u.tools != live
    ensures n in Exported(Rebuild(u, Listed(live)).0)
       <==> && n in ToolNames(live)
            && (!AllowedSurvives(u, live) || n in u.allow)
            && n !in u.deny
            && (u.tools == [] || n in ToolNames(u.tools))
  {
    var added := if u.tools == [] then [] else DiffNames(u.tools, live).0;
    SyncedExports(u, live, added, n);
    assert n in ToolNames(live) && u.tools != [] ==> (n !in added <==> n in ToolNames(u.tools));
  }

  /** One rebuild: the export stays within the previous one exactly under the guard. */
  lemma RebuildShrinksIff(u: ProxyUpstream, live: seq<Tool>)
    ensures Exported(Rebuild(u, Listed(live)).0) <= Exported(u) <==> ShrinkGuard(u, live)
  {
    var u' := Rebuild(u, Listed(live)).0;
    if u.tools == live {
      assert ToolNames(live) - ToolNames(u.tools) == {};
      assert u' == u;
    } else {
      forall n {
        ChangedListExports(u, live, n);
      }
      hide Rebuild;
      if !ShrinkGuard(u, live) {
        var n :| n in ToolNames(live) && (u.tools == [] || n in ToolNames(u.tools)) && n !in u.deny
                 && (!AllowedSurvives(u, live) || n in u.allow);
        assert n in Exported(u');
        assert n in u.allow ==> AllowedSurvives(u, live);
        assert n !in Exported(u);
      }
    }
  }

  // -- whole runs --------------------------------------------------------------------

  /** The simple guards, along a run: a stored snapshot, and an allow list that is empty or keeps
      one of its tools. */
  predicate Steady(u: ProxyUpstream, visits: seq<Visit>)
    decreases visits
  {
    visits == []
    || ((visits[0].Listed? ==> u.tools != [] && (u.allow == [] || AllowedSurvives(u, visits[0].tools)))
        && Steady(Rebuild(u, visits[0]).0, visits[1..]))
  }

  function RebuildAll(u: ProxyUpstream, visits: seq<Visit>): ProxyUpstream
    decreases visits
  {
    if visits == [] then u else RebuildAll(Rebuild(u, visits[0]).0, visits[1..])
  }

  /** Over any sequence of rebuilds with tools appearing, vanishing, returning or unreachable, no
      export holds a name the first one lacked: a tool that went away and came back stays out. */
  lemma {:induction false} ExportsOnlyShrink(u: ProxyUpstream, visits: seq<Visit>)
    requires Steady(u, visits)
    ensures Exported(RebuildAll(u, visits)) <= Exported(u)
    decreases visits
  {
    if visits != [] {
      var u' := Rebuild(u, visits[0]).0;
      ExportsOnlyShrink(u', visits[1..]);
      if visits[0].Listed? {
        RebuildShrinksIff(u, visits[0].tools);
      }
    }
  }

  /** The stored snapshot must not become empty: after an upstream lists nothing once, whatever it
      lists next is exported. */
  lemma EmptySnapshotForgets()
    ensures var u := ProxyUpstream("", None, [], [], [Tool("a", "")]);
            && "b" !in Exported(u)
            && "b" in Exported(Rebuild(Rebuild(u, Listed([])).0, Listed([Tool("b", "")])).0)
  {
    var a, b := Tool("a", ""), Tool("b", "");
    var u := ProxyUpstream("", None, [], [], [a]);
    var u1 := Rebuild(u, Listed([])).0;
    assert u1.tools == [] && u1.deny == [] by {
      assert ToolNames([]) == {};
      assert u1 == Synced(u, [], DiffNames([a], []).0);
    }
    assert b in [b] && "b" in ToolNames([b]);
    assert !AllowedSurvives(u1, [b]) || "b" in u1.allow by {
      assert u1.allow == [];
    }
    ChangedListExports(u1, [b], "b");
  }

  /** The allow list must keep a live tool: one that loses its last tool stops filtering. */
  lemma EmptiedAllowListOpens()
    ensures var u := ProxyUpstream("", None, ["a"], [], [Tool("a", ""), Tool("b", "")]);
            && "b" !in Exported(u)
            && "b" in Exported(Rebuild(u, Listed([Tool("b", "")])).0)
  {
    var a, b := Tool("a", ""), Tool("b", "");
    var u := ProxyUpstream("", None, ["a"], [], [a, b]);
    assert b in u.tools && "b" in ToolNames(u.tools);
    assert b in [b] && "b" in ToolNames([b]);
    assert |u.tools| == 2;
    ChangedListExports(u, [b], "b");
  }
}
