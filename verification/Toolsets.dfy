/** Toolset rows: the content hash, the proxy snapshot and the edits that touch it. */
module Toolsets {
  import opened Wrappers
  import opened Names

  /** An upstream tool; `definition` stands for its description and schema. */
  datatype Tool = Tool(name: string, definition: string)

  datatype ProxyUpstream = ProxyUpstream(
    url: string, prefix: Option<string>, allow: seq<string>, deny: seq<string>, tools: seq<Tool>)

  datatype ToolsetRow = ToolsetRow(
    displayName: string, enabled: bool, credential: Option<int>, settings: string,
    upstream: Option<ProxyUpstream>, credentialUpdatedAt: Option<int>, disabledTools: seq<string>)

  /** What `content_hash` covers. The digest is injective, so this value stands for it. The tool
      snapshot and the display name are not part of it. */
  datatype Material = Material(
    settings: string, credential: Option<int>, credentialUpdatedAt: Option<int>, enabled: bool,
    disabledTools: multiset<string>,
    upstream: Option<(string, Option<string>, seq<string>, seq<string>)>)

  function ContentHash(row: ToolsetRow): Material {
    Material(row.settings, row.credential, row.credentialUpdatedAt, row.enabled, multiset(row.disabledTools),
             match row.upstream
             case None => None
             case Some(u) => Some((u.url, u.prefix, u.allow, u.deny)))
  }

  /** Two rows have one hash exactly when they agree on everything that affects the built runtime:
      settings, credential and its timestamp, enablement, disabled tools in any order, and of a proxy
      the URL, prefix and lists. */
  lemma SameHashIff(a: ToolsetRow, b: ToolsetRow)
    ensures ContentHash(a) == ContentHash(b)
            <==> && a.settings == b.settings && a.enabled == b.enabled
                 && a.credential == b.credential && a.credentialUpdatedAt == b.credentialUpdatedAt
                 && (forall t :: multiset(a.disabledTools)[t] == multiset(b.disabledTools)[t])
                 && (a.upstream.Some? <==> b.upstream.Some?)
                 && (a.upstream.Some? && b.upstream.Some? ==>
                       var u, v := a.upstream.value, b.upstream.value;
                       u.url == v.url && u.prefix == v.prefix && u.allow == v.allow && u.deny == v.deny)
  {
    if forall t :: multiset(a.disabledTools)[t] == multiset(b.disabledTools)[t] {
      assert multiset(a.disabledTools) == multiset(b.disabledTools);
    }
  }

  function ToolNames(tools: seq<Tool>): set<string> {
    set t | t in tools :: t.name
  }

  /** The upstream of a row after `sync_snapshot`. */
  function Synced(u: ProxyUpstream, tools: seq<Tool>, newDeny: seq<string>): ProxyUpstream {
    var live := ToolNames(tools);
    u.(tools := tools,
       deny := Sorted((Elements(u.deny) + Elements(newDeny)) * live),
       allow := Sorted(Elements(u.allow) * live))
  }

  /** Name by name: a tool stays denied, or becomes so, if it is still listed; stays allowed if it is
      still listed; both lists come sorted and without repeats, and nothing else changes. */
  lemma SyncedIs(u: ProxyUpstream, tools: seq<Tool>, newDeny: seq<string>, n: string)
    ensures var u', listed := Synced(u, tools, newDeny), exists t :: t in tools && t.name == n;
            && u'.tools == tools && u'.url == u.url && u'.prefix == u.prefix
            && (n in u'.deny <==> (n in u.deny || n in newDeny) && listed)
            && (n in u'.allow <==> n in u.allow && listed)
            && (forall i, j | 0 <= i < j < |u'.deny| :: Leq(u'.deny[i], u'.deny[j]) && u'.deny[i] != u'.deny[j])
            && (forall i, j | 0 <= i < j < |u'.allow| :: Leq(u'.allow[i], u'.allow[j]) && u'.allow[i] != u'.allow[j])
  {
    var live := ToolNames(tools);
    assert n in live <==> exists t :: t in tools && t.name == n;
    SortedIsAscending((Elements(u.deny) + Elements(newDeny)) * live);
    SortedIsAscending(Elements(u.allow) * live);
    hide Sorted, Leq;
  }

  class ToolsetsRepo {
    var rows: map<string, ToolsetRow>

    constructor (rows: map<string, ToolsetRow>)
      ensures this.rows == rows
    {
      this.rows := rows;
    }

    method Get(key: string) returns (row: Option<ToolsetRow>)
      ensures row == if key in rows then Some(rows[key]) else None
    {
      row := if key in rows then Some(rows[key]) else None;
    }

    /** Refused unless the row is a proxy; no other row and no other column changes. */
    method SyncSnapshot(key: string, tools: seq<Tool>, newDeny: seq<string>) returns (ok: bool)
      modifies this
      ensures ok <==> key in old(rows) && old(rows)[key].upstream.Some?
      ensures rows == if ok then
                        old(rows)[key := old(rows)[key].(
                          upstream := Some(Synced(old(rows)[key].upstream.value, tools, newDeny)))]
                      else old(rows)
    {
      var row := Get(key);
      if row.None? || row.value.upstream.None? {
        return false;
      }
      var u := row.value.upstream.value;
      var liveNames := set t | t in tools :: t.name;
      var deny := Sorted((Elements(u.deny) + Elements(newDeny)) * liveNames);
      var allow := Sorted(Elements(u.allow) * liveNames);
      rows := rows[key := row.value.(upstream := Some(u.(tools := tools, deny := deny, allow := allow)))];
      ok := true;
    }

    /** The admin's edit: the snapshot stays. */
    method UpdateUpstream(key: string, edit: ProxyUpstream) returns (ok: bool)
      modifies this
      ensures ok <==> key in old(rows) && old(rows)[key].upstream.Some?
      ensures rows == if ok then
                        old(rows)[key := old(rows)[key].(
                          upstream := Some(edit.(tools := old(rows)[key].upstream.value.tools)))]
                      else old(rows)
    {
      var row := Get(key);
      if row.None? || row.value.upstream.None? {
        return false;
      }
      rows := rows[key := row.value.(upstream := Some(edit.(tools := row.value.upstream.value.tools)))];
      ok := true;
    }
  }
}
