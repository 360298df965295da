/** The config store as the source of a reload, and exactly when a second reload with nothing edited
    is the identity: a build that refreshes its credential's token moves a timestamp other hashes
    depend on. */
module ReloadFixpoint {
  import opened Wrappers
  import opened Names
  import opened Toolsets
  import opened ProxySource
  import opened RegistryPass

  /** Everything a pass reads besides the rows: credential states, code on disk and upstreams. `stamps`
      holds the keys whose build refreshes the token of their credential, with the second it falls in. */
  datatype Surroundings = Surroundings(
    waiting: set<int>, modules: set<string>, visits: map<string, Visit>, stamps: map<string, int>)

  predicate Wanted(rows: map<string, ToolsetRow>, env: Surroundings, key: string) {
    && key in rows
    && rows[key].enabled
    && (rows[key].credential.Some? ==> rows[key].credential.value !in env.waiting)
    && (rows[key].upstream.Some? || key in env.modules)
  }

  function SpecOf(rows: map<string, ToolsetRow>, key: string): Spec<Material>
    requires key in rows
  {
    Spec(key, rows[key].displayName, ContentHash(rows[key]))
  }

  /** Enabled rows in key order, without those whose credential waits or whose code is missing. */
  function Desired(rows: map<string, ToolsetRow>, env: Surroundings): seq<Spec<Material>> {
    DesiredFrom(rows, env, Sorted(rows.Keys))
  }

  function DesiredFrom(rows: map<string, ToolsetRow>, env: Surroundings, keys: seq<string>): seq<Spec<Material>>
    requires forall k | k in keys :: k in rows
  {
    if keys == [] then []
    else (if Wanted(rows, env, keys[0]) then [SpecOf(rows, keys[0])] else []) + DesiredFrom(rows, env, keys[1..])
  }

  lemma DesiredNext(rows: map<string, ToolsetRow>, env: Surroundings, keys: seq<string>, i: nat,
                    out: seq<Spec<Material>>)
    requires i < |keys| && forall k | k in keys :: k in rows
    ensures out + DesiredFrom(rows, env, keys[i..])
         == out + (if Wanted(rows, env, keys[i]) then [SpecOf(rows, keys[i])] else [])
            + DesiredFrom(rows, env, keys[i + 1..])
  {
  }

  /** The loop of `DbToolsetSource.desired`. */
  method CollectDesired(repo: ToolsetsRepo, env: Surroundings) returns (out: seq<Spec<Material>>)
    ensures out == Desired(repo.rows, env)
  {
    hide ContentHash, Sorted, Desired, DesiredFrom, SpecOf;
    var rows := repo.rows;
    var keys := Sorted(rows.Keys);
    out := [];
    assert keys[0..] == keys;
    DesiredEnds(rows, env);
    for i := 0 to |keys|
      invariant out + DesiredFrom(rows, env, keys[i..]) == Desired(rows, env)
    {
      var key := keys[i];
      DesiredNext(rows, env, keys, i, out);
      if rows[key].enabled {
        var waiting := rows[key].credential.Some? && rows[key].credential.value in env.waiting;
        if !waiting {
          if rows[key].upstream.Some? || key in env.modules {
            out := out + [SpecOf(rows, key)];
          }
        }
      }
    }
    assert keys[|keys|..] == [];
  }

  lemma DesiredEnds(rows: map<string, ToolsetRow>, env: Surroundings)
    ensures Desired(rows, env) == DesiredFrom(rows, env, Sorted(rows.Keys)) && DesiredFrom(rows, env, []) == []
  {
  }

  // Every entry of the list is the spec of a wanted row, and no key comes twice.
  lemma {:induction false} DesiredOnly(rows: map<string, ToolsetRow>, env: Surroundings, keys: seq<string>)
    requires forall k | k in keys :: k in rows
    requires forall i, j | 0 <= i < j < |keys| :: keys[i] != keys[j]
    ensures UniqueKeys(DesiredFrom(rows, env, keys))
    ensures forall i | 0 <= i < |DesiredFrom(rows, env, keys)| ::
              var spec := DesiredFrom(rows, env, keys)[i];
              spec.key in keys && Wanted(rows, env, spec.key) && spec == SpecOf(rows, spec.key)
  {
    if keys != [] {
      DesiredOnly(rows, env, keys[1..]);
    }
  }

  // And every wanted row is in it.
  lemma {:induction false} DesiredAt(rows: map<string, ToolsetRow>, env: Surroundings, keys: seq<string>, k: string)
    returns (i: nat)
    requires forall k | k in keys :: k in rows
    requires k in keys && Wanted(rows, env, k)
    ensures i < |DesiredFrom(rows, env, keys)| && DesiredFrom(rows, env, keys)[i].key == k
  {
    i := 0;
    if k != keys[0] {
      i := DesiredAt(rows, env, keys[1..], k);
      i := i + if Wanted(rows, env, keys[0]) then 1 else 0;
    }
  }

  // -- one reload over the store -----------------------------------------------------

  /** What a reload finds. `failing` are the keys whose build raises; runtimes built are numbered
      from `base` on. */
  datatype Setting = Setting(
    mounted: map<string, Mounted<nat, Material>>, rows: map<string, ToolsetRow>, env: Surroundings,
    failing: set<string>, flagged: set<nat>, base: nat)

  /** What the builds of a pass do to the rows, and the decisions they lead to. */
  datatype Outcome = Outcome(rows: map<string, ToolsetRow>, ds: seq<Decision<nat, Material>>)

  predicate Keeps(mounted: map<string, Mounted<nat, Material>>, spec: Spec<Material>, flagged: set<nat>) {
    var current := Current(mounted, spec.key);
    UpToDate(current, spec, current.Some? && current.value.runtime.Some? && current.value.runtime.value in flagged)
  }

  // The credential's new timestamp shows in every row that uses it.
  function MoveStamps(rows: map<string, ToolsetRow>, credential: Option<int>, stamp: int): map<string, ToolsetRow> {
    map k | k in rows ::
      if credential.Some? && rows[k].credential == credential then rows[k].(credentialUpdatedAt := Some(stamp))
      else rows[k]
  }

  function VisitTo(env: Surroundings, k: string): Visit {
    if k in env.visits then env.visits[k] else Unreachable
  }

  /** A build may refresh its credential's token, may then raise, and fails when it cannot reach an
      upstream it has no snapshot of. A proxy build rewrites its own row; its hash is read again
      afterwards, and that of a native toolset is the one desired. */
  function Decide(rows: map<string, ToolsetRow>, env: Surroundings, failing: set<string>,
                  spec: Spec<Material>, runtime: nat): (map<string, ToolsetRow>, Decision<nat, Material>)
    requires spec.key in rows
  {
    var k := spec.key;
    var moved := if k in env.stamps then MoveStamps(rows, rows[k].credential, env.stamps[k]) else rows;
    if k in failing then (moved, Broken("build failed"))
    else if moved[k].upstream.None? then (moved, Built(runtime, spec.hash))
    else
      var (u, tools) := Rebuild(moved[k].upstream.value, VisitTo(env, k));
      var rows' := moved[k := moved[k].(upstream := Some(u))];
      (rows', if tools.None? then Broken("upstream unreachable") else Built(runtime, ContentHash(rows'[k])))
  }

  ghost function RunBuilds(s: Setting, specs: seq<Spec<Material>>): (out: Outcome)
    requires forall i | 0 <= i < |specs| :: specs[i].key in s.rows
    ensures out.rows.Keys == s.rows.Keys
    ensures Fits(s.mounted, specs, out.ds)
    decreases |specs|
  {
    if specs == [] then Outcome(s.rows, [])
    else
      var n := |specs| - 1;
      var before := RunBuilds(s, specs[..n]);
      if Keeps(s.mounted, specs[n], s.flagged) then before.(ds := before.ds + [Kept])
      else
        var (rows', d) := Decide(before.rows, s.env, s.failing, specs[n], s.base + n);
        Outcome(rows', before.ds + [d])
  }

  ghost function Builds(s: Setting): Outcome {
    DesiredInRows(s.rows, s.env);
    RunBuilds(s, Desired(s.rows, s.env))
  }

  /** The pass and the rows after it. */
  ghost function Reload(s: Setting): (Pass<nat, Material>, map<string, ToolsetRow>) {
    var out := Builds(s);
    (Fold(s.mounted, Desired(s.rows, s.env), out.ds), out.rows)
  }

  lemma DesiredInRows(rows: map<string, ToolsetRow>, env: Surroundings)
    ensures UniqueKeys(Desired(rows, env))
    ensures forall i | 0 <= i < |Desired(rows, env)| ::
              var spec := Desired(rows, env)[i];
              spec.key in rows && Wanted(rows, env, spec.key) && spec == SpecOf(rows, spec.key)
    ensures forall k | Wanted(rows, env, k) ::
              exists i :: 0 <= i < |Desired(rows, env)| && Desired(rows, env)[i].key == k
  {
    hide DesiredFrom, Wanted, SpecOf;
    SortedIsAscending(rows.Keys);
    DesiredOnly(rows, env, Sorted(rows.Keys));
    hide Desired;
    forall k | Wanted(rows, env, k)
      ensures exists i :: 0 <= i < |Desired(rows, env)| && Desired(rows, env)[i].key == k
    {
      var i := WantedIsDesired(rows, env, k);
    }
  }

  lemma WantedIsDesired(rows: map<string, ToolsetRow>, env: Surroundings, k: string) returns (i: nat)
    requires Wanted(rows, env, k)
    ensures i < |Desired(rows, env)| && Desired(rows, env)[i].key == k
  {
    hide DesiredFrom;
    SortedIsAscending(rows.Keys);
    i := DesiredAt(rows, env, Sorted(rows.Keys), k);
  }

  lemma {:induction false} DesiredAscends(rows: map<string, ToolsetRow>, env: Surroundings, keys: seq<string>)
    requires forall k | k in keys :: k in rows
    requires forall i, j | 0 <= i < j < |keys| :: Leq(keys[i], keys[j])
    ensures forall i | 0 <= i < |DesiredFrom(rows, env, keys)| :: DesiredFrom(rows, env, keys)[i].key in keys
    ensures forall i, j | 0 <= i < j < |DesiredFrom(rows, env, keys)| ::
              Leq(DesiredFrom(rows, env, keys)[i].key, DesiredFrom(rows, env, keys)[j].key)
  {
    if keys != [] {
      DesiredAscends(rows, env, keys[1..]);
      var out, rest := DesiredFrom(rows, env, keys), DesiredFrom(rows, env, keys[1..]);
      forall k | k in keys[1..]
        ensures Leq(keys[0], k)
      {
        var j :| 0 <= j < |keys[1..]| && keys[1..][j] == k;
        assert keys[j + 1] == k;
      }
      assert out == rest || out == [SpecOf(rows, keys[0])] + rest;
      hide DesiredFrom, Leq, SpecOf, Wanted;
    }
  }

  /** Which toolsets a pass goes through: the enabled rows, in key order and each once, unless the
      credential waits to be connected or a native row has no code on disk; under the row's title
      and with the hash of the row. */
  lemma DesiredExactly(rows: map<string, ToolsetRow>, env: Surroundings)
    ensures forall i, j | 0 <= i < j < |Desired(rows, env)| ::
              Desired(rows, env)[i].key != Desired(rows, env)[j].key
              && Leq(Desired(rows, env)[i].key, Desired(rows, env)[j].key)
    ensures forall i | 0 <= i < |Desired(rows, env)| ::
              var spec := Desired(rows, env)[i];
              spec.key in rows && spec.title == rows[spec.key].displayName
              && spec.hash == ContentHash(rows[spec.key])
    ensures forall k :: Lists(Desired(rows, env), k)
              <==> && k in rows && rows[k].enabled
                   && !(rows[k].credential.Some? && rows[k].credential.value in env.waiting)
                   && !(rows[k].upstream.None? && k !in env.modules)
  {
    DesiredInRows(rows, env);
    SortedIsAscending(rows.Keys);
    DesiredAscends(rows, env, Sorted(rows.Keys));
    hide DesiredFrom, Leq, ContentHash, Sorted;
    forall k
      ensures Lists(Desired(rows, env), k) <==> Wanted(rows, env, k)
    {
      if Wanted(rows, env, k) {
        var i := WantedIsDesired(rows, env, k);
      }
    }
  }

  // -- timestamps --------------------------------------------------------------------

  // Nothing but the credential's timestamp differs.
  predicate StampAside(row: ToolsetRow, row': ToolsetRow) {
    row' == row.(credentialUpdatedAt := row'.credentialUpdatedAt)
  }

  predicate Moves(s: Setting, spec: Spec<Material>, d: Decision<nat, Material>, credential: Option<int>) {
    !d.Kept? && credential.Some? && spec.key in s.env.stamps
    && spec.key in s.rows && s.rows[spec.key].credential == credential
  }

  /** The timestamp of a credential after some of the builds: that of the last one that moved it. */
  function StampAfter(s: Setting, specs: seq<Spec<Material>>, ds: seq<Decision<nat, Material>>,
                      credential: Option<int>, stamp: Option<int>): Option<int>
    requires |ds| == |specs|
    decreases |specs|
  {
    if specs == [] then stamp
    else
      var n := |specs| - 1;
      if Moves(s, specs[n], ds[n], credential) then Some(s.env.stamps[specs[n].key])
      else StampAfter(s, specs[..n], ds[..n], credential, stamp)
  }

  // One build, as any row sees it.
  lemma DecideTouches(s: Setting, rows: map<string, ToolsetRow>, spec: Spec<Material>, runtime: nat, k: string)
    requires spec.key in s.rows && spec.key in rows && rows[spec.key].credential == s.rows[spec.key].credential
    requires k in rows
    ensures var (rows', d) := Decide(rows, s.env, s.failing, spec, runtime);
            && !d.Kept? && rows'.Keys == rows.Keys && rows'[k].credential == rows[k].credential
            && rows'[k].credentialUpdatedAt
               == (if Moves(s, spec, d, rows[k].credential) then Some(s.env.stamps[spec.key])
                   else rows[k].credentialUpdatedAt)
            && (k != spec.key ==> StampAside(rows[k], rows'[k]))
  {
  }

  lemma {:induction false} RunBuildsLast(s: Setting, specs: seq<Spec<Material>>)
    requires specs != [] && forall i | 0 <= i < |specs| :: specs[i].key in s.rows
    ensures var n := |specs| - 1;
            var before := RunBuilds(s, specs[..n]);
            var (rows', d) := Decide(before.rows, s.env, s.failing, specs[n], s.base + n);
            && RunBuilds(s, specs) == (if Keeps(s.mounted, specs[n], s.flagged) then before.(ds := before.ds + [Kept])
                                       else Outcome(rows', before.ds + [d]))
  {
  }

  // The last key of a pass, as row `k` sees it.
  ghost predicate Touched(s: Setting, before: Outcome, out: Outcome, spec: Spec<Material>, k: string) {
    && |out.ds| == |before.ds| + 1 && out.ds[..|before.ds|] == before.ds
    && k in before.rows && k in out.rows
    && out.rows[k].credential == before.rows[k].credential
    && out.rows[k].credentialUpdatedAt
       == (if Moves(s, spec, out.ds[|before.ds|], before.rows[k].credential) then Some(s.env.stamps[spec.key])
           else before.rows[k].credentialUpdatedAt)
    && (k != spec.key ==> StampAside(before.rows[k], out.rows[k]))
  }

  lemma KeptTouches(s: Setting, before: Outcome, spec: Spec<Material>, k: string)
    requires k in before.rows
    ensures Touched(s, before, before.(ds := before.ds + [Kept]), spec, k)
  {
  }

  lemma BuiltTouches(s: Setting, before: Outcome, spec: Spec<Material>, runtime: nat, k: string)
    requires spec.key in s.rows && spec.key in before.rows
    requires before.rows[spec.key].credential == s.rows[spec.key].credential && k in before.rows
    ensures var (rows', d) := Decide(before.rows, s.env, s.failing, spec, runtime);
            Touched(s, before, Outcome(rows', before.ds + [d]), spec, k)
  {
    DecideTouches(s, before.rows, spec, runtime, k);
    hide Decide, Moves, StampAside;
  }

  lemma {:induction false} LastTouches(s: Setting, specs: seq<Spec<Material>>, k: string)
    requires specs != [] && forall i | 0 <= i < |specs| :: specs[i].key in s.rows
    requires k in s.rows
    requires var before, key := RunBuilds(s, specs[..|specs| - 1]).rows, specs[|specs| - 1].key;
             key in before && before[key].credential == s.rows[key].credential
    ensures Touched(s, RunBuilds(s, specs[..|specs| - 1]), RunBuilds(s, specs), specs[|specs| - 1], k)
  {
    hide RunBuilds, Keeps, Touched, Decide, Moves, StampAside, Fits;
    RunBuildsLast(s, specs);
    var n := |specs| - 1;
    var before := RunBuilds(s, specs[..n]);
    assert k in before.rows;
    KeptTouches(s, before, specs[n], k);
    BuiltTouches(s, before, specs[n], s.base + n, k);
  }

  /** Through any number of builds a row keeps its credential, and shows the credential's timestamp. */
  lemma {:induction false} BuildsMoveStamps(s: Setting, specs: seq<Spec<Material>>, k: string)
    requires forall i | 0 <= i < |specs| :: specs[i].key in s.rows
    requires k in s.rows
    ensures var out := RunBuilds(s, specs);
            && k in out.rows && out.rows[k].credential == s.rows[k].credential
            && out.rows[k].credentialUpdatedAt
               == StampAfter(s, specs, out.ds, s.rows[k].credential, s.rows[k].credentialUpdatedAt)
    decreases |specs|
  {
    if specs != [] {
      var n := |specs| - 1;
      BuildsMoveStamps(s, specs[..n], k);
      BuildsMoveStamps(s, specs[..n], specs[n].key);
      hide RunBuilds, Moves;
      LastTouches(s, specs, k);
    }
  }

  // -- what the builds leave ---------------------------------------------------------

  /** Row `k` after the builds, timestamps aside: as it was, unless its own toolset was a proxy and
      was built. */
  predicate RowAfter(s: Setting, rows': map<string, ToolsetRow>, k: string, built: bool) {
    && k in s.rows && k in rows'
    && (StampAside(s.rows[k], rows'[k])
        || (built && s.rows[k].upstream.Some?
            && StampAside(s.rows[k].(upstream := Some(Rebuild(s.rows[k].upstream.value, VisitTo(s.env, k)).0)),
                          rows'[k])))
  }

  /** The timestamp in the hash of the `i`-th desired key: of a proxy that was built, as its own build
      left it; otherwise as the pass found it. */
  function TakenAt(s: Setting, specs: seq<Spec<Material>>, ds: seq<Decision<nat, Material>>, i: nat): Option<int>
    requires |ds| == |specs| && i < |specs| && specs[i].key in s.rows
  {
    var row := s.rows[specs[i].key];
    if row.upstream.Some? && ds[i].Built? then
      StampAfter(s, specs[..i + 1], ds[..i + 1], row.credential, row.credentialUpdatedAt)
    else row.credentialUpdatedAt
  }

  // What the builds did about one key.
  predicate Left(s: Setting, rows': map<string, ToolsetRow>, spec: Spec<Material>, d: Decision<nat, Material>,
                 taken: Option<int>)
  {
    && RowAfter(s, rows', spec.key, !d.Kept?)
    && (d.Kept? <==> Keeps(s.mounted, spec, s.flagged))
    && (d.Built? ==> d.hash == ContentHash(rows'[spec.key].(credentialUpdatedAt := taken)))
  }

  lemma DecideLeaves(s: Setting, rows: map<string, ToolsetRow>, spec: Spec<Material>, runtime: nat)
    requires spec.key in rows && spec.key in s.rows && StampAside(s.rows[spec.key], rows[spec.key])
    requires spec == SpecOf(s.rows, spec.key) && !Keeps(s.mounted, spec, s.flagged)
    ensures var (rows', d) := Decide(rows, s.env, s.failing, spec, runtime);
            spec.key in rows'
            && Left(s, rows', spec, d, if s.rows[spec.key].upstream.Some? then rows'[spec.key].credentialUpdatedAt
                                       else s.rows[spec.key].credentialUpdatedAt)
  {
    hide Rebuild, MoveStamps;
    var stamp := if spec.key in s.env.stamps then s.env.stamps[spec.key] else 0;
    MovedAside(rows, rows[spec.key].credential, stamp, spec.key);
  }

  lemma MovedAside(rows: map<string, ToolsetRow>, credential: Option<int>, stamp: int, k: string)
    requires k in rows
    ensures k in MoveStamps(rows, credential, stamp) && StampAside(rows[k], MoveStamps(rows, credential, stamp)[k])
  {
  }

  // A row that is not desired changes in its timestamp at most.
  lemma {:induction false} BuildsTouchOnly(s: Setting, specs: seq<Spec<Material>>, k: string)
    requires forall i | 0 <= i < |specs| :: specs[i].key in s.rows && specs[i].key != k
    requires k in s.rows
    ensures StampAside(s.rows[k], RunBuilds(s, specs).rows[k])
    decreases |specs|
  {
    if specs != [] {
      var n := |specs| - 1;
      BuildsTouchOnly(s, specs[..n], k);
      BuildsMoveStamps(s, specs[..n], specs[n].key);
      hide RunBuilds, Moves, StampAfter;
      LastTouches(s, specs, k);
    }
  }

  // The list a pass goes through.
  ghost predicate Listed(s: Setting, specs: seq<Spec<Material>>) {
    && UniqueKeys(specs)
    && forall j | 0 <= j < |specs| :: specs[j].key in s.rows && specs[j] == SpecOf(s.rows, specs[j].key)
  }

  lemma PrefixListed(s: Setting, specs: seq<Spec<Material>>, n: nat)
    requires Listed(s, specs) && n < |specs|
    ensures Listed(s, specs[..n]) && forall j | 0 <= j < n :: specs[..n][j].key != specs[n].key
  {
  }

  // The last row built is left as its decision says.
  lemma LastBuildLeaves(s: Setting, specs: seq<Spec<Material>>)
    requires Listed(s, specs) && specs != []
    ensures var out, n := RunBuilds(s, specs), |specs| - 1;
            Left(s, out.rows, specs[n], out.ds[n], TakenAt(s, specs, out.ds, n))
  {
    hide RunBuilds, Decide, Keeps, ContentHash, SpecOf, Rebuild, UniqueKeys, Moves, StampAfter;
    var n := |specs| - 1;
    PrefixListed(s, specs, n);
    RunBuildsLast(s, specs);
    BuildsTouchOnly(s, specs[..n], specs[n].key);
    if Keeps(s.mounted, specs[n], s.flagged) {
    } else {
      DecideLeaves(s, RunBuilds(s, specs[..n]).rows, specs[n], s.base + n);
      LastTaken(s, specs);
      hide Left;
    }
  }

  lemma LastTaken(s: Setting, specs: seq<Spec<Material>>)
    requires Listed(s, specs) && specs != []
    ensures var out, n := RunBuilds(s, specs), |specs| - 1;
            var k := specs[n].key;
            TakenAt(s, specs, out.ds, n)
            == if s.rows[k].upstream.Some? && out.ds[n].Built? then out.rows[k].credentialUpdatedAt
               else s.rows[k].credentialUpdatedAt
  {
    hide RunBuilds, SpecOf, UniqueKeys, StampAfter;
    var n := |specs| - 1;
    BuildsMoveStamps(s, specs, specs[n].key);
    assert specs[..n + 1] == specs && RunBuilds(s, specs).ds[..n + 1] == RunBuilds(s, specs).ds;
  }

  lemma LeftCarries(s: Setting, before: map<string, ToolsetRow>, rows': map<string, ToolsetRow>,
                    spec: Spec<Material>, d: Decision<nat, Material>, taken: Option<int>)
    requires Left(s, before, spec, d, taken)
    requires spec.key in before && spec.key in rows' && StampAside(before[spec.key], rows'[spec.key])
    ensures Left(s, rows', spec, d, taken)
  {
  }

  // Every desired row is left as its own decision says.
  lemma {:induction false} BuildsLeave(s: Setting, specs: seq<Spec<Material>>, i: nat)
    requires Listed(s, specs) && i < |specs|
    ensures var out := RunBuilds(s, specs); Left(s, out.rows, specs[i], out.ds[i], TakenAt(s, specs, out.ds, i))
    decreases |specs|
  {
    hide RunBuilds, Decide, Keeps, ContentHash, SpecOf, Rebuild, UniqueKeys, Left, Moves, StampAfter, StampAside;
    var n := |specs| - 1;
    if i == n {
      LastBuildLeaves(s, specs);
    } else {
      PrefixListed(s, specs, n);
      BuildsLeave(s, specs[..n], i);
      BuildsMoveStamps(s, specs[..n], specs[n].key);
      var before := RunBuilds(s, specs[..n]);
      assert specs[..n][i] == specs[i] && specs[..n][..i + 1] == specs[..i + 1];
      LastTouches(s, specs, specs[i].key);
      LeftCarries(s, before.rows, RunBuilds(s, specs).rows, specs[i], before.ds[i],
                  TakenAt(s, specs[..n], before.ds, i));
      SamePrefix(RunBuilds(s, specs).ds, before.ds, i);
    }
  }

  lemma SamePrefix<T>(a: seq<T>, b: seq<T>, i: nat)
    requires i < |b| <= |a| && a[..|b|] == b
    ensures a[..i + 1] == b[..i + 1] && a[i] == b[i]
  {
    assert a[..|b|][..i + 1] == a[..i + 1];
    assert a[i] == a[..|b|][i];
  }

  // A pass builds exactly the keys that have no runtime, failed last time, are flagged, or whose row
  // has another hash.
  lemma BuildsExactlyTheStale(s: Setting, i: nat)
    requires i < |Desired(s.rows, s.env)|
    ensures var k := Desired(s.rows, s.env)[i].key;
            && k in s.rows
            && (Builds(s).ds[i].Kept?
                <==> && k in s.mounted && s.mounted[k].runtime.Some? && s.mounted[k].error.None?
                     && s.mounted[k].runtime.value !in s.flagged
                     && s.mounted[k].hash == ContentHash(s.rows[k]))
  {
    DesiredInRows(s.rows, s.env);
    BuildsLeave(s, Desired(s.rows, s.env), i);
  }

  // -- a second run ------------------------------------------------------------------

  /** The rows a second run finds, nothing having been edited: as the first run left them, but for
      timestamps that token refreshes have moved in between. */
  ghost predicate Unedited(rows: map<string, ToolsetRow>, rows': map<string, ToolsetRow>) {
    rows'.Keys == rows.Keys && forall k | k in rows :: StampAside(rows[k], rows'[k])
  }

  /** A second run after any first, with no edit and no flag since. Builds of either may fail, and
      upstreams may have changed. */
  ghost predicate Again(s: Setting, s2: Setting) {
    var (p, rows') := Reload(s);
    && s2.mounted == p.mounted && s2.flagged == {} && Unedited(rows', s2.rows)
    && s2.env.waiting == s.env.waiting && s2.env.modules == s.env.modules
  }

  // The columns that decide whether a row is desired.
  predicate SameWanting(row: ToolsetRow, row': ToolsetRow) {
    && row'.enabled == row.enabled && row'.credential == row.credential
    && row'.displayName == row.displayName && row'.upstream.Some? == row.upstream.Some?
  }

  lemma {:induction false} SameDesired(rows: map<string, ToolsetRow>, rows': map<string, ToolsetRow>,
                                       env: Surroundings, env': Surroundings, keys: seq<string>)
    requires env'.waiting == env.waiting && env'.modules == env.modules
    requires forall k | k in keys :: k in rows && k in rows' && SameWanting(rows[k], rows'[k])
    ensures |DesiredFrom(rows', env', keys)| == |DesiredFrom(rows, env, keys)|
    ensures forall i | 0 <= i < |DesiredFrom(rows, env, keys)| ::
              DesiredFrom(rows', env', keys)[i].key == DesiredFrom(rows, env, keys)[i].key
  {
    if keys != [] {
      SameDesired(rows, rows', env, env', keys[1..]);
    }
  }

  lemma BuildsKeepWanting(s: Setting, k: string)
    requires k in s.rows
    ensures k in Builds(s).rows && SameWanting(s.rows[k], Builds(s).rows[k])
  {
    DesiredInRows(s.rows, s.env);
    var specs := Desired(s.rows, s.env);
    hide Rebuild, ContentHash;
    if i :| 0 <= i < |specs| && specs[i].key == k {
      BuildsLeave(s, specs, i);
    } else {
      BuildsTouchOnly(s, specs, k);
    }
    hide RunBuilds, Desired;
  }

  /** The second run wants the same keys. */
  lemma DesiredAgain(s: Setting, s2: Setting)
    requires Again(s, s2)
    ensures |Desired(s2.rows, s2.env)| == |Desired(s.rows, s.env)|
    ensures forall i | 0 <= i < |Desired(s.rows, s.env)| ::
              Desired(s2.rows, s2.env)[i].key == Desired(s.rows, s.env)[i].key
  {
    var keys := Sorted(s.rows.Keys);
    assert s2.rows.Keys == s.rows.Keys;
    forall k | k in keys
      ensures SameWanting(s.rows[k], s2.rows[k])
    {
      BuildsKeepWanting(s, k);
    }
    hide Builds, Reload;
    SameDesired(s.rows, s2.rows, s.env, s2.env, keys);
  }

  // The entry of a key against its row as a later run finds it.
  lemma EntryAgainst(s: Setting, rows': map<string, ToolsetRow>, row: ToolsetRow, spec: Spec<Material>,
                     d: Decision<nat, Material>, taken: Option<int>, m: map<string, Mounted<nat, Material>>)
    requires spec.key in s.rows && spec == SpecOf(s.rows, spec.key)
    requires Left(s, rows', spec, d, taken) && (d.Kept? ==> taken == s.rows[spec.key].credentialUpdatedAt)
    requires d.Kept? ==> spec.key in s.mounted
    requires EntryAfter(s.mounted, spec, d, m)
    requires StampAside(rows'[spec.key], row)
    ensures Keeps(m, Spec(spec.key, row.displayName, ContentHash(row)), {})
            <==> !d.Broken? && row.credentialUpdatedAt == taken
  {
  }

  // What a run leaves of its `i`-th key.
  lemma FirstLeaves(s: Setting, i: nat)
    requires i < |Desired(s.rows, s.env)|
    ensures var specs, out, m := Desired(s.rows, s.env), Builds(s), Reload(s).0.mounted;
            && specs[i].key in s.rows && specs[i] == SpecOf(s.rows, specs[i].key) && |out.ds| == |specs|
            && Left(s, out.rows, specs[i], out.ds[i], TakenAt(s, specs, out.ds, i))
            && (out.ds[i].Kept? ==> specs[i].key in s.mounted)
            && EntryAfter(s.mounted, specs[i], out.ds[i], m)
  {
    var specs, out := Desired(s.rows, s.env), Builds(s);
    DesiredInRows(s.rows, s.env);
    BuildsLeave(s, specs, i);
    hide Desired, ContentHash, Rebuild, Decide, Keeps, RunBuilds, TakenAt, RowAfter, Left, SpecOf;
    PassMounts(s.mounted, specs, out.ds, i);
    hide Fold, EntryAfter;
  }

  // A key is kept when the entry found agrees with the row found.
  lemma KeptIff(s: Setting, i: nat)
    requires i < |Desired(s.rows, s.env)|
    ensures var spec := Desired(s.rows, s.env)[i];
            && spec.key in s.rows && spec == SpecOf(s.rows, spec.key) && i < |Builds(s).ds|
            && (Builds(s).ds[i].Kept? <==> Keeps(s.mounted, spec, s.flagged))
  {
    DesiredInRows(s.rows, s.env);
    BuildsLeave(s, Desired(s.rows, s.env), i);
    hide Desired, RunBuilds, Keeps, SpecOf, ContentHash;
  }

  /** Exactly which keys the second run builds: those whose build failed in the first, whether or not
      an old runtime still serves, and those whose credential's timestamp is not the one in their
      hash any more, because a build or a refresh moved it after the hash was taken. */
  lemma SecondReloadRebuildsIff(s: Setting, s2: Setting, i: nat)
    requires Again(s, s2) && i < |Desired(s.rows, s.env)|
    ensures var specs := Desired(s.rows, s.env);
            var k := specs[i].key;
            && k in s2.rows && k in s.rows && |Builds(s).ds| == |specs| && |Builds(s2).ds| == |specs|
            && (Builds(s2).ds[i].Kept?
                <==> !Builds(s).ds[i].Broken?
                     && s2.rows[k].credentialUpdatedAt == TakenAt(s, specs, Builds(s).ds, i))
  {
    hide Desired, ContentHash, Rebuild, Keeps, Builds, TakenAt, Left;
    var specs := Desired(s.rows, s.env);
    DesiredAgain(s, s2);
    FirstLeaves(s, i);
    KeptIff(s2, i);
    BuildsFit(s2);
    var k := specs[i].key;
    TakenOfKept(s, specs, Builds(s).ds, i);
    EntryAgainst(s, Builds(s).rows, s2.rows[k], specs[i], Builds(s).ds[i], TakenAt(s, specs, Builds(s).ds, i),
                 s2.mounted);
  }

  lemma TakenOfKept(s: Setting, specs: seq<Spec<Material>>, ds: seq<Decision<nat, Material>>, i: nat)
    requires |ds| == |specs| && i < |specs| && specs[i].key in s.rows
    ensures ds[i].Kept? ==> TakenAt(s, specs, ds, i) == s.rows[specs[i].key].credentialUpdatedAt
  {
  }

  /** Whether the `i`-th desired key's build failed, or its credential has moved since its hash was taken. */
  ghost predicate Stale(s: Setting, s2: Setting, i: nat)
    requires Again(s, s2) && i < |Desired(s.rows, s.env)|
  {
    SecondReloadRebuildsIff(s, s2, i);
    || Builds(s).ds[i].Broken?
    || s2.rows[Desired(s.rows, s.env)[i].key].credentialUpdatedAt
       != TakenAt(s, Desired(s.rows, s.env), Builds(s).ds, i)
  }

  /** Right after the first run the timestamps are those its last builds moved them to. */
  lemma StampsRightAfter(s: Setting, i: nat)
    requires i < |Desired(s.rows, s.env)|
    ensures var specs := Desired(s.rows, s.env);
            var k := specs[i].key;
            && k in s.rows && k in Reload(s).1 && |Builds(s).ds| == |specs|
            && Reload(s).1[k].credentialUpdatedAt
               == StampAfter(s, specs, Builds(s).ds, s.rows[k].credential, s.rows[k].credentialUpdatedAt)
  {
    DesiredInRows(s.rows, s.env);
    BuildsMoveStamps(s, Desired(s.rows, s.env), Desired(s.rows, s.env)[i].key);
    hide RunBuilds, Desired, StampAfter, Fold;
  }

  lemma {:induction false} NoMoves(s: Setting, specs: seq<Spec<Material>>, ds: seq<Decision<nat, Material>>,
                                   credential: Option<int>, stamp: Option<int>)
    requires |ds| == |specs| && forall j | 0 <= j < |specs| :: !Moves(s, specs[j], ds[j], credential)
    ensures StampAfter(s, specs, ds, credential, stamp) == stamp
    decreases |specs|
  {
    if specs != [] {
      NoMoves(s, specs[..|specs| - 1], ds[..|specs| - 1], credential, stamp);
    }
  }

  /** If no build of the first run refreshed a token, only failed keys are stale right after it. */
  lemma NoRefreshNoMove(s: Setting, s2: Setting, i: nat)
    requires Again(s, s2) && s2.rows == Reload(s).1 && i < |Desired(s.rows, s.env)|
    requires i < |Builds(s).ds|
    requires forall j | 0 <= j < |Desired(s.rows, s.env)| && Desired(s.rows, s.env)[j].key in s.env.stamps ::
               |Builds(s).ds| == |Desired(s.rows, s.env)| && Builds(s).ds[j].Kept?
    ensures Stale(s, s2, i) <==> Builds(s).ds[i].Broken?
  {
    var specs, ds := Desired(s.rows, s.env), Builds(s).ds;
    SecondReloadRebuildsIff(s, s2, i);
    StampsRightAfter(s, i);
    var row := s.rows[specs[i].key];
    hide Desired, Builds, Reload, Again, StampAfter;
    NoMoves(s, specs, ds, row.credential, row.credentialUpdatedAt);
    NoMoves(s, specs[..i + 1], ds[..i + 1], row.credential, row.credentialUpdatedAt);
  }

  lemma {:induction false} SomeMove(s: Setting, specs: seq<Spec<Material>>, ds: seq<Decision<nat, Material>>,
                                    credential: Option<int>, stamp: Option<int>, j: nat)
    requires |ds| == |specs| && j < |specs| && Moves(s, specs[j], ds[j], credential)
    requires forall m | 0 <= m < |specs| && Moves(s, specs[m], ds[m], credential) ::
               Some(s.env.stamps[specs[m].key]) != stamp
    ensures StampAfter(s, specs, ds, credential, stamp) != stamp
    decreases |specs|
  {
    var n := |specs| - 1;
    if !Moves(s, specs[n], ds[n], credential) {
      SomeMove(s, specs[..n], ds[..n], credential, stamp, j);
    }
  }

  /** And it does happen without any edit: when a build of the first run refreshes a token, in a later
      second than the credential's last change, every native toolset on that credential and every
      one kept in the first run is built again in the second. */
  lemma SharedRefreshMoves(s: Setting, s2: Setting, i: nat, j: nat)
    requires Again(s, s2) && s2.rows == Reload(s).1
    requires i < |Desired(s.rows, s.env)| && j < |Desired(s.rows, s.env)| && |Builds(s).ds| == |Desired(s.rows, s.env)|
    requires var k := Desired(s.rows, s.env)[i].key;
             && k in s.rows && (s.rows[k].upstream.None? || Builds(s).ds[i].Kept?)
             && Moves(s, Desired(s.rows, s.env)[j], Builds(s).ds[j], s.rows[k].credential)
             && forall key | key in s.env.stamps :: Some(s.env.stamps[key]) != s.rows[k].credentialUpdatedAt
    ensures Stale(s, s2, i)
  {
    var specs, ds := Desired(s.rows, s.env), Builds(s).ds;
    SecondReloadRebuildsIff(s, s2, i);
    StampsRightAfter(s, i);
    var row := s.rows[specs[i].key];
    hide Desired, Builds, Reload, Again, StampAfter;
    SomeMove(s, specs, ds, row.credential, row.credentialUpdatedAt, j);
  }

  // -- the fixpoint ------------------------------------------------------------------

  // A pass whose decisions all keep leaves the rows alone.
  lemma {:induction false} KeepAll(s: Setting, specs: seq<Spec<Material>>)
    requires forall i | 0 <= i < |specs| :: specs[i].key in s.rows
    requires forall i | 0 <= i < |specs| :: RunBuilds(s, specs).ds[i].Kept?
    ensures RunBuilds(s, specs).rows == s.rows
    decreases |specs|
  {
    if specs != [] {
      var n := |specs| - 1;
      RunBuildsLast(s, specs);
      forall i | 0 <= i < n
        ensures RunBuilds(s, specs[..n]).ds[i].Kept?
      {
        assert RunBuilds(s, specs).ds[..n][i] == RunBuilds(s, specs).ds[i];
      }
      KeepAll(s, specs[..n]);
      assert RunBuilds(s, specs).ds[n].Kept?;
      hide RunBuilds, Keeps;
    }
  }

  lemma {:induction false} FoldKept(mounted: map<string, Mounted<nat, Material>>, specs: seq<Spec<Material>>,
                                    ds: seq<Decision<nat, Material>>)
    requires Fits(mounted, specs, ds) && forall i | 0 <= i < |ds| :: ds[i] == Kept
    ensures var p := Fold(mounted, specs, ds);
            && p.toStop == [] && p.added == [] && p.rebuilt == [] && p.failed == [] && p.kept == Keys(specs)
    decreases |specs|
  {
    if specs != [] {
      FoldKept(mounted, specs[..|specs| - 1], ds[..|specs| - 1]);
    }
  }

  lemma SameEntries(m: map<string, Mounted<nat, Material>>, m': map<string, Mounted<nat, Material>>,
                    specs': seq<Spec<Material>>, specs: seq<Spec<Material>>)
    requires |specs'| == |specs| && forall i | 0 <= i < |specs| :: specs'[i].key == specs[i].key
    requires forall k | k in m :: exists i :: 0 <= i < |specs| && specs[i].key == k
    requires forall k | k in m' :: exists i :: 0 <= i < |specs'| && specs'[i].key == k
    requires forall i | 0 <= i < |specs'| ::
               specs'[i].key in m && specs'[i].key in m' && m'[specs'[i].key] == m[specs'[i].key]
    ensures m' == m
  {
    forall k
      ensures k in m <==> k in m'
      ensures k in m ==> m'[k] == m[k]
    {
      if k in m {
        var i :| 0 <= i < |specs| && specs[i].key == k;
        assert specs'[i].key == k;
      }
    }
  }

  // A pass whose decisions all keep mounts the entries it found.
  lemma AllKeptMounts(mounted: map<string, Mounted<nat, Material>>, specs: seq<Spec<Material>>,
                      specs2: seq<Spec<Material>>, ds2: seq<Decision<nat, Material>>)
    requires Fits(mounted, specs2, ds2) && UniqueKeys(specs2) && forall i | 0 <= i < |ds2| :: ds2[i].Kept?
    requires |specs2| == |specs| && forall i | 0 <= i < |specs| :: specs2[i].key == specs[i].key
    requires forall k | k in mounted :: exists i :: 0 <= i < |specs| && specs[i].key == k
    ensures Fold(mounted, specs2, ds2).mounted == mounted
  {
    FoldMounts(mounted, specs2, ds2);
    SameEntries(mounted, Fold(mounted, specs2, ds2).mounted, specs2, specs);
  }

  // What a run mounts has the keys it desires.
  lemma MountsDesired(s: Setting)
    ensures forall k | k in Reload(s).0.mounted ::
              exists i :: 0 <= i < |Desired(s.rows, s.env)| && Desired(s.rows, s.env)[i].key == k
  {
    DesiredInRows(s.rows, s.env);
    FoldMounts(s.mounted, Desired(s.rows, s.env), Builds(s).ds);
    hide Desired, Builds;
  }

  // A pass whose decisions all keep, over the keys that are mounted.
  lemma AllKeptIsIdentity(s: Setting, specs: seq<Spec<Material>>)
    requires forall i | 0 <= i < |Builds(s).ds| :: Builds(s).ds[i].Kept?
    requires |specs| == |Desired(s.rows, s.env)|
    requires forall i | 0 <= i < |specs| :: Desired(s.rows, s.env)[i].key == specs[i].key
    requires forall k | k in s.mounted :: exists i :: 0 <= i < |specs| && specs[i].key == k
    ensures var (p, rows') := Reload(s);
            && p.mounted == s.mounted && rows' == s.rows
            && p.toStop == [] && p.added == [] && p.rebuilt == [] && p.failed == []
            && p.kept == Keys(Desired(s.rows, s.env))
  {
    var desired := Desired(s.rows, s.env);
    DesiredInRows(s.rows, s.env);
    assert Builds(s) == RunBuilds(s, desired);
    hide Desired, RunBuilds;
    KeepAll(s, desired);
    FoldKept(s.mounted, desired, Builds(s).ds);
    AllKeptMounts(s.mounted, specs, desired, Builds(s).ds);
    hide Fold, Keys;
  }

  // A key that is built is not reported unchanged.
  lemma BuiltIsReported(mounted: map<string, Mounted<nat, Material>>, specs: seq<Spec<Material>>,
                        ds: seq<Decision<nat, Material>>, i: nat)
    requires Fits(mounted, specs, ds) && UniqueKeys(specs) && i < |specs| && !ds[i].Kept?
    ensures specs[i].key !in Fold(mounted, specs, ds).kept
  {
    FoldReports(mounted, specs, ds, i);
    ReportHasNoRepeats(mounted, specs, ds, specs[i].key);
    hide Fold;
    assert specs[i].key in multiset(ListFor(Fold(mounted, specs, ds), ds[i], RuntimeOf(mounted, specs[i].key).Some?));
  }

  /** Reload is a fixpoint exactly when no build failed and no credential has moved: a second run with
      nothing edited or flagged keeps every entry, runtime objects included, leaves the rows, builds
      nothing and reports every desired key unchanged if, and only if, no desired key failed in the
      first run or has a credential with a new timestamp since its hash was taken. Proxies that
      rewrote their own row are no exception. */
  lemma SecondReloadChangesNothingIff(s: Setting, s2: Setting)
    requires Again(s, s2)
    ensures var (p, rows') := Reload(s2);
            var still := forall i: nat | i < |Desired(s.rows, s.env)| :: !Stale(s, s2, i);
            && (still ==> && p.mounted == s2.mounted && rows' == s2.rows
                          && p.toStop == [] && p.added == [] && p.rebuilt == [] && p.failed == [])
            && (still <==> p.kept == Keys(Desired(s2.rows, s2.env)))
  {
    hide Desired, Again, RunBuilds, Fold, Keys, Stale;
    var specs, specs2 := Desired(s.rows, s.env), Desired(s2.rows, s2.env);
    DesiredAgain(s, s2);
    BuildsFit(s2);
    forall i: nat | i < |specs|
      ensures Builds(s2).ds[i].Kept? <==> !Stale(s, s2, i)
    {
      KeptUnlessStale(s, s2, i);
    }
    if i: nat :| i < |specs| && Stale(s, s2, i) {
      StaleIsReported(s, s2, i);
    } else {
      MountsDesired(s);
      AgainMounts(s, s2);
      AllKeptIsIdentity(s2, specs);
    }
  }

  lemma AgainMounts(s: Setting, s2: Setting)
    requires Again(s, s2)
    ensures s2.mounted == Reload(s).0.mounted
  {
  }

  lemma KeptUnlessStale(s: Setting, s2: Setting, i: nat)
    requires Again(s, s2) && i < |Desired(s.rows, s.env)|
    ensures i < |Builds(s2).ds| && (Builds(s2).ds[i].Kept? <==> !Stale(s, s2, i))
  {
    SecondReloadRebuildsIff(s, s2, i);
    hide Desired, Builds, Again, TakenAt;
  }

  // A key that is built again is not reported unchanged.
  lemma StaleIsReported(s: Setting, s2: Setting, i: nat)
    requires Again(s, s2) && i < |Desired(s.rows, s.env)| && Stale(s, s2, i)
    ensures Reload(s2).0.kept != Keys(Desired(s2.rows, s2.env))
  {
    var specs2 := Desired(s2.rows, s2.env);
    KeptUnlessStale(s, s2, i);
    DesiredAgain(s, s2);
    DesiredInRows(s2.rows, s2.env);
    hide Desired, Stale, Again, RunBuilds;
    BuiltIsReported(s2.mounted, specs2, Builds(s2).ds, i);
    KeysAre(specs2);
    assert Keys(specs2)[i] == specs2[i].key;
    hide Fold, Keys;
  }

  lemma BuildsFit(s: Setting)
    ensures |Builds(s).ds| == |Desired(s.rows, s.env)|
  {
    DesiredInRows(s.rows, s.env);
  }
}
