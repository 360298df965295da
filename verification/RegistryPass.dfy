/** One pass of a reload over the desired toolsets: what becomes of each key, which runtimes are
    to be stopped, and the report. `R` is the identity of a runtime, `H` a content hash. */
module RegistryPass {
  import opened Wrappers

  datatype Spec<H> = Spec(key: string, title: string, hash: H)

  datatype Route<R> = Serving(runtime: R) | Unavailable(error: string)

  datatype Mounted<R, H> = Mounted(
    title: string, hash: H, runtime: Option<R>, route: Route<R>, error: Option<string>)

  /** What happened to one desired key: kept without a build, built and started (with the hash of
      the row as the build left it), or a failed build. */
  datatype Decision<R, H> = Kept | Built(runtime: R, hash: H) | Broken(error: string)

  datatype Report = Report(
    added: seq<string>, rebuilt: seq<string>, removed: seq<string>, failed: seq<string>,
    kept: seq<string>)

  datatype Pass<R, H> = Pass(
    mounted: map<string, Mounted<R, H>>, toStop: seq<R>,
    added: seq<string>, rebuilt: seq<string>, failed: seq<string>, kept: seq<string>)

  function Empty<R, H>(): Pass<R, H> {
    Pass(map[], [], [], [], [], [])
  }

  function Current<R, H>(was: map<string, Mounted<R, H>>, key: string): Option<Mounted<R, H>> {
    if key in was then Some(was[key]) else None
  }

  function RuntimeOf<R, H>(was: map<string, Mounted<R, H>>, key: string): Option<R> {
    if key in was then was[key].runtime else None
  }

  /** The diff: serving, not failed last time, not flagged by a health probe, same hash. */
  predicate UpToDate<R(==), H(==)>(current: Option<Mounted<R, H>>, spec: Spec<H>, flagged: bool) {
    && current.Some?
    && current.value.runtime.Some?
    && current.value.error.None?
    && !flagged
    && current.value.hash == spec.hash
  }

  /** The entry a key gets. A failed build keeps the old runtime and its hash, if there is one. */
  function Entry<R, H>(current: Option<Mounted<R, H>>, spec: Spec<H>, d: Decision<R, H>): Mounted<R, H>
    requires d.Kept? ==> current.Some?
  {
    match d
    case Kept => current.value
    case Built(runtime, hash) => Mounted(spec.title, hash, Some(runtime), Serving(runtime), None)
    case Broken(error) =>
      if current.Some? && current.value.runtime.Some? then current.value.(error := Some(error))
      else Mounted(spec.title, spec.hash, None, Unavailable(error), Some(error))
  }

  function Examine<R, H>(was: map<string, Mounted<R, H>>, p: Pass<R, H>, spec: Spec<H>, d: Decision<R, H>): Pass<R, H>
    requires d.Kept? ==> spec.key in was
  {
    var k := spec.key;
    var replaced := RuntimeOf(was, k);
    var p' := p.(mounted := p.mounted[k := Entry(Current(was, k), spec, d)]);
    match d
    case Kept => p'.(kept := p.kept + [k])
    case Broken(_) => p'.(failed := p.failed + [k])
    case Built(_, _) =>
      if replaced.Some? then p'.(toStop := p.toStop + [replaced.value], rebuilt := p.rebuilt + [k])
      else p'.(added := p.added + [k])
  }

  ghost predicate Fits<R, H>(was: map<string, Mounted<R, H>>, specs: seq<Spec<H>>, ds: seq<Decision<R, H>>) {
    |ds| == |specs| && forall i | 0 <= i < |ds| :: ds[i].Kept? ==> specs[i].key in was
  }

  ghost function Fold<R, H>(was: map<string, Mounted<R, H>>, specs: seq<Spec<H>>, ds: seq<Decision<R, H>>): Pass<R, H>
    requires Fits(was, specs, ds)
    decreases |specs|
  {
    if specs == [] then Empty()
    else
      var n := |specs| - 1;
      Examine(was, Fold(was, specs[..n], ds[..n]), specs[n], ds[n])
  }

  ghost predicate UniqueKeys<H>(specs: seq<Spec<H>>) {
    forall i, j | 0 <= i < j < |specs| :: specs[i].key != specs[j].key
  }

  ghost predicate Lists<H>(specs: seq<Spec<H>>, k: string) {
    exists i :: 0 <= i < |specs| && specs[i].key == k
  }

  function Keys<H>(specs: seq<Spec<H>>): seq<string> {
    if specs == [] then [] else Keys(specs[..|specs| - 1]) + [specs[|specs| - 1].key]
  }

  lemma {:induction false} KeysAre<H>(specs: seq<Spec<H>>)
    ensures |Keys(specs)| == |specs|
    ensures forall i | 0 <= i < |specs| :: Keys(specs)[i] == specs[i].key
  {
    if specs != [] {
      KeysAre(specs[..|specs| - 1]);
    }
  }

  // -- what a whole pass amounts to --------------------------------------------------

  lemma {:induction false} FoldMountsKey<R, H>(was: map<string, Mounted<R, H>>, specs: seq<Spec<H>>,
                                               ds: seq<Decision<R, H>>, i: nat)
    requires Fits(was, specs, ds) && UniqueKeys(specs) && i < |specs|
    ensures var m := Fold(was, specs, ds).mounted;
            specs[i].key in m && m[specs[i].key] == Entry(Current(was, specs[i].key), specs[i], ds[i])
    decreases |specs|
  {
    var n := |specs| - 1;
    if i < n {
      FoldMountsKey(was, specs[..n], ds[..n], i);
    }
  }

  lemma {:induction false} FoldMountsOnly<R, H>(was: map<string, Mounted<R, H>>, specs: seq<Spec<H>>,
                                                ds: seq<Decision<R, H>>, k: string) returns (i: nat)
    requires Fits(was, specs, ds) && k in Fold(was, specs, ds).mounted
    ensures i < |specs| && specs[i].key == k
    decreases |specs|
  {
    var n := |specs| - 1;
    i := n;
    if specs[n].key != k {
      i := FoldMountsOnly(was, specs[..n], ds[..n], k);
    }
  }

  /** Key by key: the pass mounts exactly the desired keys, each with the entry its own decision
      gives it. */
  lemma FoldMounts<R, H>(was: map<string, Mounted<R, H>>, specs: seq<Spec<H>>, ds: seq<Decision<R, H>>)
    requires Fits(was, specs, ds) && UniqueKeys(specs)
    ensures var m := Fold(was, specs, ds).mounted;
            && (forall i | 0 <= i < |specs| ::
                  specs[i].key in m && m[specs[i].key] == Entry(Current(was, specs[i].key), specs[i], ds[i]))
            && (forall k | k in m :: exists i :: 0 <= i < |specs| && specs[i].key == k)
  {
    hide Fold;
    var m := Fold(was, specs, ds).mounted;
    forall i | 0 <= i < |specs|
      ensures specs[i].key in m && m[specs[i].key] == Entry(Current(was, specs[i].key), specs[i], ds[i])
    {
      FoldMountsKey(was, specs, ds, i);
    }
    forall k | k in m ensures exists i :: 0 <= i < |specs| && specs[i].key == k {
      var i := FoldMountsOnly(was, specs, ds, k);
    }
  }

  /** What a key's entry says after the pass, field by field. A failed build notes its error and
      changes nothing else of an entry that serves: the old hash stays, so the edit that failed
      still differs from it. */
  ghost predicate EntryAfter<R, H>(was: map<string, Mounted<R, H>>, spec: Spec<H>, d: Decision<R, H>,
                                   now: map<string, Mounted<R, H>>)
  {
    && spec.key in now
    && var e := now[spec.key];
       match d
       case Kept => spec.key in was && e == was[spec.key]
       case Built(runtime, hash) =>
         && e.runtime == Some(runtime) && e.route == Serving(runtime)
         && e.title == spec.title && e.hash == hash && e.error == None
       case Broken(error) =>
         && e.error == Some(error)
         && if spec.key in was && was[spec.key].runtime.Some? then
              && e.runtime == was[spec.key].runtime && e.route == was[spec.key].route
              && e.title == was[spec.key].title && e.hash == was[spec.key].hash
            else
              && e.runtime == None && e.route == Unavailable(error)
              && e.title == spec.title && e.hash == spec.hash
  }

  /** Every desired key has the entry its own decision calls for. */
  lemma PassMounts<R, H>(was: map<string, Mounted<R, H>>, specs: seq<Spec<H>>, ds: seq<Decision<R, H>>, i: nat)
    requires Fits(was, specs, ds) && UniqueKeys(specs) && i < |specs|
    ensures EntryAfter(was, specs[i], ds[i], Fold(was, specs, ds).mounted)
  {
    FoldMountsKey(was, specs, ds, i);
    hide Fold;
  }

  /** A build that failed is tried again: whatever the next list says of the key, flagged or not, its
      entry is not up to date; and neither is one whose hash differs from the one desired. */
  lemma FailedIsTriedAgain<R, H>(was: map<string, Mounted<R, H>>, specs: seq<Spec<H>>, ds: seq<Decision<R, H>>,
                                 i: nat, next: Spec<H>, flagged: bool)
    requires Fits(was, specs, ds) && UniqueKeys(specs) && i < |specs|
    ensures var m := Fold(was, specs, ds).mounted;
            && specs[i].key in m
            && (ds[i].Broken? ==> !UpToDate(Some(m[specs[i].key]), next, flagged))
            && (m[specs[i].key].hash != next.hash ==> !UpToDate(Some(m[specs[i].key]), next, flagged))
  {
    PassMounts(was, specs, ds, i);
    hide Fold;
  }

  /** The runtimes to stop are the ones whose key was built anew. */
  lemma {:induction false} FoldStops<R, H>(was: map<string, Mounted<R, H>>, specs: seq<Spec<H>>,
                                           ds: seq<Decision<R, H>>)
    requires Fits(was, specs, ds)
    ensures var stop := Fold(was, specs, ds).toStop;
            && (forall i | 0 <= i < |specs| && ds[i].Built? && RuntimeOf(was, specs[i].key).Some? ::
                  RuntimeOf(was, specs[i].key).value in stop)
            && (forall r | r in stop :: exists i :: 0 <= i < |specs| && ds[i].Built?
                                                    && RuntimeOf(was, specs[i].key) == Some(r))
    decreases |specs|
  {
    if specs != [] {
      var n := |specs| - 1;
      FoldStops(was, specs[..n], ds[..n]);
      var stop, stop' := Fold(was, specs[..n], ds[..n]).toStop, Fold(was, specs, ds).toStop;
      forall i | 0 <= i < |specs| && ds[i].Built? && RuntimeOf(was, specs[i].key).Some?
        ensures RuntimeOf(was, specs[i].key).value in stop'
      {
        assert i < n ==> specs[..n][i] == specs[i] && ds[..n][i] == ds[i];
      }
      forall r | r in stop'
        ensures exists i :: 0 <= i < |specs| && ds[i].Built? && RuntimeOf(was, specs[i].key) == Some(r)
      {
        if r in stop {
          var i :| 0 <= i < n && ds[..n][i].Built? && RuntimeOf(was, specs[..n][i].key) == Some(r);
          assert ds[i].Built? && RuntimeOf(was, specs[i].key) == Some(r);
        } else {
          assert ds[n].Built? && RuntimeOf(was, specs[n].key) == Some(r);
        }
      }
    }
  }

  // The list of a report that a decision puts its key on.
  function ListFor<R, H>(p: Pass<R, H>, d: Decision<R, H>, had: bool): seq<string> {
    match d
    case Kept => p.kept
    case Broken(_) => p.failed
    case Built(_, _) => if had then p.rebuilt else p.added
  }

  ghost function OnLists<R, H>(p: Pass<R, H>): multiset<string> {
    multiset(p.added) + multiset(p.rebuilt) + multiset(p.failed) + multiset(p.kept)
  }

  lemma ExamineLast<R, H>(was: map<string, Mounted<R, H>>, specs: seq<Spec<H>>, ds: seq<Decision<R, H>>)
    requires specs != [] && Fits(was, specs, ds)
    ensures Fits(was, specs[..|specs| - 1], ds[..|specs| - 1])
    ensures Fold(was, specs, ds)
         == Examine(was, Fold(was, specs[..|specs| - 1], ds[..|specs| - 1]), specs[|specs| - 1], ds[|specs| - 1])
  {
  }

  /** The report's four lists together are the desired keys. */
  lemma {:induction false} FoldReportsAll<R, H>(was: map<string, Mounted<R, H>>, specs: seq<Spec<H>>,
                                                ds: seq<Decision<R, H>>)
    requires Fits(was, specs, ds)
    ensures OnLists(Fold(was, specs, ds)) == multiset(Keys(specs))
    decreases |specs|
  {
    if specs != [] {
      var n := |specs| - 1;
      ExamineLast(was, specs, ds);
      FoldReportsAll(was, specs[..n], ds[..n]);
      ListsGrow(was, Fold(was, specs[..n], ds[..n]), specs[n], ds[n], ds[n], true);
    }
  }

  /** Each key is on the list of its own decision. */
  lemma {:induction false} FoldReports<R, H>(was: map<string, Mounted<R, H>>, specs: seq<Spec<H>>,
                                             ds: seq<Decision<R, H>>, i: nat)
    requires Fits(was, specs, ds) && i < |specs|
    ensures specs[i].key in ListFor(Fold(was, specs, ds), ds[i], RuntimeOf(was, specs[i].key).Some?)
    decreases |specs|
  {
    hide Fold, Examine, ListFor, OnLists;
    var n := |specs| - 1;
    ExamineLast(was, specs, ds);
    if i < n {
      FoldReports(was, specs[..n], ds[..n], i);
      StaysOnList(was, Fold(was, specs[..n], ds[..n]), specs[n], ds[n], ds[i], RuntimeOf(was, specs[i].key).Some?,
                  specs[i].key);
    } else {
      ListsGrow(was, Fold(was, specs[..n], ds[..n]), specs[n], ds[n], ds[n], true);
    }
  }

  lemma StaysOnList<R, H>(was: map<string, Mounted<R, H>>, p: Pass<R, H>, spec: Spec<H>, d: Decision<R, H>,
                          other: Decision<R, H>, had: bool, key: string)
    requires (d.Kept? ==> spec.key in was) && key in ListFor(p, other, had)
    ensures key in ListFor(Examine(was, p, spec, d), other, had)
  {
  }

  lemma ListsGrow<R, H>(was: map<string, Mounted<R, H>>, p: Pass<R, H>, spec: Spec<H>, d: Decision<R, H>,
                        other: Decision<R, H>, had: bool)
    requires d.Kept? ==> spec.key in was
    ensures ListFor(p, other, had) <= ListFor(Examine(was, p, spec, d), other, had)
    ensures OnLists(Examine(was, p, spec, d)) == OnLists(p) + multiset{spec.key}
    ensures spec.key in ListFor(Examine(was, p, spec, d), d, RuntimeOf(was, spec.key).Some?)
  {
  }

  /** With unique keys the four lists are disjoint and free of repetitions. */
  lemma ReportHasNoRepeats<R, H>(was: map<string, Mounted<R, H>>, specs: seq<Spec<H>>, ds: seq<Decision<R, H>>,
                                 k: string)
    requires Fits(was, specs, ds) && UniqueKeys(specs)
    ensures OnLists(Fold(was, specs, ds))[k] <= 1
  {
    FoldReportsAll(was, specs, ds);
    KeysOnce(specs, k);
  }

  lemma {:induction false} KeysOnce<H>(specs: seq<Spec<H>>, k: string)
    requires UniqueKeys(specs)
    ensures multiset(Keys(specs))[k] <= 1
  {
    KeysAre(specs);
    if specs != [] {
      var n := |specs| - 1;
      KeysOnce(specs[..n], k);
      KeysAre(specs[..n]);
      assert specs[n].key !in Keys(specs[..n]);
    }
  }

  ghost function Runtimes<R, H>(m: map<string, Mounted<R, H>>): set<R> {
    set k | k in m && m[k].runtime.Some? :: m[k].runtime.value
  }

  /** Serving entries route to their own runtime and the others to a placeholder. */
  ghost predicate Coherent<R, H>(m: map<string, Mounted<R, H>>) {
    forall k | k in m :: RoutesOwn(m[k])
  }

  predicate RoutesOwn<R(==), H>(e: Mounted<R, H>) {
    match e.runtime
    case Some(r) => e.route == Serving(r)
    case None => e.route.Unavailable?
  }

  /** No runtime serves two keys. */
  ghost predicate Separate<R, H>(m: map<string, Mounted<R, H>>) {
    forall k, l | k in m && l in m && m[k].runtime.Some? && m[k].runtime == m[l].runtime :: k == l
  }

  // Built runtimes are new and different from each other.
  ghost predicate NewRuntimes<R, H>(was: map<string, Mounted<R, H>>, ds: seq<Decision<R, H>>) {
    && (forall i | 0 <= i < |ds| && ds[i].Built? :: ds[i].runtime !in Runtimes(was))
    && (forall i, j | 0 <= i < j < |ds| && ds[i].Built? && ds[j].Built? :: ds[i].runtime != ds[j].runtime)
  }

  /** A runtime mounted after a pass is one just built or the one its own key had before; a key
      that had a runtime still has one. */
  lemma MountedAfter<R, H>(was: map<string, Mounted<R, H>>, specs: seq<Spec<H>>, ds: seq<Decision<R, H>>, k: string)
    requires Fits(was, specs, ds) && UniqueKeys(specs)
    requires k in Fold(was, specs, ds).mounted
    ensures var e := Fold(was, specs, ds).mounted[k];
            exists i :: 0 <= i < |specs| && specs[i].key == k && e == Entry(Current(was, k), specs[i], ds[i])
    ensures RuntimeOf(was, k).Some? ==> Fold(was, specs, ds).mounted[k].runtime.Some?
  {
  }

  lemma MountedAt<R, H>(was: map<string, Mounted<R, H>>, specs: seq<Spec<H>>, ds: seq<Decision<R, H>>, k: string)
    returns (i: nat)
    requires Fits(was, specs, ds) && UniqueKeys(specs) && k in Fold(was, specs, ds).mounted
    ensures i < |specs| && specs[i].key == k
    ensures Fold(was, specs, ds).mounted[k] == Entry(Current(was, k), specs[i], ds[i])
  {
    FoldMounts(was, specs, ds);
    hide Fold;
    i :| 0 <= i < |specs| && specs[i].key == k;
  }

  lemma FoldKeepsApart<R, H>(was: map<string, Mounted<R, H>>, specs: seq<Spec<H>>, ds: seq<Decision<R, H>>)
    requires Fits(was, specs, ds) && UniqueKeys(specs)
    requires Coherent(was) && Separate(was) && NewRuntimes(was, ds)
    ensures Coherent(Fold(was, specs, ds).mounted) && Separate(Fold(was, specs, ds).mounted)
  {
    hide Fold;
    var m := Fold(was, specs, ds).mounted;
    forall k | k in m
      ensures RoutesOwn(m[k])
    {
      var i := MountedAt(was, specs, ds, k);
    }
    forall k, l | k in m && l in m && m[k].runtime.Some? && m[k].runtime == m[l].runtime
      ensures k == l
    {
      var i := MountedAt(was, specs, ds, k);
      var j := MountedAt(was, specs, ds, l);
      RuntimeIsOwnOrNew(was, specs[i], ds[i], m[k]);
      RuntimeIsOwnOrNew(was, specs[j], ds[j], m[l]);
    }
  }

  lemma RuntimeIsOwnOrNew<R, H>(was: map<string, Mounted<R, H>>, spec: Spec<H>, d: Decision<R, H>, e: Mounted<R, H>)
    requires d.Kept? ==> spec.key in was
    requires e == Entry(Current(was, spec.key), spec, d) && e.runtime.Some?
    ensures if d.Built? then e.runtime == Some(d.runtime)
            else e.runtime == RuntimeOf(was, spec.key) && e.runtime.value in Runtimes(was)
  {
  }

  // -- conservation over one pass ----------------------------------------------------

  ghost function BuiltIn<R, H>(ds: seq<Decision<R, H>>): set<R> {
    set i | 0 <= i < |ds| && ds[i].Built? :: ds[i].runtime
  }

  /** Runtimes whose key the pass no longer mounts. */
  ghost function RemovedRuntimes<R, H>(was: map<string, Mounted<R, H>>, now: map<string, Mounted<R, H>>): set<R> {
    set k | k in was && k !in now && was[k].runtime.Some? :: was[k].runtime.value
  }

  function One(b: bool): nat {
    if b then 1 else 0
  }

  lemma {:induction false} StopsOnce<R, H>(was: map<string, Mounted<R, H>>, specs: seq<Spec<H>>,
                                           ds: seq<Decision<R, H>>, r: R)
    requires Fits(was, specs, ds) && UniqueKeys(specs) && Separate(was)
    ensures multiset(Fold(was, specs, ds).toStop)[r] <= 1
    decreases |specs|
  {
    if specs != [] {
      var n := |specs| - 1;
      ExamineLast(was, specs, ds);
      StopsOnce(was, specs[..n], ds[..n], r);
      FoldStops(was, specs[..n], ds[..n]);
      var stop := Fold(was, specs[..n], ds[..n]).toStop;
      if r in stop {
        var i :| 0 <= i < n && RuntimeOf(was, specs[..n][i].key) == Some(r);
        assert specs[i].key != specs[n].key;
      }
    }
  }

  // Where a runtime that some key had goes.
  lemma OldRuntimeGoes<R, H>(was: map<string, Mounted<R, H>>, specs: seq<Spec<H>>, ds: seq<Decision<R, H>>, k: string)
    requires Fits(was, specs, ds) && UniqueKeys(specs)
    requires Separate(was) && NewRuntimes(was, ds)
    requires k in was && was[k].runtime.Some?
    ensures var p := Fold(was, specs, ds);
            var r := was[k].runtime.value;
            One(r in Runtimes(p.mounted)) + multiset(p.toStop)[r] + One(r in RemovedRuntimes(was, p.mounted)) == 1
  {
    hide Fold;
    var p := Fold(was, specs, ds);
    var r := was[k].runtime.value;
    StopsOnce(was, specs, ds, r);
    FoldStops(was, specs, ds);
    FoldMounts(was, specs, ds);
    forall l | l in p.mounted && p.mounted[l].runtime == Some(r)
      ensures l == k && exists i :: 0 <= i < |specs| && specs[i].key == k && !ds[i].Built?
    {
      MountedAfter(was, specs, ds, l);
      var i :| 0 <= i < |specs| && specs[i].key == l && p.mounted[l] == Entry(Current(was, l), specs[i], ds[i]);
      RuntimeIsOwnOrNew(was, specs[i], ds[i], p.mounted[l]);
      assert r in Runtimes(was);
    }
    if k in p.mounted {
      MountedAfter(was, specs, ds, k);
      var i :| 0 <= i < |specs| && specs[i].key == k && p.mounted[k] == Entry(Current(was, k), specs[i], ds[i]);
      RuntimeIsOwnOrNew(was, specs[i], ds[i], p.mounted[k]);
      assert (r in p.toStop) == ds[i].Built?;
      assert ds[i].Built? ==> r !in Runtimes(p.mounted);
      assert !ds[i].Built? ==> p.mounted[k].runtime == Some(r);
    } else {
      assert r in RemovedRuntimes(was, p.mounted);
      assert r !in p.toStop;
    }
  }

  lemma NewRuntimeMounts<R, H>(was: map<string, Mounted<R, H>>, specs: seq<Spec<H>>, ds: seq<Decision<R, H>>, r: R)
    requires Fits(was, specs, ds) && UniqueKeys(specs)
    requires r !in Runtimes(was)
    ensures r in Runtimes(Fold(was, specs, ds).mounted) <==> r in BuiltIn(ds)
  {
    var m := Fold(was, specs, ds).mounted;
    if r in Runtimes(m) {
      var k :| k in m && m[k].runtime == Some(r);
      MountedAfter(was, specs, ds, k);
      hide Fold;
      var i :| 0 <= i < |specs| && specs[i].key == k && m[k] == Entry(Current(was, k), specs[i], ds[i]);
      RuntimeIsOwnOrNew(was, specs[i], ds[i], m[k]);
    }
    if r in BuiltIn(ds) {
      FoldMounts(was, specs, ds);
      hide Fold;
      var i :| 0 <= i < |ds| && ds[i].Built? && ds[i].runtime == r;
      assert m[specs[i].key].runtime == Some(r);
    }
  }

  // Where a runtime that was just built goes.
  lemma NewRuntimeGoes<R, H>(was: map<string, Mounted<R, H>>, specs: seq<Spec<H>>, ds: seq<Decision<R, H>>, r: R)
    requires Fits(was, specs, ds) && UniqueKeys(specs)
    requires r !in Runtimes(was)
    ensures var p := Fold(was, specs, ds);
            && (r in Runtimes(p.mounted) <==> r in BuiltIn(ds))
            && multiset(p.toStop)[r] == 0 && r !in RemovedRuntimes(was, p.mounted)
  {
    NewRuntimeMounts(was, specs, ds, r);
    FoldStops(was, specs, ds);
    hide Fold, BuiltIn;
    assert r !in Fold(was, specs, ds).toStop;
  }

  /** Nothing is lost or doubled: a runtime that was mounted or has just been built is, after the
      pass, mounted, or on the stop list once, or removed; and nothing else is. */
  lemma PassConserves<R, H>(was: map<string, Mounted<R, H>>, specs: seq<Spec<H>>, ds: seq<Decision<R, H>>, r: R)
    requires Fits(was, specs, ds) && UniqueKeys(specs)
    requires Separate(was) && NewRuntimes(was, ds)
    ensures var p := Fold(was, specs, ds);
            One(r in Runtimes(was)) + One(r in BuiltIn(ds))
            == One(r in Runtimes(p.mounted)) + multiset(p.toStop)[r] + One(r in RemovedRuntimes(was, p.mounted))
  {
    if r in Runtimes(was) {
      var k :| k in was && was[k].runtime == Some(r);
      OldRuntimeGoes(was, specs, ds, k);
    } else {
      NewRuntimeGoes(was, specs, ds, r);
    }
  }
}
