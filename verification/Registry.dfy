/** The registry object: runtimes with a lifecycle, and one reload pass over the dictionaries it
    updates in place. */
module Registry {
  import opened Wrappers
  import opened RegistryPass
  import opened Sequences

  class ToolsetRuntime {
    var buildError: Option<string>
    var needsRebuild: bool
    var running: bool
    var stops: nat

    constructor ()
      ensures buildError == None && !needsRebuild && !running && stops == 0
    {
      buildError, needsRebuild, running, stops := None, false, false, 0;
    }

    method Start()
      modifies this
      ensures running && stops == old(stops)
      ensures buildError == old(buildError) && needsRebuild == old(needsRebuild)
    {
      running := true;
    }

    method Stop()
      modifies this
      ensures !running && stops == old(stops) + 1
      ensures buildError == old(buildError) && needsRebuild == old(needsRebuild)
    {
      running := false;
      stops := stops + 1;
    }
  }

  /** How building and starting one toolset ends, with the hash of its row afterwards. */
  datatype BuildResult<H> = Fails(error: string) | Succeeds(hash: H)

  class Registry<H(==)> {
    /** The live mapping the dispatcher reads. */
    var routes: map<string, Route<ToolsetRuntime>>
    var mounted: map<string, Mounted<ToolsetRuntime, H>>
    var reloadRuns: nat

    ghost predicate Valid()
      reads `mounted, `routes, Runtimes(mounted)`running, Runtimes(mounted)`stops
    {
      && Coherent(mounted) && Separate(mounted)
      && routes == (map k | k in mounted :: mounted[k].route)
      && forall r | r in Runtimes(mounted) :: r.running && r.stops == 0
    }

    constructor ()
      ensures Valid() && mounted == map[] && reloadRuns == 0
    {
      routes, mounted, reloadRuns := map[], map[], 0;
    }

    // The decision about one key: kept without a build exactly when it serves, noted no error last
    // time, has the hash desired and is not flagged; and otherwise as its build ends.
    ghost predicate Decided(was: map<string, Mounted<ToolsetRuntime, H>>, spec: Spec<H>, result: BuildResult<H>,
                            d: Decision<ToolsetRuntime, H>, flagged: set<ToolsetRuntime>)
    {
      && (d.Kept? <==> spec.key in was && was[spec.key].runtime.Some? && was[spec.key].error.None?
                       && was[spec.key].hash == spec.hash && was[spec.key].runtime.value !in flagged)
      && (!d.Kept? ==> match result
                       case Fails(error) => d == Broken(error)
                       case Succeeds(hash) => d.Built? && d.hash == hash)
    }

    /** One pass: keep what is up to date, build the rest, swap both mappings at once, then stop
        what was replaced or removed. */
    method ReloadOnce(desired: seq<Spec<H>>, results: seq<BuildResult<H>>)
      returns (report: Report, ghost ds: seq<Decision<ToolsetRuntime, H>>)
      requires Valid() && UniqueKeys(desired) && |results| == |desired|
      modifies this, Runtimes(mounted)
      ensures Valid() && reloadRuns == old(reloadRuns) + 1
      ensures Fits(old(mounted), desired, ds)
      ensures var flagged := set r | r in old(Runtimes(mounted)) && old(r.needsRebuild);
              forall i | 0 <= i < |desired| :: Decided(old(mounted), desired[i], results[i], ds[i], flagged)
      ensures forall i | 0 <= i < |ds| && ds[i].Built? :: fresh(ds[i].runtime)
      // the mapping is the one the decisions give, and the report is theirs
      ensures var p := Fold(old(mounted), desired, ds);
              && mounted == p.mounted
              && report.added == p.added && report.rebuilt == p.rebuilt
              && report.failed == p.failed && report.kept == p.kept
      ensures forall i | 0 <= i < |desired| :: EntryAfter(old(mounted), desired[i], ds[i], mounted)
      ensures forall k :: k in report.removed <==> k in old(mounted) && k !in mounted
      // a runtime that is no longer mounted was stopped, once; one that is, never
      ensures forall r | r in old(Runtimes(mounted)) ::
                r.stops == (if r in Runtimes(mounted) then 0 else 1) && r.running == (r in Runtimes(mounted))
    {
      reloadRuns := reloadRuns + 1;
      ghost var flagged := Flagged();
      var p;
      p, ds := BuildAll(desired, results, flagged);
      forall i | 0 <= i < |desired|
        ensures EntryAfter(mounted, desired[i], ds[i], p.mounted)
      {
        PassMounts(mounted, desired, ds, i);
      }
      hide Fold, Decided, Fits, NewRuntimes, Separate, Coherent, Flagged, EntryAfter;
      var removed := SwapAndStop(desired, p, ds);
      report := Report(p.added, p.rebuilt, removed, p.failed, p.kept);
    }

    /** The end of a pass: both mappings change at once, and only then is anything stopped. */
    method SwapAndStop(desired: seq<Spec<H>>, p: Pass<ToolsetRuntime, H>, ghost ds: seq<Decision<ToolsetRuntime, H>>)
      returns (removed: seq<string>)
      requires UniqueKeys(desired) && Fits(mounted, desired, ds) && NewRuntimes(mounted, ds)
      requires Coherent(mounted) && Separate(mounted) && p == Fold(mounted, desired, ds)
      requires forall r | r in Runtimes(mounted) || r in BuiltIn(ds) :: r.running && r.stops == 0
      modifies `routes, `mounted, Runtimes(mounted)
      ensures Valid() && mounted == p.mounted
      ensures forall k :: k in removed <==> k in old(mounted) && k !in mounted
      ensures forall r | r in old(Runtimes(mounted)) ::
                r.stops == (if r in Runtimes(mounted) then 0 else 1) && r.running == (r in Runtimes(mounted))
    {
      hide Fold, Fits, NewRuntimes, Separate, Coherent;
      ghost var was: map<string, Mounted<ToolsetRuntime, H>> := mounted;
      var newMounted := p.mounted;
      var all;
      removed, all := StopList(newMounted, p.toStop);
      assert forall r | r in Runtimes(was) || r in BuiltIn(ds) :: r.running && r.stops == 0;
      hide Runtimes, BuiltIn;
      StopListIsExact(was, desired, ds, removed, all);
      FoldKeepsApart(was, desired, ds);
      ghost var serving := Runtimes(newMounted);
      assert forall r | r in serving :: r !in all;
      routes := map k | k in newMounted :: newMounted[k].route;
      mounted := newMounted;
      StopAll(all);
      assert Runtimes(mounted) == serving;
    }

    /** What the removed keys add to the runtimes to stop. */
    method StopList(newMounted: map<string, Mounted<ToolsetRuntime, H>>, toStop: seq<ToolsetRuntime>)
      returns (removed: seq<string>, all: seq<ToolsetRuntime>)
      ensures Distinct(removed)
      ensures forall k :: k in removed <==> k in mounted && k !in newMounted
      ensures all == toStop + StoppedFor(mounted, removed)
    {
      removed := Removed(newMounted);
      all := toStop;
      for i := 0 to |removed|
        invariant all == toStop + StoppedFor(mounted, removed[..i])
      {
        assert removed[..i + 1][..i] == removed[..i];
        if mounted[removed[i]].runtime.Some? {
          all := all + [mounted[removed[i]].runtime.value];
        }
      }
      assert removed[..|removed|] == removed;
    }

    /** The loop over the desired toolsets. Nothing that is being served changes, but for the error
        noted on a runtime whose replacement could not be built. */
    method BuildAll(desired: seq<Spec<H>>, results: seq<BuildResult<H>>, ghost flagged: set<ToolsetRuntime>)
      returns (p: Pass<ToolsetRuntime, H>, ghost ds: seq<Decision<ToolsetRuntime, H>>)
      requires |results| == |desired| && flagged == Flagged()
      modifies Runtimes(mounted)`buildError
      ensures Fits(mounted, desired, ds) && NewRuntimes(mounted, ds)
      ensures p == Fold(mounted, desired, ds)
      ensures forall i | 0 <= i < |desired| :: Decided(mounted, desired[i], results[i], ds[i], flagged)
      ensures forall i | 0 <= i < |ds| && ds[i].Built? ::
                fresh(ds[i].runtime) && ds[i].runtime.running && ds[i].runtime.stops == 0
    {
      hide Fold, Decided, Examine, Fits, Runtimes, Flagged;
      p, ds := Empty(), [];
      FoldNone(mounted, desired[..0]);
      for i := 0 to |desired|
        invariant |ds| == i && Fits(mounted, desired[..i], ds) && NewRuntimes(mounted, ds)
        invariant p == Fold(mounted, desired[..i], ds)
        invariant flagged == Flagged()
        invariant forall j | 0 <= j < i :: Decided(mounted, desired[j], results[j], ds[j], flagged)
        invariant forall j | 0 <= j < i && ds[j].Built? ::
                    fresh(ds[j].runtime) && ds[j].runtime.running && ds[j].runtime.stops == 0
      {
        ghost var d;
        p, d := ExamineKey(p, desired[i], results[i], flagged);
        FoldNext(mounted, desired, ds, d);
        assert forall j | 0 <= j < i && ds[j].Built? && d.Built? :: ds[j].runtime != d.runtime;
        ds := ds + [d];
      }
      assert desired[..|desired|] == desired;
    }

    /** One turn of the loop, on the dictionary and the lists it fills. */
    method ExamineKey(p: Pass<ToolsetRuntime, H>, spec: Spec<H>, result: BuildResult<H>,
                      ghost flagged: set<ToolsetRuntime>)
      returns (p': Pass<ToolsetRuntime, H>, ghost d: Decision<ToolsetRuntime, H>)
      requires flagged == Flagged()
      modifies Runtimes(mounted)`buildError
      ensures d.Kept? ==> spec.key in mounted
      ensures p' == Examine(mounted, p, spec, d)
      ensures Decided(mounted, spec, result, d, flagged) && Flagged() == flagged
      ensures d.Built? ==> d.runtime !in Runtimes(mounted)
      ensures d.Built? ==> fresh(d.runtime) && d.runtime.running && d.runtime.stops == 0
    {
      var current := Current(mounted, spec.key);
      var key := spec.key;
      assert current.Some? && current.value.runtime.Some? ==> current.value.runtime.value in Runtimes(mounted);
      if current.Some? && current.value.runtime.Some? && current.value.error.None?
         && !current.value.runtime.value.needsRebuild && current.value.hash == spec.hash {
        d := Kept;
        p' := p.(mounted := p.mounted[key := current.value], kept := p.kept + [key]);
      } else {
        var entry, built;
        entry, built, d := BuildRuntime(current, spec, result);
        p' := p.(mounted := p.mounted[key := entry]);
        if !built {
          p' := p'.(failed := p.failed + [key]);
        } else if current.Some? && current.value.runtime.Some? {
          p' := p'.(toStop := p.toStop + [current.value.runtime.value], rebuilt := p.rebuilt + [key]);
        } else {
          p' := p'.(added := p.added + [key]);
        }
      }
    }

    ghost function Flagged(): set<ToolsetRuntime>
      reads `mounted, Runtimes(mounted)`needsRebuild
    {
      set r | r in Runtimes(mounted) && r.needsRebuild
    }

    /** Build and start one toolset. A failure is noted on the runtime that keeps serving, or gets
        a placeholder. */
    method BuildRuntime(current: Option<Mounted<ToolsetRuntime, H>>, spec: Spec<H>, result: BuildResult<H>)
      returns (entry: Mounted<ToolsetRuntime, H>, built: bool, ghost d: Decision<ToolsetRuntime, H>)
      modifies (if current.Some? && current.value.runtime.Some? then {current.value.runtime.value} else {})`buildError
      ensures !d.Kept? && entry == Entry(current, spec, d) && built == d.Built? == result.Succeeds?
      ensures result.Fails? ==> entry.error == Some(result.error)
      ensures result.Fails? && current.Some? && current.value.runtime.Some? ==>
                && entry.runtime == current.value.runtime && entry.route == current.value.route
                && entry.hash == current.value.hash && entry.title == current.value.title
      ensures d.Built? ==> fresh(d.runtime) && d.runtime.running && d.runtime.stops == 0 && d.hash == result.hash
      ensures d.Broken? ==> d.error == result.error
                            && (current.Some? && current.value.runtime.Some? ==>
                                  current.value.runtime.value.buildError == Some(result.error))
    {
      match result
      case Fails(error) =>
        d, built := Broken(error), false;
        if current.Some? && current.value.runtime.Some? {
          current.value.runtime.value.buildError := Some(error);
          entry := current.value.(error := Some(error));
        } else {
          entry := Mounted(spec.title, spec.hash, None, Unavailable(error), Some(error));
        }
      case Succeeds(hash) =>
        var runtime := new ToolsetRuntime();
        runtime.Start();
        d, built := Built(runtime, hash), true;
        entry := Mounted(spec.title, hash, Some(runtime), Serving(runtime), None);
    }

    method StopAll(toStop: seq<ToolsetRuntime>)
      requires Distinct(toStop)
      modifies toStop
      ensures forall r | r in toStop :: !r.running && r.stops == old(r.stops) + 1
    {
      for i := 0 to |toStop|
        invariant forall j | 0 <= j < i :: !toStop[j].running && toStop[j].stops == old(toStop[j].stops) + 1
        invariant forall j | i <= j < |toStop| :: toStop[j].stops == old(toStop[j].stops)
      {
        toStop[i].Stop();
      }
    }

    /** The mounted keys a pass drops. */
    method Removed(newMounted: map<string, Mounted<ToolsetRuntime, H>>) returns (removed: seq<string>)
      ensures Distinct(removed)
      ensures forall k :: k in removed <==> k in mounted && k !in newMounted
    {
      removed := [];
      var left := mounted.Keys;
      while left != {}
        invariant left <= mounted.Keys && Distinct(removed)
        invariant forall k :: k in removed <==> k in mounted.Keys - left && k !in newMounted
        decreases left
      {
        var k :| k in left;
        left := left - {k};
        if k !in newMounted {
          removed := removed + [k];
        }
      }
    }
  }

  lemma FoldNone<R, H>(was: map<string, Mounted<R, H>>, specs: seq<Spec<H>>)
    requires specs == []
    ensures Fits(was, specs, []) && Fold(was, specs, []) == Empty<R, H>()
  {
  }

  lemma FoldNext<R, H>(was: map<string, Mounted<R, H>>, specs: seq<Spec<H>>, ds: seq<Decision<R, H>>, d: Decision<R, H>)
    requires |ds| < |specs| && Fits(was, specs[..|ds|], ds)
    requires d.Kept? ==> specs[|ds|].key in was
    ensures Fits(was, specs[..|ds| + 1], ds + [d])
    ensures Fold(was, specs[..|ds| + 1], ds + [d]) == Examine(was, Fold(was, specs[..|ds|], ds), specs[|ds|], d)
  {
    assert specs[..|ds| + 1][..|ds|] == specs[..|ds|] && (ds + [d])[..|ds|] == ds;
  }

  function StoppedFor<R, H>(was: map<string, Mounted<R, H>>, removed: seq<string>): seq<R>
    requires forall k | k in removed :: k in was
  {
    if removed == [] then []
    else
      var n := |removed| - 1;
      StoppedFor(was, removed[..n])
      + if was[removed[n]].runtime.Some? then [was[removed[n]].runtime.value] else []
  }

  lemma {:induction false} StoppedForIs<R, H>(was: map<string, Mounted<R, H>>, removed: seq<string>)
    requires forall k | k in removed :: k in was
    requires Separate(was) && Distinct(removed)
    ensures forall r :: r in StoppedFor(was, removed) <==> exists k :: k in removed && was[k].runtime == Some(r)
    ensures Distinct(StoppedFor(was, removed))
  {
    if removed != [] {
      var n := |removed| - 1;
      StoppedForIs(was, removed[..n]);
      assert removed == removed[..n] + [removed[n]];
      assert removed[n] !in removed[..n];
    }
  }

  /** The list to stop holds each runtime once, and exactly the old runtimes that are not mounted
      any more. */
  lemma StopListIsExact<R, H>(was: map<string, Mounted<R, H>>, specs: seq<Spec<H>>, ds: seq<Decision<R, H>>,
                              removed: seq<string>, toStop: seq<R>)
    requires Fits(was, specs, ds) && UniqueKeys(specs)
    requires Coherent(was) && Separate(was) && NewRuntimes(was, ds) && Distinct(removed)
    requires forall k :: k in removed <==> k in was && k !in Fold(was, specs, ds).mounted
    requires toStop == Fold(was, specs, ds).toStop + StoppedFor(was, removed)
    ensures Distinct(toStop)
    ensures forall r :: r in toStop <==> r in Runtimes(was) && r !in Runtimes(Fold(was, specs, ds).mounted)
    ensures forall r | r in Runtimes(Fold(was, specs, ds).mounted) :: r in Runtimes(was) || r in BuiltIn(ds)
  {
    var p := Fold(was, specs, ds);
    StoppedForIs(was, removed);
    forall r
      ensures r in StoppedFor(was, removed) <==> r in RemovedRuntimes(was, p.mounted)
    {
    }
    forall r {
      WhereRuntimesGo(was, specs, ds, r);
    }
    hide Fold, Runtimes, RemovedRuntimes, StoppedFor, BuiltIn, Separate, Coherent, Fits, NewRuntimes;
    OnceIsDistinct(p.toStop);
    DistinctAppend(p.toStop, StoppedFor(was, removed));
  }

  lemma WhereRuntimesGo<R, H>(was: map<string, Mounted<R, H>>, specs: seq<Spec<H>>, ds: seq<Decision<R, H>>, r: R)
    requires Fits(was, specs, ds) && UniqueKeys(specs)
    requires Separate(was) && NewRuntimes(was, ds)
    ensures var p := Fold(was, specs, ds);
            && multiset(p.toStop)[r] <= 1
            && (r in p.toStop ==> r !in RemovedRuntimes(was, p.mounted))
            && (r in p.toStop || r in RemovedRuntimes(was, p.mounted)
                <==> r in Runtimes(was) && r !in Runtimes(p.mounted))
            && (r in Runtimes(p.mounted) ==> r in Runtimes(was) || r in BuiltIn(ds))
  {
    PassConserves(was, specs, ds, r);
    if r in Runtimes(was) {
      var k :| k in was && was[k].runtime == Some(r);
      OldRuntimeGoes(was, specs, ds, k);
    } else {
      NewRuntimeGoes(was, specs, ds, r);
    }
  }
}
