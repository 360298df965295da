/** The reload protocol as steps between awaits: a lock, a pending flag, one pass at a time, and
    triggers, edits, failing builds and health probes at any moment. Runtimes are numbered in the
    order they start. Each examined key is a step of its own, which allows every interleaving the
    program has and more. */
module RegistryProtocol {
  import opened Wrappers
  import opened RegistryPass

  type Key = string
  type Entries = map<Key, Mounted<nat, string>>

  /** Where the one holder of the lock is. */
  datatype Phase =
    | Idle
    | Reading
    | Examining(specs: seq<Spec<string>>, ds: seq<Decision<nat, string>>)
    | Starting(specs: seq<Spec<string>>, ds: seq<Decision<nat, string>>, runtime: nat)
    | Stopping(left: multiset<nat>)

  datatype State = State(
    mounted: Entries, routes: map<Key, Route<nat>>, pending: bool, runs: nat, phase: Phase,
    // runtimes started so far are the numbers below `started`
    started: nat, flagged: set<nat>, stops: multiset<nat>,
    // history: calls made; calls made when the current or last run began; calls made when the last
    // completed run began; whether the last run to end raised; runtimes a raising run left behind
    calls: nat, seen: nat, covered: nat, raised: bool, leaked: set<nat>)

  const START := State(map[], map[], false, 0, Idle, 0, {}, multiset{}, 0, 0, 0, false, {})

  datatype Event =
    | Call
    | Desired(specs: seq<Spec<string>>)
    | DesiredRaises
    | Keep
    | BuildFails(error: string)
    | BuildStarts
    | Rehash(hash: string)
    | RehashRaises
    | Swap
    | Stopped(runtime: nat)
    | Finish
    | Probe(runtime: nat)

  // A key of the pass has no decision yet.
  predicate Undecided(s: State) {
    && s.phase.Examining?
    && |s.phase.ds| < |s.phase.specs|
  }

  predicate NextUpToDate(s: State)
    requires Undecided(s)
  {
    var spec := s.phase.specs[|s.phase.ds|];
    var current := Current(s.mounted, spec.key);
    UpToDate(current, spec, current.Some? && current.value.runtime.Some? && current.value.runtime.value in s.flagged)
  }

  // The lock is released with the run unfinished; the pending flag stays as it is.
  function Raise(s: State, lost: set<nat>): State {
    s.(phase := Idle, raised := true, leaked := s.leaked + lost)
  }

  function BeginRun(s: State): State {
    s.(phase := Reading, runs := s.runs + 1, seen := s.calls)
  }

  ghost function Step(s: State, e: Event): State {
    match e
    case Call =>
      var s' := s.(calls := s.calls + 1);
      if s.phase.Idle? then BeginRun(s') else s'.(pending := true)
    case Desired(specs) =>
      if s.phase.Reading? && UniqueKeys(specs) then s.(phase := Examining(specs, [])) else s
    case DesiredRaises => if s.phase.Reading? then Raise(s, {}) else s
    case Keep =>
      if Undecided(s) && NextUpToDate(s) then s.(phase := Examining(s.phase.specs, s.phase.ds + [Kept])) else s
    case BuildFails(error) =>
      if Undecided(s) && !NextUpToDate(s) then
        s.(phase := Examining(s.phase.specs, s.phase.ds + [Broken(error)]))
      else s
    case BuildStarts =>
      if Undecided(s) && !NextUpToDate(s) then
        s.(phase := Starting(s.phase.specs, s.phase.ds, s.started), started := s.started + 1)
      else s
    case Rehash(hash) =>
      if s.phase.Starting? then
        s.(phase := Examining(s.phase.specs, s.phase.ds + [Built(s.phase.runtime, hash)]))
      else s
    case RehashRaises =>
      if s.phase.Starting? then Raise(s, BuiltIn(s.phase.ds) + {s.phase.runtime}) else s
    case Swap =>
      if s.phase.Examining? && |s.phase.ds| == |s.phase.specs| && Fits(s.mounted, s.phase.specs, s.phase.ds) then
        var p := Fold(s.mounted, s.phase.specs, s.phase.ds);
        s.(mounted := p.mounted, routes := map k | k in p.mounted :: p.mounted[k].route,
           phase := Stopping(multiset(p.toStop) + multiset(RemovedRuntimes(s.mounted, p.mounted))))
      else s
    case Stopped(r) =>
      if s.phase.Stopping? && r in s.phase.left then
        s.(phase := Stopping(s.phase.left - multiset{r}), stops := s.stops + multiset{r})
      else s
    case Finish =>
      if s.phase.Stopping? && s.phase.left == multiset{} then
        var s' := s.(covered := s.seen, raised := false, pending := false);
        if s.pending then BeginRun(s') else s'.(phase := Idle)
      else s
    case Probe(r) => s.(flagged := s.flagged + {r})
  }

  ghost function Run(s: State, events: seq<Event>): State {
    if events == [] then s else Step(Run(s, events[..|events| - 1]), events[|events| - 1])
  }

  // -- invariant ---------------------------------------------------------------------

  ghost function FreshIn(p: Phase): set<nat> {
    match p
    case Examining(_, ds) => BuiltIn(ds)
    case Starting(_, ds, r) => BuiltIn(ds) + {r}
    case _ => {}
  }

  ghost function LeftIn(p: Phase): multiset<nat> {
    if p.Stopping? then p.left else multiset{}
  }

  /** In how many of the five places a runtime is: serving, built but not yet swapped in, about to
      be stopped, stopped, left behind by a run that raised. */
  ghost function Places(s: State, r: nat): nat {
    One(r in Runtimes(s.mounted)) + One(r in FreshIn(s.phase)) + LeftIn(s.phase)[r] + s.stops[r]
    + One(r in s.leaked)
  }

  ghost predicate Conserved(s: State) {
    forall r: nat :: Places(s, r) == One(r < s.started)
  }

  ghost predicate PassOk(s: State) {
    && (s.phase.Examining? || s.phase.Starting? ==>
          && UniqueKeys(s.phase.specs) && |s.phase.ds| <= |s.phase.specs|
          && Fits(s.mounted, s.phase.specs[..|s.phase.ds|], s.phase.ds)
          && NewRuntimes(s.mounted, s.phase.ds))
    && (s.phase.Starting? ==>
          && |s.phase.ds| < |s.phase.specs|
          && s.phase.runtime !in Runtimes(s.mounted) && s.phase.runtime !in BuiltIn(s.phase.ds))
  }

  ghost predicate Serving(s: State) {
    && s.routes.Keys == s.mounted.Keys
    && (forall k | k in s.routes :: s.routes[k] == s.mounted[k].route)
    && Coherent(s.mounted) && Separate(s.mounted)
  }

  predicate Triggered(s: State) {
    && s.covered <= s.calls && s.seen <= s.calls
    && (s.phase.Idle? && !s.raised ==> s.covered == s.calls)
    && (!s.phase.Idle? && !s.pending ==> s.seen == s.calls)
    && s.runs + One(s.pending) <= s.calls
  }

  ghost predicate Inv(s: State) {
    Serving(s) && PassOk(s) && Conserved(s) && Triggered(s)
  }

  lemma StartInv()
    ensures Inv(START)
  {
  }

  lemma SwapPlaces(s: State, r: nat)
    requires Inv(s) && s.phase.Examining? && |s.phase.ds| == |s.phase.specs|
    ensures Places(Step(s, Swap), r) == One(r < Step(s, Swap).started)
  {
    assert s.phase.specs[..|s.phase.ds|] == s.phase.specs;
    assert Places(s, r) == One(r < s.started);
    PassConserves(s.mounted, s.phase.specs, s.phase.ds, r);
    hide Fold, Runtimes, BuiltIn, RemovedRuntimes, Serving, Triggered;
  }

  lemma SwapServes(s: State)
    requires Inv(s)
    ensures Serving(Step(s, Swap))
  {
    if s.phase.Examining? && |s.phase.ds| == |s.phase.specs| {
      assert s.phase.specs[..|s.phase.ds|] == s.phase.specs;
      FoldKeepsApart(s.mounted, s.phase.specs, s.phase.ds);
    }
    hide Fold, Conserved, Triggered;
  }

  lemma SwapConserves(s: State)
    requires Inv(s)
    ensures Conserved(Step(s, Swap))
  {
    if s.phase.Examining? && |s.phase.ds| == |s.phase.specs| {
      forall r: nat
        ensures Places(Step(s, Swap), r) == One(r < Step(s, Swap).started)
      {
        SwapPlaces(s, r);
      }
    }
    hide Places, Fold, Serving, Triggered;
  }

  lemma SwapKeepsInv(s: State)
    requires Inv(s)
    ensures Inv(Step(s, Swap))
  {
    SwapServes(s);
    SwapConserves(s);
    hide Serving, Conserved, Fold, Fits;
  }

  lemma BuiltAppend(ds: seq<Decision<nat, string>>, d: Decision<nat, string>)
    ensures BuiltIn(ds + [d]) == BuiltIn(ds) + if d.Built? then {d.runtime} else {}
  {
    var more := ds + [d];
    forall r | r in BuiltIn(ds)
      ensures r in BuiltIn(more)
    {
      var i :| 0 <= i < |ds| && ds[i].Built? && ds[i].runtime == r;
      assert more[i] == ds[i];
    }
    assert d.Built? ==> more[|ds|].runtime in BuiltIn(more);
  }

  lemma DecideKeepsInv(s: State, e: Event)
    requires Inv(s) && (e.Keep? || e.BuildFails? || e.Rehash?)
    ensures Inv(Step(s, e))
  {
    var s' := Step(s, e);
    if s' != s {
      var specs, ds := s.phase.specs, s.phase.ds;
      var d := s'.phase.ds[|ds|];
      assert s'.phase.ds == ds + [d];
      assert specs[..|ds| + 1] == specs[..|ds|] + [specs[|ds|]];
      BuiltAppend(ds, d);
      assert PassOk(s');
      assert FreshIn(s'.phase) == FreshIn(s.phase);
      SamePlaces(s, s');
    }
  }

  lemma SamePlaces(s: State, s': State)
    requires Conserved(s)
    requires s'.started == s.started && s'.mounted == s.mounted && s'.stops == s.stops && s'.leaked == s.leaked
    requires FreshIn(s'.phase) == FreshIn(s.phase) && LeftIn(s'.phase) == LeftIn(s.phase)
    ensures Conserved(s')
  {
    forall r: nat
      ensures Places(s', r) == One(r < s'.started)
    {
      assert Places(s, r) == One(r < s.started);
    }
  }

  lemma BuildKeepsInv(s: State)
    requires Inv(s)
    ensures Inv(Step(s, BuildStarts))
  {
    var s' := Step(s, BuildStarts);
    if s' != s {
      assert Places(s, s.started) == 0;
      forall r: nat
        ensures Places(s', r) == One(r < s'.started)
      {
        assert Places(s, r) == One(r < s.started);
      }
    }
  }

  lemma StopKeepsInv(s: State, r: nat)
    requires Inv(s)
    ensures Inv(Step(s, Stopped(r)))
  {
    var s' := Step(s, Stopped(r));
    forall q: nat
      ensures Places(s', q) == One(q < s'.started)
    {
      assert Places(s, q) == One(q < s.started);
    }
  }

  lemma RaiseKeepsInv(s: State)
    requires Inv(s)
    ensures Inv(Step(s, RehashRaises))
  {
    var s' := Step(s, RehashRaises);
    forall q: nat
      ensures Places(s', q) == One(q < s'.started)
    {
      assert Places(s, q) == One(q < s.started);
    }
  }

  lemma OtherKeepsInv(s: State, e: Event)
    requires Inv(s)
    requires e.Call? || e.Desired? || e.DesiredRaises? || e.Finish? || e.Probe?
    ensures Inv(Step(s, e))
  {
    var s' := Step(s, e);
    assert s'.leaked == s.leaked && FreshIn(s'.phase) == FreshIn(s.phase);
    assert LeftIn(s'.phase) == LeftIn(s.phase);
    SamePlaces(s, s');
  }

  lemma StepKeepsInv(s: State, e: Event)
    requires Inv(s)
    ensures Inv(Step(s, e))
  {
    match e
    case Swap => SwapKeepsInv(s);
    case Keep => DecideKeepsInv(s, e);
    case BuildFails(_) => DecideKeepsInv(s, e);
    case Rehash(_) => DecideKeepsInv(s, e);
    case BuildStarts => BuildKeepsInv(s);
    case RehashRaises => RaiseKeepsInv(s);
    case Stopped(r) => StopKeepsInv(s, r);
    case _ => OtherKeepsInv(s, e);
  }

  lemma {:induction false} RunKeepsInv(events: seq<Event>)
    ensures Inv(Run(START, events))
  {
    if events == [] {
      StartInv();
    } else {
      RunKeepsInv(events[..|events| - 1]);
      StepKeepsInv(Run(START, events[..|events| - 1]), events[|events| - 1]);
    }
  }

  // -- what every run keeps ----------------------------------------------------------

  /** No lost trigger: whenever the lock is free and the last run to end completed, that run began
      its read after every call made so far; and runs never outnumber the calls that asked for
      them, counting the one the pending flag still owes. */
  lemma NoLostTrigger(events: seq<Event>)
    ensures var s := Run(START, events);
            && (s.phase.Idle? && !s.raised ==> s.covered == s.calls)
            && s.runs + One(s.pending) <= s.calls
  {
    RunKeepsInv(events);
  }

  /** `calls` counts the calls, and a run that begins covers all of them. */
  lemma RunBeginsAfterCalls(s: State, e: Event)
    ensures Step(s, e).calls == s.calls + One(e.Call?)
    ensures Step(s, e).runs != s.runs ==> Step(s, e).seen == Step(s, e).calls && Step(s, e).phase.Reading?
    ensures Step(s, e).covered != s.covered ==> e.Finish? && Step(s, e).covered == s.seen
  {
  }

  /** At every await, routes and mounted entries agree key by key, each route serves its own
      entry's runtime, no runtime serves two keys, and no routed runtime has been stopped, is
      about to be stopped or was left behind. */
  lemma ServingIsSafe(events: seq<Event>, k: Key)
    ensures var s := Run(START, events);
            && Serving(s)
            && (k in s.routes && s.routes[k].Serving? ==>
                  var r := s.routes[k].runtime;
                  s.mounted[k].runtime == Some(r) && r < s.started && r !in s.stops && r !in LeftIn(s.phase)
                  && r !in s.leaked)
  {
    RunKeepsInv(events);
    var s := Run(START, events);
    if k in s.routes && s.routes[k].Serving? {
      var r := s.routes[k].runtime;
      assert s.mounted[k].runtime == Some(r);
      assert Places(s, r) == One(r < s.started);
    }
  }

  // -- where every runtime is, between runs ------------------------------------------

  /** Some rehash of the run raised. */
  ghost predicate RehashRaised(events: seq<Event>) {
    events != []
    && var before := events[..|events| - 1];
       RehashRaised(before) || (Run(START, before).phase.Starting? && events[|events| - 1].RehashRaises?)
  }

  lemma LeaksStep(s: State, e: Event)
    ensures s.leaked <= Step(s, e).leaked
    ensures Step(s, e).leaked != s.leaked ==> s.phase.Starting? && e.RehashRaises?
    ensures s.phase.Starting? && e.RehashRaises? ==> Step(s, e).leaked != {}
  {
    if s.phase.Starting? && e.RehashRaises? {
      assert s.phase.runtime in Step(s, e).leaked;
    }
  }

  lemma {:induction false} LeaksIff(events: seq<Event>)
    ensures Run(START, events).leaked != {} <==> RehashRaised(events)
  {
    if events != [] {
      var before := events[..|events| - 1];
      LeaksIff(before);
      LeaksStep(Run(START, before), events[|events| - 1]);
      hide Step;
      if Run(START, before).leaked != {} {
        assert exists r :: r in Run(START, before).leaked;
      }
    }
  }

  predicate MountedOrStoppedOnce(s: State, r: nat) {
    if r in s.stops then s.stops[r] == 1 && (forall k | k in s.mounted :: s.mounted[k].runtime != Some(r))
    else exists k :: k in s.mounted && s.mounted[k].runtime == Some(r)
  }

  /** Between runs: every runtime ever started is mounted and never stopped, or not mounted and stopped
      exactly once, if and only if no rehash has ever raised. */
  lemma StartedIsMountedOrStoppedIff(events: seq<Event>)
    requires Run(START, events).phase.Idle?
    ensures var s := Run(START, events);
            (forall r: nat | r < s.started :: MountedOrStoppedOnce(s, r)) <==> !RehashRaised(events)
  {
    RunKeepsInv(events);
    LeaksIff(events);
    var s := Run(START, events);
    hide Run, Step, RehashRaised;
    forall r: nat
      ensures r in s.leaked ==> r < s.started
      ensures r < s.started ==> (MountedOrStoppedOnce(s, r) <==> r !in s.leaked)
    {
      PlacesBetweenRuns(s, r);
    }
    if s.leaked != {} {
      var r :| r in s.leaked;
    }
  }

  lemma PlacesBetweenRuns(s: State, r: nat)
    requires Inv(s) && s.phase.Idle?
    ensures r in s.leaked ==> r < s.started
    ensures r < s.started ==> (MountedOrStoppedOnce(s, r) <==> r !in s.leaked)
  {
    assert Places(s, r) == One(r < s.started);
    hide Serving, PassOk, Triggered;
  }

  lemma RunSnoc(events: seq<Event>, e: Event)
    ensures Run(START, events + [e]) == Step(Run(START, events), e)
  {
  }

  lemma {:induction false} LeaksStay(before: seq<Event>, later: seq<Event>)
    ensures Run(START, before).leaked <= Run(START, before + later).leaked
  {
    hide Step, Run;
    if later == [] {
      assert before + later == before;
    } else {
      var n := |later| - 1;
      LeaksStay(before, later[..n]);
      LeaksStep(Run(START, before + later[..n]), later[n]);
      RunSnoc(before + later[..n], later[n]);
      assert before + later == before + later[..n] + [later[n]];
    }
  }

  /** The condition is needed: a rehash that raises leaves the runtime it was for started, routed
      nowhere and never stopped, whatever happens later. */
  lemma RaisingRehashLeaks(before: seq<Event>, later: seq<Event>)
    requires Run(START, before).phase.Starting?
    ensures var r := Run(START, before).phase.runtime;
            var s := Run(START, before + [RehashRaises] + later);
            r < s.started && r in s.leaked && r !in Runtimes(s.mounted) && s.stops[r] == 0
  {
    var r := Run(START, before).phase.runtime;
    var s := Run(START, before + [RehashRaises] + later);
    RunSnoc(before, RehashRaises);
    LeaksStay(before + [RehashRaises], later);
    RunKeepsInv(before + [RehashRaises] + later);
    assert Places(s, r) == One(r < s.started);
    hide Run, Step, Inv;
    assert r in s.leaked;
  }

  // -- a run that raises -------------------------------------------------------------

  lemma {:induction false} IdleWaits(s: State, later: seq<Event>)
    requires s.phase.Idle? && Call !in later
    ensures var t := Run(s, later);
            && t.phase.Idle? && t.raised == s.raised && t.pending == s.pending && t.runs == s.runs
            && t.calls == s.calls && t.covered == s.covered
  {
    if later != [] {
      IdleWaits(s, later[..|later| - 1]);
    }
  }

  lemma {:induction false} RunOn(before: seq<Event>, later: seq<Event>)
    ensures Run(START, before + later) == Run(Run(START, before), later)
  {
    hide Step;
    if later == [] {
      assert before + later == before;
    } else {
      RunOn(before, later[..|later| - 1]);
      assert (before + later)[..|before + later| - 1] == before + later[..|later| - 1];
    }
  }

  /** The condition on the last run is needed too: after a run that raises the lock is free, a trigger
      that came during it is still flagged, and no run covers any trigger it did not before, until
      the next call; that one begins a run that covers them all. */
  lemma RaisingRunWaitsForCall(before: seq<Event>, e: Event, later: seq<Event>)
    requires var s := Run(START, before);
             (s.phase.Reading? && e.DesiredRaises?) || (s.phase.Starting? && e.RehashRaises?)
    requires Call !in later
    ensures var s, t := Run(START, before), Run(START, before + [e] + later);
            && t.phase.Idle? && t.raised && t.pending == s.pending && t.runs == s.runs
            && t.calls == s.calls && t.covered == s.covered
            && Step(t, Call).phase.Reading? && Step(t, Call).seen == t.calls + 1
  {
    RunSnoc(before, e);
    RunOn(before + [e], later);
    IdleWaits(Run(START, before + [e]), later);
    hide Run;
  }

  /** So a trigger can wait for ever: two calls, of which the first one's run raises. */
  lemma FlaggedTriggerWaits(later: seq<Event>)
    requires Call !in later
    ensures var t := Run(START, [Call, Call, DesiredRaises] + later);
            t.phase.Idle? && t.pending && t.covered == 0 && t.calls == 2
  {
    var s1, s2 := Step(START, Call), Step(Step(START, Call), Call);
    RunSnoc([], Call);
    RunSnoc([Call], Call);
    assert [] + [Call] == [Call] && [Call] + [Call] == [Call, Call];
    assert [Call, Call] + [DesiredRaises] == [Call, Call, DesiredRaises];
    RaisingRunWaitsForCall([Call, Call], DesiredRaises, later);
  }

  // -- a wanted key keeps serving ----------------------------------------------------

  ghost predicate Wanted(s: State, k: Key) {
    s.phase.Examining? || s.phase.Starting? ==> Lists(s.phase.specs, k)
  }

  lemma WantedKeyKeepsRuntime(s: State, e: Event, k: Key)
    requires Inv(s) && Wanted(s, k) && RuntimeOf(s.mounted, k).Some?
    requires e.Desired? ==> Lists(e.specs, k)
    ensures Wanted(Step(s, e), k) && RuntimeOf(Step(s, e).mounted, k).Some?
  {
    if e.Swap? && Step(s, e) != s {
      var specs, ds := s.phase.specs, s.phase.ds;
      assert specs[..|ds|] == specs;
      FoldMounts(s.mounted, specs, ds);
      var i :| 0 <= i < |specs| && specs[i].key == k;
      assert specs[i].key in Fold(s.mounted, specs, ds).mounted;
      MountedAfter(s.mounted, specs, ds, k);
    }
  }

  /** A key that every desired list contains, once it has a runtime, has one at every later
      moment, whichever builds fail or runs raise. */
  lemma {:induction false} WantedKeyAlwaysServes(before: seq<Event>, later: seq<Event>, k: Key)
    requires Wanted(Run(START, before), k) && RuntimeOf(Run(START, before).mounted, k).Some?
    requires forall e | e in later :: e.Desired? ==> Lists(e.specs, k)
    ensures Wanted(Run(START, before + later), k) && RuntimeOf(Run(START, before + later).mounted, k).Some?
  {
    hide Step, Run;
    if later == [] {
      assert before + later == before;
    } else {
      var n := |later| - 1;
      WantedKeyAlwaysServes(before, later[..n], k);
      RunSnoc(before + later[..n], later[n]);
      assert before + later == before + later[..n] + [later[n]];
      RunKeepsInv(before + later[..n]);
      WantedKeyKeepsRuntime(Run(START, before + later[..n]), later[n], k);
    }
  }

  // -- a run goes through ------------------------------------------------------------

  lemma {:induction false} RunAppend(s: State, a: seq<Event>, b: seq<Event>)
    ensures Run(s, a + b) == Run(Run(s, a), b)
    decreases |b|
  {
    hide Step;
    if b == [] {
      assert a + b == a;
    } else {
      RunAppend(s, a, b[..|b| - 1]);
      assert (a + b)[..|a + b| - 1] == a + b[..|b| - 1];
    }
  }

  // What one key takes.
  function EventsOf(d: Decision<nat, string>): seq<Event> {
    match d
    case Kept => [Keep]
    case Broken(error) => [BuildFails(error)]
    case Built(_, hash) => [BuildStarts, Rehash(hash)]
  }

  function Decisions(ds: seq<Decision<nat, string>>): seq<Event> {
    if ds == [] then [] else Decisions(ds[..|ds| - 1]) + EventsOf(ds[|ds| - 1])
  }

  function Builds(ds: seq<Decision<nat, string>>): nat {
    if ds == [] then 0 else Builds(ds[..|ds| - 1]) + if ds[|ds| - 1].Built? then 1 else 0
  }

  // New runtimes are numbered in the order they start.
  predicate Numbered(ds: seq<Decision<nat, string>>, from: nat) {
    ds == []
    || (Numbered(ds[..|ds| - 1], from)
        && (ds[|ds| - 1].Built? ==> ds[|ds| - 1].runtime == from + Builds(ds[..|ds| - 1])))
  }

  /** A key is kept exactly when it serves, its last build raised nothing, its hash is the one desired
      and no probe has flagged its runtime; which of the other keys fail is open. */
  predicate Possible(s: State, specs: seq<Spec<string>>, ds: seq<Decision<nat, string>>) {
    && |ds| == |specs| && Numbered(ds, s.started)
    && forall i | 0 <= i < |ds| ::
         (ds[i].Kept? <==>
           && specs[i].key in s.mounted && s.mounted[specs[i].key].runtime.Some?
           && s.mounted[specs[i].key].error.None? && s.mounted[specs[i].key].hash == specs[i].hash
           && s.mounted[specs[i].key].runtime.value !in s.flagged)
  }

  lemma OneDecision(s: State, d: Decision<nat, string>)
    requires Undecided(s)
    requires d.Kept? <==> NextUpToDate(s)
    requires d.Built? ==> d.runtime == s.started
    ensures Run(s, EventsOf(d)) == s.(phase := Examining(s.phase.specs, s.phase.ds + [d]),
                                      started := s.started + if d.Built? then 1 else 0)
  {
    match d
    case Kept => RunOne(s, Keep);
    case Broken(error) => RunOne(s, BuildFails(error));
    case Built(_, hash) =>
      RunOne(s, BuildStarts);
      RunOne(Step(s, BuildStarts), Rehash(hash));
      RunAppend(s, [BuildStarts], [Rehash(hash)]);
      assert [BuildStarts] + [Rehash(hash)] == [BuildStarts, Rehash(hash)];
      hide Run;
  }

  // The run once the first `n` keys have their decisions.
  function DecidedTo(s: State, specs: seq<Spec<string>>, ds: seq<Decision<nat, string>>, n: nat): State
    requires n <= |ds|
  {
    s.(phase := Examining(specs, ds[..n]), started := s.started + Builds(ds[..n]))
  }

  lemma NextDecision(s: State, specs: seq<Spec<string>>, ds: seq<Decision<nat, string>>, n: nat)
    requires Possible(s, specs, ds) && n < |ds|
    ensures Run(DecidedTo(s, specs, ds, n), EventsOf(ds[n])) == DecidedTo(s, specs, ds, n + 1)
  {
    NumberedPrefix(ds, n + 1, s.started);
    assert ds[..n + 1][..n] == ds[..n] && ds[..n + 1] == ds[..n] + [ds[n]];
    hide Run, EventsOf;
    OneDecision(DecidedTo(s, specs, ds, n), ds[n]);
  }

  lemma {:induction false} DecisionsRun(s: State, specs: seq<Spec<string>>, ds: seq<Decision<nat, string>>, n: nat)
    requires s.phase == Examining(specs, []) && Possible(s, specs, ds) && n <= |ds|
    ensures Run(s, Decisions(ds[..n])) == DecidedTo(s, specs, ds, n)
    decreases n
  {
    hide Possible, DecidedTo, EventsOf;
    if n == 0 {
      assert ds[..0] == [];
      NothingDecided(s, specs, ds);
    } else {
      hide Run;
      DecisionsRun(s, specs, ds, n - 1);
      assert ds[..n][..n - 1] == ds[..n - 1];
      RunAppend(s, Decisions(ds[..n - 1]), EventsOf(ds[n - 1]));
      NextDecision(s, specs, ds, n - 1);
    }
  }

  lemma NothingDecided(s: State, specs: seq<Spec<string>>, ds: seq<Decision<nat, string>>)
    requires s.phase == Examining(specs, [])
    ensures DecidedTo(s, specs, ds, 0) == s
  {
    assert ds[..0] == [];
  }

  lemma {:induction false} NumberedPrefix(ds: seq<Decision<nat, string>>, n: nat, from: nat)
    requires Numbered(ds, from) && n <= |ds|
    ensures Numbered(ds[..n], from)
    decreases |ds|
  {
    if n < |ds| {
      NumberedPrefix(ds[..|ds| - 1], n, from);
      assert ds[..|ds| - 1][..n] == ds[..n];
    } else {
      assert ds[..n] == ds;
    }
  }

  function Stops(order: seq<nat>): seq<Event> {
    if order == [] then [] else Stops(order[..|order| - 1]) + [Stopped(order[|order| - 1])]
  }

  // After stopping some of what is left.
  function StoppedSome(s: State, some: multiset<nat>): State
    requires s.phase.Stopping?
  {
    s.(phase := Stopping(s.phase.left - some), stops := s.stops + some)
  }

  lemma StopStep(s: State, some: multiset<nat>, r: nat)
    requires s.phase.Stopping? && some + multiset{r} <= s.phase.left
    ensures Step(StoppedSome(s, some), Stopped(r)) == StoppedSome(s, some + multiset{r})
  {
    assert some[r] < s.phase.left[r];
    assert s.phase.left - some - multiset{r} == s.phase.left - (some + multiset{r});
    assert s.stops + some + multiset{r} == s.stops + (some + multiset{r});
  }

  lemma {:induction false} StopsRun(s: State, order: seq<nat>)
    requires s.phase.Stopping? && multiset(order) <= s.phase.left
    ensures Run(s, Stops(order)) == StoppedSome(s, multiset(order))
  {
    if order == [] {
      assert s.phase.left - multiset{} == s.phase.left && s.stops + multiset{} == s.stops;
    } else {
      hide Step, StoppedSome, Run;
      var init, r := order[..|order| - 1], order[|order| - 1];
      assert order == init + [r];
      assert multiset(order) == multiset(init) + multiset{r};
      StopsRun(s, init);
      StopStep(s, multiset(init), r);
      RunAppend(s, Stops(init), [Stopped(r)]);
      RunOne(Run(s, Stops(init)), Stopped(r));
    }
  }

  lemma RunOne(s: State, e: Event)
    ensures Run(s, [e]) == Step(s, e)
  {
    assert [e][..0] == [];
  }

  lemma ListedRuns(s: State, specs: seq<Spec<string>>, ds: seq<Decision<nat, string>>)
    requires s.phase.Reading? && UniqueKeys(specs) && Possible(s, specs, ds)
    ensures Run(s, [Desired(specs)] + Decisions(ds))
         == s.(phase := Examining(specs, ds), started := s.started + Builds(ds))
  {
    RunOne(s, Desired(specs));
    var examining := Step(s, Desired(specs));
    DecisionsRun(examining, specs, ds, |ds|);
    assert ds[..|ds|] == ds;
    RunAppend(s, [Desired(specs)], Decisions(ds));
    hide Run, Decisions, Possible, Numbered, Builds;
  }

  lemma SwapRuns(s: State)
    requires s.phase.Examining? && Fits(s.mounted, s.phase.specs, s.phase.ds)
    ensures var p := Fold(s.mounted, s.phase.specs, s.phase.ds);
            Run(s, [Swap]) == s.(mounted := p.mounted, routes := map k | k in p.mounted :: p.mounted[k].route,
              phase := Stopping(multiset(p.toStop) + multiset(RemovedRuntimes(s.mounted, p.mounted))))
  {
    RunOne(s, Swap);
    hide Run, Fold, RemovedRuntimes;
  }

  lemma EndRuns(s: State, order: seq<nat>)
    requires s.phase == Stopping(multiset(order))
    ensures var t := s.(covered := s.seen, raised := false, pending := false, stops := s.stops + multiset(order));
            Run(s, Stops(order) + [Finish])
            == if s.pending then t.(phase := Reading, runs := s.runs + 1, seen := s.calls) else t.(phase := Idle)
  {
    StopsRun(s, order);
    assert multiset(order) - multiset(order) == multiset{};
    RunAppend(s, Stops(order), [Finish]);
    RunOne(Run(s, Stops(order)), Finish);
    hide Run, Stops;
  }

  /** A run goes through: whatever list is desired and whichever builds fail, its steps mount and route
      what the pass over that list gives, stop in any order what is replaced or removed, cover the
      calls made before it, and end it or, if a call came meanwhile, begin the one that follows. */
  lemma PassRuns(s: State, specs: seq<Spec<string>>, ds: seq<Decision<nat, string>>, order: seq<nat>)
    requires s.phase.Reading? && UniqueKeys(specs) && Possible(s, specs, ds)
    requires var p := Fold(s.mounted, specs, ds);
             multiset(order) == multiset(p.toStop) + multiset(RemovedRuntimes(s.mounted, p.mounted))
    ensures var t := Run(s, [Desired(specs)] + Decisions(ds) + [Swap] + Stops(order) + [Finish]);
            && t.mounted == Fold(s.mounted, specs, ds).mounted
            && t.routes == (map k | k in t.mounted :: t.mounted[k].route)
            && t.stops == s.stops + multiset(order) && t.started == s.started + Builds(ds)
            && t.covered == s.seen && !t.raised && !t.pending
            && (if s.pending then t.phase.Reading? && t.runs == s.runs + 1 && t.seen == s.calls
                else t.phase.Idle? && t.runs == s.runs)
  {
    ListedRuns(s, specs, ds);
    assert Fits(s.mounted, specs, ds);
    hide Run, Step, Fold, Decisions, Stops, Possible, Builds, Fits, UniqueKeys, RemovedRuntimes;
    var listed := [Desired(specs)] + Decisions(ds);
    var decided := Run(s, listed);
    SwapRuns(decided);
    EndRuns(Run(decided, [Swap]), order);
    RunAppend(s, listed, [Swap]);
    RunAppend(s, listed + [Swap], Stops(order) + [Finish]);
    assert listed + [Swap] + (Stops(order) + [Finish]) == listed + [Swap] + Stops(order) + [Finish];
  }

  lemma {:induction false} FlagStays(s: State, later: seq<Event>, r: nat)
    requires r in s.flagged
    ensures r in Run(s, later).flagged
  {
    if later != [] {
      FlagStays(s, later[..|later| - 1], r);
      FlagStep(Run(s, later[..|later| - 1]), later[|later| - 1], r);
    }
  }

  lemma FlagStep(s: State, e: Event, r: nat)
    requires r in s.flagged
    ensures r in Step(s, e).flagged
  {
  }

  /** A runtime that a probe has flagged is never kept again: whenever its key is examined, later in
      this run or in any other, the step that keeps a key does nothing. */
  lemma ProbedIsRebuilt(s: State, r: nat, later: seq<Event>)
    ensures var t := Run(Step(s, Probe(r)), later);
            Undecided(t) && RuntimeOf(t.mounted, t.phase.specs[|t.phase.ds|].key) == Some(r) ==> Step(t, Keep) == t
  {
    FlagStays(Step(s, Probe(r)), later, r);
  }
}
