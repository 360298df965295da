/** Handing out access tokens for one upstream credential to any number of concurrent callers.
    Locks, cache entries and stored values are kept per credential, so one credential is the
    general case. Each step runs to the caller's next await. */
module TokenRefresh {
  import opened Wrappers
  import opened Toolsets

  const REFRESH_MARGIN_SECONDS := 60
  const DEFAULT_EXPIRES_IN := 3600

  datatype Status = Fine | Unconnected | ReconnectRequired | ScopesChanged

  /** The stored credential: secret values, status, and the two timestamps. */
  datatype Stored = Stored(
    token: string, expiresAt: int, refreshToken: string, status: Status,
    updatedAt: int, tokenUpdatedAt: Option<int>)

  datatype Cached = Cached(token: string, expiresAt: int)

  /** Where a caller of `access_token` is. All but `Waiting` hold the lock. */
  datatype Place =
    | Waiting
    | Reading
    | Checking(values: Stored)
    | Requesting(values: Stored)
    | Saving(values: Stored, token: string, expiresAt: int, refreshToken: string)
    | Noting(token: string, expiresAt: int)
    | Rejecting

  /** What the token endpoint answers. `Unusable` covers every other failure. */
  datatype Reply = Tokens(token: string, expiresIn: int, refreshToken: string) | InvalidGrant | Unusable

  /** A token handed out: from the cache or the store, or by a refresh, and when it was checked. */
  datatype Handed = Handed(caller: nat, token: string, expiresAt: int, at: int, refreshed: bool)

  datatype State = State(
    now: int, cache: Option<Cached>, stored: Stored, lock: Option<nat>, callers: map<nat, Place>,
    requests: nat, refreshes: nat, handed: seq<Handed>)

  datatype Event =
    | Arrive(c: nat)
    | Acquire(c: nat)
    | Read(c: nat)
    | Check(c: nat)
    | Answer(c: nat, reply: Reply)
    | Save(c: nat)
    | Note(c: nat)
    | Reject(c: nat)
    | Forget
    | Tick(seconds: nat)
    | Edit(stored: Stored)

  predicate Lasts(expiresAt: int, now: int) {
    expiresAt - REFRESH_MARGIN_SECONDS > now
  }

  predicate CacheServes(s: State) {
    s.cache.Some? && Lasts(s.cache.value.expiresAt, s.now)
  }

  // `token and expires_at and ...`: an empty token or a zero stamp does not serve.
  predicate StoreServes(v: Stored, now: int) {
    v.token != "" && v.expiresAt != 0 && Lasts(v.expiresAt, now)
  }

  predicate Refused(v: Stored) {
    v.status in {ReconnectRequired, ScopesChanged, Unconnected}
  }

  function Hand(s: State, c: nat, token: string, expiresAt: int, refreshed: bool): State {
    s.(handed := s.handed + [Handed(c, token, expiresAt, s.now, refreshed)])
  }

  // The caller returns or raises, and the lock is free.
  function Leave(s: State, c: nat): State {
    s.(lock := None, callers := s.callers - {c})
  }

  predicate At(s: State, c: nat) {
    c in s.callers && s.lock == Some(c)
  }

  function Step(s: State, e: Event): State {
    match e
    case Arrive(c) =>
      if c in s.callers then s
      else if CacheServes(s) then Hand(s, c, s.cache.value.token, s.cache.value.expiresAt, false)
      else s.(callers := s.callers[c := Waiting])
    case Acquire(c) =>
      if !(s.lock.None? && c in s.callers && s.callers[c].Waiting?) then s
      else if CacheServes(s) then
        Leave(Hand(s, c, s.cache.value.token, s.cache.value.expiresAt, false), c)
      else s.(lock := Some(c), callers := s.callers[c := Reading])
    case Read(c) =>
      if !(At(s, c) && s.callers[c].Reading?) then s
      else if StoreServes(s.stored, s.now) then
        Leave(Hand(s.(cache := Some(Cached(s.stored.token, s.stored.expiresAt))), c,
                   s.stored.token, s.stored.expiresAt, false), c)
      else s.(callers := s.callers[c := Checking(s.stored)])
    case Check(c) =>
      if !(At(s, c) && s.callers[c].Checking?) then s
      else if Refused(s.stored) then Leave(s, c)
      else if s.callers[c].values.refreshToken == "" then
        Leave(s.(stored := s.stored.(status := ReconnectRequired, updatedAt := s.now)), c)
      else s.(requests := s.requests + 1, callers := s.callers[c := Requesting(s.callers[c].values)])
    case Answer(c, reply) =>
      if !(At(s, c) && s.callers[c].Requesting?) then s
      else
        var v := s.callers[c].values;
        (match reply
         case Tokens(token, expiresIn, refreshToken) =>
           var expiresAt := s.now + if expiresIn == 0 then DEFAULT_EXPIRES_IN else expiresIn;
           s.(refreshes := s.refreshes + 1,
              callers := s.callers[c := Saving(v, token, expiresAt,
                                               if refreshToken == "" then v.refreshToken else refreshToken)])
         case InvalidGrant => s.(cache := None, callers := s.callers[c := Rejecting])
         case Unusable => Leave(s, c))
    case Save(c) =>
      if !(At(s, c) && s.callers[c].Saving?) then s
      else
        var p := s.callers[c];
        s.(stored := s.stored.(token := p.token, expiresAt := p.expiresAt, refreshToken := p.refreshToken,
                               tokenUpdatedAt := Some(s.now)),
           callers := s.callers[c := Noting(p.token, p.expiresAt)])
    case Note(c) =>
      if !(At(s, c) && s.callers[c].Noting?) then s
      else
        var p := s.callers[c];
        Leave(Hand(s.(stored := s.stored.(updatedAt := s.now), cache := Some(Cached(p.token, p.expiresAt))), c,
                   p.token, p.expiresAt, true), c)
    case Reject(c) =>
      if !(At(s, c) && s.callers[c].Rejecting?) then s
      else Leave(s.(stored := s.stored.(status := ReconnectRequired, updatedAt := s.now)), c)
    case Forget => s.(cache := None)
    case Tick(seconds) => s.(now := s.now + seconds)
    case Edit(stored) => s.(stored := stored)
  }

  function Run(s: State, events: seq<Event>): State {
    if events == [] then s else Step(Run(s, events[..|events| - 1]), events[|events| - 1])
  }

  // -- one refresh at a time ---------------------------------------------------------

  /** Only the holder of the lock is past the queue, only a refresh token is exchanged, and what came
      from the cache or the store had more than the margin left when it was checked. */
  ghost predicate Inv(s: State) {
    && (forall c | c in s.callers :: !s.callers[c].Waiting? <==> s.lock == Some(c))
    && (s.lock.Some? ==> s.lock.value in s.callers)
    && (forall c | c in s.callers && s.callers[c].Requesting? :: s.callers[c].values.refreshToken != "")
    && (forall c | c in s.callers && s.callers[c].Saving? :: s.callers[c].refreshToken != "")
    && (forall i | 0 <= i < |s.handed| && !s.handed[i].refreshed ::
          s.handed[i].expiresAt - s.handed[i].at > REFRESH_MARGIN_SECONDS)
  }

  lemma StepKeepsInv(s: State, e: Event)
    requires Inv(s)
    ensures Inv(Step(s, e))
    ensures Step(s, e).now >= s.now
  {
  }

  lemma {:induction false} RunKeepsInv(s: State, events: seq<Event>)
    requires Inv(s)
    ensures Inv(Run(s, events))
  {
    if events != [] {
      RunKeepsInv(s, events[..|events| - 1]);
      StepKeepsInv(Run(s, events[..|events| - 1]), events[|events| - 1]);
    }
  }

  /** From a state with no caller, whatever arrives, expires or is edited: at most one caller is
      inside a refresh, and every token handed out from the cache or the store outlived the margin
      at its check. */
  lemma OneRefreshAtATime(s: State, events: seq<Event>, c: nat, d: nat)
    requires s.callers == map[] && s.lock == None && s.handed == []
    ensures var t := Run(s, events);
            && (c in t.callers && d in t.callers && !t.callers[c].Waiting? && !t.callers[d].Waiting? ==> c == d)
            && (forall i | 0 <= i < |t.handed| && !t.handed[i].refreshed ::
                  t.handed[i].expiresAt - t.handed[i].at > 60)
  {
    RunKeepsInv(s, events);
  }

  // -- coalescing --------------------------------------------------------------------

  // `forgets` says whether the cache may be dropped meanwhile.
  predicate Allowed(e: Event, forgets: bool) {
    !e.Edit? && (e.Forget? ==> forgets)
  }

  // A continuation that edits nothing and ends by the deadline.
  ghost predicate Continues(s: State, events: seq<Event>, deadline: int, forgets: bool) {
    (forall e | e in events :: Allowed(e, forgets)) && Run(s, events).now <= deadline
  }

  /** Whoever comes or waits, in any interleaving up to the deadline, nobody sends a request. */
  ghost predicate Quiet(s: State, deadline: int, forgets: bool) {
    forall events | Continues(s, events, deadline, forgets) :: Run(s, events).requests == s.requests
  }

  // A caller that finds this stored gives up without a request.
  predicate Dead(v: Stored) {
    Refused(v) || v.refreshToken == ""
  }

  predicate CacheLasts(s: State, deadline: int) {
    s.cache.Some? && Lasts(s.cache.value.expiresAt, deadline)
  }

  /** No request can start any more, read off the state: off the cache, unless it may be dropped; off
      the stored credential; and off where the holder of the lock is. */
  predicate Settled(s: State, deadline: int, forgets: bool) {
    var stays := StoreServes(s.stored, deadline) || Dead(s.stored);
    if s.lock.None? || s.lock.value !in s.callers then stays || (!forgets && CacheLasts(s, deadline))
    else match s.callers[s.lock.value]
      case Waiting => false
      case Reading => stays
      case Checking(values) => Refused(s.stored) || values.refreshToken == ""
      case Requesting(_) => Refused(s.stored)
      case Saving(_, token, expiresAt, _) =>
        Refused(s.stored) || (Lasts(expiresAt, deadline) && (!forgets || (token != "" && expiresAt != 0)))
      case Noting(_, expiresAt) => stays || (!forgets && Lasts(expiresAt, deadline))
      case Rejecting => true
  }

  lemma SettledStays(s: State, e: Event, deadline: int, forgets: bool)
    requires Inv(s) && Settled(s, deadline, forgets) && s.now <= deadline && Allowed(e, forgets)
    ensures Settled(Step(s, e), deadline, forgets)
    ensures Step(s, e).requests == s.requests
  {
  }

  lemma {:induction false} SettledIsQuiet(s: State, events: seq<Event>, deadline: int, forgets: bool)
    requires Inv(s) && Settled(s, deadline, forgets) && Continues(s, events, deadline, forgets)
    ensures Settled(Run(s, events), deadline, forgets) && Run(s, events).requests == s.requests
  {
    if events != [] {
      var before := events[..|events| - 1];
      RunKeepsInv(s, before);
      StepKeepsInv(Run(s, before), events[|events| - 1]);
      assert forall e | e in before :: e in events;
      SettledIsQuiet(s, before, deadline, forgets);
      SettledStays(Run(s, before), events[|events| - 1], deadline, forgets);
    }
  }

  // Steps one after the other are a continuation.
  lemma {:induction false} RunAppend(s: State, a: seq<Event>, b: seq<Event>)
    ensures Run(s, a + b) == Run(Run(s, a), b)
  {
    if b == [] {
      assert a + b == a;
    } else {
      assert (a + b)[..|a + b| - 1] == a + b[..|b| - 1];
      RunAppend(s, a, b[..|b| - 1]);
    }
  }

  // The time passes, and a new caller comes and goes as far as its check.
  function Visit(w: nat, seconds: nat): seq<Event> {
    [Tick(seconds), Arrive(w), Acquire(w), Read(w), Check(w)]
  }

  function Newcomer(s: State, w: nat, deadline: int, forgets: bool): seq<Event>
    requires s.now <= deadline
  {
    (if forgets then [Forget] else []) + Visit(w, deadline - s.now)
  }

  lemma VisitAsks(s: State, w: nat, deadline: int)
    requires s.now <= deadline && s.lock.None? && w !in s.callers
    requires !StoreServes(s.stored, deadline) && !Dead(s.stored) && !CacheLasts(s, deadline)
    ensures var t := Run(s, Visit(w, deadline - s.now)); t.now == deadline && t.requests == s.requests + 1
  {
    var s2 := Step(s, Tick(deadline - s.now));
    var s3 := Step(s2, Arrive(w));
    assert !CacheServes(s2) && s3.callers[w].Waiting?;
    var s4 := Step(s3, Acquire(w));
    assert At(s4, w) && s4.callers[w].Reading?;
    var s5 := Step(s4, Read(w));
    assert At(s5, w) && s5.callers[w] == Checking(s.stored) && Refused(s5.stored) == Refused(s.stored);
    RunFive(s, Visit(w, deadline - s.now));
    hide Run;
  }

  lemma NewcomerAsks(s: State, w: nat, deadline: int, forgets: bool)
    requires s.now <= deadline && s.lock.None? && w !in s.callers
    requires !StoreServes(s.stored, deadline) && !Dead(s.stored) && (forgets || !CacheLasts(s, deadline))
    ensures Continues(s, Newcomer(s, w, deadline, forgets), deadline, forgets)
    ensures Run(s, Newcomer(s, w, deadline, forgets)).requests == s.requests + 1
  {
    hide Run;
    var visit := Visit(w, deadline - s.now);
    assert forall e | e in visit :: Allowed(e, forgets);
    hide Visit;
    if forgets {
      RunOne(s, Forget);
      VisitAsks(Step(s, Forget), w, deadline);
      hide Step;
      RunAppend(s, [Forget], visit);
    } else {
      VisitAsks(s, w, deadline);
      assert [] + visit == visit;
    }
  }

  lemma RunOne(s: State, e: Event)
    ensures Run(s, [e]) == Step(s, e)
  {
    assert [e][..0] == [];
  }

  lemma RunFive(s: State, es: seq<Event>)
    requires |es| == 5
    ensures Run(s, es) == Step(Step(Step(Step(Step(s, es[0]), es[1]), es[2]), es[3]), es[4])
  {
    hide Step;
    assert es[..4][..3] == es[..3] && es[..3][..2] == es[..2] && es[..2][..1] == es[..1] && es[..1][..0] == [];
    assert Run(s, es[..1]) == Step(s, es[0]);
    assert Run(s, es[..2]) == Step(Run(s, es[..1]), es[1]);
    assert Run(s, es[..3]) == Step(Run(s, es[..2]), es[2]);
    assert Run(s, es[..4]) == Step(Run(s, es[..3]), es[3]);
  }

  // How the holder of the lock gets out: at worst with a token that lasts one second.
  function WayOut(c: nat, p: Place): seq<Event> {
    match p
    case Requesting(_) => [Answer(c, Tokens("", 1, "")), Save(c), Note(c)]
    case Saving(_, _, _, _) => [Save(c), Note(c)]
    case Noting(_, _) => [Note(c)]
    case _ => []
  }

  // The holder is out, no request was sent, and the next caller sends one.
  ghost predicate Unsettled(s: State, out: seq<Event>, c: nat, deadline: int, forgets: bool) {
    var t := Run(s, out);
    && (forall e | e in out :: Allowed(e, forgets))
    && t.lock.None? && t.now == s.now && t.requests == s.requests && t.callers == s.callers - {c}
    && !StoreServes(t.stored, deadline) && !Dead(t.stored) && (forgets || !CacheLasts(t, deadline))
  }

  lemma NotingUnsettles(s: State, c: nat, deadline: int, forgets: bool)
    requires Inv(s) && At(s, c) && s.callers[c].Noting? && !Settled(s, deadline, forgets)
    ensures Unsettled(s, [Note(c)], c, deadline, forgets)
  {
    RunOne(s, Note(c));
    hide Run;
  }

  lemma SavingUnsettles(s: State, c: nat, deadline: int, forgets: bool)
    requires Inv(s) && At(s, c) && s.callers[c].Saving? && !Settled(s, deadline, forgets)
    ensures Unsettled(s, [Save(c), Note(c)], c, deadline, forgets)
  {
    var s1 := Step(s, Save(c));
    assert At(s1, c) && s1.callers[c].Noting? && !Settled(s1, deadline, forgets);
    StepKeepsInv(s, Save(c));
    NotingUnsettles(s1, c, deadline, forgets);
    assert s1.callers - {c} == s.callers - {c};
    RunOne(s, Save(c));
    RunAppend(s, [Save(c)], [Note(c)]);
    assert [Save(c)] + [Note(c)] == [Save(c), Note(c)];
    hide Run, Step, Inv;
  }

  lemma RequestingUnsettles(s: State, c: nat, deadline: int, forgets: bool)
    requires Inv(s) && At(s, c) && s.callers[c].Requesting? && s.now <= deadline && !Settled(s, deadline, forgets)
    ensures Unsettled(s, WayOut(c, s.callers[c]), c, deadline, forgets)
  {
    var answer := Answer(c, Tokens("", 1, ""));
    var s1 := Step(s, answer);
    assert At(s1, c) && s1.callers[c].Saving? && !Settled(s1, deadline, forgets);
    StepKeepsInv(s, answer);
    SavingUnsettles(s1, c, deadline, forgets);
    assert s1.callers - {c} == s.callers - {c};
    RunOne(s, answer);
    RunAppend(s, [answer], [Save(c), Note(c)]);
    assert [answer] + [Save(c), Note(c)] == WayOut(c, s.callers[c]);
    hide Run, Step, Inv;
  }

  lemma {:induction false} AboveAll(used: set<nat>) returns (w: nat)
    ensures forall v | v in used :: v < w
  {
    if used == {} {
      w := 0;
    } else {
      var v :| v in used;
      var rest := AboveAll(used - {v});
      w := if rest > v then rest else v + 1;
      assert forall u | u in used :: u == v || u in used - {v};
    }
  }

  // The holder itself sends the request, if its check has not been made yet.
  lemma HolderAsks(s: State, c: nat, deadline: int, forgets: bool) returns (events: seq<Event>)
    requires Inv(s) && At(s, c) && s.now <= deadline && !Settled(s, deadline, forgets)
    requires s.callers[c].Reading? || s.callers[c].Checking?
    ensures Continues(s, events, deadline, forgets) && Run(s, events).requests == s.requests + 1
  {
    if s.callers[c].Checking? {
      events := [Check(c)];
      RunOne(s, Check(c));
    } else {
      var s1 := Step(s, Tick(deadline - s.now));
      var s2 := Step(s1, Read(c));
      assert At(s2, c) && s2.callers[c] == Checking(s.stored);
      events := [Tick(deadline - s.now)] + [Read(c)] + [Check(c)];
      RunOne(s, Tick(deadline - s.now));
      RunAppend(s, [Tick(deadline - s.now)], [Read(c)]);
      RunOne(s1, Read(c));
      RunAppend(s, [Tick(deadline - s.now)] + [Read(c)], [Check(c)]);
      RunOne(s2, Check(c));
    }
  }

  lemma UnsettledAsks(s: State, deadline: int, forgets: bool) returns (events: seq<Event>)
    requires Inv(s) && s.now <= deadline && !Settled(s, deadline, forgets)
    ensures Continues(s, events, deadline, forgets) && Run(s, events).requests == s.requests + 1
  {
    var w := AboveAll(s.callers.Keys);
    if s.lock.None? {
      events := Newcomer(s, w, deadline, forgets);
      NewcomerAsks(s, w, deadline, forgets);
    } else {
      var c := s.lock.value;
      if s.callers[c].Reading? || s.callers[c].Checking? {
        events := HolderAsks(s, c, deadline, forgets);
      } else {
        var out := WayOut(c, s.callers[c]);
        if s.callers[c].Requesting? {
          RequestingUnsettles(s, c, deadline, forgets);
        } else if s.callers[c].Saving? {
          SavingUnsettles(s, c, deadline, forgets);
        } else {
          NotingUnsettles(s, c, deadline, forgets);
        }
        var t := Run(s, out);
        NewcomerAsks(t, w, deadline, forgets);
        events := out + Newcomer(t, w, deadline, forgets);
        RunAppend(s, out, Newcomer(t, w, deadline, forgets));
        hide Run, Step, Newcomer, WayOut;
      }
    }
  }

  /** In every state: nobody can send a request up to the deadline exactly when the state is settled. */
  lemma QuietIff(s: State, deadline: int, forgets: bool)
    requires Inv(s) && s.now <= deadline
    ensures Quiet(s, deadline, forgets) <==> Settled(s, deadline, forgets)
  {
    if Settled(s, deadline, forgets) {
      forall events | Continues(s, events, deadline, forgets)
        ensures Run(s, events).requests == s.requests
      {
        SettledIsQuiet(s, events, deadline, forgets);
      }
    } else {
      var events := UnsettledAsks(s, deadline, forgets);
    }
  }

  /** Which answers end requests: `invalid_grant`; a token that lasts, while the cache keeps it or if
      the stored credential serves it; or anything at all if the credential has been refused or
      replaced meanwhile. */
  predicate Settles(s: State, reply: Reply, deadline: int, forgets: bool) {
    || Refused(s.stored)
    || match reply
       case InvalidGrant => true
       case Tokens(token, expiresIn, _) =>
         var expiresAt := s.now + if expiresIn == 0 then DEFAULT_EXPIRES_IN else expiresIn;
         Lasts(expiresAt, deadline) && (!forgets || (token != "" && expiresAt != 0))
       case Unusable =>
         s.stored.refreshToken == "" || StoreServes(s.stored, deadline) || (!forgets && CacheLasts(s, deadline))
  }

  /** One request for everyone, exactly: after the request in flight is answered, no caller waiting
      on the lock or arriving later sends another up to the deadline, however they interleave, if
      and only if the answer settles it. With the cache left alone a lasting token is enough, even
      an empty one; if it may be dropped the token must also be one the store would serve. */
  lemma AnswerSettlesIff(s: State, c: nat, reply: Reply, deadline: int, forgets: bool)
    requires Inv(s) && At(s, c) && s.callers[c].Requesting? && s.now <= deadline
    ensures Quiet(Step(s, Answer(c, reply)), deadline, forgets) <==> Settles(s, reply, deadline, forgets)
  {
    StepKeepsInv(s, Answer(c, reply));
    QuietIff(Step(s, Answer(c, reply)), deadline, forgets);
    hide Quiet, Run;
  }

  /** In particular: once the request in flight is answered with a token that outlives the margin at
      `deadline`, or is refused with `invalid_grant`, no caller waiting on the lock or arriving later
      sends another, up to that time. */
  lemma WaitersShareOneRequest(s: State, c: nat, reply: Reply, events: seq<Event>, deadline: int)
    requires Inv(s) && At(s, c) && s.callers[c].Requesting?
    requires reply.InvalidGrant?
             || (reply.Tokens? && reply.token != ""
                 && var expiresAt := s.now + if reply.expiresIn == 0 then DEFAULT_EXPIRES_IN else reply.expiresIn;
                    expiresAt != 0 && Lasts(expiresAt, deadline))
    requires forall e | e in events :: !e.Edit?
    requires Run(Step(s, Answer(c, reply)), events).now <= deadline
    ensures Run(Step(s, Answer(c, reply)), events).requests == s.requests
  {
    StepKeepsInv(s, Answer(c, reply));
    SettledIsQuiet(Step(s, Answer(c, reply)), events, deadline, true);
    hide Run;
  }

  /** After an unusable answer that finds the credential as it was, the very next caller in the queue
      sends a request of its own. */
  lemma UnusableAnswerIsRetried(s: State, c: nat, w: nat)
    requires Inv(s) && At(s, c) && s.callers[c].Requesting?
    requires w in s.callers && s.callers[w].Waiting?
    requires !CacheServes(s) && !StoreServes(s.stored, s.now) && !Refused(s.stored) && s.stored.refreshToken != ""
    ensures var t := Step(Step(Step(Step(s, Answer(c, Unusable)), Acquire(w)), Read(w)), Check(w));
            t.requests == s.requests + 1
  {
  }

  // -- a refresh and the reload diff -------------------------------------------------

  function RowWith(row: ToolsetRow, stored: Stored): ToolsetRow {
    row.(credentialUpdatedAt := Some(stored.updatedAt))
  }

  /** Saving refreshed values leaves the content hash of the toolsets using the credential alone,
      as the separate timestamp intends; the expiry note that follows does not. It keeps the hash
      exactly when the clock still shows the second of the last configuration change. */
  lemma RefreshChangesHashUnlessSameSecond(s: State, c: nat, row: ToolsetRow)
    requires Inv(s) && At(s, c) && s.callers[c].Saving?
    ensures var saved := Step(s, Save(c));
            var noted := Step(saved, Note(c));
            && ContentHash(RowWith(row, saved.stored)) == ContentHash(RowWith(row, s.stored))
            && (ContentHash(RowWith(row, noted.stored)) == ContentHash(RowWith(row, s.stored))
                <==> s.now == s.stored.updatedAt)
  {
  }
}
