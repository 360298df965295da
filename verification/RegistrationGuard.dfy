/** The sliding window on client registration, on a real-valued clock that never runs back. */
module RegistrationGuard {

  datatype Limits = Limits(maxPerWindow: nat, window: real, maxClients: nat)

  datatype Reply =
    | Accepted
    | TooManyRegistrations(retryAfter: int)
    | ClientCapReached(retryAfter: int)

  // `int(x)` truncates toward zero.
  function Truncated(x: real): int {
    if x >= 0.0 then x.Floor else -((-x).Floor)
  }

  /** What is left of the window: the oldest entries go once they are a window old. */
  function Recent(times: seq<real>, now: real, window: real): seq<real> {
    if times != [] && now - times[0] >= window then Recent(times[1..], now, window) else times
  }

  function Decide(limits: Limits, times: seq<real>, now: real, clients: nat): (Reply, seq<real>)
    requires limits.maxPerWindow >= 1
  {
    var recent := Recent(times, now, limits.window);
    if |recent| >= limits.maxPerWindow then
      (TooManyRegistrations(Truncated(limits.window - (now - recent[0])) + 1), recent)
    else if clients >= limits.maxClients then (ClientCapReached(Truncated(limits.window)), recent)
    else (Accepted, recent + [now])
  }

  /** What one POST does, from the times held before: `gone` of them are a window old and the next is
      not, and of the rest `kept` the window is full, or the store is, or the request is accepted and
      its time held. A full window says how many whole seconds pass its oldest time's end. */
  ghost predicate Answered(limits: Limits, times: seq<real>, now: real, clients: nat,
                           gone: nat, reply: Reply, after: seq<real>) {
    && gone <= |times|
    && (forall i | 0 <= i < gone :: now - times[i] >= limits.window)
    && (gone < |times| ==> now - times[gone] < limits.window)
    && var kept := times[gone..];
    && match reply
       case TooManyRegistrations(retryAfter) =>
         && |kept| >= limits.maxPerWindow && after == kept && kept != []
         && retryAfter as real - 1.0 <= limits.window - (now - kept[0]) < retryAfter as real
       case ClientCapReached(retryAfter) =>
         && |kept| < limits.maxPerWindow && clients >= limits.maxClients && after == kept
         && (limits.window >= 0.0 ==> retryAfter as real <= limits.window < retryAfter as real + 1.0)
       case Accepted => |kept| < limits.maxPerWindow && clients < limits.maxClients && after == kept + [now]
  }

  lemma DecideAnswers(limits: Limits, times: seq<real>, now: real, clients: nat) returns (gone: nat)
    requires limits.maxPerWindow >= 1
    ensures var (reply, after) := Decide(limits, times, now, clients);
            Answered(limits, times, now, clients, gone, reply, after)
  {
    gone := RecentIsSuffix(times, now, limits.window);
    RecentStops(times, now, limits.window);
    hide Recent;
  }

  class RegistrationGuard {
    const limits: Limits
    var recent: seq<real>

    ghost predicate Valid()
      reads this
    {
      limits.maxPerWindow >= 1 && |recent| <= limits.maxPerWindow
    }

    constructor (limits: Limits)
      requires limits.maxPerWindow >= 1
      ensures Valid() && this.limits == limits && recent == []
    {
      this.limits, recent := limits, [];
    }

    // The pop loop.
    method Forget(now: real)
      modifies `recent
      ensures recent == Recent(old(recent), now, limits.window) && |recent| <= |old(recent)|
    {
      while recent != [] && now - recent[0] >= limits.window
        invariant Recent(recent, now, limits.window) == Recent(old(recent), now, limits.window)
        invariant |recent| <= |old(recent)|
      {
        recent := recent[1..];
      }
    }

    /** One POST: `clients` is the number of registered clients the store reports. */
    method Register(now: real, clients: nat) returns (reply: Reply, ghost gone: nat)
      requires Valid()
      modifies `recent
      ensures Valid()
      ensures Answered(limits, old(recent), now, clients, gone, reply, recent)
      ensures (reply, recent) == Decide(limits, old(recent), now, clients)
    {
      hide Answered, Truncated, Recent;
      gone := DecideAnswers(limits, recent, now, clients);
      Forget(now);
      if |recent| >= limits.maxPerWindow {
        reply := TooManyRegistrations(Truncated(limits.window - (now - recent[0])) + 1);
      } else if clients >= limits.maxClients {
        reply := ClientCapReached(Truncated(limits.window));
      } else {
        recent := recent + [now];
        reply := Accepted;
      }
    }
  }

  // -- a whole run -------------------------------------------------------------------

  datatype Request = Request(now: real, clients: nat)

  predicate ClockRuns(requests: seq<Request>) {
    forall i, j | 0 <= i <= j < |requests| :: requests[i].now <= requests[j].now
  }

  /** What the guard holds and the times it has accepted, after some requests. */
  datatype History = History(recent: seq<real>, accepted: seq<real>)

  function RunOf(limits: Limits, requests: seq<Request>): History
    requires limits.maxPerWindow >= 1
  {
    if requests == [] then History([], [])
    else
      var before, r := RunOf(limits, requests[..|requests| - 1]), requests[|requests| - 1];
      var (reply, recent) := Decide(limits, before.recent, r.now, r.clients);
      History(recent, before.accepted + if reply == Accepted then [r.now] else [])
  }

  function CountIn(times: seq<real>, from: real, to: real): nat {
    if times == [] then 0
    else CountIn(times[..|times| - 1], from, to) + if from <= times[|times| - 1] < to then 1 else 0
  }

  predicate Ascending(times: seq<real>) {
    forall i, j | 0 <= i <= j < |times| :: times[i] <= times[j]
  }

  // Any `max` + 1 accepted requests in a row span at least a window.
  ghost predicate Spaced(times: seq<real>, max: nat, window: real) {
    forall i, j | 0 <= i <= j < |times| && j == i + max :: times[j] - times[i] >= window
  }

  lemma {:induction false} RecentIsSuffix(times: seq<real>, now: real, window: real) returns (gone: nat)
    ensures gone <= |times| && Recent(times, now, window) == times[gone..]
    ensures forall i | 0 <= i < gone :: now - times[i] >= window
  {
    gone := 0;
    if times != [] && now - times[0] >= window {
      var rest := RecentIsSuffix(times[1..], now, window);
      gone := rest + 1;
      forall i | 0 <= i < gone ensures now - times[i] >= window {
        assert i > 0 ==> times[i] == times[1..][i - 1];
      }
    }
  }

  // What the guard holds is the end of the accepted times; what it dropped is a window old.
  ghost predicate Inv(limits: Limits, h: History, now: real, gone: nat) {
    && gone <= |h.accepted| && h.recent == h.accepted[gone..] && |h.recent| <= limits.maxPerWindow
    && (forall i | 0 <= i < gone :: now - h.accepted[i] >= limits.window)
    && (forall i | 0 <= i < |h.accepted| :: h.accepted[i] <= now)
    && Ascending(h.accepted) && Spaced(h.accepted, limits.maxPerWindow, limits.window)
  }

  lemma ForgettingKeepsInv(limits: Limits, h: History, before: real, gone: nat, now: real) returns (gone': nat)
    requires Inv(limits, h, before, gone) && before <= now
    ensures Inv(limits, History(Recent(h.recent, now, limits.window), h.accepted), now, gone')
  {
    hide Ascending, Spaced;
    var more := RecentIsSuffix(h.recent, now, limits.window);
    gone' := gone + more;
    assert h.recent[more..] == h.accepted[gone'..];
    forall i | 0 <= i < gone' ensures now - h.accepted[i] >= limits.window {
      assert i >= gone ==> h.accepted[i] == h.recent[i - gone];
    }
  }

  lemma AcceptingKeepsInv(limits: Limits, h: History, now: real, gone: nat)
    requires Inv(limits, h, now, gone) && |h.recent| < limits.maxPerWindow
    ensures Inv(limits, History(h.recent + [now], h.accepted + [now]), now, gone)
  {
  }

  lemma StepKeepsInv(limits: Limits, h: History, before: real, gone: nat, r: Request) returns (gone': nat)
    requires limits.maxPerWindow >= 1 && Inv(limits, h, before, gone) && before <= r.now
    ensures var (reply, recent) := Decide(limits, h.recent, r.now, r.clients);
            Inv(limits, History(recent, h.accepted + if reply == Accepted then [r.now] else []), r.now, gone')
  {
    gone' := ForgettingKeepsInv(limits, h, before, gone, r.now);
    var recent := Recent(h.recent, r.now, limits.window);
    if Decide(limits, h.recent, r.now, r.clients).0 == Accepted {
      AcceptingKeepsInv(limits, History(recent, h.accepted), r.now, gone');
    } else {
      assert h.accepted + [] == h.accepted;
    }
  }

  lemma {:induction false} RunKeepsInv(limits: Limits, requests: seq<Request>, now: real) returns (gone: nat)
    requires limits.maxPerWindow >= 1 && ClockRuns(requests)
    requires forall r | r in requests :: r.now <= now
    ensures Inv(limits, RunOf(limits, requests), now, gone)
  {
    if requests == [] {
      gone := 0;
    } else {
      var init, r := requests[..|requests| - 1], requests[|requests| - 1];
      assert r in requests;
      assert forall q | q in init :: exists i :: 0 <= i < |init| && requests[i] == q;
      gone := RunKeepsInv(limits, init, r.now);
      gone := StepKeepsInv(limits, RunOf(limits, init), r.now, gone, r);
    }
  }

  lemma {:induction false} NoneBefore(times: seq<real>, from: real, to: real)
    requires forall i | 0 <= i < |times| :: times[i] < from
    ensures CountIn(times, from, to) == 0
  {
    if times != [] {
      NoneBefore(times[..|times| - 1], from, to);
    }
  }

  lemma {:induction false} CountSplit(times: seq<real>, k: nat, from: real, to: real)
    requires k <= |times|
    ensures CountIn(times, from, to) <= CountIn(times[..k], from, to) + (|times| - k)
  {
    if k < |times| {
      CountSplit(times[..|times| - 1], k, from, to);
      assert times[..|times| - 1][..k] == times[..k];
    } else {
      assert times[..k] == times;
    }
  }

  // When the last time is before the end of the interval, only the last `max` can be in it.
  lemma LastOnesCount(times: seq<real>, max: nat, window: real, from: real)
    requires Ascending(times) && Spaced(times, max, window)
    requires |times| > max && times[|times| - 1] < from + window
    ensures CountIn(times, from, from + window) <= max
  {
    var k := |times| - max;
    assert times[|times| - 1] - times[k - 1] >= window;
    assert forall i | 0 <= i < k :: times[i] <= times[k - 1];
    hide Ascending, Spaced, CountIn;
    NoneBefore(times[..k], from, from + window);
    CountSplit(times, k, from, from + window);
  }

  lemma {:induction false} SpacedCount(times: seq<real>, max: nat, window: real, from: real)
    requires Ascending(times) && Spaced(times, max, window)
    ensures CountIn(times, from, from + window) <= max
  {
    if |times| <= max {
      CountSplit(times, 0, from, from + window);
      NoneBefore(times[..0], from, from + window);
    } else if times[|times| - 1] < from + window {
      LastOnesCount(times, max, window, from);
    } else {
      assert Ascending(times[..|times| - 1]) && Spaced(times[..|times| - 1], max, window);
      hide Ascending, Spaced;
      SpacedCount(times[..|times| - 1], max, window, from);
    }
  }

  /** Over any whole run, every interval of one window holds at most `maxPerWindow` accepted
      registrations. */
  lemma WindowNeverOverflows(limits: Limits, requests: seq<Request>, from: real)
    requires limits.maxPerWindow >= 1 && ClockRuns(requests)
    ensures CountIn(RunOf(limits, requests).accepted, from, from + limits.window) <= limits.maxPerWindow
  {
    if requests != [] {
      var now := requests[|requests| - 1].now;
      var gone := RunKeepsInv(limits, requests, now);
      SpacedCount(RunOf(limits, requests).accepted, limits.maxPerWindow, limits.window, from);
    }
  }

  // What stays in the window is less than a window old, and it is no more than there was.
  lemma {:induction false} RecentStops(times: seq<real>, now: real, window: real)
    ensures var recent := Recent(times, now, window);
            && |recent| <= |times| && (recent != [] ==> now - recent[0] < window)
            && (|recent| == |times| <==> times == [] || now - times[0] < window)
  {
    if times != [] && now - times[0] >= window {
      RecentStops(times[1..], now, window);
    }
  }

  lemma RetryStep(limits: Limits, held: seq<real>, refused: Request, again: Request)
    requires limits.maxPerWindow >= 1 && |held| <= limits.maxPerWindow
    requires Decide(limits, held, refused.now, refused.clients).0.TooManyRegistrations?
    ensures var (reply, recent) := Decide(limits, held, refused.now, refused.clients);
            var later := Decide(limits, recent, again.now, again.clients).0;
            && recent != [] && reply.retryAfter >= 1
            && (!later.TooManyRegistrations? <==> again.now - recent[0] >= limits.window)
            && (again.now - refused.now >= reply.retryAfter as real ==> !later.TooManyRegistrations?)
  {
    RecentStops(held, refused.now, limits.window);
    var recent := Recent(held, refused.now, limits.window);
    RecentStops(recent, again.now, limits.window);
    hide Recent;
  }

  /** In any run, a request after a window refusal, with none between, passes the window check
      exactly when the oldest held time is then a window old; waiting `retryAfter` is enough. */
  lemma RetryAfterIsEnough(limits: Limits, requests: seq<Request>, refused: Request, again: Request)
    requires limits.maxPerWindow >= 1 && ClockRuns(requests)
    requires forall r | r in requests :: r.now <= refused.now
    requires Decide(limits, RunOf(limits, requests).recent, refused.now, refused.clients).0.TooManyRegistrations?
    ensures var (reply, recent) := Decide(limits, RunOf(limits, requests).recent, refused.now, refused.clients);
            var later := Decide(limits, recent, again.now, again.clients).0;
            && recent != [] && reply.retryAfter >= 1
            && (!later.TooManyRegistrations? <==> again.now - recent[0] >= limits.window)
            && (again.now - refused.now >= reply.retryAfter as real ==> !later.TooManyRegistrations?)
  {
    var gone := RunKeepsInv(limits, requests, refused.now);
    RetryStep(limits, RunOf(limits, requests).recent, refused, again);
  }

  // How many times are less than a window old.
  function Younger(times: seq<real>, now: real, window: real): nat {
    if times == [] then 0
    else Younger(times[..|times| - 1], now, window) + if now - times[|times| - 1] < window then 1 else 0
  }

  lemma {:induction false} YoungerIs(times: seq<real>, now: real, window: real, gone: nat)
    requires gone <= |times|
    requires forall i | 0 <= i < |times| :: now - times[i] < window <==> i >= gone
    ensures Younger(times, now, window) == |times| - gone
  {
    if times != [] {
      YoungerIs(times[..|times| - 1], now, window, if gone < |times| then gone else gone - 1);
    }
  }

  lemma {:induction false} HeldAreYounger(times: seq<real>, gone: nat, now: real, window: real)
    requires gone <= |times| && Ascending(times)
    requires forall i | 0 <= i < gone :: now - times[i] >= window
    ensures |Recent(times[gone..], now, window)| == Younger(times, now, window)
    decreases |times| - gone
  {
    if gone < |times| && now - times[gone] >= window {
      HeldAreYounger(times, gone + 1, now, window);
      assert times[gone..][1..] == times[gone + 1..];
    } else {
      assert forall i | gone <= i < |times| :: times[gone] <= times[i];
      YoungerIs(times, now, window, gone);
    }
  }

  /** The window check refuses exactly when `maxPerWindow` requests accepted so far are less than a
      window old, whatever came and went before: forgetting old times loses nothing. */
  lemma RefusesExactly(limits: Limits, requests: seq<Request>, r: Request)
    requires limits.maxPerWindow >= 1 && ClockRuns(requests)
    requires forall q | q in requests :: q.now <= r.now
    ensures Decide(limits, RunOf(limits, requests).recent, r.now, r.clients).0.TooManyRegistrations?
            <==> Younger(RunOf(limits, requests).accepted, r.now, limits.window) >= limits.maxPerWindow
  {
    var gone := RunKeepsInv(limits, requests, r.now);
    HeldAreYounger(RunOf(limits, requests).accepted, gone, r.now, limits.window);
    hide Recent, Younger, RunOf, Spaced, Ascending;
  }
}
