/** The token manager object, one call at a time: what it does to its cache and to the stored
    credentials is the uninterrupted run of one caller, and touches no other credential. */
module TokenManager {
  import opened Wrappers
  import opened TokenRefresh

  datatype AccessError = NoSuchCredential | NeedsReconnect | UpstreamUnavailable

  /** The table `credentials`; every write of `updatedAt` counts as a change of configuration. */
  class CredentialsRepo {
    var rows: map<int, Stored>

    constructor (rows: map<int, Stored>)
      ensures this.rows == rows
    {
      this.rows := rows;
    }

    method UpdateValues(id: int, token: string, expiresAt: int, refreshToken: string, tokenRefresh: bool, now: int)
      returns (ok: bool)
      modifies this
      ensures ok <==> id in old(rows)
      ensures rows == if !ok then old(rows) else old(rows)[id :=
                var v := old(rows)[id].(token := token, expiresAt := expiresAt, refreshToken := refreshToken);
                if tokenRefresh then v.(tokenUpdatedAt := Some(now)) else v.(updatedAt := now)]
    {
      ok := id in rows;
      if ok {
        var v := rows[id].(token := token, expiresAt := expiresAt, refreshToken := refreshToken);
        rows := rows[id := if tokenRefresh then v.(tokenUpdatedAt := Some(now)) else v.(updatedAt := now)];
      }
    }

    method SetStatus(id: int, status: Status, now: int) returns (ok: bool)
      modifies this
      ensures ok <==> id in old(rows)
      ensures rows == if ok then old(rows)[id := old(rows)[id].(status := status, updatedAt := now)] else old(rows)
    {
      ok := id in rows;
      if ok {
        rows := rows[id := rows[id].(status := status, updatedAt := now)];
      }
    }

    // The metadata itself is not part of this model; writing it moves the timestamp.
    method UpdateMeta(id: int, now: int) returns (ok: bool)
      modifies this
      ensures ok <==> id in old(rows)
      ensures rows == if ok then old(rows)[id := old(rows)[id].(updatedAt := now)] else old(rows)
    {
      ok := id in rows;
      if ok {
        rows := rows[id := rows[id].(updatedAt := now)];
      }
    }
  }

  /** One caller from its arrival on, with nothing between its steps but the time the token
      endpoint takes. Steps whose turn does not come change nothing. */
  function Alone(c: nat, reply: Reply, elapsed: nat): seq<Event> {
    [Arrive(c), Acquire(c), Read(c), Check(c), Tick(elapsed), Answer(c, reply), Save(c), Note(c), Reject(c)]
  }

  lemma RunSnoc(s: State, events: seq<Event>, e: Event)
    ensures Run(s, events + [e]) == Step(Run(s, events), e)
  {
    assert (events + [e])[..|events|] == events;
  }

  lemma AloneIs(s: State, c: nat, reply: Reply, elapsed: nat)
    ensures Run(s, Alone(c, reply, elapsed)) == Finished(Begun(s, c), c, reply, elapsed)
  {
    hide Step;
    var all := Alone(c, reply, elapsed);
    RunSnoc(s, [], all[0]);
    RunSnoc(s, all[..1], all[1]);
    RunSnoc(s, all[..2], all[2]);
    RunSnoc(s, all[..3], all[3]);
    RunSnoc(s, all[..4], all[4]);
    RunSnoc(s, all[..5], all[5]);
    RunSnoc(s, all[..6], all[6]);
    RunSnoc(s, all[..7], all[7]);
    RunSnoc(s, all[..8], all[8]);
    assert [] + [all[0]] == all[..1] && all[..1] + [all[1]] == all[..2] && all[..2] + [all[2]] == all[..3];
    assert all[..3] + [all[3]] == all[..4] && all[..4] + [all[4]] == all[..5] && all[..5] + [all[5]] == all[..6];
    assert all[..6] + [all[6]] == all[..7] && all[..7] + [all[7]] == all[..8] && all[..8] + [all[8]] == all;
  }

  // With no caller about, only the clock moves.
  lemma Idle(s: State, c: nat, reply: Reply)
    requires s.callers == map[]
    ensures Step(s, Acquire(c)) == s && Step(s, Read(c)) == s && Step(s, Check(c)) == s
    ensures Step(s, Answer(c, reply)) == s && Step(s, Save(c)) == s && Step(s, Note(c)) == s && Step(s, Reject(c)) == s
  {
  }

  // The caller inside a refresh, until the request is out or it has given up.
  function Begun(s: State, c: nat): State {
    Step(Step(Step(Step(s, Arrive(c)), Acquire(c)), Read(c)), Check(c))
  }

  function Finished(s: State, c: nat, reply: Reply, elapsed: nat): State {
    Step(Step(Step(Step(Step(s, Tick(elapsed)), Answer(c, reply)), Save(c)), Note(c)), Reject(c))
  }

  lemma FinishedIdle(s: State, c: nat, reply: Reply, elapsed: nat)
    requires s.callers == map[]
    ensures Finished(s, c, reply, elapsed) == s.(now := s.now + elapsed)
  {
    Idle(s.(now := s.now + elapsed), c, reply);
  }

  lemma FinishedAsked(s: State, c: nat, v: Stored, reply: Reply, elapsed: nat)
    requires s.callers == map[c := Requesting(v)] && s.lock == Some(c)
    ensures var t, at := Finished(s, c, reply, elapsed), s.now + elapsed;
            match reply
            case Unusable => t == s.(now := at, lock := None, callers := map[])
            case InvalidGrant =>
              t == s.(now := at, lock := None, callers := map[], cache := None,
                      stored := s.stored.(status := ReconnectRequired, updatedAt := at))
            case Tokens(token, expiresIn, refreshToken) =>
              var expiresAt := at + if expiresIn == 0 then DEFAULT_EXPIRES_IN else expiresIn;
              t == s.(now := at, lock := None, callers := map[], refreshes := s.refreshes + 1,
                      cache := Some(Cached(token, expiresAt)),
                      stored := s.stored.(token := token, expiresAt := expiresAt,
                                          refreshToken := if refreshToken == "" then v.refreshToken else refreshToken,
                                          tokenUpdatedAt := Some(at), updatedAt := at),
                      handed := s.handed + [Handed(c, token, expiresAt, at, true)])
  {
    var ticked := Step(s, Tick(elapsed));
    var answered := Step(ticked, Answer(c, reply));
    if reply.Tokens? {
      var saved := Step(answered, Save(c));
      var noted := Step(saved, Note(c));
      assert noted.callers == map[];
      Idle(noted, c, reply);
    } else if reply.InvalidGrant? {
      assert Step(answered, Save(c)) == answered && Step(answered, Note(c)) == answered;
      assert Step(answered, Reject(c)).callers == map[];
    } else {
      assert answered.callers == map[];
      Idle(answered, c, reply);
    }
  }

  lemma BegunIs(s: State, c: nat)
    requires s.callers == map[] && s.lock == None
    ensures var t := Begun(s, c);
            if CacheServes(s) then t == Hand(s, c, s.cache.value.token, s.cache.value.expiresAt, false)
            else if StoreServes(s.stored, s.now) then
              t == Hand(s.(cache := Some(Cached(s.stored.token, s.stored.expiresAt))), c,
                        s.stored.token, s.stored.expiresAt, false)
            else if Refused(s.stored) then t == s
            else if s.stored.refreshToken == "" then
              t == s.(stored := s.stored.(status := ReconnectRequired, updatedAt := s.now))
            else t == s.(requests := s.requests + 1, lock := Some(c), callers := map[c := Requesting(s.stored)])
  {
    var arrived := Step(s, Arrive(c));
    if CacheServes(s) {
      Idle(arrived, c, Unusable);
    } else {
      var reading := Step(arrived, Acquire(c));
      assert At(reading, c) && reading.callers == map[c := Reading];
      var read := Step(reading, Read(c));
      if StoreServes(s.stored, s.now) {
        assert read.callers == map[];
        Idle(read, c, Unusable);
      } else {
        assert At(read, c) && read.callers == map[c := Checking(s.stored)];
        assert read.callers - {c} == map[];
      }
    }
  }

  class TokenManager {
    const credentials: CredentialsRepo
    var cache: map<int, Cached>
    var refreshCount: nat

    constructor (credentials: CredentialsRepo)
      ensures this.credentials == credentials && cache == map[] && refreshCount == 0
    {
      this.credentials, cache, refreshCount := credentials, map[], 0;
    }

    /** One credential as the protocol sees it, with no caller yet. */
    function View(id: int, now: int): State
      requires id in credentials.rows
      reads this, credentials
    {
      State(now, if id in cache then Some(cache[id]) else None, credentials.rows[id], None, map[], 0, refreshCount, [])
    }

    method Forget(id: int)
      modifies `cache
      ensures cache == old(cache) - {id}
    {
      cache := cache - {id};
    }

    /** `reply` is what the token endpoint answers if it is asked, `elapsed` how long that takes. */
    method AccessToken(id: int, now: int, reply: Reply, elapsed: nat)
      returns (r: Result<string, AccessError>, asked: bool)
      modifies `cache, `refreshCount, credentials
      ensures cache - {id} == old(cache) - {id} && credentials.rows - {id} == old(credentials.rows) - {id}
      ensures credentials.rows.Keys == old(credentials.rows.Keys)
      ensures id in old(credentials.rows) ==>
                var s := Run(old(View(id, now)), Alone(0, reply, elapsed));
                && View(id, s.now) == s.(requests := 0, handed := [])
                && asked == (s.requests == 1)
                && (r.Ok? <==> |s.handed| == 1) && (r.Ok? ==> s.handed[0].token == r.value)
      // who answers: the cache, the stored token, or the token endpoint
      ensures var cached := id in old(cache) && old(cache)[id].expiresAt - 60 > now;
              cached ==> !asked && r == Ok(old(cache)[id].token)
                         && cache == old(cache) && credentials.rows == old(credentials.rows)
      ensures id in old(credentials.rows) && !(id in old(cache) && old(cache)[id].expiresAt - 60 > now) ==>
                var v := old(credentials.rows)[id];
                var stored := v.token != "" && v.expiresAt != 0 && v.expiresAt - 60 > now;
                var refused := v.status in {ReconnectRequired, ScopesChanged, Unconnected};
                && (asked <==> !stored && !refused && v.refreshToken != "")
                && r == (if stored then Ok(v.token)
                         else if !asked || reply.InvalidGrant? then Err(NeedsReconnect)
                         else if reply.Unusable? then Err(UpstreamUnavailable)
                         else Ok(reply.token))
                && (stored ==> credentials.rows == old(credentials.rows)
                               && cache == old(cache)[id := Cached(v.token, v.expiresAt)])
      // what a successful refresh stores
      ensures asked ==> id in old(credentials.rows)
      ensures asked && reply.Tokens? ==>
                var v, at := old(credentials.rows)[id], now + elapsed;
                var expiresAt := at + if reply.expiresIn == 0 then 3600 else reply.expiresIn;
                var rotated := if reply.refreshToken == "" then v.refreshToken else reply.refreshToken;
                && credentials.rows == old(credentials.rows)[id :=
                     Stored(reply.token, expiresAt, rotated, v.status, at, Some(at))]
                && cache == old(cache)[id := Cached(reply.token, expiresAt)]
      ensures id !in old(credentials.rows) ==>
                && !asked && cache == old(cache) && refreshCount == old(refreshCount)
                && (r.Ok? <==> id in cache && cache[id].expiresAt - 60 > now)
                && (r.Err? ==> r == Err(NoSuchCredential))
    {
      hide Run, Begun, Finished;
      asked := false;
      if id in credentials.rows {
        var s := View(id, now);
        AloneIs(s, 0, reply, elapsed);
        BegunIs(s, 0);
        if 0 in Begun(s, 0).callers {
          FinishedAsked(Begun(s, 0), 0, s.stored, reply, elapsed);
        } else {
          FinishedIdle(Begun(s, 0), 0, reply, elapsed);
        }
      }
      if id in cache && Lasts(cache[id].expiresAt, now) {
        return Ok(cache[id].token), false;
      }
      if id !in credentials.rows {
        return Err(NoSuchCredential), false;
      }
      var current := credentials.rows[id];
      if StoreServes(current, now) {
        cache := cache[id := Cached(current.token, current.expiresAt)];
        return Ok(current.token), false;
      }
      r, asked := Refresh(id, now, reply, elapsed);
    }

    /** The values are those of the row: nothing runs between reading it and here. */
    method Refresh(id: int, now: int, reply: Reply, elapsed: nat) returns (r: Result<string, AccessError>, asked: bool)
      requires id in credentials.rows
      modifies `cache, `refreshCount, credentials
      ensures var v, at := old(credentials.rows)[id], now + elapsed;
              var refused := v.status in {ReconnectRequired, ScopesChanged, Unconnected};
              && (asked <==> !refused && v.refreshToken != "")
              && r == (if !asked || reply.InvalidGrant? then Err(NeedsReconnect)
                       else if reply.Unusable? then Err(UpstreamUnavailable)
                       else Ok(reply.token))
              && refreshCount == old(refreshCount) + (if asked && reply.Tokens? then 1 else 0)
              && (refused || (asked && reply.Unusable?) ==>
                    cache == old(cache) && credentials.rows == old(credentials.rows))
              && (!refused && !asked ==>
                    cache == old(cache)
                    && credentials.rows
                       == old(credentials.rows)[id := v.(status := ReconnectRequired, updatedAt := now)])
              && (asked && reply.InvalidGrant? ==>
                    cache == old(cache) - {id}
                    && credentials.rows
                       == old(credentials.rows)[id := v.(status := ReconnectRequired, updatedAt := at)])
              && (asked && reply.Tokens? ==>
                    var expiresAt := at + if reply.expiresIn == 0 then 3600 else reply.expiresIn;
                    var rotated := if reply.refreshToken == "" then v.refreshToken else reply.refreshToken;
                    && cache == old(cache)[id := Cached(reply.token, expiresAt)]
                    && credentials.rows == old(credentials.rows)[id :=
                         Stored(reply.token, expiresAt, rotated, v.status, at, Some(at))])
    {
      var current := credentials.rows[id];
      if current.status in {ReconnectRequired, ScopesChanged, Unconnected} {
        return Err(NeedsReconnect), false;
      }
      var ok;
      if current.refreshToken == "" {
        ok := credentials.SetStatus(id, ReconnectRequired, now);
        return Err(NeedsReconnect), false;
      }
      asked := true;
      var answered := now + elapsed;
      match reply
      case Unusable =>
        r := Err(UpstreamUnavailable);
      case InvalidGrant =>
        cache := cache - {id};
        ok := credentials.SetStatus(id, ReconnectRequired, answered);
        ok := credentials.UpdateMeta(id, answered);
        r := Err(NeedsReconnect);
      case Tokens(token, expiresIn, refreshToken) =>
        refreshCount := refreshCount + 1;
        var expiresAt := answered + if expiresIn == 0 then DEFAULT_EXPIRES_IN else expiresIn;
        var rotated := if refreshToken == "" then current.refreshToken else refreshToken;
        ok := credentials.UpdateValues(id, token, expiresAt, rotated, true, answered);
        ok := credentials.UpdateMeta(id, answered);
        cache := cache[id := Cached(token, expiresAt)];
        r := Ok(token);
    }
  }
}
