/** The OAuth authorization server on the SQLite store: its methods, and the lineage of tokens
    over every interleaving of requests. */
module Provider {
  import opened Wrappers
  import opened TokenStores

  const CODE_TTL_SECONDS := 5 * 60
  const ACCESS_TOKEN_TTL_SECONDS := 60 * 60
  const REFRESH_TOKEN_TTL_SECONDS := 30 * 24 * 60 * 60

  // -- what one request does to the store --------------------------------------------

  function FoundCode(q: Table, client: ClientId, h: Hash): Option<AuthCode> {
    if h in q.rows && q.rows[h].CodeRow? && q.rows[h].code.grant.client == client
    then Some(q.rows[h].code) else None
  }

  /** A refresh token of this client that has not expired; an expired one is revoked on sight. */
  function LoadRefresh(q: Table, client: ClientId, h: Hash, now: int): (Table, Option<Token>) {
    if !(h in q.rows && q.rows[h].RefreshRow? && q.rows[h].token.grant.client == client) then (q, None)
    else if DictExpired(q.rows[h].token, now) then (TableRevoke(q, h), None)
    else (q, Some(q.rows[h].token))
  }

  function LoadAccess(q: Table, h: Hash, now: int): (Table, Option<Token>) {
    if !(h in q.rows && q.rows[h].AccessRow?) then (q, None)
    else if DictExpired(q.rows[h].token, now) then (TableRevoke(q, h), None)
    else (q, Some(q.rows[h].token))
  }

  function FreshPair(grant: Grant, access: Hash, refresh: Hash, now: int): (Token, Token) {
    (Token(access, grant, Some(now + ACCESS_TOKEN_TTL_SECONDS)),
     Token(refresh, grant, Some(now + REFRESH_TOKEN_TTL_SECONDS)))
  }

  function Issue(q: Table, grant: Grant, access: Hash, refresh: Hash, now: int): (Table, Answer) {
    var (a, r) := FreshPair(grant, access, refresh, now);
    TableCall(q, SavePair(a, r))
  }

  /** Presenting an access token's hash: found when a row is stored under it whose expiry is
      absent, zero or not before now; a row past its expiry is deleted with its partner. */
  lemma LoadAccessExactly(q: Table, h: Hash, now: int)
    requires Paired(q)
    ensures var there := h in q.rows && q.rows[h].AccessRow?;
            var stamp := if there then q.rows[h].token.expiresAt else None;
            var expired := stamp.Some? && stamp.value != 0 && stamp.value < now;
            LoadAccess(q, h, now) == if expired then (Table(q.clients, q.rows - {h, q.rows[h].partner}), None)
                                     else (q, if there then Some(q.rows[h].token) else None)
  {
    TableRevokedExactly(q, h);
  }

  /** The same for a refresh token, of the presenting client only. */
  lemma LoadRefreshExactly(q: Table, client: ClientId, h: Hash, now: int)
    requires Paired(q)
    ensures var there := h in q.rows && q.rows[h].RefreshRow? && q.rows[h].token.grant.client == client;
            var stamp := if there then q.rows[h].token.expiresAt else None;
            var expired := stamp.Some? && stamp.value != 0 && stamp.value < now;
            LoadRefresh(q, client, h, now)
            == if expired then (Table(q.clients, q.rows - {h, q.rows[h].partner}), None)
               else (q, if there then Some(q.rows[h].token) else None)
  {
    TableRevokedExactly(q, h);
  }

  /** Issuing: two new rows that name each other, for an hour and for thirty days, or nothing. */
  lemma IssueExactly(q: Table, grant: Grant, access: Hash, refresh: Hash, now: int)
    ensures Issue(q, grant, access, refresh, now)
         == if grant.client in q.clients && access != refresh && access !in q.rows && refresh !in q.rows
            then (Table(q.clients,
                        q.rows[access := AccessRow(Token(access, grant, Some(now + 3600)), refresh)]
                              [refresh := RefreshRow(Token(refresh, grant, Some(now + 2592000)), access)]),
                  Done)
            else (q, IntegrityError)
  {
  }

  class OAuthProvider {
    const store: SqliteTokenStore
    const adminEmails: set<string>
    const base: string
    const normalise: string -> string

    constructor (store: SqliteTokenStore, adminEmails: set<string>, baseUrl: string, normalise: string -> string)
      ensures this.store == store && this.adminEmails == adminEmails
      ensures this.normalise == normalise && base == normalise(baseUrl)
    {
      this.store := store;
      this.adminEmails := adminEmails;
      this.base := normalise(baseUrl);
      this.normalise := normalise;
    }

    /** The mounted toolset a resource indicator names. */
    function ToolsetForResource(resource: Option<string>, known: set<string>): (key: Option<string>)
      ensures key.Some? ==> && key.value in known && '/' !in key.value
                            && resource.Some? && normalise(resource.value) == base + "/" + key.value
      ensures key.None? && resource.Some? && resource.value != "" ==>
                forall k | k in known && '/' !in k :: normalise(resource.value) != base + "/" + k
    {
      if resource.None? || resource.value == "" then None
      else
        var url := normalise(resource.value);
        var prefix := base + "/";
        if !(prefix <= url) then None
        else
          var key := url[|prefix|..];
          if '/' in key || key !in known then None else Some(key)
    }

    /** Only an authenticated admin gets a code, and only for a mounted toolset; the code is bound
        to the client, that toolset and that admin. */
    method Authorize(client: ClientId, email: Option<string>, scopes: seq<string>, resource: Option<string>,
                     known: set<string>, code: Hash, sweepTime: int, now: int) returns (ok: bool)
      modifies store
      ensures var allowed := email.Some? && email.value in adminEmails && ToolsetForResource(resource, known).Some?;
              var swept := TableSweep(old(store.State()), sweepTime);
              && (ok <==> allowed && code !in swept.rows && client in swept.clients)
              && store.State() ==
                   if !allowed then old(store.State())
                   else if !ok then swept
                   else Table(swept.clients, swept.rows[code := CodeRow(AuthCode(code,
                          Grant(client, scopes, Some(normalise(resource.value)), email), now + 300))])
    {
      if email.None? || email.value !in adminEmails {
        return false;
      }
      var key := ToolsetForResource(resource, known);
      if key.None? {
        return false;
      }
      store.Sweep(sweepTime);
      var grant := Grant(client, scopes, Some(base + "/" + key.value), email);
      ok := store.SaveCode(AuthCode(code, grant, now + CODE_TTL_SECONDS));
    }

    method LoadAuthorizationCode(client: ClientId, h: Hash) returns (found: Option<AuthCode>)
      ensures var rows := store.State().rows;
              found == if h in rows && rows[h].CodeRow? && rows[h].code.grant.client == client
                       then Some(rows[h].code) else None
      ensures found == FoundCode(store.State(), client, h)
    {
      found := store.GetCode(h);
      if found.Some? && found.value.grant.client != client {
        found := None;
      }
    }

    /** Spends the code; a code already spent yields nothing. The pair is for the code's party,
        and the code is gone even where the pair cannot be stored. */
    method ExchangeAuthorizationCode(client: ClientId, code: AuthCode, access: Hash, refresh: Hash, now: int)
      returns (ok: bool)
      modifies store
      ensures var q := old(store.State());
              var live := code.code in q.rows && q.rows[code.code].CodeRow?;
              var kept := if live then q.rows - {code.code} else q.rows;
              var grant := Grant(client, code.grant.scopes, code.grant.resource, code.grant.subject);
              && (ok <==> live && client in q.clients && access != refresh
                          && access !in kept && refresh !in kept)
              && store.State() == Table(q.clients,
                   if ok then kept[access := AccessRow(Token(access, grant, Some(now + 3600)), refresh)]
                                  [refresh := RefreshRow(Token(refresh, grant, Some(now + 2592000)), access)]
                   else kept)
    {
      var was := store.DeleteCode(code.code);
      if !was {
        return false;
      }
      ok := IssuePair(code.grant.(client := client), access, refresh, now);
    }

    /** Found exactly when this client's refresh token is stored under the hash and its expiry is
        absent, zero or not before now; past it, the pair is deleted. */
    method LoadRefreshToken(client: ClientId, h: Hash, now: int) returns (found: Option<Token>)
      requires Paired(store.State())
      modifies store
      ensures var q := old(store.State());
              var there := h in q.rows && q.rows[h].RefreshRow? && q.rows[h].token.grant.client == client;
              var stamp := if there then q.rows[h].token.expiresAt else None;
              var expired := stamp.Some? && stamp.value != 0 && stamp.value < now;
              && found == (if there && !expired then Some(q.rows[h].token) else None)
              && store.State() == Table(q.clients, if expired then q.rows - {h, q.rows[h].partner} else q.rows)
      ensures (store.State(), found) == LoadRefresh(old(store.State()), client, h, now)
    {
      LoadRefreshExactly(store.State(), client, h, now);
      found := store.GetRefreshToken(h);
      if found.None? || found.value.grant.client != client {
        return None;
      }
      if DictExpired(found.value, now) {
        store.Revoke(found.value.token);
        return None;
      }
    }

    /** Rotation: the old token and every token that names it as partner go, and a new pair is
        issued for the same resource and subject, with the scopes asked for or else the old ones. */
    method ExchangeRefreshToken(client: ClientId, token: Token, scopes: seq<string>, access: Hash,
                                refresh: Hash, now: int) returns (ok: bool)
      modifies store
      ensures var q := old(store.State());
              var kept := map k | k in q.rows && k != token.token
                                  && (q.rows[k].CodeRow? || q.rows[k].partner != token.token) :: q.rows[k];
              var grant := Grant(client, if scopes == [] then token.grant.scopes else scopes,
                                 token.grant.resource, token.grant.subject);
              && (ok <==> client in q.clients && access != refresh && access !in kept && refresh !in kept)
              && store.State() == Table(q.clients,
                   if ok then kept[access := AccessRow(Token(access, grant, Some(now + 3600)), refresh)]
                                  [refresh := RefreshRow(Token(refresh, grant, Some(now + 2592000)), access)]
                   else kept)
    {
      store.Revoke(token.token);
      ok := IssuePair(Rotated(token.grant, client, scopes), access, refresh, now);
    }

    method LoadAccessToken(h: Hash, now: int) returns (found: Option<Token>)
      requires Paired(store.State())
      modifies store
      ensures (store.State(), found) == LoadAccess(old(store.State()), h, now)
    {
      found := store.GetAccessToken(h);
      if found.Some? && DictExpired(found.value, now) {
        store.Revoke(found.value.token);
        found := None;
      }
    }

    /** A toolset's verifier: accepted exactly when an access token is stored under the hash, its
        expiry is absent, zero or not before now, and it was issued for that toolset's own URL.
        Past its expiry it is deleted with its partner; in every other case the store stays. */
    method VerifyToken(h: Hash, toolsetUrl: string, now: int) returns (found: Option<Token>)
      requires Paired(store.State())
      modifies store
      ensures var q := old(store.State());
              var there := h in q.rows && q.rows[h].AccessRow?;
              var stamp := if there then q.rows[h].token.expiresAt else None;
              var expired := stamp.Some? && stamp.value != 0 && stamp.value < now;
              var resource := if there then q.rows[h].token.grant.resource else None;
              && (found.Some? <==> there && !expired && resource.Some? && resource.value != ""
                                   && normalise(resource.value) == normalise(toolsetUrl))
              && (found.Some? ==> found.value == q.rows[h].token)
              && store.State() == Table(q.clients, if expired then q.rows - {h, q.rows[h].partner} else q.rows)
    {
      LoadAccessExactly(store.State(), h, now);
      found := LoadAccessToken(h, now);
      if found.Some? {
        var resource := found.value.grant.resource;
        if resource.None? || resource.value == "" || normalise(resource.value) != normalise(toolsetUrl) {
          found := None;
        }
      }
    }

    method IssuePair(grant: Grant, access: Hash, refresh: Hash, now: int) returns (ok: bool)
      modifies store
      ensures var q := old(store.State());
              && (ok <==> grant.client in q.clients && access != refresh
                          && access !in q.rows && refresh !in q.rows)
              && store.State() == Table(q.clients,
                   if ok then q.rows[access := AccessRow(Token(access, grant, Some(now + 3600)), refresh)]
                                    [refresh := RefreshRow(Token(refresh, grant, Some(now + 2592000)), access)]
                   else q.rows)
    {
      IssueExactly(store.State(), grant, access, refresh, now);
      var (a, r) := FreshPair(grant, access, refresh, now);
      ok := store.SaveTokenPair(a, r);
    }
  }

  function Rotated(grant: Grant, client: ClientId, scopes: seq<string>): Grant {
    grant.(client := client, scopes := if scopes == [] then grant.scopes else scopes)
  }

  // -- runs --------------------------------------------------------------------------

  /** A token request between two of its awaits. */
  datatype Flight =
    | CodeLoaded(client: ClientId, code: AuthCode)
    | CodeDeleted(client: ClientId, code: AuthCode)
    | RefreshLoaded(client: ClientId, token: Token)
    | RefreshRevoked(client: ClientId, token: Token)

  /** The store, the token requests under way, and the history: every code and hash ever made,
      the code each token descends from, and the pairs issued directly for a code. */
  datatype World = World(
    store: Table, flights: seq<Flight>,
    issued: map<Hash, AuthCode>, origin: map<Hash, Hash>, used: set<Hash>,
    direct: seq<Hash>)

  const START := World(EMPTY_TABLE, [], map[], map[], {}, [])

  datatype Event =
    | Register(client: ClientId, metadata: string)
    | Sweep(now: int)
    | GrantCode(grant: Grant, code: Hash, now: int)
    | LoadCode(client: ClientId, code: Hash)
    | SpendCode(flight: nat)
    | LoadForRefresh(client: ClientId, refresh: Hash, now: int)
    | RevokeOld(flight: nat)
    | IssueFor(flight: nat, scopes: seq<string>, access: Hash, refresh: Hash, now: int)
    | Abandon(flight: nat)
    | UseAccess(access: Hash, now: int)
    | RevokeToken(token: Hash)
    | DisconnectAll

  function RemoveAt<T>(s: seq<T>, i: nat): seq<T>
    requires i < |s|
  {
    s[..i] + s[i + 1..]
  }

  /** One atomic step between awaits. A step whose guard fails changes nothing; hashes are fresh
      because tokens are random. A request can end at any await: refused by the handler for its
      proof key, redirect, expiry or scopes, cancelled, or cut off by a restart. */
  function Step(w: World, e: Event): World {
    match e
    case Register(client, metadata) => w.(store := TableCall(w.store, SaveClient(client, metadata)).0)
    case Sweep(now) => w.(store := TableSweep(w.store, now))
    case GrantCode(grant, code, now) =>
      if code in w.used || grant.client !in w.store.clients then w
      else
        var issued := AuthCode(code, grant, now + CODE_TTL_SECONDS);
        w.(store := TableCall(w.store, SaveCode(issued)).0,
           issued := w.issued[code := issued], used := w.used + {code})
    case LoadCode(client, code) =>
      (match FoundCode(w.store, client, code)
       case None => w
       case Some(found) => w.(flights := w.flights + [CodeLoaded(client, found)]))
    case SpendCode(i) =>
      if !(i < |w.flights| && w.flights[i].CodeLoaded?) then w
      else
        var f := w.flights[i];
        var (q, answer) := TableCall(w.store, DeleteCode(f.code.code));
        if answer == Removed(false) then w.(flights := RemoveAt(w.flights, i))
        else w.(store := q, flights := w.flights[i := CodeDeleted(f.client, f.code)])
    case LoadForRefresh(client, refresh, now) =>
      (match LoadRefresh(w.store, client, refresh, now)
       case (q, None) => w.(store := q)
       case (q, Some(token)) => w.(store := q, flights := w.flights + [RefreshLoaded(client, token)]))
    case RevokeOld(i) =>
      if !(i < |w.flights| && w.flights[i].RefreshLoaded?) then w
      else
        var f := w.flights[i];
        w.(store := TableRevoke(w.store, f.token.token),
           flights := w.flights[i := RefreshRevoked(f.client, f.token)])
    case IssueFor(i, scopes, access, refresh, now) =>
      if !(i < |w.flights| && (w.flights[i].CodeDeleted? || w.flights[i].RefreshRevoked?)) then w
      else if access in w.used || refresh in w.used || access == refresh then w
      else IssueStep(w, i, scopes, access, refresh, now)
    case Abandon(i) => if i < |w.flights| then w.(flights := RemoveAt(w.flights, i)) else w
    case UseAccess(access, now) => w.(store := LoadAccess(w.store, access, now).0)
    case RevokeToken(token) => if token in w.origin then w.(store := TableRevoke(w.store, token)) else w
    case DisconnectAll => w.(store := TableCall(w.store, Clear).0)
  }

  // `_issue`, and the history it leaves. It fails if the client has been forgotten meanwhile.
  function IssueStep(w: World, i: nat, scopes: seq<string>, access: Hash, refresh: Hash, now: int): World
    requires i < |w.flights| && (w.flights[i].CodeDeleted? || w.flights[i].RefreshRevoked?)
  {
    var f := w.flights[i];
    var grant := if f.CodeDeleted? then f.code.grant.(client := f.client)
                 else Rotated(f.token.grant, f.client, scopes);
    var (q, answer) := Issue(w.store, grant, access, refresh, now);
    var flights := RemoveAt(w.flights, i);
    if answer != Done then w.(flights := flights)
    else
      var root := if f.CodeDeleted? then f.code.code
                  else if f.token.token in w.origin then w.origin[f.token.token] else "";
      World(q, flights, w.issued, w.origin[access := root][refresh := root], w.used + {access, refresh},
            if f.CodeDeleted? then w.direct + [root] else w.direct)
  }

  function Run(w: World, events: seq<Event>): World {
    if events == [] then w else Step(Run(w, events[..|events| - 1]), events[|events| - 1])
  }

  // -- the invariant of every interleaving -------------------------------------------

  predicate SameParty(a: Grant, b: Grant) {
    a.client == b.client && a.resource == b.resource && a.subject == b.subject
  }

  // `h` is a token that descends from an issued code and was given to that code's party.
  ghost predicate Descends(w: World, h: Hash, grant: Grant) {
    h in w.origin && w.origin[h] in w.issued && SameParty(grant, w.issued[w.origin[h]].grant)
  }

  // A stored code is the one issued; a stored token descends from a code together with its partner.
  ghost predicate RowOk(w: World, h: Hash)
    requires h in w.store.rows
  {
    var row := w.store.rows[h];
    && RowClient(row) in w.store.clients
    && (if row.CodeRow? then h in w.issued && row.code == w.issued[h]
        else && Descends(w, h, row.token.grant)
             && row.partner in w.origin && w.origin[row.partner] == w.origin[h])
  }

  ghost predicate RowsOk(w: World) {
    && Paired(w.store)
    && (forall h | h in w.store.rows :: RowOk(w, h))
  }

  ghost predicate HistoryOk(w: World) {
    && w.issued.Keys !! w.origin.Keys
    && w.issued.Keys + w.origin.Keys <= w.used
    && (forall c | c in w.issued :: w.issued[c].code == c)
  }

  ghost predicate FlightOk(w: World, f: Flight) {
    match f
    case CodeLoaded(client, code) =>
      code.code in w.issued && code == w.issued[code.code] && client == code.grant.client
    case CodeDeleted(client, code) =>
      code.code in w.issued && code == w.issued[code.code] && client == code.grant.client
    case RefreshLoaded(client, t) => Descends(w, t.token, t.grant) && client == t.grant.client
    case RefreshRevoked(client, t) => Descends(w, t.token, t.grant) && client == t.grant.client
  }

  predicate Live(w: World, code: Hash) {
    code in w.store.rows
  }

  // A code is still stored, or held by one request that spent it, or has its one direct pair.
  ghost predicate SpentOnce(w: World) {
    && (forall i, j | 0 <= i < j < |w.direct| :: w.direct[i] != w.direct[j])
    && (forall i | 0 <= i < |w.direct| :: w.direct[i] in w.issued && !Live(w, w.direct[i]))
    && (forall i | 0 <= i < |w.flights| && w.flights[i].CodeDeleted? ::
          && !Live(w, w.flights[i].code.code)
          && w.flights[i].code.code !in w.direct
          && forall j | 0 <= j < |w.flights| && j != i && w.flights[j].CodeDeleted? ::
               w.flights[j].code.code != w.flights[i].code.code)
  }

  ghost predicate Inv(w: World) {
    && RowsOk(w)
    && HistoryOk(w)
    && (forall i | 0 <= i < |w.flights| :: FlightOk(w, w.flights[i]))
    && SpentOnce(w)
  }

  // Deleting rows in whole pairs keeps everything.
  lemma ShrinkKeepsInv(w: World, q: Table)
    requires Inv(w) && Paired(q) && q.clients == w.store.clients
    requires forall h | h in q.rows :: h in w.store.rows && q.rows[h] == w.store.rows[h]
    ensures Inv(w.(store := q))
  {
  }

  lemma RevokeShrinks(q: Table, h: Hash)
    requires Paired(q)
    ensures Paired(TableRevoke(q, h))
    ensures forall k | k in TableRevoke(q, h).rows :: k in q.rows && TableRevoke(q, h).rows[k] == q.rows[k]
    ensures h !in TableRevoke(q, h).rows
    ensures forall k | k in q.rows && !q.rows[k].CodeRow? && q.rows[k].partner == h ::
              k !in TableRevoke(q, h).rows
  {
  }

  lemma StepKeepsInv(w: World, e: Event)
    requires Inv(w)
    ensures Inv(Step(w, e))
  {
    match e
    case Register(_, _) =>
    case Sweep(now) =>
      SweepKeepsPairs(w.store, now);
      ShrinkKeepsInv(w, TableSweep(w.store, now));
    case GrantCode(_, _, _) => GrantKeepsInv(w, e);
    case LoadCode(_, _) => LoadCodeKeepsInv(w, e);
    case SpendCode(_) => SpendKeepsInv(w, e);
    case LoadForRefresh(_, h, _) =>
      RevokeShrinks(w.store, h);
      ShrinkKeepsInv(w, TableRevoke(w.store, h));
      LoadRefreshKeepsInv(w, e);
    case RevokeOld(i) => RevokeOldKeepsInv(w, e);
    case IssueFor(_, _, _, _, _) => IssueKeepsInv(w, e);
    case Abandon(i) =>
      if i < |w.flights| {
        DropFlight(w, i);
      }
    case UseAccess(h, _) =>
      RevokeShrinks(w.store, h);
      ShrinkKeepsInv(w, TableRevoke(w.store, h));
    case RevokeToken(h) =>
      RevokeShrinks(w.store, h);
      ShrinkKeepsInv(w, TableRevoke(w.store, h));
    case DisconnectAll =>
  }

  lemma GrantKeepsRows(w: World, e: Event)
    requires Inv(w) && e.GrantCode? && Step(w, e) != w
    ensures RowsOk(Step(w, e))
  {
    hide FlightOk, SpentOnce, FreshPair, LoadRefresh, LoadAccess, FoundCode;
  }

  lemma GrantKeepsInv(w: World, e: Event)
    requires Inv(w) && e.GrantCode?
    ensures Inv(Step(w, e))
  {
    var w' := Step(w, e);
    if w' != w {
      GrantKeepsRows(w, e);
      forall i | 0 <= i < |w.flights|
        ensures FlightOk(w', w.flights[i])
      {
        assert FlightOk(w, w.flights[i]);
      }
      assert SpentOnce(w') by {
        assert forall c | c in w.issued :: Live(w', c) == Live(w, c);
        assert forall i | 0 <= i < |w.flights| :: FlightOk(w, w.flights[i]);
      }
      hide RowOk, Paired, FlightOk, SpentOnce;
    }
  }

  lemma LoadCodeKeepsInv(w: World, e: Event)
    requires Inv(w) && e.LoadCode?
    ensures Inv(Step(w, e))
  {
  }

  lemma SpendKeepsInv(w: World, e: Event)
    requires Inv(w) && e.SpendCode?
    ensures Inv(Step(w, e))
  {
    var w' := Step(w, e);
    if e.flight < |w.flights| && w.flights[e.flight].CodeLoaded? {
      var f := w.flights[e.flight];
      assert FlightOk(w, f);
      if f.code.code in w.store.rows {
        assert RowOk(w, f.code.code);
        ShrinkKeepsInv(w, w'.store);
        MarkDeleted(w.(store := w'.store), e.flight);
        assert w' == w.(store := w'.store, flights := w.flights[e.flight := CodeDeleted(f.client, f.code)]);
      } else {
        DropFlight(w, e.flight);
        assert w' == w.(flights := RemoveAt(w.flights, e.flight));
      }
    }
  }

  lemma MarkDeleted(w: World, i: nat)
    requires Inv(w) && i < |w.flights| && w.flights[i].CodeLoaded?
    requires !Live(w, w.flights[i].code.code) && w.flights[i].code.code !in w.direct
    requires forall j | 0 <= j < |w.flights| && w.flights[j].CodeDeleted? ::
               w.flights[j].code.code != w.flights[i].code.code
    ensures Inv(w.(flights := w.flights[i := CodeDeleted(w.flights[i].client, w.flights[i].code)]))
  {
  }

  lemma DropFlight(w: World, i: nat)
    requires Inv(w) && i < |w.flights|
    ensures Inv(w.(flights := RemoveAt(w.flights, i)))
  {
  }

  lemma LoadRefreshKeepsInv(w: World, e: Event)
    requires Inv(w) && e.LoadForRefresh?
    requires Inv(w.(store := TableRevoke(w.store, e.refresh)))
    ensures Inv(Step(w, e))
  {
    var w' := Step(w, e);
    if |w'.flights| > |w.flights| {
      var f := w'.flights[|w.flights|];
      assert w' == w.(flights := w.flights + [f]);
      assert RowOk(w, f.token.token);
      AddFlight(w, f);
    }
  }

  lemma AddFlight(w: World, f: Flight)
    requires Inv(w) && FlightOk(w, f) && !f.CodeDeleted?
    ensures Inv(w.(flights := w.flights + [f]))
  {
  }

  lemma RevokeOldKeepsInv(w: World, e: Event)
    requires Inv(w) && e.RevokeOld?
    ensures Inv(Step(w, e))
  {
  }

  predicate Issues(w: World, e: Event) {
    && e.IssueFor?
    && e.flight < |w.flights|
    && (w.flights[e.flight].CodeDeleted? || w.flights[e.flight].RefreshRevoked?)
    && e.access !in w.used && e.refresh !in w.used && e.access != e.refresh
  }

  // The code a redeemed code or rotated token descends from.
  function Root(w: World, f: Flight): Hash
    requires f.CodeDeleted? || (f.RefreshRevoked? && f.token.token in w.origin)
  {
    if f.CodeDeleted? then f.code.code else w.origin[f.token.token]
  }

  function IssuedGrant(f: Flight, scopes: seq<string>): Grant
    requires f.CodeDeleted? || f.RefreshRevoked?
  {
    if f.CodeDeleted? then f.code.grant.(client := f.client) else Rotated(f.token.grant, f.client, scopes)
  }

  /** What an issue does, when the client is still registered: two rows of one descent. */
  lemma IssueStepIs(w: World, e: Event)
    requires Inv(w) && Issues(w, e)
    ensures FlightOk(w, w.flights[e.flight])
    ensures var f := w.flights[e.flight];
            var grant := IssuedGrant(f, e.scopes);
            var w' := Step(w, e);
            && Root(w, f) in w.issued && SameParty(grant, w.issued[Root(w, f)].grant)
            && w'.issued == w.issued && w'.flights == RemoveAt(w.flights, e.flight)
            && if grant.client in w.store.clients then
                 && w'.store == Table(w.store.clients,
                      w.store.rows[e.access := AccessRow(FreshPair(grant, e.access, e.refresh, e.now).0, e.refresh)]
                                  [e.refresh := RefreshRow(FreshPair(grant, e.access, e.refresh, e.now).1, e.access)])
                 && w'.origin == w.origin[e.access := Root(w, f)][e.refresh := Root(w, f)]
                 && w'.used == w.used + {e.access, e.refresh}
                 && w'.direct == (if f.CodeDeleted? then w.direct + [f.code.code] else w.direct)
               else w' == w.(flights := w'.flights)
  {
  }

  lemma IssueRows(w: World, e: Event)
    requires Inv(w) && Issues(w, e)
    ensures RowsOk(Step(w, e))
  {
    var w' := Step(w, e);
    forall h | h in w'.store.rows
      ensures RowOk(w', h)
    {
      if h in w.store.rows {
        IssueOldRow(w, e, h);
      } else {
        IssueNewRow(w, e, h);
      }
    }
    var (a, r) := FreshPair(IssuedGrant(w.flights[e.flight], e.scopes), e.access, e.refresh, e.now);
    CallKeepsPairs(w.store, SavePair(a, r));
    hide Paired, RowOk;
  }

  lemma IssueOldRow(w: World, e: Event, h: Hash)
    requires Inv(w) && Issues(w, e) && h in w.store.rows
    ensures h in Step(w, e).store.rows && RowOk(Step(w, e), h)
  {
  }

  lemma IssueNewRow(w: World, e: Event, h: Hash)
    requires Inv(w) && Issues(w, e) && h in Step(w, e).store.rows && h !in w.store.rows
    ensures RowOk(Step(w, e), h)
  {
  }

  lemma IssueHistory(w: World, e: Event)
    requires Inv(w) && Issues(w, e)
    ensures HistoryOk(Step(w, e))
  {
  }

  lemma IssueFlights(w: World, e: Event, i: nat)
    requires Inv(w) && Issues(w, e) && i < |Step(w, e).flights|
    ensures FlightOk(Step(w, e), Step(w, e).flights[i])
  {
  }

  lemma IssueSpendsOnce(w: World, e: Event)
    requires Inv(w) && Issues(w, e)
    ensures SpentOnce(Step(w, e))
  {
    IssueStepIs(w, e);
    var w' := Step(w, e);
    forall i | 0 <= i < |w'.flights|
      ensures w'.flights[i] == w.flights[if i < e.flight then i else i + 1]
    {
    }
    assert forall c | c in w.issued :: Live(w', c) ==> Live(w, c);
  }

  lemma IssueKeepsInv(w: World, e: Event)
    requires Inv(w) && e.IssueFor?
    ensures Inv(Step(w, e))
  {
    if Issues(w, e) {
      IssueRows(w, e);
      IssueHistory(w, e);
      IssueSpendsOnce(w, e);
      forall i: nat | i < |Step(w, e).flights| {
        IssueFlights(w, e, i);
      }
    }
  }

  lemma StartInv()
    ensures Inv(START)
  {
  }

  lemma {:induction false} RunKeepsInv(events: seq<Event>)
    ensures Inv(Run(START, events))
  {
    if events == [] {
      StartInv();
    } else {
      RunKeepsInv(events[..|events| - 1]);
      StepKeepsInv(Run(START, events[..|events| - 1]), events[|events| - 1]);
    }
  }

  /** A stored token that belongs to the client, resource and subject of the code it descends
      from, with its other half stored beside it and of the same descent. */
  ghost predicate WholeAndBound(w: World, h: Hash)
    requires h in w.store.rows && !w.store.rows[h].CodeRow?
  {
    var row := w.store.rows[h];
    && Descends(w, h, row.token.grant)
    && row.partner in w.store.rows
    && (var other := w.store.rows[row.partner];
        && other.AccessRow? == row.RefreshRow? && !other.CodeRow? && other.partner == h)
    && row.partner in w.origin && w.origin[row.partner] == w.origin[h]
  }

  /** Every run, however its requests interleave: stored tokens are whole and bound to their
      code's party, and no code has two direct pairs. */
  lemma LineageKept(events: seq<Event>)
    ensures var w := Run(START, events);
            && (forall h | h in w.store.rows && !w.store.rows[h].CodeRow? :: WholeAndBound(w, h))
            && (forall i, j | 0 <= i < j < |w.direct| :: w.direct[i] != w.direct[j])
  {
    RunKeepsInv(events);
    var w := Run(START, events);
    assert forall h | h in w.store.rows :: RowOk(w, h);
  }

  // -- live pairs of one code --------------------------------------------------------

  // A stored token that descends from the code `c`.
  predicate Holds(w: World, h: Hash, c: Hash) {
    h in w.store.rows && !w.store.rows[h].CodeRow? && h in w.origin && w.origin[h] == c
  }

  ghost predicate NoneHolds(w: World, c: Hash) {
    forall h :: !Holds(w, h, c)
  }

  /** At most one live pair: stored access tokens of the code are one token, and so are stored
      refresh tokens. */
  ghost predicate OnePair(w: World, c: Hash) {
    forall h, k | Holds(w, h, c) && Holds(w, k, c) && w.store.rows[h].AccessRow? == w.store.rows[k].AccessRow? :: h == k
  }

  // Every token descends from a code whose direct pair was issued.
  ghost predicate DirectOk(w: World) {
    forall h | h in w.origin :: w.origin[h] in w.direct
  }

  // An issue that stores a pair of the code `c`, its direct one or a rotated one.
  predicate IssuesOf(w: World, e: Event, c: Hash) {
    && Issues(w, e)
    && IssuedGrant(w.flights[e.flight], e.scopes).client in w.store.clients
    && (w.flights[e.flight].CodeDeleted? || w.flights[e.flight].token.token in w.origin)
    && Root(w, w.flights[e.flight]) == c
  }

  predicate Rotates(w: World, e: Event, c: Hash) {
    IssuesOf(w, e, c) && w.flights[e.flight].RefreshRevoked?
  }

  // Nothing new is stored for the code.
  ghost predicate Shrinks(w: World, w': World, c: Hash) {
    forall h | Holds(w', h, c) :: Holds(w, h, c) && w'.store.rows[h] == w.store.rows[h]
  }

  lemma IssueElsewhereShrinks(w: World, e: Event, c: Hash)
    requires Inv(w) && Issues(w, e) && !IssuesOf(w, e, c)
    ensures Shrinks(w, Step(w, e), c)
  {
    IssueStepIs(w, e);
    forall h | h in w.store.rows
      ensures RowOk(w, h) && h in w.used
    {
    }
    hide Step, FreshPair, Paired, SpentOnce, FlightOk, RowOk;
  }

  lemma GrantShrinks(w: World, e: Event, c: Hash)
    requires Inv(w) && e.GrantCode?
    ensures Shrinks(w, Step(w, e), c)
  {
    forall h | h in w.store.rows
      ensures RowOk(w, h) && h in w.used
    {
    }
    hide RowOk, Paired, SpentOnce, FlightOk;
  }

  lemma StepShrinks(w: World, e: Event, c: Hash)
    requires Inv(w) && !IssuesOf(w, e, c)
    ensures Shrinks(w, Step(w, e), c)
  {
    hide Inv, IssuesOf, FreshPair, DictExpired, RowExpired, RowClient, Rotated;
    if e.GrantCode? {
      GrantShrinks(w, e, c);
    } else if e.IssueFor? && Issues(w, e) {
      IssueElsewhereShrinks(w, e, c);
    }
  }

  /** What storing a pair of the code adds, and that it takes nothing away. */
  lemma IssueAdds(w: World, e: Event, c: Hash)
    requires Inv(w) && IssuesOf(w, e, c)
    ensures var w' := Step(w, e);
            && e.access != e.refresh && !Holds(w, e.access, c) && !Holds(w, e.refresh, c)
            && Holds(w', e.access, c) && w'.store.rows[e.access].AccessRow?
            && Holds(w', e.refresh, c) && w'.store.rows[e.refresh].RefreshRow?
            && (forall h | h != e.access && h != e.refresh ::
                  (Holds(w', h, c) <==> Holds(w, h, c))
                  && (Holds(w, h, c) ==> w'.store.rows[h] == w.store.rows[h]))
  {
    IssueStepIs(w, e);
    forall h | h in w.store.rows
      ensures RowOk(w, h) && h in w.used
    {
    }
    hide Step, FreshPair, Paired, SpentOnce, FlightOk, RowOk;
  }

  // A stored token of the code has its other half stored, of the other kind.
  lemma OtherHalf(w: World, h: Hash, c: Hash)
    requires Inv(w) && Holds(w, h, c)
    ensures var p := w.store.rows[h].partner;
            Holds(w, p, c) && w.store.rows[p].AccessRow? != w.store.rows[h].AccessRow? && w.store.rows[p].partner == h
  {
    assert RowOk(w, h);
  }

  /** One issue: afterwards there is at most one live pair of the code exactly when no token of the
      code was stored before. */
  lemma OnePairAfterIssueIff(w: World, e: Event, c: Hash)
    requires Inv(w) && IssuesOf(w, e, c)
    ensures OnePair(Step(w, e), c) <==> NoneHolds(w, c)
  {
    IssueAdds(w, e, c);
    var w' := Step(w, e);
    hide Step, Inv;
    if h :| Holds(w, h, c) {
      OtherHalf(w, h, c);
      var p := w.store.rows[h].partner;
      assert Holds(w', h, c) && Holds(w', p, c);
    }
  }

  lemma StepKeepsDirect(w: World, e: Event)
    requires Inv(w) && DirectOk(w)
    ensures DirectOk(Step(w, e))
  {
    if Issues(w, e) {
      IssueStepIs(w, e);
      hide Step, FreshPair;
    }
    hide Inv;
  }

  lemma {:induction false} RunKeepsDirect(events: seq<Event>)
    ensures DirectOk(Run(START, events))
  {
    if events != [] {
      RunKeepsDirect(events[..|events| - 1]);
      RunKeepsInv(events[..|events| - 1]);
      StepKeepsDirect(Run(START, events[..|events| - 1]), events[|events| - 1]);
    }
  }

  // A code's first pair finds no token of it stored.
  lemma DirectIsFirst(w: World, e: Event, c: Hash)
    requires Inv(w) && DirectOk(w) && IssuesOf(w, e, c) && w.flights[e.flight].CodeDeleted?
    ensures c !in w.direct && NoneHolds(w, c)
    ensures forall f | f in w.flights :: !RefreshOf(w, f, c)
  {
  }

  /** At every moment of the run, at most one live pair of the code. */
  ghost predicate AlwaysOnePair(events: seq<Event>, c: Hash) {
    OnePair(Run(START, events), c) && (events == [] || AlwaysOnePair(events[..|events| - 1], c))
  }

  /** Every rotation that stores a pair of the code does so while no token of the code is stored. */
  ghost predicate RotatesAlone(events: seq<Event>, c: Hash) {
    events == []
    || (var before, e := events[..|events| - 1], events[|events| - 1];
        && RotatesAlone(before, c)
        && (Rotates(Run(START, before), e, c) ==> NoneHolds(Run(START, before), c)))
  }

  lemma ShrinksKeepsOnePair(w: World, w': World, c: Hash)
    requires Shrinks(w, w', c) && OnePair(w, c)
    ensures OnePair(w', c)
  {
  }

  /** Over every run, however its requests interleave or end: the code never has two live pairs
      exactly when each of its rotations issues while no token of the code is stored. */
  lemma {:induction false} OnePairIff(events: seq<Event>, c: Hash)
    ensures AlwaysOnePair(events, c) <==> RotatesAlone(events, c)
  {
    if events != [] {
      var before, e := events[..|events| - 1], events[|events| - 1];
      var w := Run(START, before);
      OnePairIff(before, c);
      RunKeepsInv(before);
      RunKeepsDirect(before);
      hide Step, Inv, DirectOk, OnePair, NoneHolds, Issues;
      if IssuesOf(w, e, c) {
        OnePairAfterIssueIff(w, e, c);
        if w.flights[e.flight].CodeDeleted? {
          DirectIsFirst(w, e, c);
        }
      } else {
        StepShrinks(w, e, c);
        if AlwaysOnePair(before, c) {
          ShrinksKeepsOnePair(w, Step(w, e), c);
        }
      }
    }
  }

  // -- a schedule under which that holds ---------------------------------------------

  // A refresh request under way whose token descends from the code.
  predicate RefreshOf(w: World, f: Flight, c: Hash) {
    (f.RefreshLoaded? || f.RefreshRevoked?) && f.token.token in w.origin && w.origin[f.token.token] == c
  }

  ghost predicate OneRefreshUnderWay(w: World, c: Hash) {
    forall i, j | 0 <= i < j < |w.flights| :: !(RefreshOf(w, w.flights[i], c) && RefreshOf(w, w.flights[j], c))
  }

  /** At every moment at most one refresh of the code is under way. Everything else is free: requests
      for other codes, redemptions of the code itself, sweeps, checks and revocations, and a request
      that ends early is simply no longer under way. */
  ghost predicate OneRefreshAtATime(events: seq<Event>, c: Hash) {
    OneRefreshUnderWay(Run(START, events), c) && (events == [] || OneRefreshAtATime(events[..|events| - 1], c))
  }

  // A loaded refresh holds the code's one refresh token; a revoked one leaves the code none.
  ghost predicate FlightAlone(w: World, f: Flight, c: Hash) {
    match f
    case RefreshLoaded(_, t) => forall h | Holds(w, h, c) && w.store.rows[h].RefreshRow? :: h == t.token
    case RefreshRevoked(_, _) => NoneHolds(w, c)
    case _ => true
  }

  ghost predicate Alone(w: World, c: Hash) {
    && OnePair(w, c)
    && forall f | f in w.flights && RefreshOf(w, f, c) :: FlightAlone(w, f, c)
  }

  lemma ShrinksKeepsFlight(w: World, w': World, f: Flight, c: Hash)
    requires Shrinks(w, w', c) && FlightAlone(w, f, c)
    ensures FlightAlone(w', f, c)
  {
  }

  // Steps that add no refresh and store nothing for the code.
  lemma ShrinksKeepsAlone(w: World, w': World, c: Hash)
    requires Alone(w, c) && Shrinks(w, w', c)
    requires forall f | f in w'.flights && RefreshOf(w', f, c) :: f in w.flights && RefreshOf(w, f, c)
    ensures Alone(w', c)
  {
    ShrinksKeepsOnePair(w, w', c);
    forall f | f in w'.flights && RefreshOf(w', f, c)
      ensures FlightAlone(w', f, c)
    {
      ShrinksKeepsFlight(w, w', f, c);
    }
  }

  // A refresh just loaded holds a stored token of the code, so with one pair its only refresh token.
  lemma LoadedIsAlone(w: World, e: Event, f: Flight, c: Hash)
    requires Inv(w) && OnePair(w, c) && e.LoadForRefresh?
    requires f in Step(w, e).flights && f !in w.flights && RefreshOf(w, f, c)
    ensures f.RefreshLoaded? && FlightAlone(w, f, c)
  {
    assert RowOk(w, f.token.token);
    assert Holds(w, f.token.token, c);
    hide Inv;
  }

  lemma LoadKeepsAlone(w: World, e: Event, c: Hash)
    requires Inv(w) && Alone(w, c) && e.LoadForRefresh?
    ensures Alone(Step(w, e), c)
  {
    StepShrinks(w, e, c);
    var w' := Step(w, e);
    assert w'.origin == w.origin;
    hide Step, Inv, OnePair, FlightAlone, Shrinks;
    ShrinksKeepsOnePair(w, w', c);
    forall f | f in w'.flights && RefreshOf(w', f, c)
      ensures FlightAlone(w', f, c)
    {
      if f !in w.flights {
        LoadedIsAlone(w, e, f, c);
      }
      ShrinksKeepsFlight(w, w', f, c);
    }
  }

  lemma RevokeEndsPair(w: World, f: Flight, c: Hash)
    requires Inv(w) && f.RefreshLoaded? && FlightAlone(w, f, c)
    ensures NoneHolds(w.(store := TableRevoke(w.store, f.token.token)), c)
  {
    var w' := w.(store := TableRevoke(w.store, f.token.token));
    forall h
      ensures !Holds(w', h, c)
    {
      if Holds(w', h, c) {
        assert Holds(w, h, c) && w'.store.rows[h] == w.store.rows[h];
        OtherHalf(w, h, c);
        hide Inv;
        assert false;
      }
    }
  }

  lemma RevokeOldKeepsAlone(w: World, e: Event, c: Hash)
    requires Inv(w) && Alone(w, c) && e.RevokeOld?
    ensures Alone(Step(w, e), c)
  {
    StepShrinks(w, e, c);
    var w' := Step(w, e);
    ShrinksKeepsOnePair(w, w', c);
    forall f | f in w'.flights && RefreshOf(w', f, c)
      ensures FlightAlone(w', f, c)
    {
      if f in w.flights {
        ShrinksKeepsFlight(w, w', f, c);
      } else {
        var was := w.flights[e.flight];
        assert RefreshOf(w, was, c) && f == RefreshRevoked(was.client, was.token);
        RevokeEndsPair(w, was, c);
        assert forall h :: Holds(w', h, c) == Holds(w.(store := w'.store), h, c);
      }
    }
  }

  // A request still under way after an issue is another one than the issue's.
  lemma FlightsRemain(flights: seq<Flight>, i: nat, g: Flight) returns (k: nat)
    requires i < |flights| && g in RemoveAt(flights, i)
    ensures k < |flights| && k != i && flights[k] == g
  {
    var j :| 0 <= j < |RemoveAt(flights, i)| && RemoveAt(flights, i)[j] == g;
    k := if j < i then j else j + 1;
  }

  // An issue leaves the descent of the other requests' tokens alone.
  lemma IssueKeepsRoots(w: World, e: Event, g: Flight, k: nat, c: Hash)
    requires Inv(w) && Issues(w, e) && k < |w.flights| && w.flights[k] == g
    ensures RefreshOf(Step(w, e), g, c) <==> RefreshOf(w, g, c)
  {
    IssueStepIs(w, e);
    assert FlightOk(w, w.flights[k]);
    hide Step, FreshPair, RowsOk, SpentOnce;
  }

  // After the issue no refresh of the code is under way any more.
  lemma IssueEndsRefreshes(w: World, e: Event, c: Hash, g: Flight)
    requires Inv(w) && OneRefreshUnderWay(w, c) && IssuesOf(w, e, c) && g in Step(w, e).flights
    requires w.flights[e.flight].CodeDeleted? ==> forall f | f in w.flights :: !RefreshOf(w, f, c)
    ensures !RefreshOf(Step(w, e), g, c)
  {
    IssueStepIs(w, e);
    hide Step, FreshPair, Inv;
    var k := FlightsRemain(w.flights, e.flight, g);
    IssueKeepsRoots(w, e, g, k, c);
    assert w.flights[k] in w.flights;
  }

  lemma IssueKeepsAlone(w: World, e: Event, c: Hash)
    requires Inv(w) && DirectOk(w) && Alone(w, c) && OneRefreshUnderWay(w, c) && IssuesOf(w, e, c)
    ensures NoneHolds(w, c) && Alone(Step(w, e), c)
  {
    var f := w.flights[e.flight];
    if f.CodeDeleted? {
      DirectIsFirst(w, e, c);
    } else {
      assert RefreshOf(w, f, c) && FlightAlone(w, f, c);
    }
    hide Step, Inv, DirectOk, NoneHolds, OnePair;
    OnePairAfterIssueIff(w, e, c);
    forall g | g in Step(w, e).flights
      ensures !RefreshOf(Step(w, e), g, c)
    {
      IssueEndsRefreshes(w, e, c, g);
    }
  }

  // The other steps: an issue for another code, and everything that is no part of a refresh.
  lemma OtherKeepsAlone(w: World, e: Event, c: Hash)
    requires Inv(w) && Alone(w, c) && !IssuesOf(w, e, c) && !e.LoadForRefresh? && !e.RevokeOld?
    ensures Alone(Step(w, e), c)
  {
    StepShrinks(w, e, c);
    var w' := Step(w, e);
    forall f | f in w'.flights && RefreshOf(w', f, c)
      ensures f in w.flights && RefreshOf(w, f, c)
    {
      OtherFlights(w, e, f);
    }
    hide Step, Inv;
    ShrinksKeepsAlone(w, w', c);
  }

  lemma OtherFlights(w: World, e: Event, f: Flight)
    requires Inv(w) && !e.LoadForRefresh? && !e.RevokeOld?
    requires f in Step(w, e).flights && (f.RefreshLoaded? || f.RefreshRevoked?)
    ensures f in w.flights && f.token.token in w.origin
    ensures f.token.token in Step(w, e).origin ==> Step(w, e).origin[f.token.token] == w.origin[f.token.token]
  {
    assert f in w.flights;
    var i :| 0 <= i < |w.flights| && w.flights[i] == f;
    assert FlightOk(w, w.flights[i]);
  }

  lemma {:induction false} RunKeepsAlone(events: seq<Event>, c: Hash)
    requires OneRefreshAtATime(events, c)
    ensures Alone(Run(START, events), c) && RotatesAlone(events, c)
  {
    if events != [] {
      var before, e := events[..|events| - 1], events[|events| - 1];
      var w := Run(START, before);
      RunKeepsAlone(before, c);
      RunKeepsInv(before);
      RunKeepsDirect(before);
      hide Step, Inv, DirectOk, Alone, NoneHolds, Issues;
      if IssuesOf(w, e, c) {
        IssueKeepsAlone(w, e, c);
      } else if e.LoadForRefresh? {
        LoadKeepsAlone(w, e, c);
      } else if e.RevokeOld? {
        RevokeOldKeepsAlone(w, e, c);
      } else {
        OtherKeepsAlone(w, e, c);
      }
    }
  }

  /** When refreshes of a code do not overlap, the code has at most one live pair at every moment,
      whatever else interleaves and whichever requests end without their exchange. */
  lemma AtMostOneLivePair(events: seq<Event>, c: Hash)
    requires OneRefreshAtATime(events, c)
    ensures AlwaysOnePair(events, c)
  {
    RunKeepsAlone(events, c);
    OnePairIff(events, c);
  }

  // -- and when they interleave ------------------------------------------------------

  /** The rest of the exchange of the first refresh under way: revoke the old pair, store the new. */
  function Rotate(w: World, access: Hash, refresh: Hash, now: int): World {
    Step(Step(w, RevokeOld(0)), IssueFor(0, [], access, refresh, now))
  }

  // Its new pair is stored, and every stored token outside the old pair stays.
  ghost predicate RotatedTo(w: World, w': World, access: Hash, refresh: Hash)
    requires w.flights != [] && w.flights[0].RefreshLoaded? && w.flights[0].token.token in w.origin
  {
    var t := w.flights[0].token.token;
    && Inv(w') && w'.flights == w.flights[1..] && w'.store.clients == w.store.clients
    && w'.used == w.used + {access, refresh}
    && w'.origin == w.origin[access := w.origin[t]][refresh := w.origin[t]]
    && access in w'.store.rows && w'.store.rows[access].AccessRow? && w'.store.rows[access].partner == refresh
    && forall h | h in w.store.rows && h != t && !w.store.rows[h].CodeRow? && w.store.rows[h].partner != t ::
         h in w'.store.rows && w'.store.rows[h] == w.store.rows[h]
  }

  lemma FirstFlightRotates(w: World, access: Hash, refresh: Hash, now: int)
    requires Inv(w) && w.flights != [] && w.flights[0].RefreshLoaded?
    requires w.flights[0].client in w.store.clients
    requires access !in w.used && refresh !in w.used && access != refresh
    ensures w.flights[0].token.token in w.origin
    ensures RotatedTo(w, Rotate(w, access, refresh, now), access, refresh)
  {
    FirstFlightRevokes(w);
    assert FlightOk(w, w.flights[0]);
    assert forall h | h in w.store.rows :: h in w.used by {
      assert forall h | h in w.store.rows :: RowOk(w, h);
    }
    hide Step, HistoryOk, SpentOnce, FlightOk, RowsOk;
    FirstFlightIssues(Step(w, RevokeOld(0)), access, refresh, now);
  }

  lemma FirstFlightRevokes(w: World)
    requires Inv(w) && w.flights != [] && w.flights[0].RefreshLoaded?
    ensures var w', f := Step(w, RevokeOld(0)), w.flights[0];
            && Inv(w') && w'.flights == [RefreshRevoked(f.client, f.token)] + w.flights[1..]
            && w'.store == TableRevoke(w.store, f.token.token) && w'.used == w.used && w'.origin == w.origin
  {
    StepKeepsInv(w, RevokeOld(0));
    hide Inv;
  }

  lemma FirstFlightIssues(w: World, access: Hash, refresh: Hash, now: int)
    requires Inv(w) && w.flights != [] && w.flights[0].RefreshRevoked?
    requires w.flights[0].client in w.store.clients
    requires access !in w.used && refresh !in w.used && access != refresh
    ensures FlightOk(w, w.flights[0])
    ensures var t := w.flights[0].token;
            var w' := Step(w, IssueFor(0, [], access, refresh, now));
            var (a, r) := FreshPair(Rotated(t.grant, w.flights[0].client, []), access, refresh, now);
            && Inv(w') && w'.flights == w.flights[1..] && w'.used == w.used + {access, refresh}
            && w'.origin == w.origin[access := w.origin[t.token]][refresh := w.origin[t.token]]
            && w'.store == Table(w.store.clients,
                 w.store.rows[access := AccessRow(a, refresh)][refresh := RefreshRow(r, access)])
  {
    IssueStepIs(w, IssueFor(0, [], access, refresh, now));
    StepKeepsInv(w, IssueFor(0, [], access, refresh, now));
  }

  /** A stored refresh token loaded by two requests before either goes on. */
  function LoadedTwice(w: World, r: Hash, now: int): World
    requires r in w.store.rows && w.store.rows[r].RefreshRow?
  {
    var load := LoadForRefresh(w.store.rows[r].token.grant.client, r, now);
    Step(Step(w, load), load)
  }

  lemma LoadTwice(w: World, r: Hash, now: int)
    requires Inv(w) && w.flights == [] && r in w.store.rows && w.store.rows[r].RefreshRow?
    requires !DictExpired(w.store.rows[r].token, now)
    ensures var t := w.store.rows[r].token;
            var f := RefreshLoaded(t.grant.client, t);
            && t.token == r && r in w.used && r in w.origin && t.grant.client in w.store.clients
            && LoadedTwice(w, r, now) == w.(flights := [f, f]) && Inv(LoadedTwice(w, r, now))
  {
    var load := LoadForRefresh(w.store.rows[r].token.grant.client, r, now);
    assert RowOk(w, r);
    StepKeepsInv(w, load);
    StepKeepsInv(Step(w, load), load);
    hide Inv;
  }

  // Rotating twice from the same token.
  lemma TwoRotationsFork(w: World, w2: World, w4: World, r: Hash, a1: Hash, r1: Hash, a2: Hash, r2: Hash)
    requires w.flights != [] && w.flights[0].RefreshLoaded? && w.flights[0].token.token == r && r in w.origin
    requires RotatedTo(w, w2, a1, r1)
    requires w2.flights == [w.flights[0]] && r in w2.origin && RotatedTo(w2, w4, a2, r2)
    requires r != a1 && r != r1 && a1 != r1 && a1 != a2 && a1 != r2 && a2 != r2
    ensures Holds(w4, a1, w.origin[r]) && Holds(w4, a2, w.origin[r])
    ensures w4.store.rows[a1].AccessRow? && w4.store.rows[a2].AccessRow?
    ensures !OnePair(w4, w.origin[r])
  {
    hide Inv;
  }

  /** Two refreshes of one stored token whose loads both come before either exchange leave two
      live pairs of one code: the second rotation issues while the first one's pair is stored. */
  lemma InterleavedRefreshesFork(w: World, r: Hash, now: int, a1: Hash, r1: Hash, a2: Hash, r2: Hash)
    requires Inv(w) && w.flights == [] && r in w.store.rows && w.store.rows[r].RefreshRow?
    requires !DictExpired(w.store.rows[r].token, now)
    requires a1 !in w.used && r1 !in w.used && a2 !in w.used && r2 !in w.used
    requires a1 != r1 && a1 != a2 && a1 != r2 && r1 != a2 && r1 != r2 && a2 != r2
    ensures var w' := Rotate(Rotate(LoadedTwice(w, r, now), a1, r1, now), a2, r2, now);
            && r in w.origin && Holds(w', a1, w.origin[r]) && Holds(w', a2, w.origin[r])
            && !OnePair(w', w.origin[r])
  {
    LoadTwice(w, r, now);
    var loaded := LoadedTwice(w, r, now);
    hide LoadedTwice, Rotate, Inv, Holds, OnePair;
    FirstFlightRotates(loaded, a1, r1, now);
    var first := Rotate(loaded, a1, r1, now);
    FirstFlightRotates(first, a2, r2, now);
    hide RotatedTo;
    TwoRotationsFork(loaded, first, Rotate(first, a2, r2, now), r, a1, r1, a2, r2);
  }

  // -- a code goes through -----------------------------------------------------------

  lemma GrantAndLoad(w: World, grant: Grant, code: Hash, now: int)
    requires RowsOk(w) && HistoryOk(w) && grant.client in w.store.clients && code !in w.used
    ensures var issued := AuthCode(code, grant, now + 300);
            Step(Step(w, GrantCode(grant, code, now)), LoadCode(grant.client, code))
            == w.(store := Table(w.store.clients, w.store.rows[code := CodeRow(issued)]),
                  issued := w.issued[code := issued], used := w.used + {code},
                  flights := w.flights + [CodeLoaded(grant.client, issued)])
  {
    StoredIsUsed(w);
    hide RowsOk, HistoryOk;
  }

  lemma SpendLast(w: World, client: ClientId, code: AuthCode)
    requires w.flights != [] && w.flights[|w.flights| - 1] == CodeLoaded(client, code)
    requires code.code in w.store.rows && w.store.rows[code.code].CodeRow?
    ensures var n := |w.flights| - 1;
            Step(w, SpendCode(n)) == w.(store := Table(w.store.clients, w.store.rows - {code.code}),
                                        flights := w.flights[..n] + [CodeDeleted(client, code)])
  {
  }

  lemma IssueLast(w: World, client: ClientId, code: AuthCode, access: Hash, refresh: Hash, now: int)
    requires w.flights != [] && w.flights[|w.flights| - 1] == CodeDeleted(client, code)
    requires client in w.store.clients && access !in w.used && refresh !in w.used && access != refresh
    requires access !in w.store.rows && refresh !in w.store.rows
    ensures var n, grant := |w.flights| - 1, code.grant.(client := client);
            var t := Step(w, IssueFor(n, [], access, refresh, now));
            && t.flights == w.flights[..n] && t.direct == w.direct + [code.code]
            && t.origin == w.origin[access := code.code][refresh := code.code]
            && t.store == Table(w.store.clients,
                 w.store.rows[access := AccessRow(Token(access, grant, Some(now + 3600)), refresh)]
                             [refresh := RefreshRow(Token(refresh, grant, Some(now + 2592000)), access)])
  {
    var n, grant := |w.flights| - 1, code.grant.(client := client);
    IssueExactly(w.store, grant, access, refresh, now);
    assert w.flights[n + 1..] == [];
    hide Issue;
  }

  lemma FourSteps(w: World, a: Event, b: Event, c: Event, d: Event)
    ensures Run(w, [a, b, c, d]) == Step(Step(Step(Step(w, a), b), c), d)
  {
    hide Step;
    var events := [a, b, c, d];
    assert events[..3] == [a, b, c] && [a, b, c][..2] == [a, b] && [a, b][..1] == [a] && [a][..0] == [];
    assert Run(w, [a]) == Step(w, a);
    assert Run(w, [a, b]) == Step(Step(w, a), b);
    assert Run(w, [a, b, c]) == Step(Step(Step(w, a), b), c);
  }

  lemma StoredIsUsed(w: World)
    requires RowsOk(w) && HistoryOk(w)
    ensures forall h | h in w.store.rows :: h in w.used
  {
    forall h | h in w.store.rows
      ensures h in w.used
    {
      assert RowOk(w, h);
    }
  }

  /** A code goes through: granted, loaded, spent and exchanged, it leaves in any store one pair for
      the party it was granted to, an hour and thirty days long, and is itself gone. */
  lemma CodeGoesThrough(w: World, grant: Grant, code: Hash, granted: int, access: Hash, refresh: Hash, now: int)
    requires Inv(w) && grant.client in w.store.clients
    requires code !in w.used && access !in w.used + {code} && refresh !in w.used + {code, access}
    ensures var n := |w.flights|;
            var t := Run(w, [GrantCode(grant, code, granted), LoadCode(grant.client, code), SpendCode(n),
                             IssueFor(n, [], access, refresh, now)]);
            && t.flights == w.flights && t.direct == w.direct + [code]
            && t.origin == w.origin[access := code][refresh := code]
            && t.store == Table(w.store.clients,
                 w.store.rows[access := AccessRow(Token(access, grant, Some(now + 3600)), refresh)]
                             [refresh := RefreshRow(Token(refresh, grant, Some(now + 2592000)), access)])
  {
    var n, issued := |w.flights|, AuthCode(code, grant, granted + 300);
    GrantAndLoad(w, grant, code, granted);
    StoredIsUsed(w);
    FourSteps(w, GrantCode(grant, code, granted), LoadCode(grant.client, code), SpendCode(n),
              IssueFor(n, [], access, refresh, now));
    hide Step, Inv, RowsOk, HistoryOk, Run;
    var loaded := Step(Step(w, GrantCode(grant, code, granted)), LoadCode(grant.client, code));
    SpendLast(loaded, grant.client, issued);
    var spent := Step(loaded, SpendCode(n));
    assert spent.store.rows == w.store.rows;
    assert loaded.flights[..n] == w.flights && spent.flights[..n] == w.flights;
    IssueLast(spent, grant.client, issued, access, refresh, now);
  }

  // -- what has ended stays ended ----------------------------------------------------

  predicate Passed(stamp: Option<int>, now: int) {
    stamp.Some? && stamp.value < now
  }

  // `h` is the token `t` or its partner.
  predicate SamePair(w: World, t: Hash, h: Hash)
    requires h in w.store.rows
  {
    t == h || (!w.store.rows[h].CodeRow? && w.store.rows[h].partner == t)
  }

  // The steps that end a stored code or token: spending, rotation, revocation of either half,
  // use of an expired half, a sweep past the expiry of either, and disconnecting all.
  predicate Ends(w: World, e: Event, h: Hash)
    requires h in w.store.rows
  {
    var row := w.store.rows[h];
    match e
    case SpendCode(i) => i < |w.flights| && w.flights[i].CodeLoaded? && w.flights[i].code.code == h && row.CodeRow?
    case RevokeOld(i) => i < |w.flights| && w.flights[i].RefreshLoaded? && SamePair(w, w.flights[i].token.token, h)
    case RevokeToken(t) => t in w.origin && SamePair(w, t, h)
    case UseAccess(t, now) =>
      && t in w.store.rows && w.store.rows[t].AccessRow? && SamePair(w, t, h)
      && Passed(w.store.rows[t].token.expiresAt, now) && w.store.rows[t].token.expiresAt != Some(0)
    case LoadForRefresh(client, t, now) =>
      && t in w.store.rows && w.store.rows[t].RefreshRow? && SamePair(w, t, h)
      && w.store.rows[t].token.grant.client == client
      && Passed(w.store.rows[t].token.expiresAt, now) && w.store.rows[t].token.expiresAt != Some(0)
    case Sweep(now) =>
      if row.CodeRow? then row.code.expiresAt < now
      else
        || Passed(row.token.expiresAt, now)
        || (row.partner in w.store.rows && !w.store.rows[row.partner].CodeRow?
            && Passed(w.store.rows[row.partner].token.expiresAt, now))
    case DisconnectAll => true
    case _ => false
  }

  lemma SweepEndsIff(w: World, now: int, h: Hash)
    requires Paired(w.store) && h in w.store.rows
    ensures h !in Step(w, Sweep(now)).store.rows <==> Ends(w, Sweep(now), h)
  {
    TableSweptExactly(w.store, now, h);
    hide TableSweep;
  }

  lemma RevocationEndsIff(w: World, e: Event, h: Hash)
    requires h in w.store.rows
    requires e.RevokeOld? || e.RevokeToken? || e.UseAccess? || e.LoadForRefresh?
    ensures h !in Step(w, e).store.rows <==> Ends(w, e, h)
  {
  }

  lemma OtherEndsIff(w: World, e: Event, h: Hash)
    requires h in w.store.rows
    requires !(e.RevokeOld? || e.RevokeToken? || e.UseAccess? || e.LoadForRefresh? || e.Sweep?)
    ensures h !in Step(w, e).store.rows <==> Ends(w, e, h)
  {
  }

  /** Those steps end it, and no other step does. */
  lemma EndsIff(w: World, e: Event, h: Hash)
    requires Inv(w) && h in w.store.rows
    ensures h !in Step(w, e).store.rows <==> Ends(w, e, h)
    ensures h in w.used
  {
    assert RowOk(w, h);
    hide Ends, Step;
    if e.Sweep? {
      SweepEndsIff(w, e.now, h);
    } else if e.RevokeOld? || e.RevokeToken? || e.UseAccess? || e.LoadForRefresh? {
      RevocationEndsIff(w, e, h);
    } else {
      OtherEndsIff(w, e, h);
    }
  }

  lemma UsedStays(w: World, e: Event)
    ensures w.used <= Step(w, e).used
  {
  }

  lemma GoneByStep(w: World, e: Event, h: Hash)
    requires h in w.used && h !in w.store.rows
    ensures h in Step(w, e).used && h !in Step(w, e).store.rows
  {
  }

  lemma {:induction false} GoneForGood(w: World, events: seq<Event>, h: Hash)
    requires h in w.used && h !in w.store.rows
    ensures h in Run(w, events).used && h !in Run(w, events).store.rows
  {
    if events != [] {
      GoneForGood(w, events[..|events| - 1], h);
      GoneByStep(Run(w, events[..|events| - 1]), events[|events| - 1], h);
    }
  }

  /** In every run a stored code or token ends by exactly the steps that should end it, and once it
      has ended nothing that happens later brings it back. */
  lemma EndedStaysEnded(before: seq<Event>, e: Event, after: seq<Event>, h: Hash)
    requires h in Run(START, before).store.rows
    ensures var w := Run(START, before);
            && (Ends(w, e, h) <==> h !in Step(w, e).store.rows)
            && (Ends(w, e, h) ==> h !in Run(Step(w, e), after).store.rows)
  {
    var w := Run(START, before);
    RunKeepsInv(before);
    EndsIff(w, e, h);
    hide Ends, Inv, Step;
    if Ends(w, e, h) {
      UsedStays(w, e);
      GoneForGood(Step(w, e), after, h);
    }
  }
}
