/** The two implementations of the token store: dictionaries with a partner map, and one table
    with a partner column. Times are integer seconds; they are only compared. */
module TokenStores {
  import opened Wrappers

  type Hash = string
  type ClientId = string

  /** Who a code or token was issued to, and for what. */
  datatype Grant = Grant(client: ClientId, scopes: seq<string>, resource: Option<string>, subject: Option<string>)

  datatype AuthCode = AuthCode(code: Hash, grant: Grant, expiresAt: int)

  /** An access or a refresh token; `token` is the stored hash. */
  datatype Token = Token(token: Hash, grant: Grant, expiresAt: Option<int>)

  // -- dictionaries ------------------------------------------------------------------

  datatype Dicts = Dicts(
    clients: map<ClientId, string>, codes: map<Hash, AuthCode>,
    access: map<Hash, Token>, refresh: map<Hash, Token>, partner: map<Hash, Hash>)

  function DictSavePair(m: Dicts, a: Token, r: Token): Dicts {
    m.(access := m.access[a.token := a], refresh := m.refresh[r.token := r],
       partner := m.partner[a.token := r.token][r.token := a.token])
  }

  function DictRevoke(m: Dicts, h: Hash): Dicts {
    var gone := if h in m.partner then {h, m.partner[h]} else {h};
    m.(access := m.access - gone, refresh := m.refresh - gone, partner := m.partner - gone)
  }

  // Python's `t.expires_at and t.expires_at < now`: a zero stamp never expires here.
  predicate DictExpired(t: Token, now: int) {
    t.expiresAt.Some? && t.expiresAt.value != 0 && t.expiresAt.value < now
  }

  // A set of hashes and their partners.
  function WithPartners(m: Dicts, hs: set<Hash>): set<Hash> {
    hs + set h | h in hs && h in m.partner :: m.partner[h]
  }

  function Dropping(m: Dicts, gone: set<Hash>): Dicts {
    m.(access := m.access - gone, refresh := m.refresh - gone, partner := m.partner - gone)
  }

  function ExpiredRefresh(m: Dicts, now: int): set<Hash> {
    set h | h in m.refresh && DictExpired(m.refresh[h], now)
  }

  // Expired codes and access tokens go alone.
  function DropExpired(m: Dicts, now: int): Dicts {
    m.(codes := map h | h in m.codes && !(m.codes[h].expiresAt < now) :: m.codes[h],
       access := map h | h in m.access && !DictExpired(m.access[h], now) :: m.access[h])
  }

  /** Expired refresh tokens go with their partner. */
  function DictSweep(m: Dicts, now: int): Dicts {
    Dropping(DropExpired(m, now), WithPartners(m, ExpiredRefresh(m, now)))
  }

  // Partners point at each other.
  ghost predicate Mutual(partner: map<Hash, Hash>) {
    forall h | h in partner :: partner[h] in partner && partner[partner[h]] == h
  }

  /** Partner links point back after every call: a new pair of fresh hashes links both ways, and
      revoking or sweeping takes out whole pairs. */
  lemma CallKeepsMutual(m: Dicts, c: Call)
    requires Mutual(m.partner)
    requires c.SavePair? ==> && c.access.token != c.refresh.token
                             && c.access.token !in m.partner && c.refresh.token !in m.partner
    ensures Mutual(DictCall(m, c).0.partner)
  {
  }

  lemma SweepKeepsMutual(m: Dicts, now: int)
    requires Mutual(m.partner)
    ensures Mutual(DictSweep(m, now).partner)
  {
  }

  /** And so they do in the dictionaries that hold what a table of whole pairs holds. */
  lemma ViewIsMutual(q: Table)
    requires Paired(q)
    ensures Mutual(View(q).partner)
  {
    assert forall h | h in q.rows && !q.rows[h].CodeRow? :: q.rows[q.rows[h].partner].partner == h;
  }

  lemma PartnersOf(m: Dicts, m': Dicts, hs: set<Hash>)
    requires m.partner == m'.partner
    ensures WithPartners(m, hs) == WithPartners(m', hs)
  {
  }

  lemma DropTwice(m: Dicts, a: set<Hash>, b: set<Hash>)
    ensures Dropping(Dropping(m, a), b) == Dropping(m, a + b)
  {
  }

  lemma RevokeOneMore(m: Dicts, done: set<Hash>, h: Hash)
    requires Mutual(m.partner)
    ensures DictRevoke(Dropping(m, WithPartners(m, done)), h) == Dropping(m, WithPartners(m, done + {h}))
  {
    var gone := WithPartners(m, done);
    var mate := if h in m.partner then {h, m.partner[h]} else {h};
    assert WithPartners(m, done + {h}) == gone + mate;
    assert h in m.partner ==> (m.partner[h] in gone <==> h in gone);
    var left := Dropping(m, gone);
    hide WithPartners;
    assert DictRevoke(left, h) == Dropping(left, mate) by {
      assert h in gone || h !in m.partner ==> m.partner.Keys * mate <= gone;
    }
    DropTwice(m, gone, mate);
  }

  // -- table -------------------------------------------------------------------------

  datatype Row =
    | CodeRow(code: AuthCode)
    | AccessRow(token: Token, partner: Hash)
    | RefreshRow(token: Token, partner: Hash)

  /** The tables `oauth_clients` and `oauth_tokens`; the second is keyed by `token_hash`. */
  datatype Table = Table(clients: map<ClientId, string>, rows: map<Hash, Row>)

  function RowClient(row: Row): ClientId {
    if row.CodeRow? then row.code.grant.client else row.token.grant.client
  }

  // `expires_at IS NOT NULL AND expires_at < ?`
  predicate RowExpired(row: Row, now: int) {
    match row
    case CodeRow(code) => code.expiresAt < now
    case AccessRow(t, _) => t.expiresAt.Some? && t.expiresAt.value < now
    case RefreshRow(t, _) => t.expiresAt.Some? && t.expiresAt.value < now
  }

  /** The insert fails on a taken key and on a client that is not registered. */
  predicate CanInsert(q: Table, h: Hash, client: ClientId) {
    h !in q.rows && client in q.clients
  }

  function Insert(q: Table, h: Hash, row: Row): Table {
    q.(rows := q.rows[h := row])
  }

  predicate CanSavePair(q: Table, a: Token, r: Token) {
    CanInsert(q, a.token, a.grant.client) && CanInsert(q, r.token, r.grant.client) && a.token != r.token
  }

  function TableSavePair(q: Table, a: Token, r: Token): Table {
    Insert(Insert(q, a.token, AccessRow(a, r.token)), r.token, RefreshRow(r, a.token))
  }

  /** `token_hash = h OR partner_hash = h`, whatever the kind of the row. */
  function TableRevoke(q: Table, h: Hash): Table {
    q.(rows := map k | k in q.rows && k != h && !(!q.rows[k].CodeRow? && q.rows[k].partner == h) :: q.rows[k])
  }

  function ExpiredKeys(q: Table, now: int): set<Hash> {
    (set h | h in q.rows && RowExpired(q.rows[h], now))
    + (set h | h in q.rows && !q.rows[h].CodeRow? && RowExpired(q.rows[h], now) :: q.rows[h].partner)
  }

  function TableSweep(q: Table, now: int): Table {
    q.(rows := q.rows - ExpiredKeys(q, now))
  }

  /** No half pair: every token row's partner row is there and points back, and every row is
      stored under its own hash. */
  ghost predicate Paired(q: Table) {
    forall h | h in q.rows ::
      match q.rows[h]
      case CodeRow(code) => code.code == h
      case AccessRow(t, p) =>
        t.token == h && p in q.rows && q.rows[p].RefreshRow? && q.rows[p].partner == h
      case RefreshRow(t, p) =>
        t.token == h && p in q.rows && q.rows[p].AccessRow? && q.rows[p].partner == h
  }

  // -- simulation --------------------------------------------------------------------

  /** The dictionaries that hold what the table holds. */
  function View(q: Table): Dicts {
    Dicts(q.clients,
          map h | h in q.rows && q.rows[h].CodeRow? :: q.rows[h].code,
          map h | h in q.rows && q.rows[h].AccessRow? :: q.rows[h].token,
          map h | h in q.rows && q.rows[h].RefreshRow? :: q.rows[h].token,
          map h | h in q.rows && !q.rows[h].CodeRow? :: q.rows[h].partner)
  }

  datatype Call =
    | GetClient(client: ClientId)
    | SaveClient(client: ClientId, metadata: string)
    | CountClients
    | SaveCode(code: AuthCode)
    | GetCode(h: Hash)
    | DeleteCode(h: Hash)
    | SavePair(access: Token, refresh: Token)
    | GetAccess(h: Hash)
    | GetRefresh(h: Hash)
    | Revoke(h: Hash)
    | Clear

  datatype Answer =
    | Done
    | Client(metadata: Option<string>)
    | Count(n: nat)
    | Code(found: Option<AuthCode>)
    | TokenFound(token: Option<Token>)
    | Removed(was: bool)
    | IntegrityError

  function Lookup<T>(m: map<string, T>, h: string): Option<T> {
    if h in m then Some(m[h]) else None
  }

  function DictCall(m: Dicts, c: Call): (Dicts, Answer) {
    match c
    case GetClient(id) => (m, Client(Lookup(m.clients, id)))
    case SaveClient(id, metadata) => (m.(clients := m.clients[id := metadata]), Done)
    case CountClients => (m, Count(|m.clients|))
    case SaveCode(code) => (m.(codes := m.codes[code.code := code]), Done)
    case GetCode(h) => (m, Code(Lookup(m.codes, h)))
    case DeleteCode(h) => (m.(codes := m.codes - {h}), Removed(h in m.codes))
    case SavePair(a, r) => (DictSavePair(m, a, r), Done)
    case GetAccess(h) => (m, TokenFound(Lookup(m.access, h)))
    case GetRefresh(h) => (m, TokenFound(Lookup(m.refresh, h)))
    case Revoke(h) => (DictRevoke(m, h), Done)
    case Clear => (Dicts(map[], map[], map[], map[], map[]), Done)
  }

  function TableCall(q: Table, c: Call): (Table, Answer) {
    match c
    case GetClient(id) => (q, Client(Lookup(q.clients, id)))
    case SaveClient(id, metadata) => (q.(clients := q.clients[id := metadata]), Done)
    case CountClients => (q, Count(|q.clients|))
    case SaveCode(code) =>
      if CanInsert(q, code.code, code.grant.client) then (Insert(q, code.code, CodeRow(code)), Done)
      else (q, IntegrityError)
    case GetCode(h) =>
      (q, Code(if h in q.rows && q.rows[h].CodeRow? then Some(q.rows[h].code) else None))
    case DeleteCode(h) =>
      var was := h in q.rows && q.rows[h].CodeRow?;
      (if was then q.(rows := q.rows - {h}) else q, Removed(was))
    case SavePair(a, r) =>
      if CanSavePair(q, a, r) then (TableSavePair(q, a, r), Done) else (q, IntegrityError)
    case GetAccess(h) =>
      (q, TokenFound(if h in q.rows && q.rows[h].AccessRow? then Some(q.rows[h].token) else None))
    case GetRefresh(h) =>
      (q, TokenFound(if h in q.rows && q.rows[h].RefreshRow? then Some(q.rows[h].token) else None))
    case Revoke(h) => (TableRevoke(q, h), Done)
    case Clear => (Table(map[], map[]), Done)
  }

  /** What the provider observes of its side of the contract: registered clients, fresh hashes,
      and revocation of tokens only. */
  predicate Admissible(q: Table, c: Call) {
    match c
    case SaveCode(code) => CanInsert(q, code.code, code.grant.client)
    case SavePair(a, r) => CanSavePair(q, a, r)
    case Revoke(h) => !(h in q.rows && q.rows[h].CodeRow?)
    case _ => true
  }

  // The dictionaries and the table hold the same thing under one hash.
  predicate SameAt(m: Dicts, q: Table, h: Hash) {
    && Lookup(m.codes, h) == (if h in q.rows && q.rows[h].CodeRow? then Some(q.rows[h].code) else None)
    && Lookup(m.access, h) == (if h in q.rows && q.rows[h].AccessRow? then Some(q.rows[h].token) else None)
    && Lookup(m.refresh, h) == (if h in q.rows && q.rows[h].RefreshRow? then Some(q.rows[h].token) else None)
    && Lookup(m.partner, h) == (if h in q.rows && !q.rows[h].CodeRow? then Some(q.rows[h].partner) else None)
  }

  lemma SameMap<T>(a: map<string, T>, b: map<string, T>)
    requires forall h :: Lookup(a, h) == Lookup(b, h)
    ensures a == b
  {
    forall h
      ensures h in a <==> h in b
      ensures h in a ==> a[h] == b[h]
    {
      assert Lookup(a, h) == Lookup(b, h);
    }
  }

  lemma SameView(m: Dicts, q: Table)
    requires m.clients == q.clients && forall h :: SameAt(m, q, h)
    ensures m == View(q)
  {
    var v := View(q);
    forall h
      ensures Lookup(m.codes, h) == Lookup(v.codes, h) && Lookup(m.access, h) == Lookup(v.access, h)
      ensures Lookup(m.refresh, h) == Lookup(v.refresh, h) && Lookup(m.partner, h) == Lookup(v.partner, h)
    {
      assert SameAt(m, q, h);
    }
    SameMap(m.codes, v.codes);
    SameMap(m.access, v.access);
    SameMap(m.refresh, v.refresh);
    SameMap(m.partner, v.partner);
  }

  lemma RevokeAgreesIff(q: Table, h: Hash)
    requires Paired(q)
    ensures DictRevoke(View(q), h) == View(TableRevoke(q, h)) <==> Admissible(q, Revoke(h))
  {
    var m' := DictRevoke(View(q), h);
    if Admissible(q, Revoke(h)) {
      forall k
        ensures SameAt(m', TableRevoke(q, h), k)
      {
        RevokeSameAt(q, h, k);
      }
      SameView(m', TableRevoke(q, h));
    } else {
      assert h in m'.codes && h !in View(TableRevoke(q, h)).codes;
    }
  }

  lemma RevokeSameAt(q: Table, h: Hash, k: Hash)
    requires Paired(q) && Admissible(q, Revoke(h))
    ensures SameAt(DictRevoke(View(q), h), TableRevoke(q, h), k)
  {
  }

  lemma SavesAgree(q: Table, c: Call)
    requires Paired(q) && Admissible(q, c) && (c.SaveCode? || c.SavePair?)
    ensures DictCall(View(q), c).0 == View(TableCall(q, c).0)
  {
    var m', q' := DictCall(View(q), c).0, TableCall(q, c).0;
    forall k
      ensures SameAt(m', q', k)
    {
    }
    SameView(m', q');
  }

  /** One call: the two stores answer alike and stay alike exactly when the call is admissible.
      The one way to be inadmissible without an integrity error is to revoke a code's hash,
      which the table deletes and the dictionaries keep. */
  lemma CallAgreesIff(q: Table, c: Call)
    requires Paired(q)
    ensures DictCall(View(q), c) == (View(TableCall(q, c).0), TableCall(q, c).1) <==> Admissible(q, c)
  {
    match c
    case Revoke(h) => RevokeAgreesIff(q, h);
    case SaveCode(_) => if Admissible(q, c) { SavesAgree(q, c); }
    case SavePair(_, _) => if Admissible(q, c) { SavesAgree(q, c); }
    case DeleteCode(h) =>
      var m', q' := DictCall(View(q), c).0, TableCall(q, c).0;
      forall k
        ensures SameAt(m', q', k)
      {
      }
      SameView(m', q');
    case Clear =>
      var v := View(Table(map[], map[]));
      assert v.codes == map[] && v.access == map[] && v.refresh == map[] && v.partner == map[];
    case _ =>
  }

  /** No call leaves half a pair in the table. */
  lemma CallKeepsPairs(q: Table, c: Call)
    requires Paired(q)
    ensures Paired(TableCall(q, c).0)
  {
  }

  ghost predicate AllAdmissible(q: Table, calls: seq<Call>)
    decreases calls
  {
    calls == [] || (Admissible(q, calls[0]) && AllAdmissible(TableCall(q, calls[0]).0, calls[1..]))
  }

  function DictAnswers(m: Dicts, calls: seq<Call>): seq<Answer>
    decreases calls
  {
    if calls == [] then []
    else [DictCall(m, calls[0]).1] + DictAnswers(DictCall(m, calls[0]).0, calls[1..])
  }

  function TableAnswers(q: Table, calls: seq<Call>): seq<Answer>
    decreases calls
  {
    if calls == [] then []
    else [TableCall(q, calls[0]).1] + TableAnswers(TableCall(q, calls[0]).0, calls[1..])
  }

  lemma {:induction false} AnswersAgreeFrom(q: Table, calls: seq<Call>)
    requires Paired(q) && AllAdmissible(q, calls)
    ensures DictAnswers(View(q), calls) == TableAnswers(q, calls)
    decreases calls
  {
    if calls != [] {
      CallAgreesIff(q, calls[0]);
      CallKeepsPairs(q, calls[0]);
      AnswersAgreeFrom(TableCall(q, calls[0]).0, calls[1..]);
    }
  }

  const EMPTY_TABLE := Table(map[], map[])
  const EMPTY_DICTS := Dicts(map[], map[], map[], map[], map[])

  /** Every admissible sequence of calls, from empty stores: the same answers. */
  lemma StoresAgree(calls: seq<Call>)
    requires AllAdmissible(EMPTY_TABLE, calls)
    ensures DictAnswers(EMPTY_DICTS, calls) == TableAnswers(EMPTY_TABLE, calls)
  {
    var v := View(EMPTY_TABLE);
    assert v.codes == map[] && v.access == map[] && v.refresh == map[] && v.partner == map[];
    AnswersAgreeFrom(EMPTY_TABLE, calls);
  }

  // -- sweep, where they differ ------------------------------------------------------

  /** The condition under which the sweeps agree: a pair's refresh token has expired exactly when
      either half has. It fails for the ordinary pair whose access token alone has expired. */
  ghost predicate PairsExpireTogether(q: Table, now: int) {
    forall h | h in q.rows && q.rows[h].RefreshRow? && q.rows[h].partner in q.rows ::
      DictExpired(q.rows[h].token, now)
      <==> (RowExpired(q.rows[h], now) || RowExpired(q.rows[q.rows[h].partner], now))
  }

  lemma SweepKeepsPairs(q: Table, now: int)
    requires Paired(q)
    ensures Paired(TableSweep(q, now))
  {
  }

  lemma PartnersGoTogether(q: Table, now: int, h: Hash)
    requires Paired(q) && h in q.rows && !q.rows[h].CodeRow?
    ensures h in ExpiredKeys(q, now)
         <==> RowExpired(q.rows[h], now) || RowExpired(q.rows[q.rows[h].partner], now)
    ensures h in ExpiredKeys(q, now) <==> q.rows[h].partner in ExpiredKeys(q, now)
  {
  }

  lemma SweepAgreesIff(q: Table, now: int)
    requires Paired(q)
    ensures DictSweep(View(q), now) == View(TableSweep(q, now)) <==> PairsExpireTogether(q, now)
  {
    var m', q' := DictSweep(View(q), now), TableSweep(q, now);
    if PairsExpireTogether(q, now) {
      forall k
        ensures SameAt(m', q', k)
      {
        SweepSameAt(q, now, k);
      }
      SameView(m', q');
    } else {
      var h :| && h in q.rows && q.rows[h].RefreshRow? && q.rows[h].partner in q.rows
               && !(DictExpired(q.rows[h].token, now)
                    <==> (RowExpired(q.rows[h], now) || RowExpired(q.rows[q.rows[h].partner], now)));
      PartnersGoTogether(q, now, h);
      DeadKeys(q, now, h);
      assert h in m'.refresh <==> h !in View(q').refresh;
    }
  }

  /** It does fail for the ordinary pair an hour after it was issued. */
  lemma AccessExpiresFirst()
    ensures var grant := Grant("client", [], None, None);
            var q := Table(map["client" := ""],
                           map["a" := AccessRow(Token("a", grant, Some(3600)), "r"),
                               "r" := RefreshRow(Token("r", grant, Some(2592000)), "a")]);
            Paired(q) && !PairsExpireTogether(q, 3601) && DictSweep(View(q), 3601) != View(TableSweep(q, 3601))
  {
    var grant := Grant("client", [], None, None);
    var q := Table(map["client" := ""],
                   map["a" := AccessRow(Token("a", grant, Some(3600)), "r"),
                       "r" := RefreshRow(Token("r", grant, Some(2592000)), "a")]);
    assert "r" in q.rows && q.rows["r"].RefreshRow? && q.rows["r"].partner in q.rows;
    SweepAgreesIff(q, 3601);
  }

  lemma DeadKeys(q: Table, now: int, h: Hash)
    requires Paired(q) && h in q.rows
    ensures h in WithPartners(View(q), ExpiredRefresh(View(q), now))
         <==> match q.rows[h]
              case CodeRow(_) => false
              case RefreshRow(t, _) => DictExpired(t, now)
              case AccessRow(_, p) => DictExpired(q.rows[p].token, now)
  {
    if !q.rows[h].CodeRow? {
      var p := q.rows[h].partner;
      assert q.rows[p].partner == h;
      assert p in View(q).partner && View(q).partner[p] == h;
    }
  }

  lemma SweepSameAt(q: Table, now: int, k: Hash)
    requires Paired(q) && PairsExpireTogether(q, now)
    ensures SameAt(DictSweep(View(q), now), TableSweep(q, now), k)
  {
    if k in q.rows {
      DeadKeys(q, now, k);
      if !q.rows[k].CodeRow? {
        PartnersGoTogether(q, now, k);
        var p := q.rows[k].partner;
        assert q.rows[p].partner == k;
      } else {
        CodesAreNotPartners(q, now, k);
      }
    } else {
      assert k !in View(q).partner;
    }
  }

  lemma CodesAreNotPartners(q: Table, now: int, k: Hash)
    requires Paired(q) && k in q.rows && q.rows[k].CodeRow?
    ensures k in ExpiredKeys(q, now) <==> RowExpired(q.rows[k], now)
  {
  }

  // -- what is gone, entry by entry --------------------------------------------------

  /** After a revocation in the dictionaries neither the token nor its partner is left in any of
      the three, and everything else is. */
  lemma DictRevokedExactly(m: Dicts, h: Hash, k: Hash)
    ensures var m' := DictRevoke(m, h);
            var gone := k == h || (h in m.partner && k == m.partner[h]);
            && m'.clients == m.clients && m'.codes == m.codes
            && Lookup(m'.access, k) == (if gone then None else Lookup(m.access, k))
            && Lookup(m'.refresh, k) == (if gone then None else Lookup(m.refresh, k))
            && Lookup(m'.partner, k) == (if gone then None else Lookup(m.partner, k))
  {
  }

  /** In a table of whole pairs a revocation deletes a token's row and its partner's, and of an
      authorization code's hash the code. */
  lemma TableRevokedExactly(q: Table, h: Hash)
    requires Paired(q)
    ensures TableRevoke(q, h).clients == q.clients
    ensures TableRevoke(q, h).rows == if h !in q.rows then q.rows
                                      else if q.rows[h].CodeRow? then q.rows - {h}
                                      else q.rows - {h, q.rows[h].partner}
  {
    forall k | k in q.rows && !q.rows[k].CodeRow? && q.rows[k].partner == h
      ensures h in q.rows && !q.rows[h].CodeRow? && q.rows[h].partner == k
    {
    }
  }

  /** A sweep of the dictionaries: expired codes and access tokens go; an expired refresh token
      goes together with its access token. A zero stamp does not expire. */
  lemma DictSweptExactly(m: Dicts, now: int, k: Hash)
    requires Mutual(m.partner)
    ensures var m' := DictSweep(m, now);
            var over := k in m.refresh && m.refresh[k].expiresAt.Some?
                        && m.refresh[k].expiresAt.value != 0 && m.refresh[k].expiresAt.value < now;
            var mate := Lookup(m.partner, k);
            var withMate := mate.Some? && mate.value in m.refresh && m.refresh[mate.value].expiresAt.Some?
                            && m.refresh[mate.value].expiresAt.value != 0
                            && m.refresh[mate.value].expiresAt.value < now;
            && m'.clients == m.clients
            && Lookup(m'.codes, k) == (if k in m.codes && m.codes[k].expiresAt < now then None
                                       else Lookup(m.codes, k))
            && Lookup(m'.refresh, k) == (if over || withMate then None else Lookup(m.refresh, k))
            && Lookup(m'.partner, k) == (if over || withMate then None else Lookup(m.partner, k))
            && Lookup(m'.access, k) == (if over || withMate then None
                                        else if k in m.access && m.access[k].expiresAt.Some?
                                                && m.access[k].expiresAt.value != 0
                                                && m.access[k].expiresAt.value < now then None
                                        else Lookup(m.access, k))
  {
    SweptWithMate(m, now, k);
    hide WithPartners;
  }

  lemma SweptWithMate(m: Dicts, now: int, k: Hash)
    requires Mutual(m.partner)
    ensures var hs := ExpiredRefresh(m, now);
            k in WithPartners(m, hs) <==> k in hs || (k in m.partner && m.partner[k] in hs)
  {
  }

  /** A sweep of a table of whole pairs: a code goes when its own stamp has passed, a token when
      its own or its partner's has. No row is exempt for a zero stamp. */
  lemma TableSweptExactly(q: Table, now: int, k: Hash)
    requires Paired(q)
    ensures TableSweep(q, now).clients == q.clients
    ensures Lookup(TableSweep(q, now).rows, k)
         == if k !in q.rows then None
            else match q.rows[k]
              case CodeRow(code) => if code.expiresAt < now then None else Some(q.rows[k])
              case _ =>
                var own, other := q.rows[k].token.expiresAt, q.rows[q.rows[k].partner].token.expiresAt;
                if (own.Some? && own.value < now) || (other.Some? && other.value < now) then None
                else Some(q.rows[k])
  {
    if k in q.rows {
      if q.rows[k].CodeRow? {
        CodesAreNotPartners(q, now, k);
      } else {
        PartnersGoTogether(q, now, k);
      }
    }
  }

  // -- the classes -------------------------------------------------------------------

  class InMemoryTokenStore {
    var clients: map<ClientId, string>
    var codes: map<Hash, AuthCode>
    var access: map<Hash, Token>
    var refresh: map<Hash, Token>
    var partner: map<Hash, Hash>

    function State(): Dicts
      reads this
    {
      Dicts(clients, codes, access, refresh, partner)
    }

    constructor ()
      ensures State() == EMPTY_DICTS && Mutual(partner)
    {
      clients, codes, access, refresh, partner := map[], map[], map[], map[], map[];
    }

    method SaveClient(client: ClientId, metadata: string)
      modifies this
      ensures State() == old(State()).(clients := old(clients)[client := metadata])
      ensures State() == DictCall(old(State()), Call.SaveClient(client, metadata)).0
    {
      clients := clients[client := metadata];
    }

    method SaveCode(code: AuthCode)
      modifies this
      ensures State() == old(State()).(codes := old(codes)[code.code := code])
      ensures State() == DictCall(old(State()), Call.SaveCode(code)).0
    {
      codes := codes[code.code := code];
    }

    method GetCode(h: Hash) returns (found: Option<AuthCode>)
      ensures found == if h in codes then Some(codes[h]) else None
      ensures Code(found) == DictCall(State(), Call.GetCode(h)).1
    {
      found := Lookup(codes, h);
    }

    method DeleteCode(h: Hash) returns (was: bool)
      modifies this
      ensures was == (h in old(codes)) && State() == old(State()).(codes := old(codes) - {h})
      ensures (State(), Removed(was)) == DictCall(old(State()), Call.DeleteCode(h))
    {
      was := h in codes;
      codes := codes - {h};
    }

    method SaveTokenPair(a: Token, r: Token)
      modifies this
      ensures State() == old(State()).(
                access := old(access)[a.token := a], refresh := old(refresh)[r.token := r],
                partner := old(partner)[a.token := r.token][r.token := a.token])
      ensures State() == DictSavePair(old(State()), a, r)
      ensures old(Mutual(partner)) && a.token != r.token && a.token !in old(partner) && r.token !in old(partner)
              ==> Mutual(partner)
    {
      access := access[a.token := a];
      refresh := refresh[r.token := r];
      partner := partner[a.token := r.token];
      partner := partner[r.token := a.token];
    }

    method Revoke(h: Hash)
      modifies this
      ensures State() == DictRevoke(old(State()), h)
      ensures old(Mutual(partner)) ==> Mutual(partner)
    {
      ghost var was := State();
      var mate := Lookup(partner, h);
      partner := partner - {h};
      access := access - {h};
      refresh := refresh - {h};
      if mate.Some? {
        partner := partner - {mate.value};
        access := access - {mate.value};
        refresh := refresh - {mate.value};
        DropTwice(was, {h}, {mate.value});
        assert {h} + {mate.value} == {h, mate.value};
      }
    }

    /** One revocation per expired refresh token, in any order. */
    method Sweep(now: int)
      requires Mutual(partner)
      modifies this
      ensures State() == DictSweep(old(State()), now) && Mutual(partner)
    {
      codes := map h | h in codes && !(codes[h].expiresAt < now) :: codes[h];
      access := map h | h in access && !DictExpired(access[h], now) :: access[h];
      var todo := set h | h in refresh && DictExpired(refresh[h], now);
      ghost var start, done := State(), {};
      assert start == DropExpired(old(State()), now) && todo == ExpiredRefresh(old(State()), now);
      assert WithPartners(start, {}) == {} && Dropping(start, {}) == start;
      hide WithPartners, Dropping, DictRevoke, DropExpired, ExpiredRefresh;
      while todo != {}
        invariant done + todo == ExpiredRefresh(old(State()), now)
        invariant State() == Dropping(start, WithPartners(start, done))
        decreases todo
      {
        var h :| h in todo;
        RevokeOneMore(start, done, h);
        todo := todo - {h};
        done := done + {h};
        Revoke(h);
      }
      assert done == ExpiredRefresh(old(State()), now);
      PartnersOf(old(State()), start, done);
      SweepKeepsMutual(old(State()), now);
    }

    method Clear()
      modifies this
      ensures State() == EMPTY_DICTS
    {
      clients, codes, access, refresh, partner := map[], map[], map[], map[], map[];
    }
  }

  class SqliteTokenStore {
    var clients: map<ClientId, string>
    var rows: map<Hash, Row>

    function State(): Table
      reads this
    {
      Table(clients, rows)
    }

    constructor ()
      ensures State() == EMPTY_TABLE
    {
      clients, rows := map[], map[];
    }

    method SaveClient(client: ClientId, metadata: string)
      modifies this
      ensures State() == Table(old(clients)[client := metadata], old(rows))
      ensures State() == TableCall(old(State()), Call.SaveClient(client, metadata)).0
    {
      clients := clients[client := metadata];
    }

    /** One INSERT under the primary key and the foreign key on the client. */
    method InsertRow(h: Hash, row: Row) returns (ok: bool)
      modifies this
      ensures ok <==> h !in old(rows) && RowClient(row) in old(clients)
      ensures State() == Table(old(clients), if ok then old(rows)[h := row] else old(rows))
    {
      ok := h !in rows && RowClient(row) in clients;
      if ok {
        rows := rows[h := row];
      }
    }

    method SaveCode(code: AuthCode) returns (ok: bool)
      modifies this
      ensures ok <==> code.code !in old(rows) && code.grant.client in old(clients)
      ensures State() == Table(old(clients), if ok then old(rows)[code.code := CodeRow(code)] else old(rows))
      ensures (State(), if ok then Done else IntegrityError)
           == TableCall(old(State()), Call.SaveCode(code))
    {
      ok := InsertRow(code.code, CodeRow(code));
    }

    method GetCode(h: Hash) returns (found: Option<AuthCode>)
      ensures found == if h in rows && rows[h].CodeRow? then Some(rows[h].code) else None
      ensures Code(found) == TableCall(State(), Call.GetCode(h)).1
    {
      found := if h in rows && rows[h].CodeRow? then Some(rows[h].code) else None;
    }

    method GetAccessToken(h: Hash) returns (found: Option<Token>)
      ensures found == if h in rows && rows[h].AccessRow? then Some(rows[h].token) else None
      ensures TokenFound(found) == TableCall(State(), GetAccess(h)).1
    {
      found := if h in rows && rows[h].AccessRow? then Some(rows[h].token) else None;
    }

    method GetRefreshToken(h: Hash) returns (found: Option<Token>)
      ensures found == if h in rows && rows[h].RefreshRow? then Some(rows[h].token) else None
      ensures TokenFound(found) == TableCall(State(), GetRefresh(h)).1
    {
      found := if h in rows && rows[h].RefreshRow? then Some(rows[h].token) else None;
    }

    method DeleteCode(h: Hash) returns (was: bool)
      modifies this
      ensures was == (h in old(rows) && old(rows)[h].CodeRow?)
      ensures State() == Table(old(clients), if was then old(rows) - {h} else old(rows))
      ensures (State(), Removed(was)) == TableCall(old(State()), Call.DeleteCode(h))
    {
      was := h in rows && rows[h].CodeRow?;
      if was {
        rows := rows - {h};
      }
    }

    /** BEGIN, two inserts, COMMIT; a failed insert rolls the other one back. */
    method SaveTokenPair(a: Token, r: Token) returns (ok: bool)
      modifies this
      ensures ok <==> && a.token !in old(rows) && r.token !in old(rows) && a.token != r.token
                      && a.grant.client in old(clients) && r.grant.client in old(clients)
      ensures State() == Table(old(clients),
                if ok then old(rows)[a.token := AccessRow(a, r.token)][r.token := RefreshRow(r, a.token)]
                else old(rows))
      ensures (State(), if ok then Done else IntegrityError)
           == TableCall(old(State()), SavePair(a, r))
    {
      var begun := rows;
      ok := InsertRow(a.token, AccessRow(a, r.token));
      if ok {
        ok := InsertRow(r.token, RefreshRow(r, a.token));
      }
      if !ok {
        rows := begun;
      }
    }

    method Revoke(h: Hash)
      modifies this
      ensures State() == TableRevoke(old(State()), h)
    {
      rows := map k | k in rows && !(k == h || (!rows[k].CodeRow? && rows[k].partner == h)) :: rows[k];
    }

    method Sweep(now: int)
      modifies this
      ensures State() == TableSweep(old(State()), now)
    {
      var expired := set h | h in rows && RowExpired(rows[h], now);
      var partners := set h | h in rows && !rows[h].CodeRow? && RowExpired(rows[h], now) :: rows[h].partner;
      rows := map k | k in rows && k !in expired + partners :: rows[k];
    }

    method Clear()
      modifies this
      ensures State() == EMPTY_TABLE
    {
      clients := map[];
      rows := map[];
    }
  }
}
