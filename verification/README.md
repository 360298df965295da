# Manifold, modelled and proved in Dafny

Manifold is a gateway that hot-reloads toolsets, issues and rotates OAuth tokens, re-exports upstream
tools, and rewrites queries and spreadsheet ranges. This project models the parts of it that carry hard
state or text properties and proves those properties for all inputs, all runs and all interleavings.
`dafny verify dfyconfig.toml` checks everything.

| file | component |
|---|---|
| `QueryText`, `StripPath`, `UnraidQuery` | the GraphQL token pattern, the one-pass leaf stripper against deletion from a selection tree, and the retry loop that uses it |
| `RegistryPass`, `Registry`, `RegistryProtocol`, `ReloadFixpoint` | one reload pass as a fold over decisions, the registry and runtime objects that carry it out, the lock/pending protocol as a state machine, and the pass over the config store |
| `Toolsets`, `ProxySource`, `Names` | toolset rows and their content hash, the proxy build that rewrites its own row, ordered key sets |
| `TokenStores`, `Provider` | the two token stores and the relation between them, the OAuth provider, and the lineage of every token over whole runs |
| `TokenRefresh`, `TokenManager` | access tokens for one upstream credential and any number of callers, and the manager object for one call at a time |
| `A1Notation`, `Paging`, `Headers` | A1 ranges, capped pages and the pages that follow, header rows |
| `AuditPrune`, `RegistrationGuard`, `Restore` | batched audit retention, the sliding window on registrations, the staged restore |
| `Text`, `Sequences`, `Wrappers` | Python string operations, sequences without repetitions, `Option` and `Result` |

Code that updates fields is a class whose methods are proved against a specification function
(`TokenStores`, `Provider`, `Toolsets`, `Registry`, `TokenManager`, `AuditPrune`, `RegistrationGuard`,
`Restore`, `UnraidQuery.Unraid`); loops are loops with invariants; the theorems are about those functions.
Protocols that interleave at awaits are state machines over events, and their theorems range over every
sequence of events.

## What the proofs found

Each of these is a lemma with the exact condition, or a concrete run, beside the property it limits.

- The two token stores differ in what the provider may do. Revoking the hash of a live authorization code
  deletes the code in SQLite and leaves it in memory; sweeping drops a pair with an expired access token in
  SQLite and keeps the refresh token in memory. Besides these, SQLite alone refuses a save under a taken hash
  or for a client that is not registered; every other call agrees (`CallAgreesIff`, `SweepAgreesIff`).
- A code has at most one live pair at every moment exactly when each of its rotations issues while no token of
  the code is stored (`OnePairIff`). That holds whenever refreshes of that code do not overlap
  (`AtMostOneLivePair`); two refreshes that both load one token first leave two live pairs
  (`InterleavedRefreshesFork`).
- A reload whose `rehash` raises leaves the runtime it had just started running, unrouted and never stopped
  (`RaisingRehashLeaks`); and a run that raises leaves a trigger that came during it flagged but unserved until
  somebody calls again (`RaisingRunWaitsForCall`).
- A proxy's export can grow without an edit: once an upstream has listed nothing, everything it lists next is
  exported; and an allow list that loses its last live tool stops filtering (`RebuildShrinksIff`).
- A token refresh is documented not to count as a configuration change (manifold/store/credentials.py:123-124), but
  the metadata write that follows it moves `updated_at`, which the content hash reads
  (`RefreshChangesHashUnlessSameSecond`). So a reload is a fixpoint exactly when no credential has moved since
  the hashes were taken: a proxy build that refreshes a shared credential makes the next reload rebuild every
  native toolset on it (`SecondReloadChangesNothingIff`, `SharedRefreshMoves`).
- Concurrent callers share one token request only after an answer that settles it. A lasting but empty token is
  served from the cache to everyone until the cache is dropped; a token that does not outlive the margin, or
  an unusable answer, sends the next caller out again (`AnswerSettlesIff`).
- Following `next_range` reaches the end of the sheet exactly when the cap is below 1000 or few enough rows
  remain: at the default cap of 1000 the second page is always the last (`OpenPages`).
- A whole-sheet range does not read back from its own rendering when the title holds a `!`, or begins or ends
  with a quote: the unquoting for a bare title strips every quote, and the `!` splits it
  (`WholeSheetReadsBackIff`). Ranges with cells are safe for any title (`BoundedRendersBack`).
- Duplicate headers can stay duplicate: a column already called `Qty_2` beside two called `Qty`
  (`DistinctUnlessClash`); rows read as objects then lose a cell (`ObjectsKeepCells`).

## Model

| member | source | states |
|---|---|---|
| QueryText.LexName | manifold/toolsets/unraid/__init__.py:92 | a maximal run of letters, digits and underscores that begins with no digit, in literal ranges, is one token |
| QueryText.LexArguments | manifold/toolsets/unraid/__init__.py:92 | from an opening parenthesis to the next closing one is one token, whatever is between |
| QueryText.LexMark | manifold/toolsets/unraid/__init__.py:92 | any other character that is no blank, and a parenthesis nothing closes, is its own token |
| QueryText.LexBlank | manifold/toolsets/unraid/__init__.py:92 | blanks give no token and end the one before; with the three above this fixes the tokens of every text |
| Text.OrdinarySpaces | manifold/toolsets/unraid/__init__.py:92 | space, tab and line ends are blank, and no printing ASCII character is |
| QueryText.LexAppend | manifold/toolsets/unraid/__init__.py:92 | lexing splits at any boundary that no token can straddle |
| QueryText.LexJoin | manifold/toolsets/unraid/__init__.py:132 | space-joined pieces lex to the pieces' own tokens, as long as none leaves a parenthesis open |
| QueryText.LexerPrinterRoundTrip | manifold/toolsets/unraid/__init__.py:92 | for any document at all, joining its tokens with spaces and lexing again gives the same tokens |
| QueryText.SplitDotted | manifold/toolsets/unraid/__init__.py:98 | a dotted path of plain field names splits back into its parts |
| StripPath.RunFields | manifold/toolsets/unraid/__init__.py:109-131 | the loop invariant over a whole selection set: the stack is the path of the enclosing fields, and what is written is the tree without the target leaf |
| StripPath.StripTokensRemoves | manifold/toolsets/unraid/__init__.py:95-132 | the scan of a printed document writes exactly the printed document with the leaf at the path removed |
| StripPath.RemoveEntries | manifold/toolsets/unraid/__init__.py:95-97 | removal takes out the leaves at that path and nothing else: every other field keeps its path, its arguments and its place |
| StripPath.GluedLexesBack | manifold/toolsets/unraid/__init__.py:92 | the stripped text of a well-formed document lexes back to the tokens of its tree |
| StripPath.StripTextRemovesLeaf | manifold/toolsets/unraid/__init__.py:95-132 | text to text: for every document of names and argument lists in literal character ranges, `strip_path` is removal from the tree, and the result is again the text of such a document |
| StripPath.OsIsStripped | manifold/toolsets/unraid/__init__.py:95-132 | one ordinary document end to end: dropping `info.os` from `query { info { os uptime } }` gives `query { info { uptime } }` |
| StripPath.StripLeaf | manifold/toolsets/unraid/__init__.py:95-132 | the token loop with its mutable stack, pending name and text computes that function |
| UnraidQuery.RemoveOneMore | manifold/toolsets/unraid/__init__.py:135-138 | removing one more leaf after a set of leaves is removing the larger set in one pass |
| UnraidQuery.SelectedAfterIff | manifold/toolsets/unraid/__init__.py:96-97 | after removing a set of paths a path is selected exactly when it was before and is not among them |
| UnraidQuery.StripAllTextPrunes | manifold/toolsets/unraid/__init__.py:135-138 | `strip_fields` as a fold over texts is one removal of the set of dropped paths from the tree |
| UnraidQuery.StripOrderIsFree | manifold/toolsets/unraid/__init__.py:135-138 | the result does not depend on the order or repetition of the dropped paths |
| UnraidQuery.StripIsIdempotent | manifold/toolsets/unraid/__init__.py:135-138 | stripping twice is stripping once |
| UnraidQuery.StripFields | manifold/toolsets/unraid/__init__.py:135-138 | the loop computes that fold |
| UnraidQuery.Unraid.QueryRaw | manifold/toolsets/unraid/__init__.py:175-193 | at most eight documents are sent; each retry adds one new path, named by the reply before it; no document sent selects a path known by then; and a server that only complains about selected leaves never makes it raise an overflow |
| UnraidQuery.AttemptsArePruned | manifold/toolsets/unraid/__init__.py:175-193 | every attempt carries exactly the original document without the paths known at that moment, although each is cut from the text of the one before |
| RegistryPass.FoldMounts | manifold/gateway/registry.py:398-450 | key by key: a pass mounts exactly the desired keys, each with the entry its own decision gives it |
| RegistryPass.PassMounts | manifold/gateway/registry.py:398-446 | field by field: a kept key keeps its entry; a built one has the new runtime, its route, the hash read after the build and no error; a failed build over a runtime notes its error and leaves runtime, route, title and hash as they were, and without one leaves a placeholder |
| RegistryPass.FailedIsTriedAgain | manifold/gateway/registry.py:400-427 | a key whose build failed is never up to date for the next pass, whatever is then desired or flagged; nor is one whose hash differs |
| RegistryPass.FoldStops | manifold/gateway/registry.py:448-455 | the runtimes replaced are exactly those whose key was built anew |
| RegistryPass.FoldReportsAll | manifold/gateway/registry.py:469-475 | the report's four lists together are the desired keys, as a multiset |
| RegistryPass.FoldReports | manifold/gateway/registry.py:398-452 | each desired key is on the list of its own decision |
| RegistryPass.ReportHasNoRepeats | manifold/gateway/registry.py:469-475 | with unique desired keys the four lists are disjoint and free of repetitions: they partition the desired keys |
| RegistryPass.MountedAfter | manifold/gateway/registry.py:407-447 | a mounted runtime is one just built or the one its own key had; a key that had a runtime still has one, failed build or not |
| RegistryPass.FoldKeepsApart | manifold/gateway/registry.py:439-463 | after a pass every route serves its own entry and no runtime serves two keys |
| RegistryPass.PassConserves | manifold/gateway/registry.py:439-468 | conservation: a runtime mounted before or just built is mounted, on the stop list once, or removed; never two of these and never none |
| Registry.StopListIsExact | manifold/gateway/registry.py:454-468 | the list to stop holds each runtime once and is exactly the old runtimes no longer mounted |
| Registry.Registry.ReloadOnce | manifold/gateway/registry.py:391-475 | one pass over the live dictionaries: a key is kept exactly when it serves, noted no error, is not flagged and has the desired hash; every desired key has the entry its decision calls for, field by field; the report follows the decisions; a runtime no longer mounted was stopped once and a mounted one never |
| Registry.Registry.SwapAndStop | manifold/gateway/registry.py:454-468 | both mappings change together and only then are the replaced and removed runtimes stopped |
| Registry.Registry.BuildAll | manifold/gateway/registry.py:398-452 | the loop over the desired toolsets: decisions follow the diff, built runtimes are new and running, and nothing served changes meanwhile |
| Registry.Registry.BuildRuntime | manifold/gateway/registry.py:409-446 | a failed build notes its error, on the runtime too, and changes neither the hash, the title, the route nor the runtime that keeps serving, or leaves a placeholder; a successful one is a started runtime that was never stopped |
| RegistryProtocol.NoLostTrigger | manifold/gateway/registry.py:378-393 | in every interleaving, whenever the lock is free and the last run completed, that run began its read after every call made so far; and runs plus one if pending never exceed the calls |
| RegistryProtocol.PassRuns | manifold/gateway/registry.py:391-475 | a run goes through: whatever is desired and whichever builds fail, its steps mount and route what the pass gives, stop what is replaced or removed in any order, and end it or begin the follow-up run if a call came meanwhile |
| RegistryProtocol.RunBeginsAfterCalls | manifold/gateway/registry.py:381-392 | a run that begins covers the calls made so far, and only the end of a run marks them covered |
| RegistryProtocol.ProbedIsRebuilt | manifold/gateway/registry.py:247-250 | a runtime a health probe has flagged is never kept again, in this run or any later one |
| RegistryProtocol.RaisingRunWaitsForCall | manifold/gateway/registry.py:384-393 | after a run that raises the lock is free, a trigger that came during it stays flagged and uncovered, and nothing runs until the next call, which covers them all |
| RegistryProtocol.FlaggedTriggerWaits | manifold/gateway/registry.py:381-389 | this happens: of two calls, the first one's run raising, neither is ever covered without a third |
| RegistryProtocol.ServingIsSafe | manifold/gateway/registry.py:457-468 | at every await routes and mounted agree key by key, and no routed runtime has been stopped, is about to be, or was left behind |
| RegistryProtocol.StartedIsMountedOrStoppedIff | manifold/gateway/registry.py:391-475 | between runs, every runtime ever started is mounted and never stopped, or unmounted and stopped exactly once, if and only if no rehash has ever raised |
| RegistryProtocol.RaisingRehashLeaks | manifold/gateway/registry.py:439 | the condition is needed: after a raising rehash its runtime is started, unrouted and never stopped, whatever happens later |
| RegistryProtocol.WantedKeyAlwaysServes | manifold/gateway/registry.py:410-438 | a key every desired list contains, once it has a runtime, has one at every later moment, whichever builds fail or runs raise |
| ReloadFixpoint.CollectDesired | manifold/gateway/source.py:39-61 | the loop over the rows gives the enabled rows in key order, without those whose credential waits or whose code is missing |
| ReloadFixpoint.DesiredInRows | manifold/gateway/source.py:39-61 | the desired list has no key twice, holds only wanted rows with their own hash, and every wanted row |
| ReloadFixpoint.DesiredExactly | manifold/gateway/source.py:39-61 | in key order and each once: the enabled rows, unless the credential waits to be connected or a native row has no code; each under its own title and hash |
| ReloadFixpoint.BuildsExactlyTheStale | manifold/gateway/registry.py:398-409 | a reload over the rows keeps a key exactly when it serves, did not fail last time, is not flagged and its row still has the mounted hash |
| ReloadFixpoint.BuildsMoveStamps | manifold/store/toolsets.py:67-75 | through any number of builds every row shows its credential's timestamp as the last build that refreshed it left it |
| ReloadFixpoint.SecondReloadRebuildsIff | manifold/gateway/registry.py:398-439 | exactly which keys a second reload builds with nothing edited or flagged, failures in the first included: those whose first build failed, and those whose credential's timestamp is not the one in the hash taken for them, before the pass or after their own proxy build |
| ReloadFixpoint.SharedRefreshMoves | manifold/gateway/proxy.py:65-76 | it happens without any edit: one build that refreshes a token has every native or kept toolset on that credential built again |
| ReloadFixpoint.NoRefreshNoMove | manifold/gateway/source.py:169-170 | and if no build of the first reload refreshed a token, exactly the keys whose build failed are built again right after it |
| ReloadFixpoint.SecondReloadChangesNothingIff | manifold/gateway/registry.py:391-475 | a second reload reports every desired key unchanged if and only if none failed in the first and no credential has moved since the hashes were taken, and then it keeps every entry and runtime, leaves the rows and builds nothing, proxies that rewrote their own row included |
| Toolsets.SameHashIff | manifold/store/toolsets.py:45-63 | two rows have one content hash exactly when settings, credential, its timestamp, enablement, disabled tools in any order and the proxy URL, prefix and lists agree |
| Toolsets.ToolsetsRepo.SyncSnapshot | manifold/store/toolsets.py:178-191 | the row's whole new upstream: the snapshot, the allow list cut to live tools, the deny list with new and still-live names, and no other row |
| Toolsets.SyncedIs | manifold/store/toolsets.py:178-191 | name by name: denied afterwards is what was denied or is newly denied and still listed, allowed what was allowed and still listed; sorted, without repeats, nothing else changed |
| Toolsets.ToolsetsRepo.UpdateUpstream | manifold/store/toolsets.py:159-176 | an edit replaces the upstream settings and keeps the stored snapshot |
| ProxySource.ApplyListsIs | manifold/gateway/proxy.py:250-256 | membership of the export: in the snapshot, allowed if there is an allow list, and not denied |
| ProxySource.ApplyListsInOrder | manifold/gateway/proxy.py:250-256 | the export keeps the order of the snapshot and each kept tool once for every time it stands there |
| ProxySource.BuildProxy | manifold/gateway/source.py:108-146 | a build fails exactly when the upstream is unreachable and no snapshot is stored; it serves the listed tools, or else the stored ones, that the lists let through; its row changes exactly when the list differs: names gone leave both lists, and names new since a stored snapshot are denied |
| ProxySource.RebuildIs | manifold/gateway/source.py:108-146 | the same of the specification the run theorems are about |
| ProxySource.BuildExportsRow | manifold/gateway/source.py:138-146 | what a build serves is what the row it leaves behind exports |
| ProxySource.RebuildSettles | manifold/gateway/source.py:129-140 | building again against the same list leaves the row as it is, which is why rehashing settles |
| ProxySource.RebuildShrinksIff | manifold/gateway/source.py:119-146 | one rebuild keeps the export within the previous one exactly under a guard on the stored row and the listed tools |
| ProxySource.ExportsOnlyShrink | manifold/gateway/source.py:119-146 | over any sequence of rebuilds with tools appearing, vanishing, returning or unreachable, the export never gains a name, given a stored snapshot and an allow list that keeps a live tool |
| ProxySource.EmptySnapshotForgets | manifold/gateway/source.py:129-137 | the first guard is needed: after an empty list, a name never exported before is exported |
| ProxySource.EmptiedAllowListOpens | manifold/store/toolsets.py:178-191 | the second guard is needed: an allow list that loses its last tool exports the others |
| TokenStores.CallAgreesIff | manifold/auth/sqlite_store.py:40-96 | one call from related states: equal answers and related states again exactly when the client is registered, hashes are fresh and no code hash is revoked |
| TokenStores.RevokeAgreesIff | manifold/auth/store.py:81-88 | revocation agrees exactly when the hash is not that of a live code |
| TokenStores.StoresAgree | manifold/auth/store.py:43-103 | every admissible sequence of calls from empty stores gets the same answers from both |
| TokenStores.CallKeepsPairs | manifold/auth/sqlite_store.py:55-77 | no call leaves half a pair in the table |
| TokenStores.SweepKeepsPairs | manifold/auth/sqlite_store.py:79-89 | neither does a sweep |
| TokenStores.SweepAgreesIff | manifold/auth/store.py:90-96 | the sweeps agree exactly when, pair by pair, the refresh token has expired if either half has |
| TokenStores.AccessExpiresFirst | manifold/auth/store.py:90-96 | the condition fails for the ordinary pair whose access token alone has expired: the sweeps differ on it |
| TokenStores.CallKeepsMutual | manifold/auth/store.py:60-103 | partner links point back after every call that saves fresh hashes, which is what the sweep of the dictionaries relies on |
| TokenStores.ViewIsMutual | manifold/auth/store.py:69-73 | and in every dictionary state that corresponds to a table of whole pairs |
| TokenStores.DictRevokedExactly | manifold/auth/store.py:81-88 | entry by entry: the token and its partner are gone from the three dictionaries, and nothing else |
| TokenStores.TableRevokedExactly | manifold/auth/sqlite_store.py:73-77 | in a table of whole pairs: the token and its partner, or the code, and nothing else |
| TokenStores.DictSweptExactly | manifold/auth/store.py:90-96 | entry by entry: codes and access tokens past their own expiry, and pairs whose refresh token is past it; a zero stamp does not expire |
| TokenStores.TableSweptExactly | manifold/auth/sqlite_store.py:79-89 | row by row: codes past their expiry, and tokens when their own or their partner's expiry has passed; a zero stamp expires |
| TokenStores.InMemoryTokenStore.Revoke | manifold/auth/store.py:81-88 | the dictionaries after dropping a token and its partner |
| TokenStores.InMemoryTokenStore.Sweep | manifold/auth/store.py:90-96 | one revocation per expired refresh token, in any order, gives the state that drops them with their partners |
| TokenStores.InMemoryTokenStore.SaveTokenPair | manifold/auth/store.py:69-73 | both tokens and the two partner links |
| TokenStores.SqliteTokenStore.SaveTokenPair | manifold/auth/sqlite_store.py:55-63 | both rows or, after a failed insert, neither |
| TokenStores.SqliteTokenStore.DeleteCode | manifold/auth/sqlite_store.py:47-51 | a code is deleted once; the answer says whether it was there |
| TokenStores.SqliteTokenStore.Revoke | manifold/auth/sqlite_store.py:73-77 | the row and every row whose partner it is |
| TokenStores.SqliteTokenStore.Sweep | manifold/auth/sqlite_store.py:79-89 | expired rows and the partners of expired rows |
| Provider.OAuthProvider.ToolsetForResource | manifold/auth/provider.py:96-107 | a key exactly when the normalised resource is the base URL, a slash and a mounted key without a slash |
| Provider.OAuthProvider.Authorize | manifold/auth/provider.py:109-137 | a code exactly for an authenticated admin and a mounted toolset, valid for 300 seconds and bound to that client, toolset and admin; the store after success and after each refusal |
| Provider.OAuthProvider.LoadAuthorizationCode | manifold/auth/provider.py:139-145 | a stored code, for the client it was issued to only |
| Provider.OAuthProvider.ExchangeAuthorizationCode | manifold/auth/provider.py:147-157 | the pair exists exactly when the code was still stored and both rows could be inserted: for the code's party, for an hour and for thirty days, naming each other; the code is gone even if the pair fails, and a spent code changes nothing |
| Provider.OAuthProvider.LoadRefreshToken | manifold/auth/provider.py:161-170 | found exactly when the client's own refresh token is stored under the hash with an expiry that is absent, zero or not before now; past it the pair is deleted, otherwise the store stays |
| Provider.OAuthProvider.ExchangeRefreshToken | manifold/auth/provider.py:172-184 | rotation: the old token and its partner go, and a new pair comes for the same resource and subject, with the scopes asked for or else the old ones, for an hour and thirty days; exactly when both rows can be inserted |
| Provider.OAuthProvider.VerifyToken | manifold/auth/provider.py:239-249 | accepted exactly when an access token is stored under the hash, its expiry is absent, zero or not before now, and its normalised resource is this toolset's; an expired one is deleted with its partner, and in every other case the store stays |
| Provider.LoadAccessExactly | manifold/auth/provider.py:186-193 | the same of the function that the runs use to present an access token |
| Provider.LoadRefreshExactly | manifold/auth/provider.py:161-170 | and of the one that loads a refresh token |
| Provider.IssueExactly | manifold/auth/provider.py:200-229 | issuing stores two rows that name each other, for 3600 and 2592000 seconds, or changes nothing |
| Provider.CodeGoesThrough | manifold/auth/provider.py:109-229 | in any reachable store: a code granted, loaded, spent and exchanged leaves exactly one new pair for the party it was granted to and is itself gone |
| Provider.EndedStaysEnded | manifold/auth/provider.py:147-229 | in every run a stored code or token ends by exactly the steps that should end it (spending, rotation, revocation of either half, use past its expiry, a sweep, disconnecting all), and nothing that happens later brings it back |
| Provider.LineageKept | manifold/auth/provider.py:147-229 | in every run, however requests interleave: stored tokens are whole pairs bound to the client, subject and resource of the code they descend from, and no code has two direct pairs |
| Provider.RunKeepsInv | manifold/auth/provider.py:109-229 | the invariant behind it, over codes, rows, requests under way and history |
| Provider.OnePairAfterIssueIff | manifold/auth/provider.py:200-229 | after one issue there is at most one live pair of the code exactly when no token of the code was stored before it |
| Provider.OnePairIff | manifold/auth/provider.py:109-229 | over every run, however requests interleave or end early: a code has at most one live pair at every moment if and only if each of its rotations issues while no token of the code is stored |
| Provider.AtMostOneLivePair | manifold/auth/provider.py:161-184 | that is so whenever refreshes of the code do not overlap, whatever else interleaves and whichever requests end without their exchange |
| Provider.InterleavedRefreshesFork | manifold/auth/provider.py:161-184 | two refreshes of one token that both load before either exchange leave two live pairs of one code |
| TokenRefresh.OneRefreshAtATime | manifold/auth/upstream.py:278-292 | with any number of callers at most one is past the lock, and a token from the cache or the store has more than 60 seconds left at its check |
| TokenRefresh.QuietIff | manifold/auth/upstream.py:278-331 | in every state, nobody can send a token request up to a deadline, in any interleaving without an edit, exactly when the state is settled: read off the cache, the stored credential and where the holder of the lock is |
| TokenRefresh.AnswerSettlesIff | manifold/auth/upstream.py:278-331 | for every answer: it is the last request for everyone if and only if it is `invalid_grant`, or a token that lasts (and is not empty, if the cache may be dropped), or the credential was refused, replaced or emptied meanwhile |
| TokenRefresh.WaitersShareOneRequest | manifold/auth/upstream.py:278-331 | in particular, after a lasting token or `invalid_grant` no caller waiting or arriving later sends another request, in any interleaving up to that time |
| TokenRefresh.UnusableAnswerIsRetried | manifold/auth/upstream.py:309-318 | after an unusable answer that leaves the credential as it was, the very next waiter sends its own request |
| TokenRefresh.RefreshChangesHashUnlessSameSecond | manifold/store/credentials.py:120-143 | a refresh leaves the content hash alone exactly when it falls in the same second as the last configuration change |
| TokenManager.TokenManager.AccessToken | manifold/auth/upstream.py:278-331 | one uninterrupted call: a cached token with more than 60 seconds left is returned, else a stored one, else the endpoint is asked, if at all; which error otherwise; what a successful refresh stores; and it is the protocol's run of one caller and touches no other credential |
| TokenManager.TokenManager.Refresh | manifold/auth/upstream.py:294-331 | asks exactly unless the status refuses or there is no refresh token; the row, the cache and the counter after each answer, with 3600 seconds where the answer names no lifetime |
| A1Notation.UpperCaseIs | manifold/toolsets/sheets/a1.py:18 | letter by letter against the two alphabets: a lower-case letter becomes the capital in its place, anything else stays |
| A1Notation.ColToIndex | manifold/toolsets/sheets/a1.py:15-22 | the loop reads letters as a bijective base 26 number and refuses exactly the texts with another character |
| A1Notation.IndexToCol | manifold/toolsets/sheets/a1.py:25-34 | the loop writes that number and refuses exactly negative indexes |
| A1Notation.ColumnsAndIndexes | manifold/toolsets/sheets/a1.py:8-34 | the two are inverse both ways on all naturals and all non-empty columns, and an index is below 18278 exactly when its column has at most three letters |
| A1Notation.ColumnsInOrder | manifold/toolsets/sheets/a1.py:15-34 | the numbering follows the order in which a sheet names its columns, shorter first and then by the alphabet; with the two inverses this fixes it |
| A1Notation.HalveDoubled | manifold/toolsets/sheets/a1.py:37-39 | unquoting undoes quoting for any title |
| A1Notation.ParseRange | manifold/toolsets/sheets/a1.py:76-112 | every parsed range has columns of at most three letters and no row zero |
| A1Notation.ParseCellIff | manifold/toolsets/sheets/a1.py:8 | the cell pattern both ways: a text is read as letters and digits exactly when it is an optional `$`, up to three letters, an optional `$`, digits and an optional final newline |
| A1Notation.ParseCellsIff | manifold/toolsets/sheets/a1.py:92-107 | the cell part both ways: a range is the result exactly when the text is one or two such cells, the first not empty and no row zero, with each row and column at its own end; anything else is refused |
| A1Notation.ParseCellBack | manifold/toolsets/sheets/a1.py:8 | a printed column and row match the cell pattern and read back to themselves |
| A1Notation.BoundedRowsExact | manifold/toolsets/sheets/a1.py:62-107 | for every range the parser produces and any rows from 1, restricting never fails and gives those rows, the same title whatever it holds, every given column bound, and A or ZZZ for a single open end |
| A1Notation.BoundedRendersBack | manifold/toolsets/sheets/a1.py:57-73 | and rendering that range parses to it again |
| A1Notation.WholeSheetReadsBackIff | manifold/toolsets/sheets/a1.py:57-91 | a whole-sheet range parses back from its rendering exactly when its title holds no `!` and neither begins nor ends with a quote |
| Headers.SuffixDuplicates | manifold/toolsets/sheets/shape.py:8-23 | the loop names every column by its filled name or, from the second of a name on, by that name and its number, and notes exactly those |
| Headers.HeadersAre | manifold/toolsets/sheets/shape.py:8-23 | said without the loop: each header is the trimmed cell, or `column_` and its number when blank, and from the second of one name on that name, `_` and which one of it it is |
| Text.StripIs | manifold/toolsets/sheets/shape.py:14 | trimming takes off blanks at both ends, all of them, and nothing else |
| Text.DecimalPlaces | manifold/toolsets/sheets/shape.py:14-17 | the number in a header is its decimal digits |
| Headers.ObjectIs | manifold/toolsets/sheets/shape.py:34-37 | a row read as an object has exactly the headers as keys, each with the cell of the last column of that header, missing cells empty |
| Headers.FirstsAreKept | manifold/toolsets/sheets/shape.py:8-23 | length is kept, and a column keeps its filled name exactly when it is the first of that name |
| Headers.NotedExactly | manifold/toolsets/sheets/shape.py:15-22 | a renamed column is noted with its old and new name, and nothing else is |
| Headers.DistinctUnlessClash | manifold/toolsets/sheets/shape.py:8-23 | the final headers are pairwise distinct exactly when no filled header equals another filled name, `_` and a number from 2 up to that name's count |
| Headers.QtyClashes | manifold/toolsets/sheets/shape.py:8-23 | such headers exist: `Qty`, `Qty`, `Qty_2` end up with a repeated name |
| Headers.ObjectsKeepCells | manifold/toolsets/sheets/shape.py:34-41 | rows read as objects keep every cell of every row under the same condition, and only then |
| Paging.PageIs | manifold/toolsets/sheets/__init__.py:132-168 | reading never fails; a page shows the first `cap` rows asked for, as a grid padded to the widest row or, when asked to or by default when it starts at row one, as objects keyed by headers made from its first row at that width, with numbers that count on from its first row; if there are more rows it names a range that parses to the same sheet and columns from the very next row on |
| Paging.RowNumbersAreTrue | manifold/toolsets/sheets/shape.py:31-48 | the numbers shown are the true sheet rows of the rows shown, with or without a header, and objects hold their row's cells |
| Paging.NextResolves | manifold/toolsets/sheets/__init__.py:107-123 | `next_range` resolves to the same sheet of the workbook, whatever its title and whether or not the first request named it |
| Paging.PagesAreContiguous | manifold/toolsets/sheets/__init__.py:229-268 | on any grid, following `next_range` repeats and skips no row |
| Paging.ClosedPages | manifold/toolsets/sheets/__init__.py:165-167 | a thousand-row range, as `next_range` names it, leads to the end of a grid without blank rows exactly when the cap is below 1000 or the range reaches that far |
| Paging.OpenPages | manifold/toolsets/sheets/__init__.py:229-268 | from any open-ended range on such a grid, the pages together are all the rows from the first on exactly when the cap is below 1000 or at most cap + 1000 rows remain |
| Paging.DefaultCapStopsShort | manifold/toolsets/sheets/__init__.py:165-167 | at the default cap, following `next_range` over 2001 rows does not reach them all |
| AuditPrune.AuditRepo.PruneBatch | manifold/store/audit.py:141-163 | one batch: old rows first, then, once none is left, the oldest rows above the cap, up to the batch size in all |
| AuditPrune.DropOldFirst | manifold/store/audit.py:141-163 | the rows a batch deletes by age are the first old ones: up to some place every old row is gone, from there on every row is left |
| AuditPrune.AuditRepo.RecordPrune | manifold/store/audit.py:165-175 | a new entry at the end of the prune log, of which the newest thirty are kept |
| AuditPrune.BatchKeepsPruning | manifold/gateway/prune.py:69-76 | what each batch keeps, and that a batch short of 500 ends with exactly the rows one step would keep |
| AuditPrune.AuditPruner.RunOnce | manifold/gateway/prune.py:61-81 | the run terminates, and whatever rows arrive in its pauses it ends with the newest `cap` of the rows not older than the cutoff out of all there ever were; the two counts say exactly how many went for which reason, and the prune log, cut to its newest thirty, gets one entry if any did |
| AuditPrune.KeptMeans | manifold/gateway/prune.py:1-3 | the one-step form: the fresh rows are all rows not before the cutoff, as often as they occur; at most `cap` of them stay, the last ones, and one goes only when `cap` newer ones stay |
| AuditPrune.PrunedStaysPruned | manifold/gateway/prune.py:61-63 | pruning again changes nothing |
| RegistrationGuard.RegistrationGuard.Register | manifold/auth/guard.py:46-63 | one POST: the times a window old are forgotten, and of the rest the window is full, or else the store is, or else the request is accepted and recorded; both refusals record nothing, and their retry times are the whole seconds left |
| RegistrationGuard.DecideAnswers | manifold/auth/guard.py:46-63 | the same of the function the run theorems are about |
| RegistrationGuard.WindowNeverOverflows | manifold/auth/guard.py:46-63 | over any whole run on a clock that never runs back, every interval of one window holds at most the maximum of accepted requests |
| RegistrationGuard.RefusesExactly | manifold/auth/guard.py:51-57 | the window check refuses exactly when the maximum of requests accepted in the whole run are less than a window old |
| RegistrationGuard.RetryAfterIsEnough | manifold/auth/guard.py:53-57 | after a window refusal, with none between, a request passes the window check exactly when the oldest held time is a window old, and waiting `retry_after` seconds is enough |
| Restore.DataDir.ApplyPending | manifold/store/snapshots.py:257-268 | the disk after every single file operation, and at the end: the staged file is the live one and the old database's files are gone |
| Restore.DataDir.ConfirmRestore | manifold/store/snapshots.py:237-249 | exactly a well-formed token of an uploaded file, with the snapshot written, is accepted; then its file is renamed to the pending one; every refusal, in that order, leaves the disk alone |
| Restore.TokenIff | manifold/store/snapshots.py:240 | a token is `incoming-`, eight digits, `T`, six digits, `Z-` and at least one digit, and nothing else |
| Restore.StagedIsNeverLost | manifold/store/snapshots.py:237-268 | with power cuts between any two file operations and any number of reboots, the most recently staged content is intact as the pending file, or as the live file with no old `-wal` or `-shm` beside it |
| Restore.BootOpensStaged | manifold/app.py:120-121 | the boot that gets through opens exactly that content, with nothing old beside it and nothing left to apply |
| Restore.RestoreGoesThrough | manifold/store/snapshots.py:237-268 | in any run, what is uploaded and confirmed is what the database opens with next, however many boots die on the way |
| Restore.NothingStagedNothingTouched | manifold/store/snapshots.py:259-261 | with nothing staged, booting or dying on the way touches no file; a refused request touches none; and staging never touches the live files |

## Left out

- Concurrency: the reload protocol, the token refresh protocol and interleaved token requests are state machines over values, cut at awaits; the classes beside them run one pass or one call at a time, so update in place and aliasing are not captured across awaits.
- UnraidQuery.Unraid.QueryRaw: documents with aliases, fragments, directives or several operations, and argument text with an inner `)`, have only the token-level results; concurrent calls sharing `dropped` are not modelled.
- RegistryProtocol.NoLostTrigger: asks that the last run to end completed, since a run that raises can leave triggers uncovered (`RaisingRunWaitsForCall`, `FlaggedTriggerWaits`); shutdown and drain timing are not modelled.
- ReloadFixpoint.SecondReloadRebuildsIff: rows stay fixed during a proxy build; an edit landing between a build's row read and its rehash is not modelled.
- ReloadFixpoint.DesiredInRows: unique keys come from the primary key of the toolsets table, modelled as a map.
- TokenStores.StoresAgree: sweeps are outside it, because the stores differ there; `SweepAgreesIff` gives the condition.
- Provider.OAuthProvider.Authorize: the code carries client, scopes, resource, subject and expiry, but not the redirect URI and the code challenge, which only the protocol library's handlers read; URL normalisation is a parameter; times are integers.
- Provider.AtMostOneLivePair: PKCE, client authentication and the expiry check on codes are done by those handlers; here they only show as requests that end early.
- Toolsets.ToolsetsRepo.UpdateUpstream: the row's `created_at` and `updated_at`, which no hash and no decision reads, are not modelled.
- TokenStores.InMemoryTokenStore.Sweep: requires partner links that point back, as every call with fresh hashes keeps them; for other links the outcome depends on the order of the dictionary.
- Registry.ToolsetRuntime.Stop: the wait for requests in flight and the callback that closes a proxy connection are not modelled.
- TokenRefresh.OneRefreshAtATime: one credential, since locks, cache entries and rows are per credential; failures of the metadata lookup count as unusable answers; consuming the connect state is not modelled.
- A1Notation.ParseRange: cell text is ASCII; Unicode digits accepted by the pattern are not modelled.
- Paging.OpenPages: the service is modelled as returning the rows that exist with trailing blank rows dropped; grids with blank rows have only the contiguity result, and a range whose first row is after its last is read as empty.
- Paging.RowNumbersAreTrue: cell values are strings.
- AuditPrune.AuditPruner.RunOnce: rows arrive between batches, not between the statements of one batch; timestamps are integers; vacuuming is not modelled.
- RegistrationGuard.RegistrationGuard.Register: requests are handled one at a time, and `max_per_window` is at least 1.
- Restore.StagedIsNeverLost: the content of the pre-restore snapshot, snapshot pruning and upload validation are not modelled; the move is one atomic rename within the data directory.
- HTTP clients and servers, routing, logging, SQL text, encryption, hashing and random tokens: hashes are injective and tokens fresh by assumption of the events, and each SQL statement or transaction is one step.
- The dispatcher, settings schema checks, sheet formatting and row search, audit middleware, export, and the user interface would add only single-branch facts.
