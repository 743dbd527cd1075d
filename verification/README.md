# Verified model of the delivery platform's core

This project models the parts of the platform whose mistakes would be hard to see from
outside, and proves what their comments and documentation promise of them.

| file | what it models |
|---|---|
| `CanonicalJson.dfy` | JSON values as text, a parser for it, and the key-sorted canonical text |
| `LedgerDigest.dfy`, `LedgerChain.dfy` | what a ledger row's hash covers, the integrity walk, what a head hash fixes |
| `LedgerProtocol.dfy`, `LedgerAppend.dfy` | concurrent appends as a state machine over transactions, locks, failures and clocks; one append with its retries |
| `SlidingWindow.dfy` | the in-process rate limiter against a specification that forgets nothing |
| `RedisWindow.dfy` | the shared rate limiter: the atomic script, key expiry, clock error, fallback |
| `TenantScope.dfy` | the query rewriting that confines a request to one organization, over a row store |
| `Sessions.dfy` | the per-request session check over whole runs of logins, refreshes and revocations |
| `Capacity.dfy` | working days, available hours, utilisation by practice |
| `FuzzyMatch.dfy` | the command palette's matcher |
| `FinancialTriage.dfy`, `CommercialTriage.dfy`, `ScheduleTriage.dfy`, `ResourceTriage.dfy`, `RaidTriage.dfy`, `ExecutiveTriage.dfy` | the triage aggregators, on `Lists.dfy` (filters, sums, stable sorting, grouping) and `Clusters.dfy` |
| `Options.dfy`, `Strings.dfy` | optional values, searching in strings |

JSON text follows sections 4, 5 and 7 of RFC 8259; keys are ordered by UTF-16 code unit as in
section 3.2.3 of RFC 8785, except that index-like keys come first in numeric order, as
property enumeration has them. Retry-After is section 10.2.3 of RFC 9110. SHA-256 is an
uninterpreted function; where a result needs it to be free of collisions, the statement says
"or here is a collision" instead of assuming it. Clocks, random members, ids, lookups that
may fail, locale comparisons, lower-casing and the keyword vocabulary are parameters.

`dafny verify dfyconfig.toml` verifies the project.

## Where the code does less than its documentation says

Each of these is modelled as the code has it, with a lemma that gives an input and, where
there is one, the exact condition under which the promise holds.

- The sweep drops keys idle for ten minutes. The limiter counts, caps, names reset times and
  is foretold by a look as documented if and only if the rule's window is no longer than that;
  the 15-minute registration rule's is (`SlidingWindow.FaithfulExactly`,
  `SlidingWindow.InstancesCap`, `SlidingWindow.ResetAtExact`, `SlidingWindow.PeekForetellsHit`,
  `SlidingWindow.RegisterRuleForgets`).
- The shared script keeps to the full-history specification for every rule with a limit of at
  least one, and so differs from the in-process limiter on such a rule and on limits below one
  (`RedisWindow.ScriptAsExpected`, `RedisWindow.ScriptMatchesHit`).
- The ledger's comment has the advisory lock rule out a fork. A transaction that has the lock
  takes it again at once, so the lock does not keep two appends of one transaction apart. A
  tenant's ledger is in order after every run if and only if callers keep to one append at a
  time in each transaction; otherwise the first two rows of a ledger can both be without a
  predecessor, which the unique constraint exempts, and a later overlap fails the caller's
  transaction. A ledger that has a row never forks any more. The repository's callers await
  each append (`LedgerProtocol.InOrderExactly`, `LedgerProtocol.OverlapForks`,
  `LedgerProtocol.LedgerVerifiesExactly`, `LedgerProtocol.StartedLedgerNeverForks`,
  `LedgerProtocol.RejectedExactly`).
- A ledger write is to "never block the governance action it records". In a caller's own
  transaction it does: the failure is swallowed, but the database has aborted the transaction
  (`LedgerProtocol.FailureBlocksCaller`).
- Sorting keys loses a member named `__proto__` (`CanonicalJson.ProtoMemberIsLost`).
- The data of an `updateMany`, and the relation form of an organization, are not checked by
  the tenant scoping (`TenantScope.ForeignUnchangedExactly`, `TenantScope.UpdateManyUnchecked`,
  `TenantScope.RelationUnchecked`).
- A unique key that does not cover the organization lets one tenant notice another. Tenants are
  independent, collisions included, if and only if every key covers it; no tenant model's keys
  do, as each has an `id` of its own, so the isolation results are stated for operations and
  runs without a reported collision, under any keys (`TenantScope.CollisionShows`,
  `TenantScope.IndependentExactly`, `TenantScope.TenantsAreIsolated`).
- A unique selector that names another organization is overwritten instead of matching
  nothing: in the scope of `a`, `{id: 1, organizationId: 'b'}` takes `a`'s row 1. A selector
  keeps its meaning exactly when what it says of the organization is true of this one
  (`TenantScope.ForeignSelectorOverwritten`, `TenantScope.UniqueMeaningExactly`).
- Taking a unique selector apart can widen it, exactly when it gives a column two different
  values (`TenantScope.RepeatedColumnWidens`, `TenantScope.FlattenExactly`).
- A `state` claim that is no state at all makes the session callback throw instead of
  revoking; either way there is no user (`Sessions.RefreshExactly`).
- The executive score stands for "more drivers first" only while no variance outweighs a
  driver's million (`ExecutiveTriage.ScoreAgreesExactly`, `ExecutiveTriage.OutweighedComesFirst`).
- The catch-all theme of the commercial triage is never used
  (`CommercialTriage.ClusterColours`); a resource whose role is just "PM" is never filed under
  the lead-PM theme (`ResourceTriage.PlainPm`).

## Model

| member | source | states |
|---|---|---|
| `CanonicalJson.ParseStringify` | src/lib/audit-ledger.ts:86-88 | parsing the text of any JSON value gives the value back, escapes, surrogates and nesting included |
| `CanonicalJson.TextOf` | src/lib/audit-ledger.ts:86-88 | the text of a value character by character: literals, quotes, and the texts of the parts joined by commas, in brackets or braces, a colon after each key |
| `CanonicalJson.EscapeOf` | src/lib/audit-ledger.ts:86-88 | which units of a string are escaped and how, by letter or by four lower-case hex digits; lone surrogates are, pairs are not |
| `CanonicalJson.SortKeysMeaning` | src/lib/audit-ledger.ts:89-100 | sorting the keys at every depth keeps what the value means (except members named `__proto__`) |
| `CanonicalJson.SameMeaningSameSort` | src/lib/audit-ledger.ts:89-100 | values that mean the same sort to the same value: the sorted form is canonical |
| `CanonicalJson.SortKeysInOrder` | src/lib/audit-ledger.ts:89-100 | after sorting, at every depth index keys come first in the order of their numbers, and the others ascend at the first UTF-16 unit in which two differ |
| `CanonicalJson.CanonicalTextIs` | src/lib/audit-ledger.ts:86-100 | the canonical text parses to a value that means what the given one does and has its keys in that order |
| `CanonicalJson.CanonicalTextExact` | src/lib/audit-ledger.ts:86-100 | two values have the same canonical text if and only if they are the same JSON value up to key order at every depth (and up to `__proto__` members) |
| `CanonicalJson.CanonicalTextFaithful` | src/lib/audit-ledger.ts:86-100 | for values without `__proto__` members the equivalence is exact |
| `CanonicalJson.ProtoMemberIsLost` | src/lib/audit-ledger.ts:94-97 | two different values, one with a `__proto__` member, have the same canonical text |
| `LedgerDigest.DigestInputExact` | src/lib/audit-ledger.ts:103-121 | two records have the same digest input if and only if all seven hashed fields agree |
| `LedgerDigest.DigestInputIs` | src/lib/audit-ledger.ts:103-121 | the digest input parses to an object of exactly seven members, each hashed field under its own name |
| `LedgerDigest.HashExact` | src/lib/audit-ledger.ts:123-125 | and the same hash if and only if they agree, or else SHA-256 collides on their digest inputs |
| `LedgerChain.VerifyLedgerIntegrity` | src/lib/audit-ledger.ts:258-309 | the walk accepts exactly the chains that verify, and otherwise names the first position whose prefix does not, with the reason and the hash before it |
| `LedgerChain.PrefixVerifies` | src/lib/audit-ledger.ts:264-301 | every prefix of a verifying list verifies |
| `LedgerChain.AppendVerifies` | src/lib/audit-ledger.ts:264-301 | a list with one row more verifies exactly when the list does and the row names its head and carries its own hash |
| `LedgerChain.HeadFixesHistory` | src/lib/audit-ledger.ts:258-309 | two verifying lists with the same head hash have the same length and the same records, row by row, unless the hash collides on two of them |
| `LedgerChain.HashesDistinct` | src/lib/audit-ledger.ts:258-309 | no two rows of a verifying list have the same hash, unless it collides |
| `LedgerChain.SelectionIsPrefix` | src/lib/audit-ledger.ts:252-257 | any verifying list made of rows of a verifying list, in any order, is a prefix of it, unless the hash collides: nothing can be reordered or left out but the end |
| `LedgerChain.DeletionDetected` | src/lib/audit-ledger.ts:252-257 | a verifying list from which an inner row was deleted does not verify, unless the hash collides |
| `LedgerChain.LedgerHeadFixesHistory` | src/lib/audit-ledger.ts:258-309 | the same for the ledger's own digest: one head fingerprint fixes the whole history, or SHA-256 collides |
| `LedgerChain.LedgerVerdictIgnoresKeyOrder` | src/lib/audit-ledger.ts:278-289 | storing metadata with its keys in another order never changes the verdict |
| `LedgerChain.LedgerEditDetected` | src/lib/audit-ledger.ts:278-300 | changing any hashed field of a row of a verifying ledger, and nothing else, is detected, or SHA-256 collides |
| `LedgerProtocol.NextRowExtends` | src/lib/audit-ledger.ts:175-212 | the row computed from the head extends a chain to a chain: linked, hashed, strictly later, whatever the clock says |
| `LedgerProtocol.InsertOnChain` | src/lib/audit-ledger.ts:175-212 | a row that the unique constraint lets onto a chain either follows its last row and extends it, or was computed when there were no rows and forks it |
| `LedgerProtocol.StepKeeps` | src/lib/audit-ledger.ts:175-236 | every step of every transaction (begin, lock, read head, insert, count, fail, commit, roll back), with any number of appends under way in it, keeps the invariant of every tenant; the stronger one of a tenant with one append at a time |
| `LedgerProtocol.RunKeeps` | src/lib/audit-ledger.ts:175-236 | so in every interleaving of any number of transactions and appends, with arbitrary clocks and failures, what is committed of a tenant is one chain or has two rows without a predecessor; where no transaction has two appends for the tenant under way it is one chain |
| `LedgerProtocol.CommittedTraced` | src/lib/audit-ledger.ts:175-212 | in every run each committed row goes back to an append that was asked for and later inserted it, and carries that input field by field, under the stored id and metadata, with the time and predecessor that follow from the head it read |
| `LedgerProtocol.VerifyOrderUnique` | src/lib/audit-ledger.ts:259-262 | ordering such rows by creation time, ties by id, gives back the order of the chain and no other |
| `LedgerProtocol.LedgerVerifiesExactly` | src/lib/audit-ledger.ts:258-309 | in every reachable state a tenant's ledger passes its integrity check if and only if no two of its rows are without a predecessor |
| `LedgerProtocol.CommittedLedgerVerifies` | src/lib/audit-ledger.ts:258-309 | where no transaction has two appends for the tenant under way, its ledger passes the check in every reachable state, and every receipt of a committed append names its row by its 1-based position |
| `LedgerProtocol.InOrderExactly` | src/lib/audit-ledger.ts:139-150 | if callers keep to at most n appends under way in one transaction for a tenant, every run leaves its ledger in order if and only if n is at most one |
| `LedgerProtocol.OverlapForks` | src/lib/audit-ledger.ts:175-222 | two appends of one transaction, the first of a tenant, interleaved: both insert a row without a predecessor and the committed ledger is forked, whatever the inputs and clocks |
| `LedgerProtocol.StartedLedgerNeverForks` | prisma/schema.prisma:1633-1639 | a tenant with a committed row and no fork never gets one, in any run and whatever overlaps: only the first rows can fork |
| `LedgerProtocol.RejectedExactly` | prisma/schema.prisma:1633-1639 | the unique constraint rejects a row if and only if the head it was computed from has had a successor since, unless SHA-256 collides; the rejection fails the transaction |
| `LedgerProtocol.LedgerIsAppendOnly` | src/lib/audit-ledger.ts:175-236 | along every run the committed ledger only ever grows at its end |
| `LedgerProtocol.BackstopNeverFires` | src/lib/audit-ledger.ts:144-150 | with one append at a time, when an append is about to insert, no row of the tenant that any transaction sees, committed or pending, names the head it read, unless SHA-256 collides |
| `LedgerProtocol.NoForkAnywhere` | src/lib/audit-ledger.ts:144-150 | of all rows of an unforked tenant that any two transactions see, committed or pending, no two at different places name the same predecessor, unless SHA-256 collides |
| `LedgerProtocol.FailureBlocksCaller` | src/lib/audit-ledger.ts:151-153 | after a failed statement a transaction stays failed in every continuation and its end commits nothing, although the failure is swallowed |
| `LedgerAppend.Deciding` | src/lib/audit-ledger.ts:223-236 | the attempt after which the loop does not try again: collisions before it, in an own transaction, at most three in all |
| `LedgerAppend.LedgerTable.FindHead` | src/lib/audit-ledger.ts:179-183 | the first row by descending time and id is the newest one, the one with the greatest id among those of one instant, or there is none |
| `LedgerAppend.LedgerTable.AppendOnce` | src/lib/audit-ledger.ts:175-215 | one append adds, for this tenant only, a row that names the head and says what was to be recorded in every field, at the clock's time or one past the head's, and reports its hashes and its position |
| `LedgerAppend.LedgerTable.RecordLedgerEvent` | src/lib/audit-ledger.ts:168-237 | an event is recorded exactly when the deciding attempt runs, in a row that carries every field of the input; the chain then still verifies and `sequence` is the row's 1-based position; otherwise nothing changes |
| `LedgerAppend.GetComplianceLedger` | src/lib/audit-ledger.ts:330-376 | the view numbers the newest rows by their 1-based positions in verification order |
| `SlidingWindow.RateLimiter.Hit` | src/lib/rate-limiter.ts:67-95 | the new buckets and the answer, as the specification functions have them; only hits in the window are kept, and other keys change only by a sweep, due after 60 seconds |
| `SlidingWindow.RateLimiter.Sweep` | src/lib/rate-limiter.ts:53-60 | exactly the keys without a hit in the last ten minutes are dropped, and nothing else changes |
| `SlidingWindow.RateLimiter.Peek` | src/lib/rate-limiter.ts:98-110 | the answer to a look, which changes nothing |
| `SlidingWindow.RunKeeps` | src/lib/rate-limiter.ts:46-95 | over every run on a clock that never runs backwards, a bucket shows every window still to come the same hits as the full history |
| `SlidingWindow.FaithfulExactly` | src/lib/rate-limiter.ts:46-95 | the trimmed and swept limiter answers every run as the full history would, if and only if no rule's window outlasts the idle time |
| `SlidingWindow.SweepForgets` | src/lib/rate-limiter.ts:53-60 | for every rule whose window does, and from any instant on, a run after which a hit is let in that should not be |
| `SlidingWindow.RegisterRuleForgets` | src/lib/rate-limits.ts:35 | the 15-minute registration rule is one |
| `SlidingWindow.AcceptedIsLog` | src/lib/rate-limiter.ts:67-95 | for a window that does not outlast the idle time, the hits accepted in a run are those of the full-history specification |
| `SlidingWindow.AcceptsIffRoomInWindow` | src/lib/rate-limiter.ts:62-95 | in every run a hit is accepted exactly when fewer than `limit` accepted hits lie in the half-open window that ends with it, if and only if the window does not outlast the idle time |
| `SlidingWindow.LogCap` | src/lib/rate-limiter.ts:25-30 | no window of the rule's length ever holds more than `limit` accepted hits |
| `SlidingWindow.InstancesCap` | src/lib/rate-limiter-redis.ts:141-151 | any number N of in-process limiters accept at most N times the limit in every window, if and only if the window does not outlast the idle time |
| `SlidingWindow.ResetAtExact` | src/lib/rate-limiter.ts:37-40 | after a refusal with no accepted hit since, a retry is accepted if and only if it comes at `resetAt` or later, and `retryAfterSeconds` is the least whole number of seconds that reaches it; this holds of all runs if and only if the limit is at least one and the window does not outlast the idle time |
| `SlidingWindow.EarlyRetry` | src/lib/rate-limiter.ts:53-60 | for every other rule with a limit, from any instant on, a refusal after which a retry is let in before `resetAt` |
| `SlidingWindow.PeekForetellsHit` | src/lib/rate-limiter.ts:97-110 | a look gives the decision that a hit at the same instant gets, with one slot more, in every run, if and only if the window does not outlast the idle time |
| `SlidingWindow.AnswerSays` | src/lib/rate-limiter.ts:67-110 | in every run a hit and a look state the limit, what is left of it after the accepted hits in the window, and when the window opens, if the window does not outlast the idle time |
| `RedisWindow.RedisStore.Eval` | src/lib/rate-limiter-redis.ts:88-108 | one run of the script: a reply that follows from the entries in the window and the oldest of them, the trimmed set, and the expiry, renewed by an accepted hit only |
| `RedisWindow.DistributedLimiter.HitDistributed` | src/lib/rate-limiter-redis.ts:134-200 | when the shared window, the local one or a closed door decides, at which reading of the clock, and exactly which notice is given, once; a closed door leaves 0 of the limit, asks for 5 seconds, and names the instant 5000 ms later |
| `RedisWindow.HistoryShows` | src/lib/rate-limiter-redis.ts:88-108 | despite trimming, expiry and clock error, the set holds every accepted hit that some caller could still count |
| `RedisWindow.SharedWindowCap` | src/lib/rate-limiter-redis.ts:81-108 | with callers' clocks at most d off and unique members, no true-time interval of length `windowMs - 2d` holds more than `limit` accepted hits, whatever the interleaving |
| `RedisWindow.SkewBoundIsTight` | src/lib/rate-limiter-redis.ts:95-107 | two callers, slow and fast by d, get two hits through a limit of one exactly that far apart |
| `RedisWindow.CountedExactly` | src/lib/rate-limiter-redis.ts:95-101 | on one clock the script counts exactly the accepted hits in the window and finds the oldest of them |
| `RedisWindow.ScriptAsExpected` | src/lib/rate-limiter-redis.ts:88-108 | on one clock the script answers as the full-history specification at every point of every history, for every window, if and only if the limit is at least one |
| `RedisWindow.ScriptRemembers` | src/lib/rate-limiter.ts:53-60 | a history, for every rule whose window outlasts the idle time, on which the script refuses and the in-process limiter lets in |
| `RedisWindow.ScriptMatchesHit` | src/lib/rate-limiter-redis.ts:154-170 | on one clock the script and the in-process limiter give the same full answer to a key at every point of every history, if and only if its limit is at least one and its window does not outlast the in-process idle time |
| `TenantScope.MergeOrgWhere` | src/lib/db/org-scope.ts:267-283 | the merged filter matches exactly the organization's rows that the given filter matches |
| `TenantScope.UniqueConfined` | src/lib/db/org-scope.ts:285-306 | a scoped unique selector matches no other organization's row |
| `TenantScope.UniqueMeaning` | src/lib/db/org-scope.ts:285-306 | and exactly the organization's rows that the selector matches, as long as what it says of the organization itself is true of this one |
| `TenantScope.UniqueMeaningExactly` | src/lib/db/org-scope.ts:285-306 | that condition is exact, but for selectors that take nothing of this organization anyway |
| `TenantScope.UniqueMeaningPlain` | src/lib/db/org-scope.ts:285-306 | and exact without exception for selectors of equalities that do not contradict themselves |
| `TenantScope.ForeignSelectorOverwritten` | src/lib/db/org-scope.ts:300-303 | a selector that names another organization and then takes a row of this one |
| `TenantScope.FlattenMeaning` | src/lib/db/org-scope.ts:237-265 | taking compound keys apart keeps what a selector selects, as long as it says the same of a column every time it speaks of it |
| `TenantScope.FlattenNeverNarrows` | src/lib/db/org-scope.ts:237-265 | it never loses a row, whatever the selector |
| `TenantScope.FlattenExactly` | src/lib/db/org-scope.ts:237-265 | for selectors of equalities it keeps the meaning if and only if no column is given two different values |
| `TenantScope.RepeatedColumnWidens` | src/lib/db/org-scope.ts:246-265 | a selector that gives a column two values and then selects more |
| `TenantScope.ApplyOrgToCreateData` | src/lib/db/org-scope.ts:308-340 | the loop over one row or many refuses exactly the data in which a row names another organization, and otherwise injects this one where a row names none |
| `TenantScope.AppliedExactly` | src/lib/db/org-scope.ts:316-338 | data is refused if and only if it names another organization in a plain string; otherwise every column the caller gave is kept, and only the organization's can be added |
| `TenantScope.AllOperations` | src/lib/db.ts:111-182 | everything passes for a model no tenant owns and for an admin scope; a tenant's model needs a scope; under an organization exactly the data that names another one is refused, and every filter of what passes is confined |
| `TenantScope.ConfinedAttempt` | src/lib/db.ts:111-177 | a confined operation acts on the whole store as on the organization's own rows alone and leaves every other row |
| `TenantScope.ReachingAttempt` | src/lib/db.ts:111-177 | an operation that reaches no foreign row answers from the organization's own rows, and what becomes of these depends on nothing else, wherever the rows it writes may go |
| `TenantScope.ForeignUnchangedExactly` | src/lib/db.ts:111-177 | every operation in the scope of an organization leaves the rows of all others unchanged, if and only if the row it writes is meant for its own organization in the forms that are not looked at; an error changes nothing |
| `TenantScope.UpdateManyUnchecked` | src/lib/db.ts:174-177 | an `updateMany` that moves a row to another organization, where an `update` with the same data is rejected |
| `TenantScope.RelationUnchecked` | src/lib/db/org-scope.ts:332-337 | an update in relation form that moves a row |
| `TenantScope.NonInterference` | src/lib/db.ts:97-182 | for every operation: two stores with the same own rows give the same answer and the same own rows afterwards, unless one reports a unique-key collision |
| `TenantScope.CollisionShows` | src/lib/db/org-scope.ts:285-340 | for every key that does not cover the organization, two such stores that differ in a collision |
| `TenantScope.UniqueSplits` | src/lib/db.ts:97-104 | constraints that cover the organization hold of a store if and only if they hold of the organization's rows and of the rest |
| `TenantScope.IndependentExactly` | src/lib/db.ts:97-182 | collisions included, rows and answers of every organization are independent of the others' if and only if every key covers the organization |
| `TenantScope.IsolatedPerTenant` | src/lib/db.ts:97-182 | with such keys runs in which requests collide are isolated as well |
| `TenantScope.ScopeMeaning` | src/lib/db.ts:97-182 | under any keys, an operation that names no other organization and reports no collision does, as the extension sends it, what was asked for, its data carrying the organization and otherwise as given, on this organization's rows alone |
| `TenantScope.TenantsAreIsolated` | src/lib/db.ts:97-182 | under any keys, over every interleaving of tenants in which no request reports a collision, an organization's rows are what its own requests alone make of its own initial rows |
| `TenantScope.AnswersAreIsolated` | src/lib/db.ts:97-182 | and every answer that is no collision is the one it would get alone |
| `TenantScope.IsolatedFromOthers` | src/lib/db.ts:97-182 | the same for an organization that moves rows away itself, as long as the others keep to their own and neither run collides |
| `TenantScope.NoCollisionOnOwn` | src/lib/db.ts:97-182 | under any constraints, an operation that reports no collision acts and answers as on the organization's rows alone |
| `Sessions.Jwt` | src/lib/auth.ts:134-248 | the claims that the callback's assignments leave, the dead token, or a throw, as one function has them; `Sessions.RefreshExactly` and `Sessions.LoginExactly` say what they grant |
| `Sessions.SessionCallback` | src/lib/auth.ts:249-269 | a request has a user if and only if its token is live, and then the token's user, role, memberships and version |
| `Sessions.RefreshExactly` | src/lib/auth/session-state.ts:102-136 | a refresh serves if and only if the token is live, the lookup worked, the account exists at the token's version (0 without one) and has no younger password; user and version are then unchanged, and role, staff flag, memberships, state and password flag are those just read |
| `Sessions.LoginExactly` | src/lib/auth.ts:188-201 | a login serves if and only if its lookup found the account; it is pinned to the version read and has the role, staff flag, memberships, state and password flag read with it |
| `Sessions.RevokedForever` | src/lib/auth/session-state.ts:12-22 | once revoked, a token stays revoked and user-less over every later sequence of lookups |
| `Sessions.StepKeeps` | src/lib/auth.ts:134-248 | password check, lookup and issue as separate steps of logins and of refreshes of any token ever issued, and registration, bump, password change, flag, stamp and deletion between them, keep every live token pinned to its login |
| `Sessions.RunKeeps` | src/lib/auth.ts:134-248 | so it holds after every run |
| `Sessions.ServedExactly` | src/lib/auth.ts:134-260 | in every run, presenting a token serves if and only if the account still is at the version of the login behind the token, with no younger password; the request then has the privileges of its own lookup |
| `Sessions.EndedForGood` | src/server/actions/auth.ts:142-169 | after a sign-out everywhere, a password change or a deletion, no token of a login whose lookup came before ever serves again: none issued before, none refreshed from one, none overtaken between lookup and issue |
| `Sessions.OvertakenLoginNeverServes` | src/lib/auth.ts:188-201 | a login whose account is bumped between its lookup and its issue gets a token that never serves |
| `Sessions.LateLookupServes` | src/lib/auth.ts:188-201 | one whose password was verified before a change and whose lookup came after it is served |
| `Sessions.NeverRepinned` | src/lib/auth.ts:235-241 | no refresh gives a token another user or version than its login's |
| `Sessions.FreshLoginServes` | src/lib/auth.ts:188-201 | a fresh login's version is the account's at its lookup, and its token serves at once, whenever the password was verified |
| `Sessions.OnlyMintedServes` | src/lib/auth/session-mint.ts:1-17 | right after a password change exactly the token minted with it serves the user; the account is one version further with nothing left to change, and the minted token carries that version and no privileges |
| `Capacity.WeekdaysInRange` | src/lib/capacity-engine.ts:52-64 | the loop counts the weekdays of the range |
| `Capacity.WeekdaysClosedForm` | src/lib/capacity-engine.ts:53-64 | and there are as many as a closed form in whole weeks and a remainder says |
| `Capacity.HolidayWeekdaysInRange` | src/lib/capacity-engine.ts:67-76 | the distinct holidays that are weekdays of the range |
| `Capacity.OverlapExactly` | src/lib/capacity-engine.ts:87-93 | the overlap is the days of the period on which the person is on the roster |
| `Capacity.AvailableHours` | src/lib/capacity-engine.ts:99-105 | eight hours, at the person's share, for every weekday of the period on the roster that is no holiday, the number of these days times 8 times the share; the clamp at zero never acts |
| `Capacity.HoursAreAdditive` | src/lib/capacity-engine.ts:99-105 | splitting a period between any two days keeps the total, for every tenure and holiday list |
| `Capacity.ResourceCapacityRow` | src/lib/capacity-engine.ts:150-172 | utilisation times hours gives the billed hours back, attainment times target the utilisation, and the degenerate cases |
| `Capacity.SummaryMeaning` | src/lib/capacity-engine.ts:185-206 | utilisation times available hours of billable heads is the hours billed by everybody, the target is weighted by heads, and the degenerate cases are zero |
| `Capacity.TargetIsMean` | src/lib/capacity-engine.ts:190-206 | the blended target is a mean of the billable heads' targets weighted by their shares: it lies within any bounds that all of them keep |
| `Capacity.GroupByPractice` | src/lib/capacity-engine.ts:208-218 | the map-filling loop yields the groups of the specification in the order of the names |
| `Capacity.GroupsExactly` | src/lib/capacity-engine.ts:208-218 | one group for each practice that occurs, holding exactly its rows and their summary, sorted |
| `Capacity.PracticesAddUp` | src/lib/capacity-engine.ts:190-218 | the groups' available hours, billed hours and heads add up to the organization's |
| `FuzzyMatch.FuzzyScore` | src/lib/fuzzy-match.ts:15-38 | the scan with its three indices computes the score of the specification |
| `FuzzyMatch.GreedyIsEarliest` | src/lib/fuzzy-match.ts:24-36 | the scan finds an embedding if there is one, and has each letter no later than any embedding has it |
| `FuzzyMatch.NoScoreExactly` | src/lib/fuzzy-match.ts:15-38 | there is no score if and only if the query is not a subsequence of the target |
| `FuzzyMatch.ScatteredScore` | src/lib/fuzzy-match.ts:36-38 | a scattered match scores 500 less the span from the earliest start to the earliest end and a tenth of the start |
| `FuzzyMatch.OccurrenceOutscores` | src/lib/fuzzy-match.ts:6-10 | in targets of fewer than 500 letters and twice the query's length every occurrence outscores every scattered match |
| `FuzzyMatch.OutscoresExactly` | src/lib/fuzzy-match.ts:20-38 | an occurrence outscores all scattered matches if and only if it starts before 500 plus the query's length |
| `FuzzyMatch.OccurrenceScore` | src/lib/fuzzy-match.ts:15-21 | an empty query scores 0, and an occurrence 1000 less the place of the first one |
| `FuzzyMatch.EarlierScoresHigher` | src/lib/fuzzy-match.ts:6-8 | of two targets the one in which the query occurs earlier scores higher |
| `FuzzyMatch.EmptyQuery` | src/lib/fuzzy-match.ts:40-41 | a blank query shows the first items as they are, up to the limit |
| `FuzzyMatch.RankingIsAll` | src/lib/fuzzy-match.ts:40-48 | the ranking is all matches, best first, ties in the given order |
| `FuzzyMatch.TopMatches` | src/lib/fuzzy-match.ts:40-48 | what is shown is a true top-k of it |
| `Lists.StableSortIsUnique` | src/lib/financial-triage.ts:228-232 | order and stability leave one arrangement: the sort used throughout is the one the language prescribes |
| `Clusters.ClustersExactly` | src/lib/financial-triage.ts:215-228 | there is a cluster for a theme if and only if some item has it, with exactly those items and their figures |
| `Clusters.ClustersHoldAll` | src/lib/financial-triage.ts:215-228 | the clusters hold every item once |
| `Clusters.ClustersInOrder` | src/lib/financial-triage.ts:228-232 | worst first, ties in the order of the themes |
| `Clusters.ClustersReconcile` | src/lib/financial-triage.ts:215-228 | red, amber, size and weight of the clusters add up to those of the items |
| `FinancialTriage.BuildFinancialTriage` | src/lib/financial-triage.ts:182-246 | every headline figure is the count or sum it is named for |
| `FinancialTriage.HeadlineComplete` | src/lib/financial-triage.ts:182-213 | every project is counted once by health, colour and billing type, and the budgets by billing type add up |
| `FinancialTriage.TilesAgree` | src/lib/financial-triage.ts:196-246 | the clusters hold exactly the projects at risk, their counts add up to the headline, and their dollars to those of the projects at risk |
| `FinancialTriage.DollarsReconcile` | src/lib/financial-triage.ts:196-246 | the dollars of the clusters and those of the projects on budget make up the difference between headline actuals and budget |
| `FinancialTriage.ClusterDollars` | src/lib/financial-triage.ts:166-228 | a labour-burn cluster is over budget, the catch-all one is not, a milestone cluster is all fixed-fee |
| `FinancialTriage.ClusterCauses` | src/lib/financial-triage.ts:166-228 | in every result, a project in a cluster shows the cause of its theme and none of those that come before it, with the colour and dollars that go with it |
| `CommercialTriage.BuildCommercialTriage` | src/lib/commercial-triage.ts:164-217 | every headline figure is the count or sum it is named for |
| `CommercialTriage.HeadlineComplete` | src/lib/commercial-triage.ts:164-182 | every project is counted once by lock state and by model, and the values by model add up |
| `CommercialTriage.TilesAgree` | src/lib/commercial-triage.ts:176-217 | the clusters hold exactly the projects at risk, their counts add up to the headline, and their dollars to those of the projects at risk |
| `CommercialTriage.ClusterColours` | src/lib/commercial-triage.ts:123-156 | no cluster is the catch-all one, and the scope-cap cluster is never red |
| `CommercialTriage.ClusterCauses` | src/lib/commercial-triage.ts:123-156 | in every result, a project in a cluster shows the cause of its theme and none of those that come before it, with the colour and dollars that go with it |
| `ScheduleTriage.SlipDecides` | src/lib/schedule-triage.ts:139-148 | a rounded slip of a day or more is never green, and it alone decides between red and amber unless the phase is marked delayed |
| `ScheduleTriage.PaceDecides` | src/lib/calculations/schedule.ts:68-96 | without a slip a phase is red beyond three quarters of its time with less than half done, amber beyond half with less than a quarter done, else green |
| `ScheduleTriage.WorstIsMaximum` | src/lib/schedule-triage.ts:215-226 | a project's colour is the maximum over its unfinished phases |
| `ScheduleTriage.WorstSlipIsMaximum` | src/lib/calculations/schedule.ts:114-133 | the slip shown is the largest over the canonical phases, never negative |
| `ScheduleTriage.WorstSlipExactly` | src/lib/calculations/schedule.ts:114-133 | no first row of any of the six canonical phases has slipped further, and one has as far unless none has |
| `ScheduleTriage.BuildScheduleTriage` | src/lib/schedule-triage.ts:206-276 | every milestone and go-live figure is the count it is named for |
| `ScheduleTriage.MilestonesAddUp` | src/lib/schedule-triage.ts:215-233 | red, amber and on-track milestones add up to the active ones; the 30-day go-lives are among the 60-day ones |
| `ScheduleTriage.AtRiskExactly` | src/lib/schedule-triage.ts:190-235 | a project is at risk if and only if an unfinished phase is not green, and red if and only if one is red |
| `ScheduleTriage.ClustersAddUp` | src/lib/schedule-triage.ts:235-264 | the clusters hold exactly the projects at risk, and their counts and slips add up |
| `ScheduleTriage.SlipClusters` | src/lib/schedule-triage.ts:167-188 | a sign-off or deployment cluster has at least the warning number of slip days for each of its projects |
| `ScheduleTriage.ClusterCauses` | src/lib/schedule-triage.ts:167-188 | in every result, a project in a cluster shows the cause of its theme and none of those that come before it, with the colour and slip that go with it |
| `ScheduleTriage.TilesAgree` | src/lib/schedule-triage.ts:190-205 | there is a red milestone if and only if a cluster counts a red project, and one off track if and only if a cluster has a project |
| `ResourceTriage.BuildResourceTriage` | src/lib/resource-triage.ts:208-278 | every headline figure is the count it is named for |
| `ResourceTriage.RoleMatchesExactly` | src/lib/resource-triage.ts:76-80 | a role matches a list if and only if a keyword occurs in its name or the name is just "pm" |
| `ResourceTriage.PlainPm` | src/lib/resource-triage.ts:76-80 | the role name "pm" matches every keyword list, so it is filed under the senior or the junior theme |
| `ResourceTriage.MatchesCockpit` | src/lib/resource-triage.ts:208-223 | the headline utilisation and target equal the capacity cockpit's on the same rows |
| `ResourceTriage.HeadlineComplete` | src/lib/resource-triage.ts:224-244 | every billable head has one colour, and the severely over-allocated are red |
| `ResourceTriage.TilesAgree` | src/lib/resource-triage.ts:231-278 | the clusters hold exactly the heads at risk and their counts add up to the headline |
| `ResourceTriage.ProjectsExactly` | src/lib/resource-triage.ts:246-258 | a cluster's projects are those that some member works on |
| `ResourceTriage.ClusterColours` | src/lib/resource-triage.ts:170-200 | over-allocation clusters are all red, under-utilisation clusters all amber |
| `ResourceTriage.ClusterCauses` | src/lib/resource-triage.ts:170-200 | in every result, a head in a cluster shows the cause of its theme and none of those that come before it, with the colour that go with it |
| `RaidTriage.ClassifyTheme` | src/lib/raid-triage.ts:178-193 | the nested loops compute the best theme of the specification |
| `RaidTriage.TextOf` | src/lib/raid-triage.ts:174-176 | the text that is classified is the title, description and impact that are there, in that order with a space between, folded |
| `RaidTriage.ItemIs` | src/lib/raid-triage.ts:167-172 | an item keeps its entry, is filed by its text, and is red exactly when critical or high |
| `RaidTriage.ThemeIsArgMax` | src/lib/raid-triage.ts:178-193 | an item goes to the catch-all if and only if no keyword occurs in it, else to the theme with most keywords, the first of these in display order |
| `RaidTriage.CatchAllExactly` | src/lib/raid-triage.ts:178-193 | the catch-all is for exactly the texts in which no keyword occurs |
| `RaidTriage.BuildRaidTriage` | src/lib/raid-triage.ts:203-246 | every headline figure is the count it is named for |
| `RaidTriage.TilesAgree` | src/lib/raid-triage.ts:203-246 | every item has one type, one colour and one cluster, and the figures add up |
| `RaidTriage.ProjectSpread` | src/lib/raid-triage.ts:149-152 | a cluster's project count is one exactly when all its items belong to one project |
| `ExecutiveTriage.SelectTriageProjects` | src/lib/executive-triage.ts:91-112 | the pass keeps the first six of the ranking, or all of it |
| `ExecutiveTriage.DriversExactly` | src/lib/executive-triage.ts:91-101 | a project is flagged exactly when one of its three signals is red, with each driver once |
| `ExecutiveTriage.RankingIsAll` | src/lib/executive-triage.ts:91-109 | the ranking is the flagged projects, each once, by score |
| `ExecutiveTriage.TopProjects` | src/lib/executive-triage.ts:103-112 | no flagged project left out scores more than one kept |
| `ExecutiveTriage.ScoreAgreesExactly` | src/lib/executive-triage.ts:103-109 | the score orders two projects as meant if and only if neither variance outweighs the difference in drivers |
| `ExecutiveTriage.RankingAsIntended` | src/lib/executive-triage.ts:103-109 | the ranking then is the intended one, driver count before variance |
| `ExecutiveTriage.SmallSpreadIsClear` | src/lib/executive-triage.ts:103-109 | variances within a million of each other never outweigh |
| `ExecutiveTriage.OutweighedComesFirst` | src/lib/executive-triage.ts:103-109 | and where one does, the project with fewer drivers comes first |
| `ExecutiveTriage.LeadsIsOrder` | src/lib/executive-triage.ts:123-129 | the RAID comparator is a total preorder whenever the comparison of dates is |
| `ExecutiveTriage.TopRaidLeads` | src/lib/executive-triage.ts:123-130 | the item that heads a card leads all items of its project, and is the first listed of those that tie |
| `ExecutiveTriage.TopRaidIs` | src/lib/executive-triage.ts:123-130 | it is escalated if any item is, then as severe as any, then dated no later than any |

## Left out

- Ledger: serializable isolation, lost commit acknowledgements, and why a statement fails (a
  deadlock, a timeout): any may fail at any time; savepoints; the retry loop is taken attempt
  by attempt as it returns or throws.
- Ledger: metadata that is not JSON (dates, `undefined`, functions) and characters the
  database refuses; a number is its text.
- Ledger: the view's count and rows come from two queries, which are taken at one instant.
- Rate limiters: clocks that run backwards in the in-process limiter; environment overrides
  of limits; the response helpers.
- Tenant scope: nested writes and included relations, raw SQL, operations the dispatch does
  not know, the test passthrough, how a scope is resolved, and row-level security.
- TenantScope.ScopeMeaning: does not model that `findUnique` and `findUniqueOrThrow` run on the
  base client (src/lib/db.ts:163-168), outside a caller's interactive transaction, and so do
  not see its uncommitted rows; the model has one store.
- Tenant scope: cursor pagination and relation filters.
- Tenant scope: the rewriting of create data changes the caller's object in place; the model
  works on values and does not capture the aliasing.
- Tenant scope: the store keeps its rows in an order, and a query without an order of its own
  returns them in it; aggregates, groups, orders and pages are taken to be computed from the
  rows found.
- Tenant scope: a compound key is recognised by its kind, not by an underscore in its name.
- Sessions: encryption, expiry and refresh timing of the token, single sign-on, impersonation.
- Capacity: time zones and daylight saving (days are 24 hours in one zone), floating-point rounding.
- Fuzzy matching: trimming and lower-casing are parameters.
- Triage: labels, blurbs and the executive card's narrative; invalid dates; the audit health
  of a project is its code.
- RAID triage: the keyword lists are a parameter, and the results hold for every vocabulary.
- Resource triage: role names are taken in lower case.
- The simple engines (KPIs, decisions, due status, formatting, search, onboarding) would only
  add easy members.
