# Verified models of the ProActive platform's protocols and limiters

This directory models the stateful algorithms of the platform's Python packages, and one loop of its
web client, in Dafny 4.11, and proves what each of them keeps over every input and every run. It
stands beside the code: nothing here is compiled or imported by it. `dafny verify dfyconfig.toml`
checks the whole project.

Paths in this file are relative to the root of the repository. `core` below stands for
`packages/proactive_core/proactive_core`.

| modules | what they model |
|---|---|
| `BreadthFirst`, `Crawl` | the bounded same-origin crawl of `core/agents/implementations.py` |
| `Sessions`, `SessionSafety`, `SessionStores`, `SessionAgreement`, `SessionLimits`, `SessionHistory`, `RedisSafety`, `Rotations`, `RotationRuns` | refresh-token families over the two session stores of `core/auth.py`, in turn and interleaved at their awaits |
| `Idempotency` | idempotent commands of `core/api/app.py`, interleaved at their awaits |
| `Keyset`, `Pagination`, `Following` | keyset pagination of `core/api/app.py` while the list changes |
| `Windows`, `RequestLimiters`, `FixedWindowLimiter` | the two request limiters of `core/api/app.py` |
| `Metering`, `Buckets` | the token buckets of `core/agents/source_agents/governor.py` and `crawler.py` |
| `LocalLimiter`, `Breaker`, `Probes`, `HttpClient` | the limiter, the circuit breaker and the retry loop of `core/integrations/base.py` |
| `Allocator` | budgets and shares of `core/agents/source_agents/decision.py` |
| `Quotas`, `QuotaWindows`, `Governor` | quotas, task slots and circuits of `core/agents/source_agents/governor.py` |
| `Frontier`, `CrawlLoop`, `CrawlDistances`, `SiteDistances` | the URL frontier and the crawl loop of `core/agents/source_agents/crawler.py` |
| `Campaigns`, `CampaignRuns`, `FollowUps` | outreach campaigns of `core/agents/source_agents/backlink.py` |
| `Base64Url`, `PublicIds` | the codecs of `core/ids.py` and of the cursors |
| `Sse` | the event reader of `apps/web/lib/use-sse.ts` |
| `Basics`, `Wrappers` | names, URLs, comparisons and result types that the others share |

How the models are built. What a class of the source updates in place is a class with those fields;
its methods are proved against functions of the state, and the properties are lemmas about those
functions and invariants that the methods keep. Histories that the source throws away (admissions,
grants, failures, requests) are ghost fields or the states of a run, so that the bounds speak of
everything that ever happened and not of what is left in a pruned queue. Clocks, sleeps, fetches,
sends and draws of random identifiers are parameters. A sleep may end late but not early, and a clock
does not run backwards.

Where the code and its own words differ, the model follows the code:

- `README.md:262` promises a sliding window in Redis. `RedisWindowLimiter` counts in fixed buckets, so
  a window can hold twice the limit: `FixedWindowLimiter.FixedBounded` proves the bound and
  `FixedWindowLimiter.HoldsIffTwice` that no lower one holds, for any period.
- `DomainRateLimiter` looks like `TokenBucket` but credits its own sleep again; it keeps only
  `burst + 1 + 2 * rps * T`, and `Buckets.BoundReached` shows that this is reached, for every
  burst of at least one and every rate, where a full `TokenBucket` grants `capacity + rate * T`
  (`Buckets.CapacityReached`).
- `revoke_family` of the Redis store is described as atomic and is a loop of separate reads and
  writes, between which keys expire and other requests run. It need not reach every key; where
  requests of a family take turns, `RedisSafety.NoExchangeAfterReplay` proves that what it misses
  cannot be exchanged. A rotation that has read its token before the loop does can write it back
  unrevoked, and a loop that breaks off can leave the family set to expire before its members:
  `RotationRuns.AlwaysFinalIff` says that these two are all that can bring a revoked family back.
- `rotate` is described as consuming a token once. Over Redis it reads, checks and writes at separate
  awaits, so rotations that overlap can all exchange one token (`RotationRuns.TwoExchange`); it is
  consumed once on every interleaving exactly when they may not (`RotationRuns.AlwaysOnceIff`).
- The expiry of a Redis key is rounded down to whole seconds when it is written, so a token can be lost
  in the last second of its session (`SessionLimits.AlwaysAgreeIff`).
- `docs/03-api-specification.md:59` makes an idempotency key valid for 24 hours. Insertions for a key
  are that far apart (`Idempotency.RedisClaimsADayApart`) and answer for that long
  (`Idempotency.ValidForADay`); dispatches are that far apart less the wait for a reply
  (`Idempotency.LateDispatch`), and an answer can name a task that is never dispatched
  (`Idempotency.UndispatchedIffOrphaned` says exactly when).
- `update_status` validates a transition and then lets a keyword overwrite any attribute, the status
  and the identifier among them. The follow-up sequence is documented to end after two. It does so on
  every run exactly when no keyword renames a campaign or takes it back to a status from which a
  follow-up is still due, and passes do not overlap (`CampaignRuns.AtMostTwoIff`): a renamed campaign
  is sent its first follow-up in every pass, for its records go by the new identifier and miss it.
- The comments call `ACQUIRED` and `DEAD` terminal. Every campaign accepts `DEAD`, these two included
  (`Campaigns.TerminalAccepts`), and a keyword revives the dead (`CampaignRuns.DeadStaysIff`).
- The last wait of the sequence can be cut short: `Campaigns.GivesUpTooSoonIff` says when.
- The follow-up pass reports failed sends as sent (`FollowUps.SentCountsTries`).
- `ResourceAllocator` reserves shares for APIs under names that its budgets do not use, so the
  shipped tables reserve nothing (`Allocator.ShippedCapsHold`). With tables that do reserve, a budget
  can be overdrawn, and with negative requests any budget can (`Allocator.CapHoldsIff`).
- `APIQuotaTracker` is described as tracking usage within sliding windows. Each check deletes what is
  too old for the checker from a log that all agents share, so a longer window than the shortest can
  be overdrawn (`QuotaWindows.WindowsHoldIff`).
- The frontier's `_normalize` drops the query, so that URLs with different links can count as one page
  and only the first one met is crawled. A site is crawled to exactly its pages within the depth limit
  when that changes no links, and only then (`SiteDistances.AlwaysExactIff`).
- The governor's `acquire` is documented to check a time budget; it does not, and neither does the
  model. It checks the circuit instead.
- The circuit breaker of `integrations/base.py` speaks of a recovery probe. After the recovery time it
  admits requests until the threshold is reached again (`Probes.ThresholdLetThrough`); it probes once
  just when the threshold is one or less (`Probes.ProbesOnceIff`).

## Model

| member | source | states |
|---|---|---|
| `BreadthFirst.NearerIsSeen` | packages/proactive_core/proactive_core/agents/implementations.py:106-124 | A URL nearer to the seed than everything queued has been crawled, at no more than its distance, although the queue holds duplicates and a URL is only marked when it leaves the queue. |
| `BreadthFirst.HeadDistance` | packages/proactive_core/proactive_core/agents/implementations.py:107-110 | The first time a URL leaves the queue, the depth it leaves with is its shortest link distance from the seed. |
| `BreadthFirst.Skip` | packages/proactive_core/proactive_core/agents/implementations.py:108-109 | Dropping a duplicate loses nothing: the search invariant holds one entry on. |
| `BreadthFirst.Visit` | packages/proactive_core/proactive_core/agents/implementations.py:110-124 | Crawling a page and queueing its unseen links keeps the search invariant: depths layered, walks sound, links of crawled pages covered. |
| `BreadthFirst.Stop` | packages/proactive_core/proactive_core/agents/implementations.py:106-140 | Wherever the loop stops, crawled URLs sit at their distances and nothing nearer than a crawled one is missing; with the queue empty they are exactly the URLs within the depth limit. |
| `Crawl.PushedEntries` | packages/proactive_core/proactive_core/agents/implementations.py:118-124 | A page queues entries one deeper, only for its links, and for each of them not yet seen. |
| `Crawl.RecordKeeps` | packages/proactive_core/proactive_core/agents/implementations.py:125-135 | One more page keeps the record: each crawled URL has one page, in order of ascending depth. |
| `Crawl.BrokenPages` | packages/proactive_core/proactive_core/agents/implementations.py:138 | The broken links are exactly the crawled URLs that were answered 400 or more, or not at all. |
| `Crawl.FetchedReports` | packages/proactive_core/proactive_core/agents/implementations.py:111-135 | Status, title, links and flag of a recorded page, in terms of the response alone. |
| `Crawl.GraphLinks` | packages/proactive_core/proactive_core/agents/implementations.py:118-124 | The graph that the crawl explores links a URL to the same-origin targets of its response. |
| `Crawl.BrokenInOrder` | packages/proactive_core/proactive_core/agents/implementations.py:138 | Broken links are listed in the order of their pages, each once. |
| `Crawl.FetchPage` | packages/proactive_core/proactive_core/agents/implementations.py:111-135 | The page recorded for one URL has the status, the title and exactly the same-origin targets of the response, and is broken from status 400 on; without a response it is broken, with status 0 and nothing else. The entries queued are those its links add. |
| `Crawl.Execute` | packages/proactive_core/proactive_core/agents/implementations.py:89-140 | For every site, seed, depth and page budget: rejects what it must, ends, keeps to the budget, crawls nearest first, each URL once; each page reports what fetching its URL gave, the broken links are those answered 400 or more or not at all, in page order; the total counts pages and entries still waiting; and the URLs crawled are exactly those within the depth limit when none waits. |
| `Sessions.KeyExpiryBounds` | packages/proactive_core/proactive_core/auth.py:116 | A written key is live, and dies less than a second before its session, if at all; with a clock of whole seconds it never does. |
| `Sessions.KeyExpiryExact` | packages/proactive_core/proactive_core/auth.py:116 | A key written at once, a second or more ahead, dies exactly the fraction of a second early that remains at the writing. |
| `Sessions.KeyExpiryLeast` | packages/proactive_core/proactive_core/auth.py:116 | A key written with less than a second to go lives for one second. |
| `SessionSafety.StepKeepsFamilies` | packages/proactive_core/proactive_core/auth.py:211-290 | Issue and rotate keep the family invariant: at most one active member, one identity, one revocation mark. |
| `SessionSafety.FamiliesHold` | packages/proactive_core/proactive_core/auth.py:211-290 | The invariant holds at every point of every run. |
| `SessionSafety.OneActivePerFamily` | packages/proactive_core/proactive_core/auth.py:211-290 | On every run a family has at most one token that is neither used nor revoked, and all its tokens share user, organisation and role. |
| `SessionSafety.MarksStay` | packages/proactive_core/proactive_core/auth.py:94-98 | Used and revoked marks are never taken back. |
| `SessionSafety.ExchangedOnce` | packages/proactive_core/proactive_core/auth.py:274-290 | No token is exchanged twice on any run. |
| `SessionSafety.ReplayKillsFamily` | packages/proactive_core/proactive_core/auth.py:280-282 | After a replay is detected every later rotation of a token of that family fails. |
| `SessionHistory.HistoryTells` | packages/proactive_core/proactive_core/auth.py:80-98 | At every point of every run the store holds of each token what the requests and outcomes so far tell of it: origin, end, used and revoked. |
| `SessionHistory.HistoryDecides` | packages/proactive_core/proactive_core/auth.py:274-290 | So these alone decide each rotation: a token never issued, of a replayed family, or of which the `refresh_token_days` of 86,400 seconds are over, is invalid; one exchanged before is reuse; any other is exchanged. |
| `SessionHistory.HistoryDecidesRedis` | packages/proactive_core/proactive_core/auth.py:101-290 | The same over Redis, with a clock of whole seconds. |
| `SessionHistory.LivesItsDays` | packages/proactive_core/proactive_core/auth.py:236-290 | On every run, for every number of days and every clock, a token presented for the first time is exchanged if and only if fewer than its days have passed since it was issued, and no token of its family has been found replayed. |
| `SessionHistory.LivesItsDaysInRedis` | packages/proactive_core/proactive_core/auth.py:101-290 | And over Redis, with a clock of whole seconds. |
| `SessionAgreement.RevokeReaches` | packages/proactive_core/proactive_core/auth.py:152-161 | Revoking a family over Redis reaches every member that the family set lists and that is a second or more from its end, whatever keys and sets expire between the turns of the loop. |
| `SessionAgreement.SameOutcome` | packages/proactive_core/proactive_core/auth.py:274-290 | Over stores that hold the same sessions both answer a request alike if and only if its token does not slip: its key is not gone before the session ends, and has not outlived the family set that a revocation went by. |
| `SessionAgreement.SlipsLate` | packages/proactive_core/proactive_core/auth.py:114-161 | A token slips only in the last second of its session. |
| `SessionAgreement.StepKeepsRelated` | packages/proactive_core/proactive_core/auth.py:114-161 | A request whose token does not slip keeps the expiring store a mirror of the one that never forgets, with an instant of its own for every reading of the clock. |
| `SessionAgreement.AgreeUnlessSlips` | packages/proactive_core/proactive_core/auth.py:80-161 | On every run, used and unused tokens alike, the outcomes over both stores agree exactly as far as no token slips. |
| `SessionAgreement.AgreeUnlessLate` | packages/proactive_core/proactive_core/auth.py:80-161 | At any resolution of the clock they agree on every run that presents no token in the last second of its session. |
| `SessionAgreement.WholeSecondsAgree` | packages/proactive_core/proactive_core/auth.py:80-161 | With a clock of whole seconds the outcomes over both stores are equal on every run, whatever ticks pass within a request. |
| `SessionAgreement.RedisReplayKillsFamily` | packages/proactive_core/proactive_core/auth.py:101-161 | Over Redis too, on such runs: after a replay every later rotation of that family fails as invalid, and no token is exchanged twice. |
| `SessionLimits.AlwaysAgreeIff` | packages/proactive_core/proactive_core/auth.py:116 | The stores agree on every run if and only if the clock has no fractions of a second or tokens have no life: otherwise even a token never used is lost, its key written a tick after its session was dated. |
| `SessionLimits.HalfSecondsDisagree` | packages/proactive_core/proactive_core/auth.py:116 | A run with half seconds and one instant for each request on which the memory store detects reuse and Redis does not. |
| `SessionLimits.EscapesDisagree` | packages/proactive_core/proactive_core/auth.py:152-161 | A run on which a used token outlives its family set: Redis detects its replay a second time, the revocation having found the set empty. |
| `RedisSafety.ReplaySpends` | packages/proactive_core/proactive_core/auth.py:152-161 | After a revocation over Redis no token of the family can be exchanged, however keys and the set expire while the loop runs: a key it does not reach is used or dead. |
| `RedisSafety.StepKeepsGuarded` | packages/proactive_core/proactive_core/auth.py:101-290 | Over Redis alone, at every resolution of the clock, requests that take turns each keep at most one usable token in a family, listed in a set that lives as long as its key. |
| `RedisSafety.OneUsablePerFamily` | packages/proactive_core/proactive_core/auth.py:101-290 | So a family has at most one usable token at every point of every such run over Redis. |
| `RedisSafety.RedisExchangesOnce` | packages/proactive_core/proactive_core/auth.py:274-290 | On every such run, at any resolution, no token is exchanged twice. |
| `RedisSafety.NoExchangeAfterReplay` | packages/proactive_core/proactive_core/auth.py:280-282 | And after a detected replay no token of that family is exchanged again, although a revocation need not reach every key. |
| `Rotations.LateGetRefused` | packages/proactive_core/proactive_core/auth.py:101-290 | On every interleaving of logins, rotations and revocations at their awaits, failures at any of them included: once anyone has written a session back, used or revoked, no rotation that reads it later is let through. So rotations that exchange one token have all read it before the first of them wrote. |
| `Rotations.NextKeepsOrderly` | packages/proactive_core/proactive_core/auth.py:101-290 | Where a rotation reads its token only while nobody else is at work in the family, and no revocation breaks off, every step keeps at most one usable token in a family, listed or about to be revoked, and in the sight of whoever is at work there. |
| `Rotations.TakenOnceAt` | packages/proactive_core/proactive_core/auth.py:274-290 | If the rotations of a family do not overlap, no token is exchanged twice, whatever fails and whichever revocations break off. |
| `RotationRuns.TwoExchange` | packages/proactive_core/proactive_core/auth.py:274-290 | Two rotations that read one token before either wrote both exchange it, for every lifetime of at least a day and every clock. |
| `RotationRuns.AlwaysOnceIff` | packages/proactive_core/proactive_core/auth.py:274-290 | For every setting: no token is exchanged twice on any interleaving if and only if the rotations of a family may not overlap, or tokens have no life. |
| `Rotations.NextKeepsFinal` | packages/proactive_core/proactive_core/auth.py:101-290 | A family without a usable token, and with nobody let through in it, stays so from any step on, overlapping ones and failures included. |
| `Rotations.NoneAfterReplay` | packages/proactive_core/proactive_core/auth.py:152-290 | If they do not overlap and revocations do not break off, no token of the family is exchanged once a replay has been detected and its revocation is over. |
| `RotationRuns.LostRevocation` | packages/proactive_core/proactive_core/auth.py:152-290 | An overlapping rotation writes its token back unrevoked after a complete revocation, and exchanges it. |
| `RotationRuns.LostMember` | packages/proactive_core/proactive_core/auth.py:114-161 | Without any overlap: a revocation that breaks off after an old member leaves the family set to expire with it; the next one finds the set empty, and the newest token is exchanged. |
| `RotationRuns.AlwaysFinalIff` | packages/proactive_core/proactive_core/auth.py:101-290 | For every setting: a family is done for once a replay has been detected and its revocation is over, on every interleaving, if and only if the rotations of a family may not overlap and revocations not break off, or tokens have no life. |
| `SessionStores.MemorySessionStore.RevokeFamily` | packages/proactive_core/proactive_core/auth.py:94-98 | Exactly the sessions of the family are revoked, in place. |
| `SessionStores.MemorySessionStore.Rotate` | packages/proactive_core/proactive_core/auth.py:274-290 | Outcome and new contents are those of the abstract step, for every token and state; `SessionHistory.HistoryDecides` says what that step answers. |
| `SessionStores.RedisSessionStore.Put` | packages/proactive_core/proactive_core/auth.py:114-132 | Key, family set and both expiries after one transaction. |
| `SessionStores.RedisSessionStore.Get` | packages/proactive_core/proactive_core/auth.py:134-150 | A fresh copy of the session under a live key, or none. |
| `SessionStores.RedisSessionStore.RevokeFamily` | packages/proactive_core/proactive_core/auth.py:152-161 | Meets each listed member once, in any order, each turn at instants of its own, and rewrites those whose key is then live as revoked. |
| `SessionStores.RedisSessionStore.Rotate` | packages/proactive_core/proactive_core/auth.py:274-290 | Outcome and new server state are those of the abstract step, for every token and state; `SessionHistory.HistoryDecidesRedis` says what that step answers. |
| `Idempotency.FramingIsInjective` | packages/proactive_core/proactive_core/api/app.py:310 | Requests share a stored entry only for the same organisation, operation and key, colons in the key included. |
| `Idempotency.NextKeepsSpaced` | packages/proactive_core/proactive_core/api/app.py:317-337 | Every step keeps the claims of one key, its insertions, a time-to-live apart. |
| `Idempotency.NextKeepsTruthful` | packages/proactive_core/proactive_core/api/app.py:385-436 | Every step keeps entries and answers naming claimed tasks, or a request's own, and tasks sent at most once, by their claimants. |
| `Idempotency.NextKeepsOnce` | packages/proactive_core/proactive_core/api/app.py:385-436 | While entries live, every step keeps one claim for each key, at most one dispatch, and all answers alike. |
| `Idempotency.ClaimsApart` | packages/proactive_core/proactive_core/api/app.py:385-436 | The first two hold on every interleaving of any number of commands, the await between insertion and dispatch and failures included. |
| `Idempotency.TaskSentOnce` | packages/proactive_core/proactive_core/api/app.py:407-436 | On every interleaving a task is dispatched at most once, whatever fails or expires. |
| `Idempotency.DispatchesApart` | packages/proactive_core/proactive_core/api/app.py:327-436 | Two dispatches for one key are a time-to-live apart, less the longest wait of a dispatch for the reply to its insertion. |
| `Idempotency.LateDispatch` | packages/proactive_core/proactive_core/api/app.py:327-436 | That distance is reached, for every such wait up to a day. |
| `Idempotency.RedisClaimsADayApart` | packages/proactive_core/proactive_core/api/app.py:327 | Over Redis two insertions for one key are at least 86,400 seconds apart. |
| `Idempotency.ValidForADay` | packages/proactive_core/proactive_core/api/app.py:310-337 | On every interleaving over Redis, a command looked up less than 24 hours after the insertion for its key is answered with that task, and one looked up later than that after every insertion is not answered from the store. |
| `Idempotency.NewKeyMissed` | packages/proactive_core/proactive_core/api/app.py:310-316 | Nor is one with a key never inserted. |
| `Idempotency.OrphanIffGone` | packages/proactive_core/proactive_core/api/app.py:328-332 | An answer names a task that nobody claimed if and only if, some time in the run, the request found the entry that had refused its insertion gone. |
| `Idempotency.UndispatchedIffOrphaned` | packages/proactive_core/proactive_core/api/app.py:327-436 | On every interleaving, an answer names a task that was not dispatched if and only if that happened, or the claimant of the task has not sent it yet or failed before it could. |
| `Idempotency.DispatchedOnce` | packages/proactive_core/proactive_core/api/app.py:385-436 | On every interleaving within one time-to-live each key is claimed once, dispatched at most once, and every answer carries that task. |
| `Idempotency.InProcessDispatchesOnce` | packages/proactive_core/proactive_core/api/app.py:333-337 | The in-process dictionary gives that on runs of any length. |
| `Idempotency.OrphanedAnswer` | packages/proactive_core/proactive_core/api/app.py:327-332 | A run of two commands on which the loser answers with a task that nobody claimed. |
| `Idempotency.AnsweredTooSoon` | packages/proactive_core/proactive_core/api/app.py:327-420 | A run on which an answer read between insertion and dispatch names a task that is never sent. |
| `Idempotency.IdempotencyStore.SetIfAbsent` | packages/proactive_core/proactive_core/api/app.py:327 | Inserts if and only if no live entry stands in the way, with the entry's expiry. |
| `Idempotency.IdempotencyStore.Put` | packages/proactive_core/proactive_core/api/app.py:317-337 | Undisturbed, it inserts its own task or answers with the one already there. |
| `Keyset.ChainAscends` | packages/proactive_core/proactive_core/api/app.py:295-298 | Keys ascend strictly within and across pages of any chain. |
| `Keyset.ChainComplete` | packages/proactive_core/proactive_core/api/app.py:299-306 | A key held at every fetch is shown by the time a page says there is no more. |
| `Pagination.Matching` | packages/proactive_core/proactive_core/api/app.py:290-292 | Exactly the items that pass every equality filter. |
| `Pagination.LeftOutIff` | packages/proactive_core/proactive_core/api/app.py:290-292 | An item is left out if and only if some filter asks for another value of its field, a missing one counting as empty. |
| `Pagination.LessIsLexicographic` | packages/proactive_core/proactive_core/api/app.py:293-297 | The order of ids is the lexicographic one of their bytes. |
| `Pagination.SortedAscending` | packages/proactive_core/proactive_core/api/app.py:293 | A list with distinct ids is sorted in strictly ascending id order. |
| `Pagination.AfterIsSuffix` | packages/proactive_core/proactive_core/api/app.py:295-297 | Of a sorted list, the ids after a cursor are a suffix. |
| `Pagination.PageSize` | packages/proactive_core/proactive_core/api/app.py:298 | Text that is no number, and nothing else, is an error; no limit is 50; a number from 1 to 100 is itself. |
| `Pagination.NearestSize` | packages/proactive_core/proactive_core/api/app.py:298 | Any other number gives the nearest of those. |
| `Pagination.CursorRoundTrip` | packages/proactive_core/proactive_core/api/app.py:272-284 | A cursor decodes to the id it was made of, of any length, and the empty one is refused. |
| `Pagination.CursorIffCanonical` | packages/proactive_core/proactive_core/api/app.py:272-284 | A cursor that decodes is the one made of its id if and only if it is canonical: letters of the alphabet alone, without padding, no lone one, and no bits left over. |
| `Pagination.RefusedIff` | packages/proactive_core/proactive_core/api/app.py:272-298 | A page is refused if and only if there is a cursor that does not decode or a limit that is no number: a malformed cursor is never a first page. |
| `Pagination.MalformedRefused` | packages/proactive_core/proactive_core/api/app.py:276-284 | A cursor with a character outside the alphabet, or a letter too many, is refused. |
| `Pagination.CutIds` | packages/proactive_core/proactive_core/api/app.py:299-305 | A page shows the first ids of what remains, whatever fields are asked for. |
| `Pagination.PageTrims` | packages/proactive_core/proactive_core/api/app.py:294-304 | Item i of any page is item i of what remains, with exactly the fields asked for and its id, or all if none was asked for, each with its own value; and the page has as many as the limit allows. |
| `Following.EveryPage` | packages/proactive_core/proactive_core/api/app.py:287-306 | A client that follows cursors gets, each time, the first page of what lies after the last id it was shown, of the list as it then is. |
| `Following.EveryPageTrims` | packages/proactive_core/proactive_core/api/app.py:287-306 | So its items are the first of the matching ones that lie there, with the fields asked for and their own values. |
| `Following.FollowingIsChain` | packages/proactive_core/proactive_core/api/app.py:287-306 | The pages of any such client form a chain over the lists they were taken from. |
| `Following.NeverTwice` | packages/proactive_core/proactive_core/api/app.py:287-306 | Whatever is inserted or deleted between fetches, ids ascend strictly over all pages, so none is returned twice. |
| `Following.NothingMissed` | packages/proactive_core/proactive_core/api/app.py:287-306 | A matching item present at every fetch is returned by the time a page says there is no more. |
| `Following.StaticPages` | packages/proactive_core/proactive_core/api/app.py:287-306 | On a list that does not change, the pages join to exactly the filtered list in id order, each item with the fields asked for and their own values, in max(1, ceil(n / limit)) fetches. |
| `Windows.GappedWindow` | packages/proactive_core/proactive_core/api/app.py:103-107 | If each entry comes a period after the one n before it, no window of that length holds more than n. |
| `Windows.CountsPlaces` | packages/proactive_core/proactive_core/api/app.py:103-107 | What the windows below count is the number of entries after the cutoff and up to the instant. |
| `Windows.PrunedBetween` | packages/proactive_core/proactive_core/api/app.py:103-104 | A pruned deque has at least as many entries as the full log has after the horizon of earlier prunings, and at most as many as it has inside the window. |
| `Windows.PrunedCounts` | packages/proactive_core/proactive_core/api/app.py:103-104 | If the two coincide, exactly as many. |
| `RequestLimiters.AdmissionsBounded` | packages/proactive_core/proactive_core/api/app.py:98-108 | On every run, no window of the limiter's length holds more admissions than the largest limit asked for. |
| `RequestLimiters.Consume` | packages/proactive_core/proactive_core/api/app.py:102-108 | One call against a pruned deque admits whom the full log over its own window would, and nobody whom the full log over the shortest window in use would not; for the shortest window the answer and the remaining count are those of the full log. |
| `RequestLimiters.AnswersAdmit` | packages/proactive_core/proactive_core/api/app.py:105-108 | With the shortest window in use a call is admitted if and only if fewer than the limit were admitted in the period before it, and the log after it is that of the rule. |
| `RequestLimiters.PrunedIsRecent` | packages/proactive_core/proactive_core/api/app.py:103-104 | Popping what is too old from the front is filtering the deque by age, so that what is proved of logs with several windows holds of the limiter (`QuotaWindows.WindowsHoldIff`). |
| `RequestLimiters.SlidingWindowLimiter.Allow` | packages/proactive_core/proactive_core/api/app.py:98-108 | The same for the limiter with all its keys, each call with a window of its own. |
| `FixedWindowLimiter.WindowInTwoBuckets` | packages/proactive_core/proactive_core/api/app.py:120 | A window of one period meets at most two buckets. |
| `FixedWindowLimiter.AttemptsPlaces` | packages/proactive_core/proactive_core/api/app.py:120-126 | The calls counted for bucket b are those from b periods up to b + 1. |
| `FixedWindowLimiter.FixedBounded` | packages/proactive_core/proactive_core/api/app.py:118-127 | On every run, any window of the limiter's length holds at most twice the largest limit. |
| `FixedWindowLimiter.Fills` | packages/proactive_core/proactive_core/api/app.py:120-127 | Calls that open a new bucket are all admitted up to the limit, whatever came before. |
| `FixedWindowLimiter.TwiceTheLimit` | packages/proactive_core/proactive_core/api/app.py:118-127 | For every limit n and every period there is a run with 2n admissions in one window. |
| `FixedWindowLimiter.HoldsIffTwice` | packages/proactive_core/proactive_core/api/app.py:118-127 | So for every period a bound holds on all runs if and only if it is at least twice the limit. |
| `FixedWindowLimiter.RedisWindowLimiter.Allow` | packages/proactive_core/proactive_core/api/app.py:118-127 | Answers by the number of calls the key has had in this bucket: the key's expiry never loses one, and the admissions are those of the rule above. |
| `Metering.MeteredInterval` | packages/proactive_core/proactive_core/agents/source_agents/governor.py:122-140 | A log whose every run stays within a burst grants at most burst + T in any interval of length T. |
| `Metering.PacedBounded` | packages/proactive_core/proactive_core/agents/source_agents/governor.py:122-140 | The same at a rate: at most the burst and what the rate earns. |
| `Buckets.TakePays` | packages/proactive_core/proactive_core/agents/source_agents/governor.py:125-140 | A grant is paid for by the tokens held and those earned since, the sleep counted once. |
| `Buckets.TakeKeepsThrottled` | packages/proactive_core/proactive_core/agents/source_agents/governor.py:125-140 | Every grant keeps the whole history within the bound. |
| `Buckets.TokenBucket.Acquire` | packages/proactive_core/proactive_core/agents/source_agents/governor.py:122-140 | A request for no more than is held and has been earned since, up to the capacity, returns at once and leaves the rest; a larger one waits exactly until what is missing is earned, and leaves none. |
| `Buckets.TokenBucket.Bounded` | packages/proactive_core/proactive_core/agents/source_agents/governor.py:122-140 | In any interval of length T at most capacity + rate * T tokens are granted (or one larger request's, if requests may exceed the capacity). |
| `Buckets.CapacityReached` | packages/proactive_core/proactive_core/agents/source_agents/governor.py:122-140 | The bound is reached, for every whole capacity, rate and number of spells: a full bucket asked for one token after another grants exactly capacity + rate * T. |
| `Buckets.TakeOnePays` | packages/proactive_core/proactive_core/agents/source_agents/crawler.py:182-200 | Measured at twice the rate, tokens pay for each grant: the sleep is credited once more by the next call. |
| `Buckets.DomainRateLimiter.Acquire` | packages/proactive_core/proactive_core/agents/source_agents/crawler.py:172-200 | At once with a token held, which goes, or after exactly the wait that earns what is missing; the refill instant stays that of the request. A new domain starts with the burst; other domains keep their buckets. |
| `Buckets.DomainRateLimiter.Bounded` | packages/proactive_core/proactive_core/agents/source_agents/crawler.py:164-200 | A sequential caller gets at most burst + 1 + 2 * rps * T grants in any interval of length T. |
| `Buckets.BoundReached` | packages/proactive_core/proactive_core/agents/source_agents/crawler.py:172-200 | For every burst of at least one, every rate and number of spells a run reaches exactly burst + 1 + 2 * rps * T, a late sleep having refilled the burst. |
| `Buckets.NoBurstSpaces` | packages/proactive_core/proactive_core/agents/source_agents/crawler.py:182-200 | With a burst of zero it is not reached: nothing is earned during a sleep, and each grant is the time of a token after the one before. |
| `LocalLimiter.GrantKeepsSpaced` | packages/proactive_core/proactive_core/integrations/base.py:71-79 | A grant at the earliest instant keeps every grant a period after the one `requests` places before it. |
| `LocalLimiter.GrantsBounded` | packages/proactive_core/proactive_core/integrations/base.py:62-79 | On every run each grant is a period after the one `requests` places before, so no period holds more. |
| `LocalLimiter.PrunedIsRecent` | packages/proactive_core/proactive_core/integrations/base.py:75-78 | When tested, the pruned deque never exceeds `requests`, though nothing is pruned after a sleep; its size and head decide the earliest instant of the whole log. |
| `LocalLimiter.LocalRateLimiter.Acquire` | packages/proactive_core/proactive_core/integrations/base.py:71-79 | Stamps each grant at the earliest instant a period after the one `requests` places before, no sooner and, but for a late clock, no later; a limit below one never grants. |
| `Breaker.CircuitBreaker.BeforeRequest` | packages/proactive_core/proactive_core/integrations/base.py:40-48 | Refuses if and only if the circuit was opened less than the recovery time ago; asking later closes it. |
| `Breaker.CircuitBreaker.Failure` | packages/proactive_core/proactive_core/integrations/base.py:55-59 | Counts one failure and opens the circuit from the threshold on. |
| `Breaker.FailureKeepsWatch` | packages/proactive_core/proactive_core/integrations/base.py:55-59 | A failure recorded with the circuit closed keeps the history guarded. |
| `Breaker.NextKeepsWatch` | packages/proactive_core/proactive_core/integrations/base.py:30-59 | Every attempt, let through or not, keeps it guarded. |
| `Breaker.RunFailuresBounded` | packages/proactive_core/proactive_core/integrations/base.py:30-59 | On every sequential run, a stretch of failures shorter than the recovery time with no success in it holds at most the threshold. |
| `Probes.ThresholdLetThrough` | packages/proactive_core/proactive_core/integrations/base.py:40-59 | For every threshold a run on which, after the recovery time, as many failures are let through as before the circuit opened; the bound is tight. |
| `Probes.ProbesOnceIff` | packages/proactive_core/proactive_core/integrations/base.py:40-59 | After recovery at most one failure is let through on every run if and only if the threshold is at most one, or there is no recovery time. |
| `HttpClient.PauseAtLeast` | packages/proactive_core/proactive_core/integrations/base.py:142 | The pause is at least min(8, 2 ^ attempt) seconds and never less than one. |
| `HttpClient.PauseGrows` | packages/proactive_core/proactive_core/integrations/base.py:142 | The pauses are one, two and four seconds with the jitter, and eight from the fourth on. |
| `HttpClient.TurnEnds` | packages/proactive_core/proactive_core/integrations/base.py:112-141 | What one turn of the loop decides agrees with what the whole request must come to. |
| `HttpClient.EndedSettles` | packages/proactive_core/proactive_core/integrations/base.py:112-145 | In status numbers: every send before the last was unreachable or came back 408, 425, 429 or at least 500; another status from 400 on is raised, not to be retried, by the last; below 400 an object is returned as it is, another value under items, and an empty object for no content. |
| `HttpClient.RecordsOutcomes` | packages/proactive_core/proactive_core/integrations/base.py:129-139 | The breaker hears of a failure for a status of 400 or more or no response, and of a success for any other. |
| `HttpClient.ResilientHttpClient.Send` | packages/proactive_core/proactive_core/integrations/base.py:112-114 | One slot is taken for each send, and none without it. |
| `HttpClient.ResilientHttpClient.Attempt` | packages/proactive_core/proactive_core/integrations/base.py:110-141 | Asked, sent and recorded: the breaker's history grows by what came back, and stays guarded. |
| `HttpClient.ResilientHttpClient.Iterate` | packages/proactive_core/proactive_core/integrations/base.py:110-142 | One pass of the loop either concludes the request as its last send demands or goes on with one more retryable failure recorded, after exactly the pause and what the sleep is late. |
| `HttpClient.ResilientHttpClient.Request` | packages/proactive_core/proactive_core/integrations/base.py:107-145 | At most `max_attempts` sends; every send before the last came back unreachable, 408, 425, 429 or at least 500; the last decides the outcome by its status and body; the code after the loop is reached only with no attempts allowed; the breaker hears of every send but one that ended in another exception, and pauses grow. |
| `Allocator.SumChanges` | packages/proactive_core/proactive_core/agents/source_agents/decision.py:301-304 | Changing what one agent has used changes the total by as much. |
| `Allocator.OwnIsTruncated` | packages/proactive_core/proactive_core/agents/source_agents/decision.py:293-295 | An own share is the budget times the reserved share with the fraction cut off, and zero if either is missing. |
| `Allocator.ResourceAllocator.Add` | packages/proactive_core/proactive_core/agents/source_agents/decision.py:301-304 | The loop adds up what all agents have used of an API. |
| `Allocator.ResourceAllocator.Grant` | packages/proactive_core/proactive_core/agents/source_agents/decision.py:291-308 | The grant is the request, a negative one too, held to the unused own share and the rest of the budget together. |
| `Allocator.ResourceAllocator.Allocate` | packages/proactive_core/proactive_core/agents/source_agents/decision.py:291-330 | Grants that much and books exactly it. |
| `Allocator.ResourceAllocator.Utilization` | packages/proactive_core/proactive_core/agents/source_agents/decision.py:332-347 | For each budget, the total used, what is left for the pool, and the percentage to the nearest tenth, ties to even. |
| `Allocator.TenthsNearest` | packages/proactive_core/proactive_core/agents/source_agents/decision.py:345 | In whole numbers: budget times tenths is off 1000 times the use by at most half a budget. |
| `Allocator.NextKeeps` | packages/proactive_core/proactive_core/agents/source_agents/decision.py:291-330 | Every allocation keeps use beyond own shares within the budget and all that negative requests have credited. |
| `Allocator.DayKeeps` | packages/proactive_core/proactive_core/agents/source_agents/decision.py:291-330 | So it is on every run, of positive and negative requests. |
| `Allocator.NeverStarved` | packages/proactive_core/proactive_core/agents/source_agents/decision.py:295-308 | A call grants at least min(requested, unused own share). |
| `Allocator.CutLeavesNothing` | packages/proactive_core/proactive_core/agents/source_agents/decision.py:297-308 | A request is cut only if nothing is left: the agent then has its whole share, and the budget is used up. |
| `Allocator.ReservationHonoured` | packages/proactive_core/proactive_core/agents/source_agents/decision.py:291-330 | On every run an agent that stays within its share whenever it asks for more gets everything it asked for, whatever others took. |
| `Allocator.ShareHonoured` | packages/proactive_core/proactive_core/agents/source_agents/decision.py:291-330 | In terms of the tables: an agent that stays within budget times share whenever it asks for more is granted everything, on every run. |
| `Allocator.CapHoldsIff` | packages/proactive_core/proactive_core/agents/source_agents/decision.py:291-330 | An API's budget holds on every run if and only if no agent has a share of it and no request is negative. |
| `Allocator.ShippedCapsHold` | packages/proactive_core/proactive_core/agents/source_agents/decision.py:277-295 | The shipped tables reserve nothing, so every shipped budget holds while no request is negative. |
| `Quotas.RecentIsSuffix` | packages/proactive_core/proactive_core/agents/source_agents/governor.py:169 | Filtering a log in order by age leaves a suffix of it. |
| `Quotas.RecentCovers` | packages/proactive_core/proactive_core/agents/source_agents/governor.py:164-170 | A check over a longer window than the shortest in use finds at least the calls ever made in the shortest, though shorter checks have pruned the log. |
| `Quotas.RecentCounts` | packages/proactive_core/proactive_core/agents/source_agents/governor.py:164-170 | A check over the shortest window finds exactly the calls ever made in it. |
| `Quotas.NextKeepsSound` | packages/proactive_core/proactive_core/agents/source_agents/governor.py:159-170 | Every check, admitted or refused, keeps that so. |
| `Quotas.CallsBounded` | packages/proactive_core/proactive_core/agents/source_agents/governor.py:159-170 | On every run of callers with any windows and limits, no window as long as the shortest of them holds more calls than the largest limit. |
| `QuotaWindows.OverdrawingRun` | packages/proactive_core/proactive_core/agents/source_agents/governor.py:164-170 | For any two windows, a run on which a check over the shorter drops what the longer should have counted. |
| `QuotaWindows.WindowsHoldIff` | packages/proactive_core/proactive_core/agents/source_agents/governor.py:164-170 | Every caller's own window holds no more than the largest limit on all runs if and only if all callers have the same window, or no limit is positive; and so where no circuit ever opens. |
| `Governor.TakeAccounted` | packages/proactive_core/proactive_core/agents/source_agents/governor.py:233-239 | Taking a slot keeps every agent's account and limit. |
| `Governor.GiveAccounted` | packages/proactive_core/proactive_core/agents/source_agents/governor.py:266-269 | So does a release, spare ones included. |
| `Governor.ActiveIff` | packages/proactive_core/proactive_core/agents/source_agents/governor.py:233-269 | The active count is acquisitions less releases if and only if no release was spare, and never exceeds the agent's limit. |
| `Governor.TellsOpen` | packages/proactive_core/proactive_core/agents/source_agents/governor.py:298-316 | The stored circuit refuses exactly when the API's history says so: five failures or more since the last success, the last no more than 300 seconds ago. |
| `Governor.OpenAfterFive` | packages/proactive_core/proactive_core/agents/source_agents/governor.py:298-316 | A circuit is open if and only if the last five reports were failures and the last is no more than 300 seconds ago. |
| `Governor.AskedHalfOpens` | packages/proactive_core/proactive_core/agents/source_agents/governor.py:303-316 | Asked later than that, it is half open, its count kept. |
| `Governor.FailedTells` | packages/proactive_core/proactive_core/agents/source_agents/governor.py:277-296 | A failure keeps the circuit true to the history. |
| `Governor.SucceededTells` | packages/proactive_core/proactive_core/agents/source_agents/governor.py:271-275 | So does a success, on a circuit that may not exist. |
| `Governor.QuotaBounded` | packages/proactive_core/proactive_core/agents/source_agents/governor.py:215-264 | Where only quota holders have called an API, no window as long as the shortest of theirs holds more calls than the largest limit any agent has. |
| `Governor.QuotaCountsAll` | packages/proactive_core/proactive_core/agents/source_agents/governor.py:242-252 | There the check of a holder of the shortest window answers as a count of all calls ever made. |
| `Governor.QuotaInSeconds` | packages/proactive_core/proactive_core/agents/source_agents/governor.py:164-188 | In seconds: 1, 60, 3600 or 86,400 for the window named, and 60 for any other. |
| `Governor.WithoutQuota` | packages/proactive_core/proactive_core/agents/source_agents/governor.py:241-252 | An agent that holds no quota for an API is never refused by one. |
| `Governor.ResourceGovernor.Check` | packages/proactive_core/proactive_core/agents/source_agents/governor.py:164-170 | Prunes the shared log and says whether the quota leaves a call. |
| `Governor.ResourceGovernor.IsCircuitOpen` | packages/proactive_core/proactive_core/agents/source_agents/governor.py:298-316 | Says whether the history keeps the circuit open, half-opening a cooled one. |
| `Governor.ResourceGovernor.Record` | packages/proactive_core/proactive_core/agents/source_agents/governor.py:159-162 | Logs one call and keeps every API's log sound. |
| `Governor.ResourceGovernor.Acquire` | packages/proactive_core/proactive_core/agents/source_agents/governor.py:215-264 | Succeeds if and only if the agent has a slot free and, for an API, the quota allows and the circuit is closed; then it takes one slot and logs one call, else neither. |
| `Governor.ResourceGovernor.Release` | packages/proactive_core/proactive_core/agents/source_agents/governor.py:266-269 | Gives one slot back, or none below zero. |
| `Governor.ResourceGovernor.RecordApiSuccess` | packages/proactive_core/proactive_core/agents/source_agents/governor.py:271-275 | Adds a success to the API's history and keeps all invariants. |
| `Governor.ResourceGovernor.RecordApiFailure` | packages/proactive_core/proactive_core/agents/source_agents/governor.py:277-296 | Adds a failure to it and keeps all invariants. |
| `Frontier.SortsAppended` | packages/proactive_core/proactive_core/agents/source_agents/crawler.py:134-135 | Appending to the sorted queue and sorting it stably puts the entry behind all that do not come later. |
| `Frontier.InsertInOrder` | packages/proactive_core/proactive_core/agents/source_agents/crawler.py:134-135 | A new entry leaves the queue in order of priority, depth and arrival. |
| `Frontier.AddKeeps` | packages/proactive_core/proactive_core/agents/source_agents/crawler.py:128-136 | Adding keeps the frontier whole: the pages seen are those handed out and those waiting, none twice. |
| `Frontier.PopKeeps` | packages/proactive_core/proactive_core/agents/source_agents/crawler.py:141-143 | So does handing out the head. |
| `Frontier.HeadIsFirst` | packages/proactive_core/proactive_core/agents/source_agents/crawler.py:138-144 | The entry handed out has a least priority, among those a least depth, and among equals was added first. |
| `Frontier.HandedOnce` | packages/proactive_core/proactive_core/agents/source_agents/crawler.py:120-157 | Over a frontier's life each normalised URL is handed out at most once, and none that waits has been. |
| `Frontier.URLFrontier.Add` | packages/proactive_core/proactive_core/agents/source_agents/crawler.py:128-136 | Accepts if and only if the page is new and the frontier not full; the set seen never exceeds its limit. |
| `Frontier.URLFrontier.Pop` | packages/proactive_core/proactive_core/agents/source_agents/crawler.py:142 | Hands out the head of the queue, which no waiting entry precedes by priority, nor by depth at the same priority. |
| `Frontier.URLFrontier.NextBatch` | packages/proactive_core/proactive_core/agents/source_agents/crawler.py:138-144 | Hands out the first entries of the queue, at most `size` of them, and none if `size` is below one. |
| `CrawlLoop.OfferedAllSees` | packages/proactive_core/proactive_core/agents/source_agents/crawler.py:716-718 | After a page's links are offered every one has been seen or the frontier is full, and entries waiting grow only as pages seen do. |
| `CrawlLoop.ExploredAllFollows` | packages/proactive_core/proactive_core/agents/source_agents/crawler.py:674-718 | So it is for every allowed page of a batch above the depth limit, and stays so. |
| `CrawlLoop.TurnWorks` | packages/proactive_core/proactive_core/agents/source_agents/crawler.py:671-718 | A turn lowers (limit - pages seen) + entries waiting by exactly its batch, on any site. |
| `CrawlLoop.NoBurstNoProgress` | packages/proactive_core/proactive_core/agents/source_agents/crawler.py:668-672 | With a burst below one a turn changes nothing: the loop would not end while an entry waits. |
| `CrawlLoop.CrawlFollows` | packages/proactive_core/proactive_core/agents/source_agents/crawler.py:671-718 | At every turn of a run the links of everything taken so far have been followed, or the frontier is full. |
| `CrawlLoop.LinksHandedOut` | packages/proactive_core/proactive_core/agents/source_agents/crawler.py:671-719 | If the loop runs out of entries before the frontier fills up, the pages handed out are closed under links down to the depth limit. |
| `CrawlLoop.TurnLayered` | packages/proactive_core/proactive_core/agents/source_agents/crawler.py:671-718 | Priorities of depth + 3 keep the queue to two adjacent depths, although a batch is taken before its links are added. |
| `CrawlLoop.DepthsAscend` | packages/proactive_core/proactive_core/agents/source_agents/crawler.py:660-718 | From start pages alone, every run takes pages in order of ascending depth. |
| `CrawlDistances.ShortestIsDistance` | packages/proactive_core/proactive_core/agents/source_agents/crawler.py:716-718 | If no followed link skips a depth and every page was found from one a link nearer, depths are shortest link distances. |
| `CrawlDistances.ExploreKeepsShortest` | packages/proactive_core/proactive_core/agents/source_agents/crawler.py:674-718 | Exploring one more page keeps that so, whatever is in its links and whether or not the frontier is full. |
| `CrawlDistances.ExploreTurn` | packages/proactive_core/proactive_core/agents/source_agents/crawler.py:671-718 | So does a turn, although its batch is taken before the links of its first page are known. |
| `CrawlDistances.DepthIsDistance` | packages/proactive_core/proactive_core/agents/source_agents/crawler.py:660-718 | At every turn of every run from start pages, on any site, each page taken or waiting has its shortest link distance over the pages taken so far as its depth. |
| `SiteDistances.WithinSeen` | packages/proactive_core/proactive_core/agents/source_agents/crawler.py:671-718 | On a site where URLs that count as one page lead to the same other pages: with room in the frontier, all pages of the site within the depth reached have been seen, none deeper than its distance. |
| `SiteDistances.ExploreKeepsSite` | packages/proactive_core/proactive_core/agents/source_agents/crawler.py:674-718 | On such a site, exploring one more page keeps every known page no nearer to the start pages, in the whole site, than its depth. |
| `SiteDistances.DepthIsSiteDistance` | packages/proactive_core/proactive_core/agents/source_agents/crawler.py:660-718 | On such a site, at every turn of every run from start pages, each page taken or waiting has its distance from them in the whole site as its depth, also once the frontier is full: marking on queueing, batches and priorities still give a breadth-first crawl. |
| `SiteDistances.TakesAllWithin` | packages/proactive_core/proactive_core/agents/source_agents/crawler.py:660-720 | On such a site, a run that ends for want of entries, with room left, has taken exactly the pages within the depth limit. |
| `SiteDistances.NeverTooNear` | packages/proactive_core/proactive_core/agents/source_agents/crawler.py:660-718 | On any site, an entry's depth is never below the distance of its page from the start pages: a walk of that length leads there. |
| `SiteDistances.AlwaysExactIff` | packages/proactive_core/proactive_core/agents/source_agents/crawler.py:128-157 | From any start pages and within any limits, runs that end for want of entries with room left take exactly the pages within the depth limit, if and only if URLs that count as one page lead to the same other pages. |
| `CrawlLoop.Crawler.AddLinks` | packages/proactive_core/proactive_core/agents/source_agents/crawler.py:716-718 | The pages seen and the queue after offering every link in order, at depth + 1 and priority depth + 3. |
| `CrawlLoop.Crawler.CrawlOne` | packages/proactive_core/proactive_core/agents/source_agents/crawler.py:674-718 | The result of one entry, blocked or crawled, and the frontier after it; links count only above the depth limit. |
| `CrawlLoop.Crawler.CrawlBatch` | packages/proactive_core/proactive_core/agents/source_agents/crawler.py:674-718 | One result for each entry of a batch, in order, and the frontier after them all. |
| `CrawlLoop.Crawler.Turn` | packages/proactive_core/proactive_core/agents/source_agents/crawler.py:672-718 | A turn takes the first entries of the queue, at most `burst` and none for a burst below one, and leaves the frontier that exploring them gives. |
| `CrawlLoop.Crawler.Run` | packages/proactive_core/proactive_core/agents/source_agents/crawler.py:671-720 | On any site, infinite ones too, the loop ends, after a run of such turns, with one result for each entry handed out, at most max_urls + burst - 1 of them, and stops only for want of entries or budget. |
| `Campaigns.UpdateRaises` | packages/proactive_core/proactive_core/agents/source_agents/backlink.py:212-265 | An accepted update lowers the rank if and only if a keyword overwrites the status with a lower one; without such a keyword it raises it strictly, but for the dead dying again. |
| `Campaigns.AcceptsIff` | packages/proactive_core/proactive_core/agents/source_agents/backlink.py:224-247 | Accepted are the next status, negotiating from the first two of the sequence, and `DEAD`. |
| `Campaigns.KeywordsWrite` | packages/proactive_core/proactive_core/agents/source_agents/backlink.py:257-259 | Each attribute has the value of its own keyword afterwards, and stays as it was without one. |
| `Campaigns.ActsInTime` | packages/proactive_core/proactive_core/agents/source_agents/backlink.py:826-841 | Without a reply: a first follow-up `followup_1_days` days of 86,400 seconds after the outreach, a second one and giving up `followup_2_days` and `final_days` after the last recorded mail, and never otherwise. |
| `Campaigns.DueWhenItActs` | packages/proactive_core/proactive_core/agents/source_agents/backlink.py:882-887 | Once a follow-up is recorded, the campaign is due exactly when the engine acts on it again. |
| `Campaigns.RepliesAndEnds` | packages/proactive_core/proactive_core/agents/source_agents/backlink.py:813-847 | A reply leads to negotiating from anywhere in the sequence, at its instant; a campaign given up is dead for want of one. |
| `Campaigns.VisitIsSteps` | packages/proactive_core/proactive_core/agents/source_agents/backlink.py:804-890 | A visit that nothing interrupts comes to the steps between its awaits, one after another, for a renamed campaign too. |
| `Campaigns.NeverBack` | packages/proactive_core/proactive_core/agents/source_agents/backlink.py:212-265 | An event of any kind lowers the rank if and only if it is an accepted update with such a keyword. |
| `Campaigns.NextKeepsCounted` | packages/proactive_core/proactive_core/agents/source_agents/backlink.py:787-890 | Every other event, between the engine's awaits too, keeps the count of follow-ups in step with the status and the mail in flight: any but an update that renames the campaign or takes it back to a status with a follow-up still due, and a pass that starts on it while another is at work on it. |
| `Campaigns.AtMostTwo` | packages/proactive_core/proactive_core/agents/source_agents/backlink.py:787-890 | On every interleaving of passes, replies, failed sends, link checks, deletion and such other updates by hand, at most two follow-ups go out, none after a recorded reply, and none from the second one's status on but one in flight. |
| `Campaigns.NeverEarlier` | packages/proactive_core/proactive_core/agents/source_agents/backlink.py:224-265 | If no keyword lowers the status, no campaign returns to an earlier one on any run: dead ones stay dead, acquired ones stay so or die. |
| `Campaigns.ThirdCheckKills` | packages/proactive_core/proactive_core/agents/source_agents/backlink.py:1026-1054 | On every run on which no update by hand writes the count, the third failed check and every later one kills the campaign and no earlier one changes its status; a live check acquires it if it is negotiating, and changes no other status. |
| `Campaigns.NextKeepsSpaced` | packages/proactive_core/proactive_core/agents/source_agents/backlink.py:787-890 | Every such event that leaves the engine's timestamps to the engine keeps the stages apart. |
| `Campaigns.StagesApart` | packages/proactive_core/proactive_core/agents/source_agents/backlink.py:770-890 | With timestamps written only by the engine, on every such interleaving, the first follow-up is `followup_1_days` after the outreach and the second `followup_2_days` after the first. |
| `Campaigns.OutdatedIffRefused` | packages/proactive_core/proactive_core/agents/source_agents/backlink.py:876-890 | With timestamps written only by the engine, on every interleaving, renaming, lowering and overlapping ones included: the last mail has no record as late as itself if and only if its record was refused while an earlier one stayed. |
| `Campaigns.GivesUpTooSoonIff` | packages/proactive_core/proactive_core/agents/source_agents/backlink.py:839-890 | And the engine may give up sooner than `final_days` after its last mail if and only if that happened: the guard of the transition, or a missing identifier, turned the record of the last mail away. |
| `Campaigns.GivesUpAfterMail` | packages/proactive_core/proactive_core/agents/source_agents/backlink.py:839-847 | On every such interleaving it never gives up before it has sent something. |
| `CampaignRuns.GivesUpEarly` | packages/proactive_core/proactive_core/agents/source_agents/backlink.py:839-890 | A run on which an update by hand to the second follow-up's status has the record of that mail refused: the engine gives up after one day instead of seven. |
| `CampaignRuns.ThirdFollowUp` | packages/proactive_core/proactive_core/agents/source_agents/backlink.py:253-259 | At any pace and for each of the three statuses with a follow-up still due, a run on which a keyword takes the campaign back there and a third follow-up goes out. |
| `CampaignRuns.SentAgain` | packages/proactive_core/proactive_core/agents/source_agents/backlink.py:257-259 | At any pace and for every n, a run on which a campaign renamed by its outreach update is sent the first follow-up n times, none of them recorded. |
| `CampaignRuns.OverlappingSends` | packages/proactive_core/proactive_core/agents/source_agents/backlink.py:787-838 | At any pace, two passes that overlap both send the first follow-up, and the second goes out after them. |
| `CampaignRuns.AtMostTwoIff` | packages/proactive_core/proactive_core/agents/source_agents/backlink.py:224-890 | At any pace and under any policy for updates by hand and passes: at most two follow-ups go out on every run with a client if and only if no permitted update renames the campaign or lowers its status to `PROSPECTING`, `OUTREACH_SENT` or `FOLLOW_UP_1`, and passes may not overlap. |
| `CampaignRuns.OrderlyIff` | packages/proactive_core/proactive_core/agents/source_agents/backlink.py:224-890 | Where timestamps are written only by the engine, these policies and no others keep the waits between the stages as well. |
| `CampaignRuns.DeadStaysIff` | packages/proactive_core/proactive_core/agents/source_agents/backlink.py:241-259 | Dead campaigns stay dead on every run if and only if no permitted keyword lowers a status to one that is not `DEAD`. |
| `FollowUps.CampaignTracker.UpdateStatus` | packages/proactive_core/proactive_core/agents/source_agents/backlink.py:212-265 | The updated campaign with its keyword attributes, status and identifier among them, under the key it had, or none and no change if it is unknown or refuses. |
| `FollowUps.CampaignTracker.NeedingFollowUp` | packages/proactive_core/proactive_core/agents/source_agents/backlink.py:284-297 | The campaigns in a follow-up status whose time has come, each once. |
| `FollowUps.DueIff` | packages/proactive_core/proactive_core/agents/source_agents/backlink.py:286-297 | Due are the campaigns in one of the three statuses whose next follow-up is not in the future. |
| `FollowUps.VisitedLands` | packages/proactive_core/proactive_core/agents/source_agents/backlink.py:804-890 | An uninterrupted visit leaves a campaign as its own life says, and changes no other one if it is stored under its own identifier; else the update goes to whatever is. |
| `FollowUps.SentCountsTries` | packages/proactive_core/proactive_core/agents/source_agents/backlink.py:831-838 | The reported number of follow-ups is the number that went out if and only if every one tried did. |
| `FollowUps.FollowUpEngine.SendFollowUp` | packages/proactive_core/proactive_core/agents/source_agents/backlink.py:849-890 | After a send the update goes to whatever is stored under the campaign's own identifier; nothing changes without a client or after a failure. |
| `FollowUps.FollowUpEngine.VisitOne` | packages/proactive_core/proactive_core/agents/source_agents/backlink.py:804-845 | What an uninterrupted visit does to the book, for a campaign in any status, renamed or deleted ones included, and the action it counts. |
| `FollowUps.FollowUpEngine.ProcessFollowUps` | packages/proactive_core/proactive_core/agents/source_agents/backlink.py:787-847 | A pass visits the campaigns due at its start once each, as other requests have left, renamed or deleted them by then, and counts its actions. |
| `FollowUps.UndisturbedPass` | packages/proactive_core/proactive_core/agents/source_agents/backlink.py:787-847 | If no other request changes anything meanwhile and the campaigns due are stored under their own identifiers, it leaves all others alone, and its counts are those of the actions on the campaigns due. |
| `FollowUps.OutreachAgent.VerifyLink` | packages/proactive_core/proactive_core/agents/source_agents/backlink.py:1026-1054 | The campaign after the check of `Campaigns.ThirdCheckKills`, under its key; an unknown one is not found. |
| `Base64Url.DecodeEncode` | packages/proactive_core/proactive_core/ids.py:36-50 | Decoding, with the padding put back, undoes encoding without padding, for byte strings of every length. |
| `Base64Url.EncodesBits` | packages/proactive_core/proactive_core/ids.py:36 | An encoding spells the bits of its bytes, six by six and filled up with zeros, in the URL-safe alphabet (sections 4 and 5 of RFC 4648). |
| `Base64Url.JunkIgnored` | packages/proactive_core/proactive_core/ids.py:49-50 | The lenient decoder does not see characters outside the alphabet that follow by fours. |
| `Base64Url.StrictDecodeEncode` | packages/proactive_core/proactive_core/api/app.py:272-279 | The validating decoder accepts every encoding and gives back its bytes. |
| `Base64Url.StrictlyIff` | packages/proactive_core/proactive_core/api/app.py:276-279 | Letters and padding after them decode strictly if and only if there is no letter too many and no more padding than it takes. |
| `Base64Url.LettersDecodeIff` | packages/proactive_core/proactive_core/ids.py:49-50 | The lenient decoder refuses a text of letters if and only if there is one too many. |
| `Base64Url.LonePadPassed` | packages/proactive_core/proactive_core/ids.py:49-50 | It passes over a single padding character after two letters of a quad if a letter follows. |
| `Base64Url.AfterPadding` | packages/proactive_core/proactive_core/ids.py:49-50 | It does not look at what follows the padding that completes an encoding. |
| `PublicIds.RoundTrip` | packages/proactive_core/proactive_core/ids.py:32-53 | `decode_id(encode_id(v, p), p)` is v for every 16-byte value and prefix, underscores in the token included. |
| `PublicIds.TypeSafety` | packages/proactive_core/proactive_core/ids.py:46-47 | An identifier of one type is rejected where another is expected. |
| `PublicIds.EncodesIff` | packages/proactive_core/proactive_core/ids.py:7-34 | Identifiers exist for the seventeen prefixes and no others. |
| `PublicIds.BeyondAscii` | packages/proactive_core/proactive_core/ids.py:48-53 | A token with a character beyond ASCII is rejected. |
| `PublicIds.EncodingInjective` | packages/proactive_core/proactive_core/ids.py:32-37 | Different values or types have different identifiers. |
| `PublicIds.TokenLength` | packages/proactive_core/proactive_core/ids.py:36 | Every token has 22 characters. |
| `Base64Url.CanonicalIffEncoded` | packages/proactive_core/proactive_core/ids.py:36 | The canonical texts are exactly the encodings of byte strings. |
| `Base64Url.DecodedIffCanonical` | packages/proactive_core/proactive_core/ids.py:36-50 | A text that decodes is the encoding of its bytes if and only if it is canonical: letters of the URL-safe alphabet, no lone one, and no bits left over. |
| `PublicIds.EncodedIffCanonical` | packages/proactive_core/proactive_core/ids.py:32-53 | An identifier that decodes is the one its value encodes to if and only if its token is 22 letters of the URL-safe alphabet, the last with its four low bits zero. |
| `PublicIds.LenientPayload` | packages/proactive_core/proactive_core/ids.py:48-51 | So decoding is not injective: an identifier with foreign characters appended by fours decodes alike. |
| `Sse.SplitJoins` | apps/web/lib/use-sse.ts:33-34 | The pieces joined by blank lines are the text. |
| `Sse.SplitTight` | apps/web/lib/use-sse.ts:33 | No separator begins inside a piece, so the leftmost ones are taken. |
| `Sse.SplitUnique` | apps/web/lib/use-sse.ts:33 | It is the only such way of cutting the text. |
| `Sse.SplitExtends` | apps/web/lib/use-sse.ts:32-34 | More text only continues the piece left over. |
| `Sse.ChunkingIrrelevant` | apps/web/lib/use-sse.ts:29-34 | For every way of cutting a text into chunks, inside a separator or a run of newlines too, the events and the text left over are those of splitting it whole. |
| `Sse.LinesJoin` | apps/web/lib/use-sse.ts:36 | The lines of an event are its pieces between newlines. |
| `Sse.FirstIdIsFirst` | apps/web/lib/use-sse.ts:36 | The id is the rest of the first line that starts with "id: ", if there is one. |
| `Sse.IdOfEvent` | apps/web/lib/use-sse.ts:36 | The id of an event is what follows `id: ` on the first of its lines that starts so, whatever is before and after it. |
| `Sse.LastIdStays` | apps/web/lib/use-sse.ts:35-38 | The id stored in the end is that of the last event with one that is not empty. |
| `Sse.StoresValue` | apps/web/lib/use-sse.ts:32-38 | When an event with a line `id: v` and a blank line follow a text that ends in one, v is stored, unless it is empty. |
| `Sse.StoresNothing` | apps/web/lib/use-sse.ts:32-38 | An event without such a line stores nothing. |
| `Sse.EventReader.Connect` | apps/web/lib/use-sse.ts:29-40 | The reading loop leaves the stored id and the remainder that splitting the whole text once would. |

## Left out

- Network, providers and HTML: fetching, link extraction and URL joining are a function from URLs to link targets; sends and reply checks are choices of the environment.
- Cryptography: tokens and their hashes are identifiers that do not collide; SHA-256 of the idempotency key is taken to be injective.
- The Redis server beyond what is used: transactions, SET with NX and EX, INCR, EXPIRE, SADD and SMEMBERS, with keys absent from their expiry on.
- PostgreSQL, Celery, metrics, logging, prompts, scoring, audits and the tables of endpoints and roles.
- Rounding of floating-point numbers: times, rates and tokens are reals, counts and ticks integers.
- Crawl.Execute: a page's links are a set where the source stores them as a sorted list, and parsing a response never fails.
- SessionSafety, SessionHistory, SessionAgreement, SessionLimits, RedisSafety and SessionStores: requests run one after another, each with an instant for every reading of the clock. Over the memory store nothing can run in between, for its awaits never suspend; over Redis what overlaps is in `Rotations`, as a state machine over values.
- Rotations: a login always draws a new family, as random identifiers do. The access token and its claims are not modelled.
- Idempotency: the settings that switch dispatching off, commands without a key, which are always new, and a `send_task` that raises after the broker took the task.
- Idempotency.IdempotencyStore.Put: describes a caller that nothing interrupts; the interleaved steps are those of `Idempotency.Next`.
- Pagination: ids and values are the UTF-8 bytes of their texts, so the encoding itself and cursors that are no UTF-8 are not modelled; padding that a client leaves on a cursor is accepted as section 3.2 of RFC 4648 allows.
- Following.NothingMissed: says nothing of a client that stops before a page says there is no more.
- Buckets.DomainRateLimiter.Bounded: one caller that waits for each grant; callers that overlap share a bucket without a lock.
- Buckets.TokenBucket.Acquire: waiting callers are served in the order in which they take the lock.
- Breaker: requests on one client that overlap, whose failures may be recorded after the circuit has opened.
- HttpClient.ResilientHttpClient.Request: the payload's contents, messages of errors, and exceptions of the transport beyond their kind.
- Governor: budgets for processor, memory and time, which `acquire` does not look at, and the status reports; the three clock readings of one `acquire` are one.
- Governor.QuotaBounded: says nothing of an API that an agent without a quota for it has called, which the code does not limit.
- CrawlLoop: the report's lists of new, broken and unindexed URLs, robots and sitemap parsing, and what fills the frontier before the loop.
- CrawlLoop.Crawler.Run: a burst below one is excluded where the loop would be entered; with it the source's loop never ends (`CrawlLoop.NoBurstNoProgress`).
- SiteDistances: a frontier that an earlier crawl has already filled, whose pages a later one skips.
- SiteDistances.DepthIsSiteDistance: where URLs that count as one page have different links, depths are only never too small (`SiteDistances.NeverTooNear`), and exact over the pages taken (`CrawlDistances.DepthIsDistance`).
- Campaigns: one campaign at a time. What the records of a renamed campaign do to another one, stored under the new identifier, is an update by hand to that one. Attributes that no rule reads, such as notes and link details.
- FollowUps.FollowUpEngine.ProcessFollowUps: other requests and passes run between its visits and not inside one; inside a visit they run in `Campaigns.Next`.
- FollowUps: campaigns are values in the tracker's dictionary, so a caller that keeps a returned campaign does not see later updates to it.
- Sse: decoding bytes to text, carriage returns, the other fields of an event and the reconnection timer.
- Schedulers, rollback, the in-memory repository and the agent registry, which would add only simple members.
