# gora, modelled and proved in Dafny

gora is a MySQL proxy for WordPress. This project models the parts of it that
carry state and proves what they promise. `dafny verify dfyconfig.toml` checks
all of it with Dafny 4.11.

Two theorems are the centre. *Coherence*: over every interleaving of sessions,
a cached answer is what the database would answer now, up to writes that are
still being invalidated, writes that gora does not observe, and one race that is
stated exactly. *Transparency*:
over every interleaving of sessions and pools, a session runs in the
environment a connection of its own would have had.

## How it is laid out

Code that works on its fields step by step is a class whose methods are proved
against functions; the laws are lemmas about those functions. Protocols are
step machines (`Enabled`, `Next`, `Run`) with an invariant and theorems about
every run.

| modules | what they model |
|---|---|
| CacheStore, CacheSize, CacheMap | the cache's store: entries, recency list, tag index, totals, eviction; its size; its list as a map |
| Invalidation, CacheWorld | which reads a write drops, against what statements read and write |
| Coherence, Freshness, Observer | fills, writes and transactions of many sessions, over every run; the bookkeeping of one |
| SingleFlight, Pairing | one execution per query; listings and their FOUND_ROWS() |
| Environment, Multiplex, Sharing, Pinning | SET replay; sessions sharing connections, over every run; when a session is tied to its own |
| ConnPool, SessionConn | one pool and one session, as the classes they are |
| Routing | which node the statements of a session run on, over every run |
| YamlWalk, YamlKept, YamlDelete, YamlLine, ConfigEdit, ConfigFile | the line editor: blocks, the lines left alone, deletions, single lines, values, bytes |
| Statement, Normalize, Fingerprint, InLists | the SQL scanners, against their texts character by character |
| Membership, Topology | recorded state, roles, promotion, routing of reads |
| Replication | promotion and reconciling as statements that may fail |

## What is assumed

- Coherence: one database node. The database is fixed inside a transaction,
  transactions do not nest and nothing commits implicitly. The table and the
  names extracted from a write are its real footprint (`Touches`), a rule names
  the tables it reads, and a transient is not autoloaded (`Reads`). Writes that
  are never observed are actions of the machine and are named by the theorems: a
  CTE that ends in a write is classed as Other (internal/statement/statement.go:70),
  and a statement whose reply is lost returns before it is observed
  (internal/proxy/session.go:584-585).
- Multiplexing: the backend has COM_RESET_CONNECTION, failed statements leave no
  state, COM_INIT_DB succeeds, only SET changes variables and only detected
  statements leave sticky state, a tracked SET sent again is a no-op there and
  holds no NUL, handles from before a reset are not closed after it. There is no
  textual USE: a statement never changes the database. Prepared statements are
  not SET: HandleStmtExecute never calls trackSet. Listings leave no sticky state:
  handleListing never calls trackSafety. Without any of these three the theorems
  are false of the code.
- Pairing: FOUND_ROWS() follows its listing at once on the same connection,
  which needs a topology without replicas and no connection loss.
- Topology: the configured primary is never among the members, and members are
  distinct valid addresses. AddReplica's check and its append are one step.
- Replication: turning super_read_only on turns read_only on, and turning
  read_only off turns super_read_only off, as MySQL does; the source of a running
  replica cannot be changed or forgotten.
- Routing: a prepared statement is executed on the connection it was prepared on.
- The size of a cache: every answer is cacheable and of one size per key, and two
  caches that fetch at one moment give the answer the same expiry.
- A cache holds at least one entry (internal/config/config.go:586-588).

## What the proofs found

Where the code does less than its comments say, the model follows the code and
proves when the promise holds.

- Setting a value whose text closes the quotes that splitComment sees and then
  has a blank and a `#` is not read back (internal/config/edit.go:132-148).
  `GetAfterSet` gives the exact condition, `HashAfterQuoteIsLost` a value.
- Setting a path that is not made of keys, such as `x: y`, creates another key.
- "Everything not being changed comes out byte for byte"
  (internal/config/edit.go:18-19) holds exactly for files without CRLF.
- DeleteValue on a section leaves its children to the sibling before it:
  `OthersStayWhen` says exactly when another path notices.
- More memory can lose a hit, because the copy that is kept expires while a copy
  evicted and fetched again does not: `ExpiryLosesAHit`.
- setLineValue's refusal of lists cannot be reached.
- Normalize slices past the end on some unterminated literals: `LexFails`.
- A slash, a star and a slash are a whole comment to StripLeading.
- A rule that lists the options table is not invalidated by writes to named
  options; without such a rule, tag invalidation is sound: `TaggingIsSound`.
- Rows and count of a listing can be mixed while a write's invalidation is still
  to come, not only after an entry was dropped: `MixedPairIsReal`. A listing that
  is not stored still leaves its count on older rows: `SkippedCountMixes`.
- A session that never chose a database inherits one from the connection.
- The rotation of reads gives the turn of a replica that is down to the next one,
  which then gets two: `RotationIsFair` has the exact condition. It also repeats a
  replica when its counter wraps, unless the number of replicas divides 2^64.
- A write can reach a replica. A SELECT that takes a lock or sets a user variable
  runs on a reader and pins the session there, and its next write follows
  (internal/proxy/session.go:191-193): `LockStrandsWrites`; a pinned session that
  loses its connection stays pinned: `LossStrandsWrites`. `Strands` lists all that
  can lead a write astray, and `WritesRunOnThePrimary` proves that nothing else does.
- The companion of a statement "has to run on this same connection"
  (internal/proxy/session.go:358-359), and its connection is kept for it, but with
  multiplexing on the companion is routed like any other read: `CompanionRuns` has
  the exact condition.
- bestCandidate prefers a replica whose lag is unknown (-1), which is what
  replicas report once their primary is gone; "the least far behind" needs every
  lag known.
- sameHost ignores the port: a replica of another server on the primary's host is
  never repointed. And for an address without a host, which validAddress accepts,
  it never holds: every pass repoints every replica of such a primary.

## Model

| member | source | states |
|---|---|---|
| Freshness.ServedValue | internal/cache/cache.go:324-375 | in every run of sessions, fills and writes, a cached value is what the database would answer, or an affecting write is in the database and not yet invalidated, or one was applied and invalidated wholly between the entry's own execution and its storing |
| Freshness.QuietCacheIsFresh | internal/cache/cache.go:571-614 | with every session idle and no write left unobserved (by a session that stopped invalidating, by its form, or by a lost reply), only such a race leaves a stale entry |
| Freshness.ObservedRunIsFresh | internal/proxy/session.go:732-774 | the same from the actions alone: when no action of the run leaves a write unobserved and every session is idle, only such a race leaves a stale entry |
| Freshness.UnfollowedIsUnobserved | internal/proxy/session.go:580-596 | a write that nobody will invalidate was brought by an action that leaves it so: unobserved by its form or a lost reply, or sent after the session stopped following |
| Freshness.CommitInvalidates | internal/proxy/session.go:732-774 | a session that is idle again has invalidated all it wrote, in or out of transactions and past the cap, and every entry those writes affect was stored after that |
| Freshness.RaceIsReal | internal/cache/cache.go:363-373 | the race exists: a read that runs before a write and is stored after its invalidation leaves a stale entry with every session idle |
| Freshness.UnobservedIsReal | internal/proxy/session.go:580-596 | and so do unobserved writes: one that is classed as something else, or whose reply is lost, leaves a stale entry without any race |
| Coherence.StepKeeps | internal/proxy/session.go:724-774 | every step (fill, store, writes observed and not, BEGIN, COMMIT with and without its reply, ROLLBACK, invalidation, flush, eviction, UseDB, unsafe statement, reset) keeps the invariant the theorems rest on |
| CacheWorld.TaggingIsSound | internal/cache/cache.go:501-614 | whatever a write changes the answer of, its tags drop, exactly when no rule lists the options table |
| CacheWorld.VolatileIsNotCached | internal/cache/cache.go:501-504 | the reads whose answer changes without a write are exactly the volatile ones, and they are refused whatever the patterns and the rules say |
| Invalidation.DropsExactly | internal/cache/cache.go:571-614 | a parsed write drops a cacheable read exactly when their cells overlap and they are not in the blind spot (a rule on the options table and a write to named options) |
| Invalidation.CachedWhen | internal/cache/cache.go:501-568 | a read is cached exactly when a pattern or a rule wants it and it depends on nothing but what writes change; for the time to live of its rule or the default |
| Invalidation.Rebased | internal/proxy/session.go:762-774 | invalidating under the database current at COMMIT covers a write exactly when that is the database written to, or everything is flushed, or nothing had to be dropped |
| Invalidation.WriteHitsAutoload | internal/cache/sql.go:112-122 | true exactly when no name is known or one of them is no transient |
| Invalidation.MatchRules | internal/cache/cache.go:551-568 | the first matching rule decides time to live, table tags and source |
| Invalidation.ClassifyRead | internal/cache/cache.go:501-549 | the loop over an IN list and the pattern order compute Classify, whose tags DropsExactly justifies |
| Observer.Session.ObserveWrite | internal/proxy/session.go:732-747 | a write drops exactly what it hits, and is remembered for COMMIT while a transaction is open |
| Observer.Session.EndTx | internal/proxy/session.go:762-774 | after COMMIT no entry is left that any write of the transaction drops, those past the cap of 128 included; ROLLBACK leaves the cache as it is |
| Observer.Session.Observe | internal/proxy/session.go:732-758 | a statement observed is the step (Observed) the laws of CommitKeeps are about: what it drops, what is remembered of it, and nothing else |
| Observer.CommitKeeps | internal/proxy/session.go:740-774 | whatever a session observed before and whatever other sessions stored since, a COMMIT keeps exactly the entries no write of its open transaction drops, and none past the cap of 128; the writes are those of the statements themselves |
| Observer.CommitDropsAll | internal/proxy/session.go:762-774 | so after a COMMIT no entry is left that any write observed inside the transaction drops, refilled meanwhile or not, past the cap too |
| Observer.EndedOwesNothing | internal/proxy/session.go:772-773 | a transaction that has been committed or rolled back owes nothing to the next COMMIT |
| CacheStore.Cache.Remove | internal/cache/cache.go:696-711 | one entry leaves every structure; all of them still agree with the recency list |
| CacheStore.Cache.Insert | internal/cache/cache.go:440-483 | the list becomes the new entry followed by the longest prefix of the other entries, most recent first, that fits both bounds beside it |
| CacheStore.KeepIs | internal/cache/cache.go:444-481 | what the two eviction loops leave is the most that fits: both bounds hold and no entry was evicted needlessly |
| CacheStore.Cache.Lookup | internal/cache/cache.go:392-410 | a hit is served, counted and moved to the front; an expired entry is dropped; otherwise nothing changes |
| CacheStore.Cache.Store | internal/cache/cache.go:415-436 | replies without rows and results above max_result_bytes are refused, others inserted, misses counted, the alloptions query remembered |
| CacheStore.Cache.DropTag | internal/cache/cache.go:690-694 | exactly the entries of a tag go and the others keep their order, duplicate tags and deletion during iteration included |
| CacheStore.Cache.InvalidateWrite | internal/cache/cache.go:571-614 | exactly the entries a write drops go; the warmer is asked for all learned queries by a flush, else for the alloptions query of the database when its snapshot was dropped |
| CacheStore.Cache.Flush | internal/cache/cache.go:618-640 | everything goes; the learned queries stay and the warmer is asked for them |
| CacheStore.Cache.LookupPaired | internal/cache/paired.go:46-66 | rows and count are served together or not at all; an entry without its count is neither served nor expired |
| CacheStore.Cache.PairFoundRows | internal/cache/paired.go:91-98 | the count completes the entry of its key if there is one, and nothing else changes |
| CacheStore.AgreeWithout | internal/cache/cache.go:696-711 | key map, tag index, byte total and per-source totals of the list without an entry |
| CacheStore.AgreeFront | internal/cache/cache.go:448-475 | the same for the list with a new entry in front |
| CacheStore.ToFront | internal/cache/cache.go:404-408 | moving an entry to the front changes the order and its source's hits, nothing else |
| CacheStore.HitNext | internal/cache/cache.go:690-694 | dropping tag after tag drops the union of their entries |
| CacheMap.DropShows | internal/cache/cache.go:571-614 | what the store keeps after a write is what the Drop of the coherence machine keeps |
| CacheMap.StoreShows | internal/cache/cache.go:440-483 | what it keeps after a Store is the machine's map with the new answer, less some evictions |
| CacheMap.WithoutShows | internal/cache/cache.go:696-711 | entries taken out of the list are keys taken out of the map |
| CacheMap.TouchShows | internal/cache/cache.go:404-408 | a hit changes the order and nothing else |
| CacheSize.MoreMemoryKeepsHits | internal/cache/cache.go:440-483 | a cache with wider bounds loses no hit on a key that is not asked for after an expiry it was given before |
| CacheSize.MoreMemoryHoldsMore | internal/cache/cache.go:440-483 | over any run of requests and invalidations, with each entry expiring by its own store time, a cache with wider bounds holds the keys a narrower one holds, in the same order, and more |
| CacheSize.HitIsLostWhenExpired | internal/cache/cache.go:400-403 | a hit of the narrower cache is one of the wider exactly when the wider one's own copy has not expired |
| CacheSize.ExpiryLosesAHit | internal/cache/cache.go:449-452 | more memory can lose a hit: the narrow cache evicted a key and fetched it again, the wide one keeps the older copy until it expires |
| CacheSize.HitStep | internal/cache/cache.go:392-410 | the list a hit leaves is the step those runs are made of |
| CacheSize.MissStep | internal/cache/cache.go:440-483 | so is the list a stored miss leaves, of a key that was absent or had expired |
| SingleFlight.OneExecution | internal/cache/cache.go:341-375 | in every interleaving one session at most runs a query besides those that gave up waiting for it and have not finished, as their own actions say |
| SingleFlight.SomebodyRuns | internal/cache/cache.go:341-352 | nobody waits for nothing: the call a session waits on has its result, or its leader is running that very query |
| SingleFlight.SharedIsTheLeaders | internal/cache/cache.go:342-352 | a session served by another's execution gets the result or error of the leader of that very query |
| SingleFlight.OwnCallOnly | internal/cache/cache.go:367-369 | a leader unregisters its own call; no other key is touched |
| SingleFlight.OneLeader | internal/cache/cache.go:359-361 | a key has at most one leader |
| SingleFlight.StepKeeps | internal/cache/cache.go:341-375 | registering, finishing, waiting, giving up and leaving keep the in-flight map naming the one leader of each key |
| Pairing.ServedBelongTogether | internal/proxy/session.go:653-722 | rows and count served from the cache are of one listing, hence of one database state, unless the session whose count it is did not store its own rows, or another session stored the listing after it did; even then they are of one state unless a write that concerns the listing was applied in between |
| Pairing.OwnListingIsServed | internal/proxy/session.go:653-722 | a session that lists, stores and asks for the count, with others at work in between but not on that listing, leaves its own rows and count, of the database it listed, to be served to anyone |
| Pairing.MixedPairIsReal | internal/cache/paired.go:91-98 | the second exception occurs, even before anything is dropped: the count of one session completes the rows another stored after a write |
| Pairing.SkippedCountMixes | internal/cache/paired.go:81-98 | so does the first: the count of a listing too large to store completes older rows that were still waiting for theirs |
| Pairing.StepKeeps | internal/proxy/session.go:653-722 | listing, storing, capturing a count, serving, writes and drops keep rows and counts attributable to the listing and the database they came from |
| Sharing.Transparent | internal/proxy/session.go:142-182 | in every run a session's connection has the variables and the database a dedicated one would have, unless the session lost a connection after a statement that cannot be replayed, or never chose a database |
| Sharing.ParkedIsClean | internal/pool/pool.go:249-289 | every parked connection has no open transaction, no sticky state, no live statement, and its VarSig and BoundDB describe it |
| Sharing.OnePlace | internal/pool/pool.go:266-289 | every live connection is in one place: once in the buffer of its owner, or held by one session, or in the hands of its pool (dialed, checked by keepalive or revive, being prepared) and nowhere else |
| Sharing.TokensExact | internal/pool/pool.go:159-314 | tokens equal live connections plus dials in progress and never exceed max_open, so whoever gives a connection back finds room: a session, prewarm or keepalive, in any interleaving |
| Sharing.UnboundSessionInherits | internal/proxy/session.go:268-273 | the exception is reached: session 0 chooses a database and releases its connection, session 1 never chose one and is handed it with that database |
| Multiplex.StepKeeps | internal/proxy/session.go:142-388 | dialing, taking out, checking, putting back, discarding, attaching, executing, preparing statements, UseDB, releasing, resetting and losing connections keep the invariant |
| Pinning.PinnedWhen | internal/proxy/session.go:318-388 | in every run a session is pinned exactly when, since its last reset or close, it sent a statement that leaves state, or a SET that cannot be replayed, or more than 20 different SETs |
| Pinning.ReleasedWhen | internal/proxy/session.go:305-315 | and it may give its connection back exactly when it has one, is not pinned so, has closed what it prepared, and its last statement left no transaction open |
| Multiplex.PreparedOk | internal/proxy/session.go:261-283 | a clean connection, once prepared, is what the session would have had |
| Multiplex.ExecutedOk | internal/proxy/session.go:330-388 | a statement and its tracking keep session and connection in step |
| Multiplex.ReleasedOk | internal/proxy/session.go:305-315 | a connection a session may release is clean |
| Environment.SignatureInjective | internal/proxy/safety.go:67-69 | two sessions have the same signature only with the same statements in the same order |
| Environment.TrackReplays | internal/proxy/session.go:367-383 | what is replayed is what was sent exactly when the statement is new or sending it again changed nothing |
| Environment.AssignReplays | internal/proxy/session.go:370-374 | for assignments: exactly when a statement sent again is still the last word on its variable |
| Environment.ABA | internal/proxy/session.go:370-374 | A, B, A on one variable replays as A, B |
| SessionConn.Session.TrackSet | internal/proxy/session.go:367-388 | computes the tracked list, the signature, the pin at the cap and the note on the connection |
| SessionConn.Session.TrackSafety | internal/proxy/session.go:330-363 | transaction flag, pin, hold and time of the last write after a statement |
| SessionConn.Session.PrepareConn | internal/proxy/session.go:261-283 | succeeds exactly when every step it needs is answered, and then the connection is the prepared one of the model; one that already fits is taken as it is |
| SessionConn.Session.IsReleasable | internal/proxy/session.go:305-315 | true exactly when nothing of the session lives on its connection |
| SessionConn.Session.MaybeRelease | internal/proxy/session.go:289-300 | the connection goes back exactly when it is free and no companion statement is expected; the hold lasts one call; parked as it is, closed only when it is too old or the pool is closed |
| SessionConn.Session.Finish | internal/proxy/session.go:395-405 | only a connection-level failure costs the connection |
| SessionConn.Session.Reset | internal/proxy/session.go:898-942 | COM_RESET_CONNECTION: the connection is parked clean, or closed when it is too old, the reset fails, or the pool is full or closed; the session forgets all but its database |
| SessionConn.Session.Attach | internal/proxy/session.go:161-181 | one attempt succeeds exactly when the pool offers a connection and everything it needs is answered; what is attached has the session's environment |
| SessionConn.Session.Backend | internal/proxy/session.go:142-182 | a connection of the node wanted in the session's environment, at the second attempt if the first one broke; the one left behind is parked clean or closed |
| SessionConn.Session.Route | internal/proxy/session.go:190-214 | computes the routing of the machine below, and moves a session only when nothing of it stays behind |
| SessionConn.Session.StickyActive | internal/proxy/session.go:229-238 | reads stay on the primary within the window after a write, when there are replicas |
| Routing.RoutesWhere | internal/proxy/session.go:190-214 | a session that has left anything on its connection stays there; one that holds nothing sends reads to the reader in turn, or to the primary just after a write, and writes to the primary, refused when it takes none |
| Routing.WritesRunOnThePrimary | internal/proxy/session.go:184-225 | in every run of a session, a write that runs at all runs on the primary, as long as no action before it left anything elsewhere |
| Routing.LockStrandsWrites | internal/proxy/session.go:191-193 | such actions lead writes astray: a SELECT that takes a lock or sets a variable runs on a reader and pins the session there, and its next write runs there too |
| Routing.LossStrandsWrites | internal/proxy/session.go:395-405 | so does a pinned session that loses its connection: it stays pinned, its next read may take it to a reader, and its next write runs there |
| Routing.TransactionStays | internal/proxy/session.go:191-200 | everything inside a transaction runs where its BEGIN ran, the COMMIT too |
| Routing.CompanionRuns | internal/proxy/session.go:286-300 | a companion statement (FOUND_ROWS(), LAST_INSERT_ID()) runs on the connection kept for it exactly when multiplexing is off or that is the node it would be sent to anyway |
| ConnPool.ConnPool.Acquire | internal/pool/pool.go:185-244 | the first parked connection that works, those before it closed; a new one exactly when none does, the cap allows and the dial succeeds; else nothing |
| ConnPool.ConnPool.Release | internal/pool/pool.go:249-264 | closed exactly when the pool is closed, the connection too old, the reset refused or max_idle reached; else parked reset |
| ConnPool.ConnPool.ReleaseClean | internal/pool/pool.go:271-277 | closed exactly when the pool is closed or the connection too old; else parked as it is |
| ConnPool.ConnPool.Park | internal/pool/pool.go:280-289 | there is always room: the overflow branch is never taken |
| ConnPool.ConnPool.Close | internal/pool/pool.go:300-314 | everything parked is closed and its tokens are given back |
| ConnPool.ConnPool.Prewarm | internal/pool/pool.go:159-180 | new connections parked behind the others until min_idle or the cap is reached or a dial fails |
| ConnPool.ConnPool.ResetConn | internal/pool/pool.go:491-506 | variables, transaction and statements gone; the noted database forgotten |
| ConnPool.ConnPool.Keepalive | internal/pool/pool.go:536-584 | the loop computes Pass, and frees a token for each connection it drops |
| ConnPool.PassInOrder | internal/pool/pool.go:547-582 | a pass visits the connections parked at its start, each once, and keeps the survivors in order |
| ConnPool.PassSurvivors | internal/pool/pool.go:556-575 | a connection survives exactly when it is not past its lifetime, not dead, and not idle too long with min_idle others parked beside it |
| ConnPool.PassKeepsMinIdle | internal/pool/pool.go:562-567 | idle_timeout alone never leaves fewer than min_idle parked |
| ConfigEdit.GetAfterSet | internal/config/edit.go:27-67 | looking up the path after setting it gives the rendered value, exactly when the value keeps its quotes as far as comments are split |
| ConfigEdit.OthersAfterSet | internal/config/edit.go:27-67 | every other path that is not a missing prefix looks up as before; a missing prefix becomes a section |
| ConfigFile.OtherLinesStay | internal/config/edit.go:38-62 | setting a value replaces the one line its path names, or puts in the lines of the keys that are missing, after a line that is not blank at the end of their section; every other line stays as it is, in its order |
| ConfigFile.FileKeepsLines | internal/config/edit.go:38-67 | and those are the lines of the file written, for paths and values without line breaks |
| ConfigFile.OtherLinesKept | internal/config/edit.go:76-88 | deleting takes the one line its path names away |
| YamlKept.SetKept | internal/config/edit.go:38-66 | the same for any writer, by induction over the nested blocks |
| YamlKept.DeleteKept | internal/config/edit.go:76-88 | and for deletions |
| ConfigEdit.BranchIs | internal/config/edit.go:209-220 | the lines put in, one by one: each key a level below the one before it, the value on the last |
| ConfigEdit.PathsNeedKeys | internal/config/edit.go:209-220 | a path that is not made of keys can create another key |
| ConfigEdit.KeylessPath | internal/config/edit.go:209-220 | a path whose lines define no key at all changes nothing |
| ConfigEdit.CommentAfterSet | internal/config/edit.go:222-247 | the comment beside a value survives |
| ConfigEdit.DeleteAfterSet | internal/config/edit.go:72-89 | deleting a setting just added to an existing section restores the lines |
| ConfigEdit.OthersAfterDelete | internal/config/edit.go:72-89 | deleting a key without children leaves every other path reading as before |
| ConfigEdit.HashAfterQuoteIsLost | internal/config/edit.go:132-148 | a value with a quote, a blank and a # is not read back: the splitter knows no escapes |
| YamlWalk.SetFrame | internal/config/edit.go:38-66 | a setting changes the line its path names, adds missing prefixes as sections, and leaves every other path naming the line it named |
| YamlWalk.DeleteUndoesSet | internal/config/edit.go:72-89 | the same round trip on lines, whatever is written |
| YamlWalk.DeleteMovesChildren | internal/config/edit.go:82-84 | an instance: a section deleted, its child found under the sibling before it |
| YamlDelete.DeleteFrame | internal/config/edit.go:72-89 | deleting a key whose block holds no keys leaves every path that does not lead through it naming the line it named |
| YamlDelete.DeletedIsGone | internal/config/edit.go:72-89 | a path to or through the deleted key finds the next line of that key in its section, or nothing |
| YamlDelete.OthersStayWhen | internal/config/edit.go:82-84 | in a file indented by steps of two, all other paths stay as they were exactly when the key before the deleted one lacks none of the children left behind (or there is no such key or child) |
| YamlWalk.SetLoop | internal/config/edit.go:38-66 | the walk over the whole file computes the setting within nested blocks |
| YamlWalk.DeleteLoop | internal/config/edit.go:76-88 | so does the walk of a deletion; None when the path is not there |
| YamlWalk.FindKey | internal/config/edit.go:152-167 | the first line of the key at its indentation before the block is left |
| YamlWalk.BlockRange | internal/config/edit.go:171-184 | the lines up to the next key indented no deeper |
| YamlWalk.FindInsertPoint | internal/config/edit.go:189-206 | after the last line of the block that is not blank |
| YamlWalk.InsertSplits | internal/config/edit.go:189-206 | nothing above that point is shallower than the block and the first key below it is |
| YamlLine.SplitComment | internal/config/edit.go:132-148 | the loop cuts at the first # after a blank outside the quotes it sees |
| YamlLine.CommentIs | internal/config/edit.go:132-148 | the comment starts at the first # at the start or after a blank with every quote before it closed by the next of its kind |
| YamlLine.DecodeRender | internal/config/edit.go:254-267 | a rendered value decodes, by the rules of double-quoted scalars, to the value |
| YamlLine.RenderBare | internal/config/edit.go:252-267 | a value is written as it is exactly when it is made of letters, digits and _ . / + -, or is an empty list or map |
| YamlLine.SetLineReads | internal/config/edit.go:224-247 | an edited line keeps its key, reads back the value exactly when it is faithful, and then keeps its comment |
| YamlLine.CommentStays | internal/config/edit.go:235-246 | the edited line, and its comment in the column it was in, or one blank after a value that reaches further |
| YamlLine.ParseIs | internal/config/edit.go:93 | a line has a key exactly when it is white space, key characters, white space, a colon and no line break after it |
| YamlLine.PlainValuesAreFaithful | internal/config/edit.go:252-267 | values without quotes and line breaks always are |
| ConfigFile.SetValue | internal/config/edit.go:27-67 | bytes to bytes: split, set, joined; the empty path is refused; one line replaced or the missing ones put in |
| ConfigFile.DeleteValue | internal/config/edit.go:72-89 | bytes to bytes: one line less; a missing path returns the data as it is |
| ConfigFile.SetLineValue | internal/config/edit.go:224-247 | edits every line with a key; the refusal of lists is never reached |
| ConfigFile.BuildBranch | internal/config/edit.go:209-220 | one line per level, the value on the last |
| ConfigFile.UntouchedBytes | internal/config/edit.go:95-104 | splitting and joining gives the bytes back exactly when the file has no CRLF |
| ConfigFile.LineEnds | internal/config/edit.go:95-98 | a CRLF, wherever it stands, becomes a line feed |
| ConfigFile.FileGetAfterSet | internal/config/edit.go:27-67 | the get-after-set law on a second reading of the bytes, CRLF files included |
| Normalize.SameKey | internal/statement/normalize.go:16-49 | two statements share a key exactly when, leading comments aside, they are the same tokens laid out with different white space |
| Normalize.NormalIsCollapsed | internal/statement/normalize.go:16-75 | jumping from the start of a literal to its end is the same as going one character at a time: literals are copied, every other run of white space becomes one space |
| Normalize.PrintLexes | internal/statement/normalize.go:16-75 | printing what was lexed and lexing it again gives the same tokens |
| Normalize.Idempotent | internal/statement/normalize.go:16-49 | a normalized statement is its own normal form |
| Normalize.LexFails | internal/statement/normalize.go:53-75 | the slice runs past the end exactly on statements that end, inside a literal, on a backslash escaping nothing |
| Normalize.LayoutLexes | internal/statement/normalize.go:22-47 | however its gaps are filled, a layout lexes to its tokens |
| Normalize.LexLayout | internal/statement/normalize.go:22-47 | every text is a layout of its own tokens |
| Normalize.SkipQuoted | internal/statement/normalize.go:53-75 | the index past the run, one past the end included |
| Normalize.SkipReads | internal/statement/normalize.go:53-75 | from inside a quoted run every text is the rest of a closed run, or an open one, perhaps ending on a backslash, by its characters |
| Normalize.Run | internal/statement/normalize.go:16-49 | the loop with its pending space computes the normal form |
| Statement.Strip | internal/statement/statement.go:106-119 | the loop computes StripLeading |
| Statement.LeadingComment | internal/statement/statement.go:106-119 | a comment in front makes no other statement |
| Statement.LeadingSpace | internal/statement/statement.go:106-108 | nor does white space |
| Statement.StripsNothingElse | internal/statement/statement.go:106-119 | a statement stays as it is exactly when it starts with neither white space nor a comment |
| Statement.OpenComment | internal/statement/statement.go:110-113 | of a comment that never ends nothing is left |
| Fingerprint.LiteralIndependent | internal/statement/fingerprint.go:23-51 | statements that are part by part the same but for what their literals are and how long their white space is have one fingerprint; the parts are described by their characters |
| Fingerprint.StringScanned | internal/statement/fingerprint.go:33-36 | for a closed string (a quote, backslashes with a character each, doubled quotes, other characters, the same quote) the scan writes a question mark and goes on right behind it, whatever follows |
| Fingerprint.NumberScanned | internal/statement/fingerprint.go:37-42 | and for digits and points as far as they go, after a character that is no part of an identifier |
| Fingerprint.PrintIs | internal/statement/fingerprint.go:19-53 | every statement has such parts, and its scan is their marks without the spaces at the end |
| Fingerprint.ScanTwice | internal/statement/fingerprint.go:19-53 | scanning again changes nothing, and the result holds no quotes |
| Fingerprint.Run | internal/statement/fingerprint.go:19-53 | the loop terminates, an index past the end included, and computes the scan |
| InLists.Run | internal/statement/fingerprint.go:53-54 | the scan, then every IN list replaced by the one placeholder |
| InLists.ListsCollapse | internal/statement/fingerprint.go:54 | an IN list of any length, anywhere, becomes the one placeholder, and what is in front of it and behind it is what it would be without it |
| InLists.ListThere | internal/statement/fingerprint.go:8 | the expression takes nothing but lists |
| InLists.NoLists | internal/statement/fingerprint.go:54 | a text with no list in it stays as it is |
| InLists.Twice | internal/statement/fingerprint.go:19-55 | a fingerprint is its own fingerprint, and holds no quotes |
| Membership.TwoPassesSuffice | internal/topology/membership.go:93-140 | with a fixed state two passes reach a fixed point: the replicas are the members without the primary, and the primary is the recorded one exactly when it was or it is a member |
| Membership.OnePassMayNotSuffice | internal/topology/membership.go:120-139 | one pass may leave the demoted primary in |
| Membership.State.AddNode | internal/topology/state.go:83-92 | the node is a member from now on, whatever is configured, the others as before |
| Membership.State.RemoveNode | internal/topology/state.go:96-105 | the node is no member from now on, the others as before |
| Membership.State.Members | internal/topology/state.go:108-122 | (configured + added) - removed, configured ones first, each once |
| Membership.ConfiguredFirst | internal/topology/state.go:108-122 | the configured nodes come first in their order, and all of both lists when none is listed twice or was removed |
| Membership.State.Without | internal/topology/state.go:171-179 | the list without an address |
| Topology.Topology.constructor | internal/topology/topology.go:120-163 | the configured cluster, with the recorded primary restored when it is a member |
| Topology.Topology.AddReplica | internal/topology/membership.go:17-51 | added exactly when valid and not there; one primary, distinct addresses and roles are kept |
| Topology.Topology.RemoveNode | internal/topology/membership.go:58-83 | removed exactly when it is a replica |
| Topology.Topology.Promote | internal/topology/topology.go:243-273 | the two nodes change places and roles, the node set stays, refused for anything but a replica |
| Topology.Topology.SyncState | internal/topology/membership.go:93-140 | the loops compute the pass of TwoPassesSuffice |
| Topology.Topology.PickReader | internal/topology/topology.go:279-316 | the first eligible replica from the counter's turn on, the primary only when every replica is down, too far behind, or of unknown lag while there is a limit |
| Topology.Topology.ReadsInARow | internal/topology/topology.go:279-299 | the k-th of several reads goes where Picked says for the counter k turns on |
| Topology.RotationIsFair | internal/topology/topology.go:289-295 | with n of the replicas eligible and no uneven wrap, n reads in a row go to each of them once exactly when the first n - 1 turns are turns of eligible ones; the turn of one that is down goes to the next |
| Topology.WrapIsUnfair | internal/topology/topology.go:289-295 | with every replica eligible, none gets two of n reads in a row exactly when the counter does not wrap between them or n divides its range |
| Replication.Manager.Promote | internal/replication/failover.go:15-66 | at every failure point followers are read-only; a primary is recorded only once writable; the others end up read-only and following it as far as they answer; when everything is answered it succeeds |
| Replication.Manager.PointAt | internal/replication/failover.go:70-81 | read-only first, then following; on success read-only, following and running; it succeeds when everything is answered, a running replica included |
| Replication.Manager.MakeWritable | internal/replication/failover.go:31-44 | stopped following before it is made writable; succeeds when everything is answered |
| Replication.Manager.Reconcile | internal/replication/manager.go:111-180 | after a pass every node that answered is read-only and follows the primary, unless it followed another server on the primary's host before; when the primary is down for the delay and failover is automatic, the best candidate is the primary unless a statement of its promotion failed on it, and then all follow it |
| Replication.Manager.WatchPrimary | internal/replication/manager.go:140-180 | automatic failover happens exactly after the delay: then the best candidate is promoted, if there is one and its promotion succeeds |
| Replication.DownForWhen | internal/replication/manager.go:141-156 | over any passes: the delay is counted from the first of the passes that found the primary down with none that found it up since |
| Replication.Manager.Exec | internal/replication/provision.go:247-256 | one statement takes effect when it is answered and MySQL takes it; else it changes nothing |
| Replication.BestCandidate | internal/replication/manager.go:189-212 | the first candidate with the smallest lag reported, none only when there is no candidate |
| Replication.PickedIsLeastBehind | internal/replication/manager.go:182-212 | that one is the least far behind exactly when no candidate's lag is unknown |
| Replication.PortsAreConfused | internal/replication/manager.go:215-224 | two servers on one host pass for one another, whatever their ports |
| Replication.HostsTellApart | internal/replication/manager.go:215-224 | what seems to follow the primary does follow it, whichever known server it follows, exactly when no other of them shares its host |

## Left out

- The wire protocol, TLS, sockets, goroutine scheduling, logging and the status
  socket: input and output.
- Regular expressions: pinDetectRe, holdDetectRe, the table and option
  extraction and rule matching are given as their outcomes.
- Clocks and the network: times, ages, ping results and whether a statement is
  answered are parameters; lag is whole seconds without int64 overflow.
- FirstWord and Classify: a keyword table; statements carry their kind.
- HandleQuery and HandleOtherCommand as code: their steps are actions of the
  machines. The acquire path of a saturated pool waits in the source; the
  method ends there with nothing, which is what a timeout gives.
- The circuit breaker, KILL QUERY, the pinger's timing and the counters of a pool.
- Detection of the table prefix, SetConfig and SetRules: plumbing.
- firewall, rewrite, throttle, profile, provisioning text and version dialects.
- Strings stand for bytes: TrimSpace and `\s` are modelled on ASCII white space.
- Cache keys are a datatype where the source joins strings by NUL, so database
  names are taken to hold no NUL; the same for tags.
- Membership.State.AddNode: does not model the sorting of the recorded lists, nor
  writing them to disk; membership does not depend on either.
- Membership.State.RemoveNode: likewise.
- ConnPool.ConnPool.Acquire: is proved for one caller; other sessions taking and
  parking connections meanwhile are in Multiplex and Sharing, not here.
- ConnPool.ConnPool.Keepalive: likewise, and what health checks say of a
  connection is fixed for the pass.
- ConnPool.ConnPool.ResetConn: does not model servers without
  COM_RESET_CONNECTION, whose connections are closed once they carry variables.
- Topology.RotationIsFair: leaves out a wrap of the counter, once in 2^64 reads,
  while some replica is not eligible; `WrapIsUnfair` has the wrap when all are.
- Topology.Topology.RemoveNode: does not model the closing of the node's pool.
- Routing.WritesRunOnThePrimary: is about one session and a primary that stays;
  handles of a lost connection are among what `Strands` excludes.
- Replication.Manager.Promote: does not model a state file that cannot be written;
  the promotion stands then, and the record is the old one.
- CacheSize.MoreMemoryHoldsMore: does not model fetches that fail or are not stored.
- Freshness.ServedValue: does not cover entries filled from a lagging replica.
- Normalize.SameKey: speaks of statements the source does not panic on.
- ConfigEdit.OthersAfterSet: asks for a path of valid keys and a value without
  line breaks, sufficient and, as `PathsNeedKeys` shows, needed in general; for
  other paths `KeylessPath` has the harmless ones whose first part is missing.
