# Proofs about the Honcho plugin's write and credential paths

This project models the stateful and algorithmic cores of the repository in Dafny and proves what
they are relied on for.  `dafny verify dfyconfig.toml` checks all of it.

| file | what it is about |
|---|---|
| `SessionLog` | one session's message list under appends, flushes and trims |
| `SessionCache`, `SessionManager` | the bounded tables, their LRU order, sweeps, caps and saves |
| `SessionReach` | no saved batch is lost while threads interleave |
| `AsyncQueue` | closing the async write queue, and flush deadlines |
| `SdkCache` | SDK objects against client rebuilds |
| `OAuthRefresh`, `OAuthTables` | refresh-token rotation over threads and processes |
| `ConfigMerge`, `ConfigWrites` | the three-way config merge, against token rotations |
| `GrantMerge` | installing a login's grant and config into a file |
| `RecallSync` | the synchronous recall slot and its backoff |
| `DevicePoll` | device-code polling, section 3.5 of RFC 8628 |
| `MessageChunks`, `MessageLimits` | splitting long messages and joining them again; when splitting ends |
| `HoistDefs`, `HoistMeaning`, `SpecDrift` | hoisting `$defs` and comparing OpenAPI documents |
| `VoyageBatches` | greedy batching and bisecting retry |
| `MigrationHeads` | heads of the migration graph |

Code that changes objects step by step is a class whose methods are proved against functions or
state their result outright.  Where threads or processes interleave, a second model gives the code
as a state machine: `State`, `Action`, `Enabled` and `Next` follow the code's steps between its
locks, and a theorem about `After(..., actions)` holds for every run of any number of threads.
Lemmas called `Undisturbed...` show that the steps of one thread alone can do what the class does.

## Where the code differs from its promise

For each there is a concrete input or run, and the exact condition under which the promise is kept.

- A `$defs` name given to both null and another schema is overwritten without an error
  (`HoistKeepsMeaningIff`, `NullOverwritten`); a definition called `$defs` leaves a `$defs` key
  (`PublishedIsClean`, `DefsKeyStays`).
- `get_or_create` installs over whatever holds the key after its unlocked requests, which can push out
  an unsynced session (`InstallKeepsIff`, `LateInstallLoses`), and leaves the new object in the old
  one's place of the eviction order (`InstallKeepsOrderIff`, `InstalledGoesFirst`).
- A process goes on refreshing the config file it was bound to when another one comes into force, so that
  its tokens are stored where nobody reads them (`AlignedIff`, `StaysAlignedIff`, `AnyRotationIff`,
  `BoundRefreshIsHidden`).
- The first write after a read from a seed file brings back a credential rotated since
  (`FirstWriteIff`, `WriteKeepsNewestIff`, `SeedRotationIsUndone`), and a login for one host into a new
  local file hides the seed's credentials of the others (`OtherGrantKeepsNewestIff`,
  `OtherLoginHidesTheSeed`, `OtherLoginUndoesARotation`).
- A host block deleted while a refresh waits for the locks makes it present what it read before
  (`ExchangeIsCurrentIff`, `RereadIsCurrentIff`, `DeletedBlockReplays`).
- A login whose granted config names another host's keys replaces them there (`GrantMerge.KeptIff`,
  `OtherHostOverwritten`).
- A flush can start after its deadline, by the time between reading the clock and beginning to wait for
  the lock (`RunsOnTimeIff`, `LateStart`).
- A device poll can be sent at the deadline or after it, when its sleep overshoots (`PollIsInTimeIff`,
  `DeadlineKeptIff`, `LatePoll`).
- With a limit of 12 or less some messages are never finished (`EndsIff`, `EndsIffLow`,
  `EndsIffMiddle`, `EndsIffTwelve`, `ThirteenLetters`).

## Assumptions

- An upload is all or nothing, and a failed exchange that is not a rejection was not applied by the
  server (`OAuthRefresh`).
- For `SavedIsReachableUntilSynced` a new session object is installed while its key is free or held by a
  settled session, as it is whenever miss and install are not interleaved; what happens otherwise is
  `OutOfReachIff`.
- With the file lock held, an exchange that succeeded is stored: no crash in between, and the
  atomic write succeeds.  Tokens of distinct grants differ, and SHA-256 is taken as injective.
- Turn numbers and clocks never go back.
- `as_dict` and `as_list` give the dict or list, else nothing.  References name a definition
  directly, and for the meaning theorems no schema is called `$defs` or `$ref`.

## Model

| member | source | states |
|---|---|---|
| `SessionLog.HonchoSession.constructor` | hermes-plugin-honcho/session.py:348-355 | a session loaded from the server starts with every message synced and delivered |
| `SessionLog.HonchoSession.AddMessage` | hermes-plugin-honcho/session.py:53-56 | appending adds one unsynced message and keeps "delivered, then unsynced, is everything added, in order" |
| `SessionLog.HonchoSession.TrimSyncedMessages` | hermes-plugin-honcho/session.py:394-401 | trimming drops synced messages from the front, and stops exactly when 200 are left or an unsynced one is first: the unsynced ones are the same before and after |
| `SessionLog.HonchoSession.PopSynced` | hermes-plugin-honcho/session.py:398-401 | the loop stops when enough is gone or the first message is unsynced |
| `SessionLog.HonchoSession.FlagBatch` | hermes-plugin-honcho/session.py:459-460 | flagging the selected messages one by one, in place |
| `SessionLog.HonchoSession.FlushSessionLocked` | hermes-plugin-honcho/session.py:425-465 | a flush delivers exactly the unsynced messages, in order, or nothing; on success the last 200 messages are left, all flagged; on failure, or with nothing to send, the list is as it was |
| `SessionLog.BatchIsSuffix` | hermes-plugin-honcho/session.py:426 | the selected messages are the tail of the list, in order: synced messages form a prefix |
| `SessionLog.FlagAllIs` | hermes-plugin-honcho/session.py:459-460 | a failed upload changes no flag; a successful one flags the whole list |
| `SessionLog.TrimLength` | hermes-plugin-honcho/session.py:395-401 | how long a wholly synced list is after trimming |
| `SessionLog.FlushedIs` | hermes-plugin-honcho/session.py:459-465 | from any list: what is left of it after each outcome |
| `SessionLog.SelectKeepsInv` | hermes-plugin-honcho/session.py:426 | whatever other threads appended, a thread that holds the flush lock selects exactly the undelivered messages |
| `SessionLog.StepKeepsInv` | hermes-plugin-honcho/session.py:403-465 | every step of every thread keeps the delivery invariant |
| `SessionLog.DeliveryInOrder` | hermes-plugin-honcho/session.py:403-465 | after every interleaving of appends, flushes, failed uploads and trims by any number of threads, the server has a prefix of what was added, in order and without repeats, and every undelivered message is still listed as unsynced |
| `SessionLog.NothingLostOrRepeated` | hermes-plugin-honcho/session.py:403-465 | delivered messages followed by the unsynced ones are exactly those added, in order, whenever no upload waits to be flagged |
| `SessionLog.UploadsAreNew` | hermes-plugin-honcho/session.py:403-407 | an upload that succeeds sends only messages the server does not have |
| `SessionLog.UndisturbedFlush` | hermes-plugin-honcho/session.py:403-465 | from any state with the flush lock free the steps of one thread can flush as the class does: the same list is left, the same messages are delivered |
| `SessionCache.CappedIsLru` | hermes-plugin-honcho/session.py:279-297 | the cap loops remove exactly what a least-recently-used policy over the evictable entries removes, and keep the order |
| `SessionCache.LruIsUnique` | hermes-plugin-honcho/session.py:276-278 | that policy determines the removals: no other set qualifies |
| `SessionCache.CapsAreExactLru` | hermes-plugin-honcho/session.py:276-300 | after the caps the session cache is within 128 or holds only unsynced sessions, no unsynced one was removed, SDK sessions and peers are within their caps or all live, and the observation and prefetch tables keep exactly their entries for live sessions |
| `SessionCache.LiveEntriesStay` | hermes-plugin-honcho/session.py:284-300 | a session that stays cached keeps both its peers, its prefetched context, and its SDK session if no evicted one shares it |
| `SessionCache.EvictIdleIs` | hermes-plugin-honcho/session.py:302-311 | the idle sweep evicts exactly the sessions without unsynced messages whose last use is before the cutoff, with everything keyed to them |
| `SessionManager.HonchoSessionManager.CachedSession` | hermes-plugin-honcho/session.py:148-155 | a hit is stamped and becomes the most recently used entry, and the dict order is the order of use then exactly when the other entries were in it; a miss changes nothing |
| `SessionManager.HonchoSessionManager.EvictSession` | hermes-plugin-honcho/session.py:268-274 | drops one session and every entry keyed to it |
| `SessionManager.HonchoSessionManager.EvictOverCap` | hermes-plugin-honcho/session.py:279-283 | the first cap loop over its snapshot of the cache |
| `SessionManager.HonchoSessionManager.DropUnused` | hermes-plugin-honcho/session.py:284-297 | the loops over SDK sessions and peers |
| `SessionManager.HonchoSessionManager.EnforceCacheCaps` | hermes-plugin-honcho/session.py:276-300 | performs the capping described above; a dict order that is the order of use stays one, and then every evicted session was used before every synced one that stays |
| `SessionManager.HonchoSessionManager.EvictIdleOnes` | hermes-plugin-honcho/session.py:305-311 | the loop of the idle sweep |
| `SessionManager.HonchoSessionManager.SweepIdleSessions` | hermes-plugin-honcho/session.py:302-313 | idle eviction, then the caps: synced sessions unused for 3600 seconds go and are counted, unsynced ones stay, and so does every other while 128 or fewer are cached |
| `SessionManager.SweepEvicts` | hermes-plugin-honcho/session.py:302-313 | who is left after a sweep |
| `SessionManager.IdleCountIs` | hermes-plugin-honcho/session.py:306-311 | the count returned is the number of idle sessions |
| `SessionManager.HonchoSessionManager.MaybeSweepIdleSessions` | hermes-plugin-honcho/session.py:315-322 | at most one sweep in 300 seconds |
| `SessionManager.HonchoSessionManager.Install` | hermes-plugin-honcho/session.py:356-361 | a new object takes its key, stamped as used now, every other key keeps its holder while the cache is not full, the caps are enforced, and the dict order stays the order of use if the key was free or its holder the newest entry |
| `SessionManager.HonchoSessionManager.AddMessage` | hermes-plugin-honcho/session.py:53-56 | from then on neither the idle sweep nor the caps evict the session |
| `SessionManager.HonchoSessionManager.FlushSession` | hermes-plugin-honcho/session.py:403-407 | succeeds if the upload lands or nothing was unsynced |
| `SessionManager.HonchoSessionManager.ReclaimKey` | hermes-plugin-honcho/session.py:496-504 | an unsynced session is put back exactly if no session has its key, and learns of another object that has it |
| `SessionManager.HonchoSessionManager.RetainForRetry` | hermes-plugin-honcho/session.py:506-511 | an unsynced session goes on the retry list exactly if another object has its key and it is not there yet; afterwards it is in the cache or on that list |
| `SessionManager.HonchoSessionManager.FlushNow` | hermes-plugin-honcho/session.py:520-523 | flushed, or kept reachable |
| `SessionManager.HonchoSessionManager.KeepUntilFlushed` | hermes-plugin-honcho/session.py:513-518 | reachable under its key, or written now when a newer object owns the key |
| `SessionManager.HonchoSessionManager.Save` | hermes-plugin-honcho/session.py:525-541 | a save in turn mode, on every N-th turn or during a shutdown uploads; in session mode, and off the N-th turn, it uploads only if a newer object owns the key; in each the session is synced or reachable when save returns, and no other session stops being reachable |
| `SessionManager.HonchoSessionManager.FlushCached` | hermes-plugin-honcho/session.py:552-566 | flushes the cached and retry-listed sessions one by one as far as the deadline allows, all of them if each lock comes free in time, returns the others in order, and takes only synced ones off the retry list |
| `SessionManager.AllAreFlushed` | hermes-plugin-honcho/session.py:554-556 | that list has every cached and every retry-listed session |
| `SessionManager.CapsKeepOrder` | hermes-plugin-honcho/session.py:276-283 | what the caps leave is well keyed and still in order of use |
| `SessionManager.EvictedUsedEarlier` | hermes-plugin-honcho/session.py:276-283 | with the dict order the order of use, evicted sessions were used less recently than every retained synced one |
| `SessionManager.TouchOrderIff` | hermes-plugin-honcho/session.py:148-155 | after a lookup the dict order is the order of use exactly when the other entries were in it: a lookup keeps the order, and one of an entry out of place restores it |
| `SessionManager.InstallKeepsKeys` | hermes-plugin-honcho/session.py:356-357 | an install puts the session under its key and disturbs no other key |
| `SessionManager.InstallKeepsOrderIff` | hermes-plugin-honcho/session.py:356-357 | an install keeps the dict order the order of use exactly when the key was free or its holder the newest entry |
| `SessionManager.InstalledGoesFirst` | hermes-plugin-honcho/session.py:279-283 | otherwise the object just created can be the first to be evicted: a concrete cache |
| `SessionReach.InstallKeepsIff` | hermes-plugin-honcho/session.py:356-357 | an install keeps every owed message reachable exactly when no unsettled session outside the retry list holds the key |
| `SessionReach.ReachableThroughoutIff` | hermes-plugin-honcho/session.py:356-357 | over a whole run: everything owed is reachable at every moment exactly when every install finds its key vacant |
| `SessionReach.LateInstallLoses` | hermes-plugin-honcho/session.py:326-362 | two installs after two misses lose a saved message: a concrete run |
| `SessionReach.KeepLosesNone` | hermes-plugin-honcho/session.py:513-518 | returning from keep-until-flushed makes nothing owed unreachable |
| `SessionReach.RetainLosesNone` | hermes-plugin-honcho/session.py:506-511 | nor does returning after a failed flush |
| `SessionReach.EndLosesNone` | hermes-plugin-honcho/session.py:403-465 | nor does the end of an upload, successful or not |
| `SessionReach.DropLosesNone` | hermes-plugin-honcho/session.py:268-313 | nor do sweeps, caps and the retry filter, which drop sessions seen synced while they hold the cache lock |
| `SessionReach.StepKeepsInv` | hermes-plugin-honcho/session.py:496-566 | every step keeps counts, uploads, keys and what the lock holder saw synced right |
| `SessionReach.BecomesLost` | hermes-plugin-honcho/session.py:356-566 | of all steps only an install loses a session, and exactly the unsettled ones it pushes out of the cache |
| `SessionReach.LostIff` | hermes-plugin-honcho/session.py:356-566 | from any state: a session is out of reach after a run exactly when it was so all along, or an install of the run pushed it out and it has been so ever since |
| `SessionReach.OutOfReachIff` | hermes-plugin-honcho/session.py:496-566 | after every interleaving, each message that a returned save was called for is on the server or belongs to a session the next flush_all flushes, except exactly those of a session that an install pushed out and that has been lost at every moment since |
| `SessionReach.SavedIsReachableUntilSynced` | hermes-plugin-honcho/session.py:496-566 | with every install finding its key vacant, nothing owed is ever out of reach before it is synced |
| `SessionReach.OwedAndSyncedGrow` | hermes-plugin-honcho/session.py:403-541 | what saves owe never shrinks, nor does what the server has |
| `SessionReach.SaveOwes` | hermes-plugin-honcho/session.py:525-541 | a save owes all that was appended before its call, goes on owing it, and it is due once the save has returned |
| `SessionReach.UndisturbedFlush` | hermes-plugin-honcho/session.py:520-541 | a save that flushes, with no other thread between its steps, ends with its session synced or back in reach, and all it owes due |
| `SessionReach.UndisturbedKeep` | hermes-plugin-honcho/session.py:513-541 | one that only keeps the session ends with it in reach, or flushed if a newer object owns the key |
| `SessionReach.UndisturbedEvict` | hermes-plugin-honcho/session.py:268-311 | a session whose messages are all synced can be dropped from cache and retry list while the cache lock is held |
| `AsyncQueue.StartsIff` | hermes-plugin-honcho/session.py:409-423 | a flush starts exactly when there is no deadline, or the clock read leaves time and the lock is free before that is used up |
| `AsyncQueue.PickedIff` | hermes-plugin-honcho/session.py:552-587 | so each session of a list is flushed or skipped by its own try |
| `AsyncQueue.TimelyTriesStart` | hermes-plugin-honcho/session.py:416-423 | tries whose locks all come free in time skip nothing |
| `AsyncQueue.StartsInTime` | hermes-plugin-honcho/session.py:409-423 | a flush under a deadline starts by it, but for the time between reading the clock and beginning to wait |
| `AsyncQueue.OnTimeIff` | hermes-plugin-honcho/session.py:416-417 | tries with a given such lag start by their deadline, all of them, exactly when the lag is nothing |
| `AsyncQueue.FlushedOrSkipped` | hermes-plugin-honcho/session.py:575-587 | each drained session is flushed or reported as skipped, never both |
| `AsyncQueue.NoDeadlineSkipsNothing` | hermes-plugin-honcho/session.py:413-415 | without a deadline nothing is skipped |
| `AsyncQueue.LateTriesAreSkipped` | hermes-plugin-honcho/session.py:416-418 | once the clock reads the deadline nothing more is flushed |
| `AsyncQueue.AsyncWriter.Save` | hermes-plugin-honcho/session.py:530-537 | enqueues before a shutdown, asks for an inline flush after it |
| `AsyncQueue.AsyncWriter.DrainAsyncQueue` | hermes-plugin-honcho/session.py:575-587 | empties the queue, flushing in order what the deadline allows, all of it if each lock comes free in time, and returning the rest |
| `AsyncQueue.PutKeepsInv` | hermes-plugin-honcho/session.py:532-536 | a session is enqueued only under the writer lock with no shutdown begun |
| `AsyncQueue.ClosedForGood` | hermes-plugin-honcho/session.py:525-621 | once a stop or shutdown returned, the queue holds no session, no step of any thread can put one there, and a save goes on inline |
| `AsyncQueue.TakenInOrder` | hermes-plugin-honcho/session.py:575-587 | sessions leave the queue in the order they were put, each once; after a stop all have left |
| `AsyncQueue.NoLateStart` | hermes-plugin-honcho/session.py:409-423 | in every run each flush under a deadline, of a cached, retry-listed or queued session, starts by it up to that lag |
| `AsyncQueue.LateStart` | hermes-plugin-honcho/session.py:543-566 | for every lag a run of flush_all in which a flush starts exactly as late as that |
| `AsyncQueue.RunsOnTimeIff` | hermes-plugin-honcho/session.py:543-587 | the starts with a given lag keep their deadlines in every run exactly when the lag is nothing |
| `AsyncQueue.UndisturbedSave` | hermes-plugin-honcho/session.py:525-537 | the steps of one save do what the class does: enqueue before a shutdown, go on inline after it |
| `AsyncQueue.UndisturbedStop` | hermes-plugin-honcho/session.py:570-621 | a stop alone closes the queue, empties it in order, and flushes each session of it if its deadline has not come, none otherwise |
| `AsyncQueue.UndisturbedFlushAll` | hermes-plugin-honcho/session.py:543-566 | flush_all alone flushes the cached and retry-listed sessions, then the queue, all of it if the deadline has not come, else nothing |
| `AsyncQueue.UndisturbedShutdown` | hermes-plugin-honcho/session.py:609-621 | a shutdown alone closes the queue, flushes those sessions and the queue under its one deadline, and stops the writer |
| `SdkCache.SdkCaches.CachedSdkObject` | hermes-plugin-honcho/session.py:134-146 | a hit moves to the end of the dict and nothing else changes; after a miss what another thread cached is taken over, else the first fetch no bump overtook goes to the end; the object returned is the one cached |
| `SdkCache.SdkCaches.ForceReauth` | hermes-plugin-honcho/session_auth.py:108-118 | both caches are cleared and the generation bumped exactly when the client had to be rebuilt |
| `SdkCache.StepKeepsInv` | hermes-plugin-honcho/session.py:134-146 | every step of fetches, rebuilds, bumps and evictions keeps cached and fetched objects current |
| `SdkCache.CachedObjectsAreCurrent` | hermes-plugin-honcho/session.py:134-146 | at every moment each cached object's client is at least as new as the generation |
| `SdkCache.DiscardedClientsStayOut` | hermes-plugin-honcho/session_auth.py:111-118 | once a rebuild has cleared the caches, no object of an older client is ever in them again, whatever was in flight |
| `SdkCache.GuardIsNeeded` | hermes-plugin-honcho/session.py:143-145 | without the generation test an object of the discarded client gets in: a concrete run |
| `SdkCache.UndisturbedFetch` | hermes-plugin-honcho/session.py:134-146 | a miss that nothing overtakes ends with an object of the current client cached |
| `SdkCache.UndisturbedReauth` | hermes-plugin-honcho/session_auth.py:111-118 | a rebuild leaves a new client, the next generation and empty caches |
| `SdkCache.OvertakenFetch` | hermes-plugin-honcho/session.py:143-146 | a fetch that a bump overtook leaves the caches as they are |
| `OAuthRefresh.EnsureIs` | hermes-plugin-honcho/oauth.py:316-336 | up to the locks ensure_fresh_token touches the expiry cache only |
| `OAuthRefresh.RecheckIs` | hermes-plugin-honcho/oauth.py:338-346 | under the locks it goes on only with the credential on disk, or the earlier read if there is none, and never with one marked dead |
| `OAuthRefresh.ForceRecheckIs` | hermes-plugin-honcho/oauth.py:357-373 | the forced path goes on only with the credential on disk, never with one marked dead |
| `OAuthRefresh.EnsureIff` | hermes-plugin-honcho/oauth.py:316-336 | in numbers, for every state: when the call returns from the cache or the file, and when it waits for the locks |
| `OAuthRefresh.RecheckIff` | hermes-plugin-honcho/oauth.py:338-346 | under the locks a credential is rotated exactly when it is within 120 seconds of its expiry, not marked dead and no failure is 30 seconds young |
| `OAuthRefresh.ForceRecheckIff` | hermes-plugin-honcho/oauth.py:357-373 | the forced path adopts exactly a fresh credential that is not the failed or not the cached one, gives up exactly on a dead one or in the cooldown, and else rotates |
| `OAuthRefresh.AdoptIff` | hermes-plugin-honcho/oauth.py:275-287 | after a rejection another token on disk is adopted and revives the host, and otherwise the rejected one is marked |
| `OAuthRefresh.ExchangeKeepsInv` | hermes-plugin-honcho/oauth.py:244-292 | an exchange, rotated, rejected or failed, keeps disk and server at most one unsaved step apart |
| `OAuthRefresh.PersistedIsCurrent` | hermes-plugin-honcho/oauth.py:302-310 | what is about to be stored is the current token of a grant of this host |
| `OAuthRefresh.StepKeepsInv` | hermes-plugin-honcho/oauth.py:261-396 | every step of refreshes, forced refreshes, logins and config writes under the file lock, of a block deleted meanwhile too, keeps the invariant |
| `OAuthRefresh.ExchangesPresentTheCurrentToken` | hermes-plugin-honcho/oauth.py:244-376 | with the file lock every exchange of every thread and process presents the server's current token, never one whose successor was stored |
| `OAuthRefresh.StoredTokensFollowTheChain` | hermes-plugin-honcho/oauth.py:302-314 | stored tokens follow the rotation chain, and storing one leaves every other host's block as it is |
| `OAuthRefresh.StepKeepsIssued` | hermes-plugin-honcho/oauth.py:261-314 | with the file lock every token the server issued is stored, but for one waiting to be |
| `OAuthRefresh.ExchangeIsCurrentIff` | hermes-plugin-honcho/oauth.py:244-376 | in every run with the file lock, whatever blocks are deleted and however often: an exchange presents the current token exactly when its host's block is there or no successor of the token was stored |
| `OAuthRefresh.RereadIsCurrentIff` | hermes-plugin-honcho/oauth.py:338-346 | in every such run a refresh goes on with the current token exactly when its host's block was there under the locks, or no successor of what it read before them was stored |
| `OAuthRefresh.DeletedBlockReplays` | hermes-plugin-honcho/oauth.py:340 | a concrete run in which that replays an exchanged token |
| `OAuthRefresh.StepKeepsTokens` | hermes-plugin-honcho/oauth.py:244-396 | every step, file lock or not, keeps the invariant about marks and unsaved tokens |
| `OAuthRefresh.DeadVerdictsAreSound` | hermes-plugin-honcho/oauth.py:99-141 | whatever the locks: a token is marked dead only after a permanent rejection of it, no exchange is sent with a token marked dead in its process, and a login is asked for only if the token on disk was rejected |
| `OAuthRefresh.StoringRevivesTheGrant` | hermes-plugin-honcho/oauth.py:302-314 | storing a rotation or a login clears the mark, and no process asks for a login until the new token is rejected |
| `OAuthRefresh.EnsureRotates` | hermes-plugin-honcho/oauth.py:316-346 | undisturbed, an expired credential that is neither cached fresh, dead nor 30 seconds after a failure goes to the exchange under both locks |
| `OAuthRefresh.ForceRotates` | hermes-plugin-honcho/oauth.py:351-373 | so does a forced refresh, whatever the expiry |
| `OAuthRefresh.RotationStores` | hermes-plugin-honcho/oauth.py:261-292 | an exchange that succeeds ends with the successor on disk and cached, nothing held against the host, and the locks free |
| `OAuthRefresh.RejectionMarks` | hermes-plugin-honcho/oauth.py:274-287 | a rejected one with the token marked dead and a login asked for |
| `OAuthRefresh.FailureCools` | hermes-plugin-honcho/oauth.py:267-290 | a failed one, or an unreadable file, with the cooldown started and nothing else changed |
| `OAuthRefresh.FileLockIsNeeded` | hermes-plugin-honcho/oauth.py:338-346 | of two processes that read one expired token, one without the file lock, the second to exchange presents it after it was used: from any such state |
| `OAuthTables.RefreshTables.PersistCredential` | hermes-plugin-honcho/oauth.py:302-314 | the credential is on disk and cached, and mark and cooldown are gone for this host only |
| `OAuthTables.RefreshTables.RotateAndPersist` | hermes-plugin-honcho/oauth.py:244-292 | after one try, or a second if the first may be repeated: rotated is stored and live; rejected adopts a sibling's newer grant, else marks the token dead and asks for a login; failed starts the cooldown, nothing else |
| `OAuthTables.RefreshTables.EnsureFreshToken` | hermes-plugin-honcho/oauth.py:316-349 | in every case: an unexpired cached or stored token is returned as it is, an expired one too within 30 seconds of a failure; otherwise the token under the locks is adopted if it is fresh, left if it is dead, and else rotated, with each outcome of the exchange |
| `OAuthTables.RefreshTables.RefreshUnderLocks` | hermes-plugin-honcho/oauth.py:338-349 | the part under the locks: a token within 120 seconds of its expiry, not marked dead and clear of a failure, is exchanged and its successor stored |
| `OAuthTables.RefreshTables.ForceRefreshToken` | hermes-plugin-honcho/oauth.py:351-376 | in every case: a sibling's usable rotation, seen against the failed or the cached token, is adopted without an exchange; a dead grant, or a failure less than 30 seconds old, gives nothing; and else the token on disk is rotated, with each outcome of the exchange |
| `OAuthTables.RefreshTables.InstallGrant` | hermes-plugin-honcho/oauth.py:378-396 | a login is live and revives the host; the merge of its config is in `GrantMerge` |
| `GrantMerge.DeepMerge` | hermes-plugin-honcho/oauth.py:294-300 | the recursive loop, whatever the order of the keys, computes the merge the next rows are about |
| `GrantMerge.MergedAt` | hermes-plugin-honcho/oauth.py:294-300 | at every path, however deep: the overlay's values win, its dicts stay dicts, nothing is below its values, and where it says nothing the base is kept |
| `GrantMerge.MergeIsUnique` | hermes-plugin-honcho/oauth.py:294-300 | no other tree is that at every path |
| `GrantMerge.MergedBelow` | hermes-plugin-honcho/oauth.py:297-298 | what the overlay has at a path is merged into what the base has there |
| `GrantMerge.UnchangedIff` | hermes-plugin-honcho/oauth.py:294-300 | a merge changes nothing exactly when the overlay has nothing new |
| `GrantMerge.MergedTwice` | hermes-plugin-honcho/oauth.py:294-300 | merging the same config again changes nothing |
| `GrantMerge.ConfigFile.InstallGrant` | hermes-plugin-honcho/oauth.py:378-396 | raises, leaving the file, exactly when it does not parse to a dict or has something else where the hosts or the host's block belong; else tokens and config are written |
| `GrantMerge.WithGrantAt` | hermes-plugin-honcho/oauth.py:307-310 | the tokens are where they are looked up, and every path but theirs is as it was |
| `GrantMerge.InstallKeeps` | hermes-plugin-honcho/oauth.py:383-395 | a login keeps every path but the grant's own, except where the granted config says otherwise |
| `GrantMerge.KeptIff` | hermes-plugin-honcho/oauth.py:383-395 | what is at such a path, another host's whole block for one, survives exactly when the granted config has nothing new there |
| `GrantMerge.OtherHostOverwritten` | hermes-plugin-honcho/oauth.py:394 | a concrete login that replaces another host's key |
| `ConfigMerge.MergedKey` | hermes-plugin-honcho/cli.py:100-122 | a key the command touched takes the edited value, every other key keeps the one on disk, at the root and in each host |
| `ConfigMerge.TouchedIff` | hermes-plugin-honcho/cli.py:104-121 | a command touches a key exactly when it changed its value, removed an explicit null, or removed the host |
| `ConfigMerge.UnchangedDiskTakesEdits` | hermes-plugin-honcho/cli.py:100-122 | onto an unchanged disk the merge yields the edited config |
| `ConfigMerge.NoEditsKeepDisk` | hermes-plugin-honcho/cli.py:100-122 | without edits the merge yields the config on disk |
| `ConfigMerge.DisjointEditsCommute` | hermes-plugin-honcho/cli.py:100-122 | two commands with disjoint edits commute |
| `ConfigMerge.OverlaidKey` | hermes-plugin-honcho/cli.py:125-134 | the local file wins key by key, the seed fills in the rest |
| `ConfigMerge.EditKeys` | hermes-plugin-honcho/cli.py:104-108 | the loop over keys, in any order, computes the merge of a dict |
| `ConfigMerge.EditHostBlocks` | hermes-plugin-honcho/cli.py:111-121 | the loop over hosts, in any order |
| `ConfigMerge.MergeEdits` | hermes-plugin-honcho/cli.py:100-122 | the whole merge |
| `ConfigMerge.OverlayLocal` | hermes-plugin-honcho/cli.py:125-134 | the overlay of the local file on the seed |
| `ConfigWrites.ReadConfig.constructor` | hermes-plugin-honcho/cli.py:72-77 | as read no key counts as edited, so that writing it back leaves any file saying what it said |
| `ConfigWrites.ReadConfig.ApplyGrantToHost` | hermes-plugin-honcho/cli.py:615-623 | a grant installed on disk is in config and snapshot alike, so it is no edit of the command; the peer name is, and nothing else changes |
| `ConfigWrites.ConfigFiles.WriteConfig` | hermes-plugin-honcho/cli.py:137-157 | an unparseable file is never overwritten; otherwise every key the command edited is in the file as edited, every other is kept, from the file written or from the one read, and the object is based on the result |
| `ConfigWrites.OutgoingSays` | hermes-plugin-honcho/cli.py:146-152 | what every key of the written config says, at the root and in each host |
| `ConfigWrites.OutgoingHalf` | hermes-plugin-honcho/cli.py:146-152 | each half of an unedited credential comes from the local file if that was read or has it, else from what was read |
| `ConfigWrites.KeepsForceIff` | hermes-plugin-honcho/cli.py:137-157 | from any state and for every step, of processes bound to whichever file and of commands of any home: when a host's newest credential is in force afterwards |
| `ConfigWrites.AlignedIff` | hermes-plugin-honcho/client.py:410-422 | whatever the bound processes store for the host is in force exactly when every one that refreshes it is bound to the file in force |
| `ConfigWrites.StaysAlignedIff` | hermes-plugin-honcho/client_cache.py:176-190 | a step leaves them so exactly when it puts no new file in force while one refreshes the host, and starts none of another home's file |
| `ConfigWrites.AnyRotationIff` | hermes-plugin-honcho/session_auth.py:78-108 | after any run, what a process bound to a file stores is in force exactly when that is the file in force, or that one has the same |
| `ConfigWrites.BoundRefreshIsHidden` | hermes-plugin-honcho/client_cache.py:176-190 | a process bound to the seed file refreshes it after a command has safely written the home's first file, and the config in force keeps the consumed token: a concrete run |
| `ConfigWrites.SeedReadRun` | hermes-plugin-honcho/client.py:111-121 | the state these examples start from is reached by a process and a command that resolve the seed file |
| `ConfigWrites.WriteKeepsNewestIff` | hermes-plugin-honcho/cli.py:137-157 | a write of a command that edits no credential keeps the newest one in force exactly when: the file written is the one read; or the local file holds both halves itself, or the seed adds none; or the seed still holds what was read from it |
| `ConfigWrites.OtherGrantKeepsNewestIff` | hermes-plugin-honcho/cli.py:649-701 | a login for another host keeps it in force exactly when it puts no new file in force, or there was nothing to hide |
| `ConfigWrites.AnyWriteIff` | hermes-plugin-honcho/cli.py:137-157 | after any run of reads, edits, logins, rotations and writes, a write into the file in force, or of a first one, puts the newest credential in force exactly when it takes both halves from where they are |
| `ConfigWrites.NoWriteUndoesARotation` | hermes-plugin-honcho/cli.py:137-157 | however commands, logins and rotations of all hosts, homes and bound processes interleave, the config in force ends with the host's newest grant, if each step is one the rows above allow: safe writes, no login that hides a credential, no new file put in force while a process refreshes the host from another one |
| `ConfigWrites.LaterWritesAreSafe` | hermes-plugin-honcho/cli.py:149-157 | a command based on the local file writes safely whatever happens in between, second writes included |
| `ConfigWrites.SecondWriteChangesNothing` | hermes-plugin-honcho/cli.py:156-157 | a command that has written has no edits left: writing again leaves every key as it is |
| `ConfigWrites.WriteOverGrantIsSafe` | hermes-plugin-honcho/cli.py:615-621 | so does a command that installed the grant, seed file or not |
| `ConfigWrites.FirstWriteIff` | hermes-plugin-honcho/cli.py:147-157 | a command that read a seed file writes the newest grant exactly when no login or rotation, of a process bound to whichever file, stored one for the host since it read |
| `ConfigWrites.SeedRotationIsUndone` | hermes-plugin-honcho/cli.py:147-157 | a rotation of the seed file between read and first write is undone: a concrete run |
| `ConfigWrites.OtherLoginHidesTheSeed` | hermes-plugin-honcho/cli.py:684-701 | the wizard's login for another host hides the seed's credential until its own write: a concrete run |
| `ConfigWrites.OtherLoginUndoesARotation` | hermes-plugin-honcho/cli.py:684-701 | with a rotation before that login, the write ends with the old credential: a concrete run |
| `HoistDefs.Hoister.Collect` | scripts/generate_openapi.py:95-117 | gathers every definition of every block, nested ones included, and strips the blocks |
| `HoistDefs.Hoister.Record` | scripts/generate_openapi.py:102-109 | fails only on two different definitions of a name |
| `HoistDefs.Hoister.CollectBlock` | scripts/generate_openapi.py:99-109 | the loop over one block |
| `HoistDefs.Hoister.CollectFields` | scripts/generate_openapi.py:110-112 | the loop over the other fields |
| `HoistDefs.Hoister.CollectItems` | scripts/generate_openapi.py:114-117 | the loop over a list |
| `HoistDefs.Hoister.Store` | scripts/generate_openapi.py:121-131 | succeeds exactly when no schema of a collected name is in the way |
| `HoistDefs.Hoister.RewriteAll` | scripts/generate_openapi.py:137-151 | repoints every reference |
| `HoistDefs.Hoister.Hoist` | scripts/generate_openapi.py:79-134 | on success the document is the hoisted one; each error has its cause in the document |
| `HoistDefs.CollisionConflicts` | scripts/generate_openapi.py:124-130 | a collision means two different schemas of one name |
| `HoistMeaning.UnfoldPreserved` | scripts/generate_openapi.py:79-151 | to every depth a node unfolds to the same tree before, with scoped definitions, and after, with components |
| `HoistMeaning.EntryPreserved` | scripts/generate_openapi.py:137-146 | the same for one field, a reference included |
| `HoistMeaning.TargetPreserved` | scripts/generate_openapi.py:137-143 | a repointed reference resolves to the published form of what it named |
| `HoistMeaning.HoistPreservesDocument` | scripts/generate_openapi.py:79-151 | everything outside components means what it meant |
| `HoistMeaning.HoistPreservesComponents` | scripts/generate_openapi.py:79-151 | so does the rest of components |
| `HoistMeaning.HoistPreservesSchemas` | scripts/generate_openapi.py:119-133 | every definition and every existing component means what the component of its name means afterwards |
| `HoistMeaning.HoistKeepsMeaningIff` | scripts/generate_openapi.py:102-131 | a successful hoist keeps every schema's meaning exactly when no name is given to both a null and another schema |
| `HoistMeaning.MixedNullIsLost` | scripts/generate_openapi.py:102-109 | otherwise one of the two meanings is lost |
| `HoistMeaning.NullOverwritten` | scripts/generate_openapi.py:102-109 | a concrete well-formed document on which that happens without an error |
| `HoistMeaning.PublishedIsClean` | scripts/generate_openapi.py:79-151 | the result has no local reference, and a definitions key exactly when some definition in the document has that name |
| `HoistMeaning.DefsKeyStays` | scripts/generate_openapi.py:121-131 | a concrete document with such a definition |
| `HoistMeaning.DefinedIsCollected` | scripts/generate_openapi.py:95-117 | every definition standing anywhere is collected |
| `HoistMeaning.CollectedIsDefined` | scripts/generate_openapi.py:95-117 | everything collected is a definition standing somewhere |
| `HoistMeaning.StripLeavesNoKey` | scripts/generate_openapi.py:98 | stripping leaves no definitions key at any level |
| `HoistMeaning.RewriteLeavesNoRef` | scripts/generate_openapi.py:137-151 | repointing leaves no local reference at any level |
| `HoistMeaning.NoLocalRefAnywhere` | scripts/generate_openapi.py:79-151 | said of places in the tree: nowhere in the published document does a reference into the local definitions stand, nor a definitions key unless a definition has that name |
| `HoistMeaning.LocalRefIff` | scripts/generate_openapi.py:137-151 | having a local reference means that one stands at some place down the tree |
| `HoistMeaning.InnermostWins` | scripts/generate_openapi.py:95-117 | a local reference means the definition of its name in the innermost block around it that has one |
| `SpecDrift.DriftReport.Walk` | scripts/generate_openapi.py:162-198 | reports every difference between two subtrees, until more than 40 are reported, and something exactly when they differ |
| `SpecDrift.DriftReport.WalkFields` | scripts/generate_openapi.py:173-182 | the same for two dicts |
| `SpecDrift.DriftReport.WalkItems` | scripts/generate_openapi.py:184-195 | the same for two lists of one length |
| `SpecDrift.AnyKeyFirst` | scripts/generate_openapi.py:173-182 | in whatever order the keys are taken the number of differences is the same |
| `SpecDrift.DifferencesIff` | scripts/generate_openapi.py:162-198 | there is none exactly between equal documents |
| `SpecDrift.DescribeDrift` | scripts/generate_openapi.py:158-201 | the report is empty exactly when the documents are equal, and up to 41 differences has one entry for each |
| `VoyageBatches.EstimateIsCeiling` | scripts/voyage_migrate_embeddings.py:43-45 | the least whole number, one at least, of 3.5-character shares that cover the text |
| `VoyageBatches.MinimalGrows` | scripts/voyage_migrate_embeddings.py:131-138 | adding a row that fits keeps the open batch as short as in any split with as few batches |
| `VoyageBatches.MinimalBreaks` | scripts/voyage_migrate_embeddings.py:133-136 | a row that does not fit forces one more batch on every split |
| `VoyageBatches.RunIsOk` | scripts/voyage_migrate_embeddings.py:131-138 | after every row the yielded batches and the open one are an allowed split, and minimal |
| `VoyageBatches.GreedyIsOptimal` | scripts/voyage_migrate_embeddings.py:128-140 | no split of the rows in order within both limits uses fewer batches |
| `VoyageBatches.ChunkRows` | scripts/voyage_migrate_embeddings.py:128-140 | the generator's batches are such a split, a lone oversize row excepted, and an optimal one |
| `VoyageBatches.WithinBudget` | scripts/voyage_migrate_embeddings.py:143-179 | the requests sent from any attempt on are bounded, whatever the endpoint does |
| `VoyageBatches.RequestBudget` | scripts/voyage_migrate_embeddings.py:143-179 | at most 7n - 2 requests for n rows |
| `VoyageBatches.BudgetIsTight` | scripts/voyage_migrate_embeddings.py:170-179 | an endpoint that makes it so many |
| `VoyageBatches.OneVectorPerRow` | scripts/voyage_migrate_embeddings.py:164-175 | a normal return has one vector of the right dimension per row |
| `VoyageBatches.SortSorts` | scripts/voyage_migrate_embeddings.py:162 | the items by index, none lost |
| `VoyageBatches.AcceptAligned` | scripts/voyage_migrate_embeddings.py:162-169 | an accepted honest reply lines up with its rows |
| `VoyageBatches.VectorsAligned` | scripts/voyage_migrate_embeddings.py:143-179 | across all bisections the k-th vector embeds the k-th row |
| `VoyageBatches.SucceedsIfRowsDo` | scripts/voyage_migrate_embeddings.py:170-179 | the call raises only over a single row whose last request fails |
| `MessageChunks.FindCut` | hermes-plugin-honcho/__init__.py:841-850 | the search for a cut computes the preferred boundary |
| `MessageChunks.OccursIff` | hermes-plugin-honcho/__init__.py:843-844 | what it means that a separator stands at a place of the text |
| `MessageChunks.SpacesAre` | hermes-plugin-honcho/__init__.py:852-853 | the characters that stripping removes, by code point |
| `MessageChunks.CutIsLate` | hermes-plugin-honcho/__init__.py:841-850 | a cut makes progress, takes 3/10 of the room at least, and prefers the last paragraph break, then the last sentence end |
| `MessageChunks.CutIsPreferred` | hermes-plugin-honcho/__init__.py:841-850 | the cut is the only preferred one: the last blank line beyond 30 percent, else the last such sentence end, else the last such space, else the end |
| `MessageChunks.CutOff` | hermes-plugin-honcho/__init__.py:852-853 | one pass splits the text at the preferred cut into a piece, whitespace, and the rest |
| `MessageChunks.ChunkLong` | hermes-plugin-honcho/__init__.py:832-857 | the loop ends with chunks as the next rows say |
| `MessageChunks.ChunkMessage` | hermes-plugin-honcho/__init__.py:825-857 | for any text and limit above 12: every chunk is cut off at the preferred place of what fits, fits, and but for the first carries the prefix; the text is the pieces interleaved with whitespace, and the count is bounded by the room each took |
| `MessageChunks.PreviousUserMessage` | hermes-plugin-honcho/__init__.py:618-639 | finds the last run of user messages and rejoins it |
| `MessageChunks.RejoinRestores` | hermes-plugin-honcho/__init__.py:636-639 | rejoining good chunks restores every non-whitespace character in order |
| `MessageChunks.JoinIsWeave` | hermes-plugin-honcho/__init__.py:639 | the join puts one line end between every two pieces |
| `MessageChunks.RejoinIsExactOnLines` | hermes-plugin-honcho/__init__.py:636-639 | a text that was cut at line ends only comes back as it was, stripped at its ends |
| `MessageChunks.RejoinIsStripped` | hermes-plugin-honcho/__init__.py:639 | what is rejoined begins and ends with no whitespace |
| `MessageChunks.RecallRestores` | hermes-plugin-honcho/__init__.py:630-639 | a stored turn followed by replies is found and restored |
| `MessageLimits.SlicesMakeText` | hermes-plugin-honcho/__init__.py:841-853 | the two slices at an index, negative ones included, make up the text and are as long as the index asks for |
| `MessageLimits.EmptyEnds` | hermes-plugin-honcho/__init__.py:835 | an empty text is done at once |
| `MessageLimits.EndsWithRoom` | hermes-plugin-honcho/__init__.py:835-855 | above a limit of 12 the loop ends on every text |
| `MessageLimits.NeverEnds` | hermes-plugin-honcho/__init__.py:835-855 | up to 12 it never ends on a longer text that does not end in whitespace |
| `MessageLimits.EndsIff` | hermes-plugin-honcho/__init__.py:835-855 | up to 12 it ends exactly when the first pass leaves nothing, or an end that later passes strip away |
| `MessageLimits.EndsIffLow` | hermes-plugin-honcho/__init__.py:835-855 | up to 8: exactly when the text ends in whitespace |
| `MessageLimits.EndsIffMiddle` | hermes-plugin-honcho/__init__.py:835-855 | from 9 to 11: exactly when the last characters behind the first cut, as many as the limit lacks to 12, are whitespace |
| `MessageLimits.EndsIffTwelve` | hermes-plugin-honcho/__init__.py:835-855 | at 12: exactly when there is nothing but whitespace behind the first cut |
| `MessageLimits.ThirteenLetters` | hermes-plugin-honcho/__init__.py:835-855 | a concrete text that never ends, and one that does |
| `DevicePoll.PollForToken` | hermes-plugin-honcho/oauth_flow.py:306-338 | ends on every reply sequence, on schedule: with a token exactly when the last reply granted one, with the error exactly when it was another than the two that mean wait, with a timeout exactly when none decided |
| `DevicePoll.PollIs` | hermes-plugin-honcho/oauth_flow.py:315-336 | each poll in numbers: there was an interval left before the deadline, it is sent when that is slept, and a slow_down adds 5 seconds, to 60 at most |
| `DevicePoll.OutcomeIs` | hermes-plugin-honcho/oauth_flow.py:322-338 | outcome and replies determine each other, and only the last reply decides |
| `DevicePoll.TimedOutIs` | hermes-plugin-honcho/oauth_flow.py:319-320 | a call that times out has no room for another interval |
| `DevicePoll.NextPoll` | hermes-plugin-honcho/oauth_flow.py:319-338 | one pass keeps the schedule, or decides |
| `DevicePoll.IntervalsGrow` | hermes-plugin-honcho/oauth_flow.py:316-336 | intervals never shrink and stay within 1 and 60 seconds |
| `DevicePoll.PolledIsUnique` | hermes-plugin-honcho/oauth_flow.py:306-338 | that description determines the polls and the outcome |
| `DevicePoll.PollIsInTimeIff` | hermes-plugin-honcho/oauth_flow.py:319-321 | a poll is sent before the deadline exactly when its sleep overshoots by less than the slack at its check |
| `DevicePoll.LatePoll` | hermes-plugin-honcho/oauth_flow.py:319-321 | for every overshoot a call with a poll at the deadline or after it |
| `DevicePoll.DeadlineKeptIff` | hermes-plugin-honcho/oauth_flow.py:319-321 | the deadline is kept in every world exactly when sleeps never overshoot |
| `MigrationHeads.ModuleRevisions` | scripts/release_manifest.py:100-121 | the last assignments win, but a later None leaves an earlier down_revision |
| `MigrationHeads.AlembicHeads` | scripts/release_manifest.py:124-138 | a revision is returned exactly when it is a revision no other names |
| `MigrationHeads.PathIsShort` | scripts/release_manifest.py:124-138 | in an acyclic graph no path is longer than the number of revisions |
| `MigrationHeads.EveryRevisionReachesAHead` | scripts/release_manifest.py:124-138 | every revision is an ancestor of some head |
| `MigrationHeads.HeadsCoverTheGraph` | scripts/release_manifest.py:124-138 | no heads exactly when no revisions, and a single head has every revision among its ancestors |
| `MigrationHeads.CycleHasNoHead` | scripts/release_manifest.py:138 | acyclicity is needed: a cycle has no head |
| `RecallSync.CadenceIs` | hermes-plugin-honcho/dialectic.py:53-56 | the effective cadence after k empties is min(c + k, 8c), monotone in k |
| `RecallSync.Provider.OnTurnStart` | hermes-plugin-honcho/__init__.py:802-806 | no recall begun before the turn is live any more |
| `RecallSync.Provider.OnSessionSwitch` | hermes-plugin-honcho/__init__.py:818-820 | nor any begun before a session switch |
| `RecallSync.Provider.ToolReasoning` | hermes-plugin-honcho/__init__.py:1050-1052 | after an explicit call no lookup is due for a whole cadence |
| `RecallSync.Provider.BeginRecall` | hermes-plugin-honcho/recall_sync.py:26-31 | with no worker alive the call is live until its deadline, and every earlier one superseded |
| `RecallSync.Provider.Decide` | hermes-plugin-honcho/recall_sync.py:38-49 | for a live call, and no other: a lookup is due exactly when min(c + k, 8c) turns have passed since the last one, k counting the empty ones since, and context exactly when its cadence has passed and the frequency allows |
| `RecallSync.Provider.CommitRecall` | hermes-plugin-honcho/recall_sync.py:99-114 | a late, failed or superseded call leaves both cadences and the streak; another moves exactly those that were due, and nothing it moved is due again for a whole cadence |
| `RecallSync.SlotKeeps` | hermes-plugin-honcho/recall_sync.py:23-29 | every step keeps the slot exclusive and a live worker known |
| `RecallSync.OneWorker` | hermes-plugin-honcho/recall_sync.py:23-29 | at most one worker is ever alive, even after its caller gave up |
| `RecallSync.CommitKeepsGap` | hermes-plugin-honcho/recall_sync.py:104-112 | a commit keeps all lookups spaced |
| `RecallSync.LookupsBackOff` | hermes-plugin-honcho/recall_sync.py:47-112 | consecutive lookups are min(c + k, 8c) turns apart at least, k counting the empty ones in a row before |
| `RecallSync.CommitsIff` | hermes-plugin-honcho/recall_sync.py:99-103 | a call goes on to commit exactly when at its join its worker had ended with a result, in time, with generation, session and turn unchanged |
| `RecallSync.OnlyTimelyCallsMoveCadences` | hermes-plugin-honcho/recall_sync.py:99-112 | in every run each change of a cadence or the streak is an explicit call's, or the commit of a call whose own join saw all that |
| `RecallSync.SupersededForGood` | hermes-plugin-honcho/__init__.py:805-820 | a call that has its generation, and whose join has not succeeded, when a turn starts or a session switches never commits, whatever follows |
| `RecallSync.UndisturbedCall` | hermes-plugin-honcho/recall_sync.py:15-114 | a call that nothing supersedes and whose worker ends in time does what the class does: exactly what is due is looked up and moves |
| `RecallSync.HooksRun` | hermes-plugin-honcho/__init__.py:802-820 | a turn, a session switch and an explicit call change what they are about, under a new generation, and leave the rest |
| `RecallSync.DecideIff` | hermes-plugin-honcho/recall_sync.py:38-50 | a worker is started exactly by a call that is live when it decides and has something due |
| `RecallSync.CallMeetsWorker` | hermes-plugin-honcho/recall_sync.py:23-29 | while a worker is alive a call changes nothing |
| `RecallSync.CallGivesUp` | hermes-plugin-honcho/recall_sync.py:96-103 | nor does one whose worker is still alive when its wait ends |

## Left out

- Network, SDK and database calls, file contents as text, `fcntl`/`msvcrt` locks, atomic writes and
  threads themselves: replies, outcomes and readable files are parameters, locks are steps.
- Real clocks: times are integers, and how long anything takes is a parameter.
- The session, its tables and the SDK caches hold identities and flags; message text, metadata,
  timestamps and the values in the observation, peer and prefetch tables are not modelled.
- The object that `session.py` shares between cache, retry list and callers is an identity in
  `SessionManager`, with its unsynced state in a field of the manager; the message list itself is
  the class of `SessionLog`.
- The async writer's own loop, which drops a batch after its second failure, and whether its thread
  exits; the reachability theorem is for the other write modes.
- `oauth.py` between threads, `recall_sync.py` between calls and the SDK caches between fetches are
  state machines on values; update in place is captured by their classes, for one thread only.
- `_reauth_check_cache`, a memo of the verdict per file time, and `_authed_call` with its notices.
- In `OAuthRefresh` a login's config merge is taken to touch the file root only, as it does when
  `GrantMerge.KeptIff` says so of the hosts; a config write as a change that
  keeps or drops each credential (`OAuthRefresh`), of which `ConfigWrites` is the detailed form.
- A plain dict passed to `_write_config`, which is written whole: every command passes what
  `_read_config` returned.
- `generate_openapi.py` walks a tree in place, and `_deep_merge` changes nested dicts in place; the
  tree is a value here, so shared subtrees and the order of keys are not captured.  Scalars are compared up to Python equality when hoisting.
- The text of drift reports, sorted name lists, and the asynchronous recall path with its pending
  result (`_spawn_dialectic`, `_consume_pending_dialectic`), where an empty run does not move the
  last lookup.
- Session initialisation inside `prefetch_sync`, which may only give up earlier, and the passes and
  prompts of a lookup.
- Row ids, the sleeps between embedding retries, and the shape of a malformed reply.
- Regular-expression filters, prompts, the wizard, argument parsing, loopback and PKCE, version and
  telemetry scripts, `src/` configuration and migrations: declarative, foreign or easy.
- SessionManager.HonchoSessionManager.FlushSession: whether the upload lands is a parameter, and the
  messages are one flag per session; the list and its upload are the class of `SessionLog`.
- OAuthTables.RefreshTables.InstallGrant: the granted config changes the file root as a whole and no
  other host's block; which paths it changes on the whole file is `GrantMerge`.
- MessageChunks.ChunkMessage: for a longer text at a limit of 12 or less only whether the loop ends is
  stated (`MessageLimits`), not its chunks.
- RecallSync.Provider.CommitRecall: how the worker ends and what the clock reads are parameters; the
  slot and the waits are steps of the state machine beside it.
