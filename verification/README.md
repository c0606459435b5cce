# A verified model of the Ferventio backend

The backend takes EventSub messages from Twitch and turns them into push deliveries for mobile devices. It also brokers
OAuth logins, keeps EventSub subscriptions and chat sessions in line with the registered devices, limits request rates
and synchronises settings. Nearly everything it does is a small protocol over tables that are changed in place. This
project models these protocols and proves what every run of them keeps.

One module per component:

- `ChatAssignment`, `ChatFairness`, `ChatSessions`: the assignment of chat channels to users, at most 100 each, whom it
  serves, and the sessions that follow it.
- `RateLimit`, `RateLimitRuns`, `RateLimitCallers`: the token buckets, over real numbers, with eviction, and what each
  caller sees of them.
- `SpecKey`, `Subscriptions`, `SubscriptionTable`, `SubscriptionReconciler`: the wanted EventSub subscriptions and their
  reconciliation with the remote set.
- `Frames`, `PushSocket`: WebSocket frames as in sections 5.2, 5.3 and 5.5 of RFC 6455.
- `SettingsSync`: the settings revisions of a user, in memory and in the database table.
- `Mentions`: the search for a mention in a chat text.
- `Delivery`, `DeliveryStore`, `Trimming`, `Flush`, `DeliveryRuns`, `DeliveryLives`, `FlushRuns`, `Acknowledgements`:
  delivery records, the store, sending, whole runs, the life of a record, and when an acknowledgement is final.
- `EventInbox`, `EventScheduling`, `Deduplication`, `Sparing`, `EventProcessing`, `EventRetention`, `EventProcessor`,
  `Notifications`: the inbox, the reservation of messages by workers, repeated messages, and the processing of one message
  through failures, amid everything else that happens to the delivery records.
- `AuthState`, `AuthPromises`, `AuthStore`, `AuthRevocation`, `LoginFlow`, `LoginsUnderWay`, `LoginPromises`,
  `LoginHandlers`, `DeviceRevocation`, `AccountRevocation`: the OAuth broker as in section 4.1 of RFC 6749, logins with `state` as in its
  section 10.12, what a login is good for, and revocation.
- `Text`, `Sorting`, `Sets`, `Wrappers`, `Durations`, `Registrations`: what the others share.

How the outside world appears: times are integers, in nanoseconds, with zero for "not set". Hashes are symbolic, equal
only for equal secrets, and a missing hash equals nothing. Random tokens are values not handed out before. A loop over a
Go map visits its entries in an arbitrary order. Network calls and storage faults are parameters. Requests that run
concurrently are interleaved steps of a transition relation; what a lock protects is one step.

Statements that look true of the code but are not have an exact condition instead: see `Mentions.ScanIsExactIff`,
`SettingsSync.RestoreAgreesIff`, `SettingsSync.TablePutFollowsLogIff`, `Subscriptions.LosesNothingIff`,
`Acknowledgements.AckedIsFinalIff`, `Sparing.SparedExactly`, `AuthRevocation.RevocationsAgree`,
`AuthRevocation.SeparateIsDetermined`, `DeviceRevocation.OthersUntouchedIff`, `DeviceRevocation.RetryFinishesIff`,
`AccountRevocation.AccountsAgree`, `ChatFairness.SoleWatcherServedIff`, `Deduplication.CreatedAgainIff` and
`AccountRevocation.RetriesAgreeIff`. The last one says what a retry of an account
revocation forgets: the registrations go first, so after a failure behind them nobody knows any more that the
installations they named had deliveries or logins under way. Two conditions are sharper than
one would expect: eviction is invisible when `(idleTTL + 1ns) * rate >= burst` and `idleTTL + 1ns` is at least a
minute, because a bucket is evicted only when it was idle for strictly longer than the limit; and the mention scan is
exact for every needle without a border that continues with a login character, not only for those without an at sign.

## Model

| member | source | states |
|---|---|---|
| `ChatAssignment.AssignIsMaximal` | internal/application/user_chat_eventsub.go:185-245 | every channel goes to at most one of its watchers, nobody holds more than 100, and a channel is left out only if all its watchers hold exactly 100 |
| `ChatAssignment.MaximalIsHalfOptimal` | internal/application/user_chat_eventsub.go:185-245 | any assignment with these properties covers at least half as many channels as any feasible one |
| `ChatAssignment.AssignIsHalfOptimal` | internal/application/user_chat_eventsub.go:185-245 | the greedy assignment covers at least half as many channels as any feasible assignment of 100 channels per user |
| `ChatAssignment.AssignIgnoresOrder` | internal/application/user_chat_eventsub.go:185-245 | the assignment depends on the set of registrations only, not on their order or on map order |
| `ChatFairness.WatcherIff` | internal/application/user_chat_eventsub.go:186-204 | a user watches a channel exactly if one of their devices names it and has the mention, reply, highlight or selected user rule for it, identifiers trimmed and blank ones ignored |
| `ChatFairness.FewestWatchersFirst` | internal/application/user_chat_eventsub.go:206-217 | channels have their turn by number of watchers, then by name |
| `ChatFairness.GivenToBest` | internal/application/user_chat_eventsub.go:218-239 | at its turn a channel goes to the watcher who holds the fewest so far, ties by name, and to nobody exactly if that one holds 100 |
| `ChatFairness.SoleWatcherServedIff` | internal/application/user_chat_eventsub.go:206-245 | a channel with a single watcher is given to that user exactly if fewer than 100 of the channels only they watch have a smaller name; channels with other watchers never take its place |
| `ChatFairness.SoleWatcherServed` | internal/application/user_chat_eventsub.go:206-245 | so it is given to them if they are the only watcher of at most 100 channels |
| `ChatSessions.CollectWatchers` | internal/application/user_chat_eventsub.go:186-204 | the loops over registrations and channels build exactly the watcher relation |
| `ChatSessions.AssignUserChatChannels` | internal/application/user_chat_eventsub.go:185-245 | the loops compute the assignment that the rows above speak of: over the watcher relation, channels with the fewest watchers first, each to the watcher with the fewest so far |
| `ChatSessions.ReconcileSessions` | internal/application/user_chat_eventsub.go:134-169 | stopping stale and starting missing sessions, in any map order, leaves the reconciled sessions and counts what was started and stopped |
| `ChatSessions.SessionCountMoves` | internal/application/user_chat_eventsub.go:134-169 | the number of sessions changes by exactly started minus stopped |
| `ChatSessions.ReconcileIsIdempotent` | internal/application/user_chat_eventsub.go:134-169 | a second reconcile to the same assignment starts and stops nothing |
| `ChatSessions.SessionsServeTheAssignment` | internal/application/user_chat_eventsub.go:247-250 | with a collision-free digest every user's session serves exactly the channels assigned |
| `ChatSessions.UserChatManager.Reconcile` | internal/application/user_chat_eventsub.go:134-169 | disabled: everything stops; enabled: the sessions become those of the current assignment, with exact counts |
| `ChatSessions.UserChatManager.StopAll` | internal/application/user_chat_eventsub.go:171-183 | no session is left and all were counted |
| `ChatSessions.ReconcileAgain` | internal/application/user_chat_eventsub.go:134-169 | reconciling again on permuted registrations starts and stops nothing |
| `RateLimit.TokensStayInRange` | internal/application/rate_limit.go:71-121 | tokens stay between zero and the burst |
| `RateLimit.RetryAfterIsExact` | internal/application/rate_limit.go:101-121 | a refused caller gets through after the time it was told and, above the one second floor, never earlier |
| `RateLimit.RateLimiter.Take` | internal/application/rate_limit.go:71-121 | one call of the limiter: decision, new bucket, and an eviction that takes idle buckets always and others only when the table is full, least recently seen first |
| `RateLimit.Cleanup` | internal/application/rate_limit.go:123-144 | the eviction loops remove idle buckets, and others only to make room for one, least recently seen first |
| `RateLimit.OldestKey` | internal/application/rate_limit.go:131-143 | the scan finds a bucket seen least recently |
| `RateLimitRuns.RunIsTrace` | internal/application/rate_limit.go:71-121 | every run of the limiter is one the bounds below speak of |
| `RateLimitRuns.TokensAlwaysInRange` | internal/application/rate_limit.go:71-121 | tokens stay between zero and the burst in every state of every run |
| `RateLimitRuns.WindowBound` | internal/application/rate_limit.go:71-121 | within a bucket's lifetime the requests allowed in any time window are at most burst plus rate times the window's length |
| `RateLimitRuns.EvictionIsInvisible` | internal/application/rate_limit.go:86-129 | if an idle bucket is full again and its last audit a minute old by the time it may go, and the key limit is not reached, the evicting limiter makes the same decisions, the audit flag included, as one that never evicts |
| `RateLimitRuns.WindowBoundAcrossEvictions` | internal/application/rate_limit.go:71-144 | under the same condition the window bound holds across evictions |
| `RateLimitCallers.SameBucketIff` | internal/application/rate_limit.go:71-85 | two requests share a bucket exactly if policy name and trimmed key are the same, all blank keys being one |
| `RateLimitCallers.CallersAreAlone` | internal/application/rate_limit.go:71-144 | below the key limit every decision is the one its caller would get alone, whatever others ask under other policies or keys |
| `RateLimitCallers.RemainingIsExact` | internal/application/rate_limit.go:86-121 | of the requests that follow at the same instant exactly as many are allowed as the decision said remain |
| `RateLimitCallers.AuditedOnceAMinute` | internal/application/rate_limit.go:108-121 | only refusals are audited, and two audited ones of a caller lie at least a minute apart |
| `RateLimitCallers.RefusalIsAudited` | internal/application/rate_limit.go:108-121 | every refusal is audited or comes less than a minute after an audited one |
| `SpecKey.BuildKey` | internal/application/eventsub_subscriptions.go:214-231 | the builder's loop writes type, version and the sorted condition pairs, separated by bars |
| `SpecKey.KeyIsInjective` | internal/application/eventsub_subscriptions.go:214-231 | without bars and equal signs in the parts, equal keys mean equal type, version and condition |
| `Subscriptions.DesiredSubscriptions` | internal/application/eventsub_subscriptions.go:122-194 | the loops over registrations and channels yield one subscription per key, in key order, all of them wanted |
| `Subscriptions.WantedIsOutlined` | internal/application/eventsub_subscriptions.go:122-194 | the type of a wanted subscription decides which entries its condition has, whatever the identifiers are |
| `Subscriptions.SameKeyIff` | internal/application/eventsub_subscriptions.go:214-231 | such subscriptions share a key exactly if they are the same, or are moderations of which one's channel is the other's channel, the text between the two identifiers, and more, and the moderators make up for it |
| `Subscriptions.ModerationWantedIff` | internal/application/eventsub_subscriptions.go:122-194 | a moderator's subscription is wanted exactly if a registration names that channel, moderates it, has the rule, and belongs to that user, identifiers trimmed |
| `SubscriptionTable.ChannelWantedIff` | internal/application/eventsub_subscriptions.go:122-194 | every other subscription is wanted exactly if it is the one of its type for a trimmed channel of a registration that the type concerns, as moderator, as broadcaster or at all, and that has one of its rules |
| `Subscriptions.DesiredLosesNothing` | internal/application/eventsub_subscriptions.go:122-194 | for users without a bar in their identifier deduplicating by key keeps exactly the wanted subscriptions |
| `Subscriptions.DesiredIgnoresOrder` | internal/application/eventsub_subscriptions.go:122-194 | and the result does not depend on the order of registrations |
| `Subscriptions.LosesNothingIff` | internal/application/eventsub_subscriptions.go:122-194 | for all registrations: nothing wanted is lost exactly if no registrations are confused, that is, no two ask, for the same type, for channel q as user y + S + u and for channel q + S + y as user u, where S is what a key has between the two identifiers |
| `Subscriptions.DesiredIgnoresOrderIff` | internal/application/eventsub_subscriptions.go:122-194 | and exactly then the set of registrations determines the list |
| `Subscriptions.BarInUserLosesOne` | internal/application/eventsub_subscriptions.go:214-231 | every pair of devices of that form, whatever the three parts, loses one of its two moderations |
| `Subscriptions.TwoDevicesLoseOne` | internal/application/eventsub_subscriptions.go:214-231 | the shortest such pair |
| `SubscriptionReconciler.DeletePhase` | internal/application/eventsub_subscriptions.go:89-108 | one usable subscription of ours per desired key is kept, the others are deleted or block their key, other callbacks' stay |
| `SubscriptionReconciler.UsableIff` | internal/application/eventsub_subscriptions.go:97 | a subscription is usable exactly if it works or is being verified |
| `SubscriptionReconciler.CreatePhase` | internal/application/eventsub_subscriptions.go:109-118 | only desired keys that are neither kept nor blocked are created |
| `SubscriptionReconciler.SweptAndGrownIsSafe` | internal/application/eventsub_subscriptions.go:75-120 | whatever calls fail, no key is created that still has a kept or undeleted subscription of ours, and other callbacks' subscriptions are untouched |
| `SubscriptionReconciler.SweptAndGrownConverges` | internal/application/eventsub_subscriptions.go:75-120 | without failures exactly one usable subscription of ours per desired key is left |
| `SubscriptionReconciler.ReconcileRemote` | internal/application/eventsub_subscriptions.go:84-120 | both, and a converged remote set is left alone with counts zero and zero |
| `SubscriptionReconciler.EventSubManager.Reconcile` | internal/application/eventsub_subscriptions.go:75-120 | the same from registrations to remote set, the disabled manager and the failed listing included |
| `SubscriptionReconciler.KeysIgnoreOrder` | internal/application/eventsub_subscriptions.go:122-194 | which keys are desired depends on the set of registrations alone, for all identifiers |
| `SubscriptionReconciler.ReconcileAgain` | internal/application/eventsub_subscriptions.go:75-120 | after a reconcile without failures, another one on permuted registrations creates and deletes nothing and reports no error, whichever of its calls would fail |
| `Frames.EncodeDecodes` | internal/application/push_socket.go:49-92 | every well-formed frame comes back from its bytes, whatever follows |
| `Frames.DecodeEncodes` | internal/application/push_socket.go:98-162 | bytes that decode are exactly the bytes of the frame they decode to |
| `Frames.MaskingTwice` | internal/application/push_socket.go:160-162 | masking twice gives the payload back |
| `Frames.WrittenDecodes` | internal/application/push_socket.go:49-92 | a written frame decodes to its opcode and payload |
| `Frames.WrittenIsShortest` | internal/application/push_socket.go:64-87 | in the shortest length form there is |
| `Frames.WrittenBytes` | internal/application/push_socket.go:64-87 | the length stands in the second byte, or as a big-endian number in the two or eight bytes after it, and the payload follows unmasked |
| `PushSocket.ReadOneIffFrame` | internal/application/push_socket.go:98-162 | the reader gets a frame exactly when the bytes begin with a masked frame within the limits |
| `PushSocket.ReaderReturnsText` | internal/application/push_socket.go:98-179 | any run of pings and pongs and then a text: the unmasked text is returned, and each ping was answered by a pong with its payload, in order |
| `PushSocket.ReaderTextMeans` | internal/application/push_socket.go:98-179 | and a text is returned only in that case |
| `PushSocket.ReaderEnds` | internal/application/push_socket.go:98-179 | after any run of pings and pongs a close or an unknown frame ends reading with its error; the pings were answered, and a close by a close with its payload |
| `PushSocket.PushSocketConnection.WriteFrame` | internal/application/push_socket.go:49-92 | appends exactly the bytes of the frame, or refuses without writing |
| `PushSocket.PushSocketConnection.ReadTextFrame` | internal/application/push_socket.go:98-179 | the byte-by-byte loop consumes, answers and returns what the specification says |
| `PushSocket.Unmask` | internal/application/push_socket.go:160-162 | the in-place loop over the buffer unmasks it |
| `SettingsSync.SettingsSyncStore.Put` | internal/storage/memory/sync_store.go:51-102 | a stale base revision is refused with the current snapshot, known content is not stored again, anything else becomes the next revision; no other user is touched |
| `SettingsSync.SettingsSyncStore.Restore` | internal/storage/memory/sync_store.go:122-163 | an unknown revision is refused, current content is left alone, other content becomes the next revision; no other user is touched |
| `SettingsSync.SettingsSyncStore.History` | internal/storage/memory/sync_store.go:104-120 | all snapshots of the user, newest first |
| `SettingsSync.MemoryIsWindowOfLog` | internal/storage/memory/sync_store.go:51-163 | after any puts and restores memory holds the last 21 entries of an unbounded log, and answers as the log does |
| `SettingsSync.TableIsWindowOfLog` | internal/storage/postgres/postgres_settings_sync.go:33-102 | so does the trimmed table, unless a restore brings back what is current or a put stores something other than JSON |
| `SettingsSync.TablePutFollowsLogIff` | internal/storage/postgres/postgres_settings_sync.go:33-102 | both stores agree on a put exactly if its payload is JSON or is not stored at all, being refused or known already |
| `SettingsSync.NotJsonIsKept` | internal/storage/postgres/postgres_settings_sync.go:33-102 | such a put: the memory store keeps it and the table refuses it; the handler lets only JSON through |
| `SettingsSync.InsertAndTrim` | internal/storage/postgres/postgres_settings_sync.go:81-97 | inserting a row and the trim statement leave the window of the longer log |
| `SettingsSync.RestoreAgreesIff` | internal/storage/postgres/postgres_settings_sync.go:134-195 | both stores agree on a restore exactly if its content differs from the current one |
| `SettingsSync.RestoredAsNew` | internal/storage/postgres/postgres_settings_sync.go:134-195 | such a restore: the memory store answers with revision one, the table with revision two |
| `SettingsSync.LogAfterIsContiguous` | internal/storage/memory/sync_store.go:51-102 | revisions count without gaps |
| `SettingsSync.HistoryIsWindow` | internal/storage/memory/sync_store.go:104-120 | the history shown is the window, gapless and newest first |
| `SettingsSync.OneWinnerPerBase` | internal/storage/memory/sync_store.go:51-102 | at most one put per base revision, not forced, creates the next revision |
| `Mentions.ContainsMention` | internal/application/eventsub.go:558-577 | the loop over offsets terminates and computes the scan |
| `Mentions.ScanIsSound` | internal/application/eventsub.go:558-577 | a reported mention is one: an occurrence followed by the end or a character no login has |
| `Mentions.LoginCharacters` | internal/application/eventsub.go:579-581 | the characters a login has are the small letters, the digits and the underscore |
| `Mentions.ScanIsExactIff` | internal/application/eventsub.go:558-577 | the skipping scan finds every mention in every text exactly if no border of the needle continues with a login character |
| `Mentions.SingleAtHasNoLoginBorder` | internal/application/eventsub.go:558-581 | a login without the at sign meets this condition |
| `Mentions.LoginWithAtIsMissed` | internal/application/eventsub.go:558-581 | a login with one may not |
| `Delivery.BackoffsAgree` | internal/storage/postgres/postgres_delivery.go:174-198 | the SQL backoff equals the memory backoff exactly for up to thirty earlier attempts; beyond, its cast fails |
| `Delivery.SweepKeeps` | internal/storage/memory/delivery_store.go:460-472 | clean-up removes nothing that is still due |
| `DeliveryLives.KeptForAWeek` | internal/storage/memory/delivery_store.go:460-472 | clean-up gives up what has expired unacknowledged, and removes an acknowledged record exactly seven days after the acknowledgement, a dead one exactly seven days after its creation |
| `DeliveryLives.AckedIsKept` | internal/storage/memory/delivery_store.go:182-199 | so an acknowledged record is kept for seven days from then |
| `Delivery.TrimKeeps` | internal/storage/memory/delivery_store.go:533-550 | neither does the capacity trim |
| `DeliveryStore.EnqueueKeeps` | internal/storage/memory/delivery_store.go:31-64 | one record per device and event and the limit are kept, nothing due is lost, and after success the key is there |
| `DeliveryStore.DeliveryStore.Enqueue` | internal/storage/memory/delivery_store.go:31-64 | an existing record is returned, missing fields and a full queue are refused, otherwise the record is stored |
| `DeliveryStore.DeliveryStore.Cleanup` | internal/storage/memory/delivery_store.go:460-490 | exactly the swept table; trimming is never needed in a valid store |
| `DeliveryStore.DeliveryStore.MarkSent` | internal/storage/memory/delivery_store.go:122-136 | exactly that record changes, whatever its status |
| `DeliveryStore.DeliveryStore.MarkFailed` | internal/storage/memory/delivery_store.go:138-155 | exactly that record counts one more attempt, with the consequences of the next two rows |
| `DeliveryLives.DiesAtEighth` | internal/storage/memory/delivery_store.go:122-155 | whatever sends and failures a record goes through before it expires, it dies exactly of a failure from the eighth attempt on; otherwise it is due again exactly after 1, 2, 4, up to 64 seconds and until it expires |
| `DeliveryLives.GivenUpOnlyThen` | internal/storage/memory/delivery_store.go:138-155 | in every run the attempts are counted, and a record is given up only after eight of them or when it has expired |
| `DeliveryStore.DeliveryStore.Ack` | internal/storage/memory/delivery_store.go:182-199 | exactly the records of device and event are acknowledged |
| `DeliveryStore.DeliveryStore.AckThrough` | internal/storage/memory/delivery_store.go:157-180 | exactly the device's records up to the named one |
| `DeliveryLives.AckReachesOne` | internal/storage/memory/delivery_store.go:182-199 | after an acknowledgement exactly the record of that device and event is never due again |
| `DeliveryLives.AckReachesEarlier` | internal/storage/memory/delivery_store.go:157-180 | after an acknowledgement through a record, it and all that a flush sends before it are never due again; later records and other devices' stay as they are |
| `DeliveryStore.DeliveryStore.DeleteForInstallation` | internal/storage/memory/delivery_store.go:202-216 | exactly the device's records go, and are counted |
| `DeliveryStore.TrimCompleted` | internal/storage/memory/delivery_store.go:533-550 | only completed records go, oldest first, no more than needed |
| `DeliveryStore.SweepRecords` | internal/storage/memory/delivery_store.go:461-472 | the deleting loop in any map order |
| `Trimming.TrimOldest` | internal/storage/memory/delivery_store.go:506-550 | both trims: candidates only, oldest first, down to the limit and no further |
| `Flush.PendingIsOrdered` | internal/storage/memory/delivery_store.go:94-120 | the due records by creation time and identifier, at most the limit |
| `Flush.PendingLeavesOutLast` | internal/storage/memory/delivery_store.go:94-120 | a due record is left out only if the batch is full of earlier ones |
| `DeliveryLives.DueFromTheStart` | internal/storage/memory/delivery_store.go:31-64 | a stored record is due from when it is available until it expires, at once and for a day unless told otherwise, and never once acknowledged or dead |
| `DeliveryLives.DueIsNext` | internal/storage/memory/delivery_store.go:94-120 | a due record is in its device's next batch, or the batch is full of earlier ones |
| `Flush.FlushSettlesPrefix` | internal/application/push_socket.go:482-546 | exactly the sends up to the first failure count: successes are marked or acknowledged, at most one failure is charged, the rest is unchanged |
| `DeliveryLives.DeliveredMeans` | internal/application/push_socket.go:482-546 | what went over a socket is due again after the pause until it is acknowledged, what went any other way is never due again, and without a connection a socket's record stays as it is |
| `Flush.FlushPending` | internal/application/push_socket.go:482-546 | the loop of store calls leaves exactly the flushed records; without a registration nothing happens |
| `DeliveryRuns.AtMostEightFailures` | internal/application/push_socket.go:482-546 | over every interleaving of flushes, acknowledgements, clean-ups and revocations a record is charged at most eight failures, and every state is valid |
| `DeliveryRuns.StepKeepsLive` | internal/storage/memory/delivery_store.go:202-216 | no step but the revocation of its device removes a record that is due |
| `DeliveryRuns.DueRecordsSurvive` | internal/storage/memory/delivery_store.go:460-490 | a record stays for as long as it is due |
| `DeliveryLives.UnsettledStays` | internal/application/push_socket.go:482-546 | a record that has not expired changes only by an attempt to send it, an acknowledgement or the revocation of its device |
| `FlushRuns.FlushIsRun` | internal/application/push_socket.go:482-546 | a flush is a run of the single steps that runs interleave, its sends at any times one after the other |
| `Acknowledgements.AckedIsFinalIff` | internal/application/push_socket.go:482-546 | from every reachable state: an acknowledged record stays acknowledged in all continuations, for as long as it is there, exactly if no running flush still has it to send |
| `Acknowledgements.AcknowledgedTooEarly` | internal/application/push_socket.go:482-546 | a run to a state where it does not: the client acknowledges a record that a flush has read but not yet sent |
| `Registrations.MutesOnlyEnd` | internal/application/eventsub.go:548-556 | with fixed registrations a mute only ever ends |
| `Registrations.MutedUntilThen` | internal/application/eventsub.go:548-556 | a channel is muted until the very millisecond named |
| `Registrations.ChannelRulesReplace` | internal/application/eventsub.go:534-546 | rules kept for a channel are all that counts for it and count for no other; without them the general list decides, an empty one allowing everything |
| `Sparing.SparedExactly` | internal/storage/memory/delivery_store.go:31-64 | enqueueing any record keeps the records of an event, in every outcome, exactly if they are within retention and, where room is needed, an older completed record of another event goes first |
| `Sparing.UnsparedIsLost` | internal/storage/memory/delivery_store.go:54-59 | otherwise some outcome loses one of them |
| `EventProcessing.EnvironmentSpares` | internal/storage/memory/delivery_store.go:31-216 | flushes, acknowledgements, clean-ups, other messages and revocations of other devices leave the message's records in place as long as what they enqueue or clean up spares them |
| `EventProcessing.ReachableIsSound` | internal/application/eventsub.go:242-339 | the invariant behind it, in every state of every run of attempts amid the other steps of the delivery store |
| `EventProcessing.ExactlyOnce` | internal/application/eventsub.go:242-339 | through any partial failures and repetitions, amid flushes, acknowledgements, clean-ups and other messages that spare its records: no device gets a second record, the channel state changes only with a success, and from then on exactly the matching devices have one |
| `Notifications.AnnouncedInTime` | internal/application/delivery_dispatch.go:10-64 | in every run: a record that a message creates stays due until it expires, half an hour later at the earliest, as long as nothing settles it, so every flush of the device takes it up unless full of earlier ones |
| `Notifications.CreatedIsDue` | internal/application/delivery_dispatch.go:29-49 | it is due for its device at the moment it is created |
| `Notifications.CreatedIsWanted` | internal/application/eventsub.go:294-318 | and only a device that the message concerns and that has not muted the channel at that moment gets one |
| `Notifications.ChangeMeans` | internal/storage/memory/delivery_store.go:398-437 | an update of a channel announces a title or a game exactly if one is stored and differs, and replaces what is stored |
| `EventProcessor.LifetimeByType` | internal/application/delivery_dispatch.go:71-80 | notifications live for half an hour if they are about a title or a game, two hours if about a stream going live, and a day otherwise |
| `EventRetention.WeekIsARun` | internal/storage/memory/delivery_store.go:460-472 | within seven days of the first attempt retention need not be assumed: every run that leaves room in the store, and starts with no acknowledgement of an earlier send under way, is one of these |
| `EventRetention.CreatedTwice` | internal/storage/memory/delivery_store.go:460-472 | a repetition after more than seven days does create a second record for a device |
| `EventProcessor.DeliverToRegistration` | internal/application/delivery_dispatch.go:10-64 | enqueue a record that is due at once, or reuse the one there, then flush, which leaves the message's set of records alone |
| `EventProcessor.EventProcessor.ProcessNotification` | internal/application/eventsub.go:242-339 | every execution is a run of the attempt's steps; without success the channel state is unchanged |
| `EventInbox.EventInbox.EnqueueEventSub` | internal/storage/memory/delivery_store.go:218-256 | a message enters unless handled within a day, there already, or without room, as the next rows make exact; dead letters make way, oldest first |
| `Deduplication.TurnedAway` | internal/storage/memory/delivery_store.go:218-256 | a message handled within the last day is turned away and changes nothing |
| `Deduplication.TakenIn` | internal/storage/memory/delivery_store.go:218-256 | any other that is not waiting is taken in if there is room, due at once and for a day |
| `Deduplication.WaitingIsTold` | internal/storage/memory/delivery_store.go:218-256 | a message that is waiting already is answered with its entry and changes nothing |
| `Deduplication.CreatedAgainIff` | internal/storage/memory/delivery_store.go:218-328 | over every interleaving: a message that comes again is taken in again exactly if more than a day has passed since it was last handled, or a full list gave it up as an oldest entry |
| `EventInbox.EventInbox.CompleteEventSub` | internal/storage/memory/delivery_store.go:305-328 | the message moves from the inbox to the handled ones; repeating it is harmless |
| `Deduplication.CompletedAgain` | internal/storage/memory/delivery_store.go:305-328 | completion succeeds exactly for a message that waits or was handled; then it is handled, and completing it again succeeds and changes nothing |
| `EventInbox.DiesAtEighth` | internal/storage/memory/delivery_store.go:330-350 | however a message fails while it has not expired, it dies exactly with the eighth failure, and after each earlier one it is due when the delay of that attempt is over |
| `EventInbox.RetryStartsOver` | internal/storage/memory/delivery_store.go:352-366 | a retried message, whatever became of it, is due at once and has a day and eight attempts again |
| `EventInbox.EventInbox.Cleanup` | internal/storage/memory/delivery_store.go:473-489 | expired messages die, old dead letters and old handled messages go |
| `EventInbox.DeadLettersAreKept` | internal/storage/memory/delivery_store.go:473-489 | what waits and has not expired stays; anything else is a dead letter, and goes exactly seven days after it was received |
| `EventInbox.AddSeen` | internal/storage/memory/delivery_store.go:492-504 | a full list gives up an oldest entry |
| `EventInbox.ReceiveKeeps` | internal/storage/memory/delivery_store.go:218-256 | limits are kept, only dead letters are lost, and an accepted message is there |
| `EventScheduling.HeldOnce` | internal/application/eventsub.go:200-240 | in every interleaving a message is reserved exactly while it is being scheduled, queued or processed, in one place only; the queue keeps its limit and no two workers have the same message |
| `EventScheduling.NoMessageIsLost` | internal/storage/memory/delivery_store.go:218-350 | a message taken in is in the inbox, or was processed without error, or died after eight failures or a whole day since it was received or last retried |
| `EventScheduling.DeadLettersAreSpent` | internal/storage/memory/delivery_store.go:330-350 | and for the same two reasons only a message becomes a dead letter |
| `EventScheduling.StepKeepsDurable` | internal/storage/memory/delivery_store.go:305-328 | a waiting message leaves the inbox only after it was processed without error |
| `EventScheduling.ProcessedAgain` | internal/application/eventsub.go:214-240 | the reservation goes before completion is recorded, so a processed message can be taken up again |
| `EventScheduling.EventScheduler.ReserveEventSub` | internal/application/server.go:706-714 | granted exactly if nobody has it |
| `EventScheduling.EventScheduler.ScheduleEventSub` | internal/application/eventsub.go:200-212 | queued exactly if waiting, not reserved, and with room; otherwise nothing is left behind |
| `EventScheduling.EventScheduler.FinishEventSub` | internal/application/eventsub.go:214-240 | the reservation goes first, then the result is recorded |
| `AuthState.PutPendingKeeps` | internal/storage/memory/auth_store.go:48-62 | one login under way per device, limits, credentials exactly those in use |
| `AuthState.ConsumePendingKeeps` | internal/storage/memory/auth_store.go:77-93 | the invariant is kept |
| `AuthState.PutHandoffKeeps` | internal/storage/memory/auth_store.go:95-114 | one handoff per device, limits also on overflow, credentials exactly those in use |
| `AuthState.ConsumeHandoffKeeps` | internal/storage/memory/auth_store.go:116-140 | the invariant is kept |
| `AuthState.PutBothKeeps` | internal/storage/memory/auth_store.go:151-181 | the invariant is kept; unless the two do not match, exactly the credentials in use are stored |
| `AuthState.CreateSessionKeeps` | internal/storage/memory/auth_store.go:274-313 | one session per installation, limits, every session backed by a credential, and after success exactly the credentials in use |
| `AuthState.ResolveSessionKeeps` | internal/storage/memory/auth_store.go:315-343 | the invariant is kept, expiry and renewal included |
| `AuthState.DeleteSessionKeeps` | internal/storage/memory/auth_store.go:366-382 | the invariant is kept |
| `AuthState.CleanUpTidies` | internal/storage/memory/auth_store.go:672-693 | after a clean-up exactly the credentials in use are stored |
| `AuthPromises.PendingComesBack` | internal/storage/memory/auth_store.go:48-93 | a login state that was accepted comes back with its record until it expires, then as expired, and only once |
| `AuthPromises.HandoffComesBack` | internal/storage/memory/auth_store.go:95-140 | a handoff is given to its device presenting its state, until it expires and only once; other devices and states are refused and do not use it up |
| `AuthPromises.CreatedIff` | internal/storage/memory/auth_store.go:274-313 | a session is created exactly if the credential is stored, no other device has an unexpired session of the installation, and unexpired sessions of others leave room |
| `AuthPromises.CreatedResolves` | internal/storage/memory/auth_store.go:274-343 | a created session resolves for its device, with that credential, until exactly the time that was answered |
| `AuthPromises.OthersAreRefused` | internal/storage/memory/auth_store.go:315-382 | another device, or a caller without a hash, can neither resolve nor end it |
| `AuthPromises.RenewalKeepsHalf` | internal/storage/memory/auth_store.go:315-343 | resolving never shortens a session, leaves at least half of the renewal time, and renews only what has less left |
| `AuthPromises.LoggedOut` | internal/storage/memory/auth_store.go:366-382 | after a logout the token is worth nothing, and its credential is there exactly if something else uses it |
| `AuthStore.Cleanup` | internal/storage/memory/auth_store.go:672-693 | the deleting loops in any map order |
| `AuthStore.CredentialInUse` | internal/storage/memory/auth_store.go:616-628 | whether a session or handoff points at the credential |
| `AuthStore.AuthStore.PutPending` | internal/storage/memory/auth_store.go:48-62 | the device's earlier login is replaced, a full table refuses, and the invariant holds with exactly the credentials in use |
| `AuthStore.AuthStore.ConsumePending` | internal/storage/memory/auth_store.go:77-93 | gone whatever the answer; expired ones are refused |
| `AuthStore.AuthStore.PutHandoff` | internal/storage/memory/auth_store.go:95-114 | the device's earlier handoff is replaced, an overflow takes the new one back out, and the invariant holds, for a stored credential |
| `AuthStore.AuthStore.ConsumeHandoff` | internal/storage/memory/auth_store.go:116-140 | gone only when expired or granted; device and state are checked |
| `AuthStore.AuthStore.PutCredentialAndHandoff` | internal/storage/memory/auth_store.go:151-181 | both or, if they do not match, neither |
| `AuthStore.AuthStore.CreateSession` | internal/storage/memory/auth_store.go:274-313 | another device's live session is not replaced, this device's is; `AuthPromises.CreatedResolves` says what the session is good for |
| `AuthStore.AuthStore.ResolveSession` | internal/storage/memory/auth_store.go:315-343 | expired sessions go with a credential nobody else uses; others may be renewed |
| `AuthStore.AuthStore.DeleteSession` | internal/storage/memory/auth_store.go:366-382 | the session goes with a credential nobody else uses |
| `AuthStore.AuthStore.DeleteCredentialIfUnused` | internal/storage/memory/auth_store.go:603-614 | gone exactly if nothing uses it |
| `AuthStore.AuthStore.RevokeInstallation` | internal/storage/memory/auth_store.go:427-474 | tables are cleared one after the other until a foreign record turns up; other installations keep theirs |
| `AuthStore.AuthStore.RevokeAccount` | internal/storage/memory/auth_store.go:535-598 | the loops of the account revocation, in any map order |
| `AuthStore.RevokeHandoffs` | internal/storage/memory/auth_store.go:565-574 | the pass that adds installations while it goes |
| `AuthStore.TrimmedIff` | internal/storage/memory/auth_store.go:548-553 | the further installations named for an account are taken without surrounding white space, blank ones not at all |
| `AuthRevocation.RevokeKeeps` | internal/storage/memory/auth_store.go:427-474 | the invariant holds after any outcome, and after success the device is gone and credentials are exactly those in use |
| `AuthRevocation.RevocationsAgree` | internal/storage/postgres/postgres_auth.go:497-558 | memory does what the check-first statements do, in every map order, if nothing foreign is stored and there is something to remove or nothing unused, or if the first table with records of the installation has foreign ones only |
| `AuthRevocation.RevocationsDisagree` | internal/storage/memory/auth_store.go:433-463 | and otherwise some order gives another state |
| `AuthRevocation.RefusedButRemoved` | internal/storage/memory/auth_store.go:433-463 | a concrete case: the request is refused and the session is gone |
| `AuthRevocation.AccountRevoked` | internal/storage/memory/auth_store.go:535-598 | in every order the account's sessions, handoffs and credentials are gone, other accounts' sessions stay, and credentials are exactly those in use |
| `AuthRevocation.SeparateIsDetermined` | internal/storage/memory/auth_store.go:565-574 | the result does not depend on map order if no other account's handoff is on an installation known only from a handoff of this account |
| `AuthRevocation.MixedDependsOnOrder` | internal/storage/memory/auth_store.go:565-574 | and otherwise two orders leave different handoffs |
| `AuthRevocation.TwoHandoffsDepend` | internal/storage/memory/auth_store.go:565-574 | a valid store with two handoffs where they do |
| `LoginFlow.ReachableIsSound` | internal/storage/memory/auth_store.go:48-343 | in every state of every interleaving the store's invariant holds and every record has a history |
| `LoginFlow.LoginsGoBack` | internal/application/auth_handlers.go:53-232 | a created session goes back to exactly one consumed handoff and one consumed login state, for the same installation and device hash, and the state presented is that state |
| `LoginFlow.SessionsGoBack` | internal/application/auth_handlers.go:176-232 | sessions come from completions only |
| `LoginFlow.AcceptedOnce` | internal/storage/memory/auth_store.go:77-140 | no login state and no handoff code is accepted twice |
| `LoginFlow.SessionsEndByOwner` | internal/storage/memory/auth_store.go:274-474 | a session that has not expired ends only at the hands of its own device, or with its account |
| `LoginsUnderWay.StartedComesBack` | internal/application/auth_handlers.go:53-174 | in every run a login that comes back with its state before it expires is taken up with its own record, unless its device started another or was revoked, or the account was |
| `LoginsUnderWay.HandedOffComesBack` | internal/application/auth_handlers.go:125-232 | in every run a handoff that its device presents with the login's state before it expires is granted with the login's credential, unless the device has taken it, got another or was revoked, or the account was |
| `LoginPromises.StoredResolves` | internal/storage/memory/auth_store.go:274-474 | in every run a stored session resolves for its device until it expires, renewals counted, unless its own device or the end of its account has ended it, and not after |
| `LoginPromises.SessionResolves` | internal/application/auth_handlers.go:176-232 | so a completed login keeps its promise: the handoff's credential for the whole lifetime answered |
| `LoginHandlers.StartMobileAuth` | internal/application/auth_handlers.go:53-102 | an execution is the step that starts a login |
| `LoginHandlers.TwitchOAuthCallback` | internal/application/auth_handlers.go:125-174 | an execution is a consumed login state followed by a handoff or nothing |
| `LoginHandlers.CompleteMobileAuth` | internal/application/auth_handlers.go:176-232 | an execution is a consumed handoff followed by a session or nothing; after a failure the handoff's credential goes if nothing uses it, and nothing else |
| `DeviceRevocation.AttemptKeeps` | internal/application/auth_handlers.go:276-361 | an attempt with a live session, whatever else is stored for the installation, achieves everything, or it reports an error, keeps the session alive and leaves the same to achieve |
| `DeviceRevocation.RetriesReachSuccess` | internal/application/auth_handlers.go:334-361 | any number of attempts that fail anywhere, each with the session alive in the state it meets until one succeeds, one of them without faults, leave what a first attempt without faults leaves, up to how long the session lasts, and exactly that if nothing foreign is stored |
| `DeviceRevocation.FailureKeepsSession` | internal/application/auth_handlers.go:334-361 | whenever a device with a live session gets an error, the session lives on for at least as long |
| `DeviceRevocation.RepeatAfterSuccess` | internal/application/auth_handlers.go:288-331 | a request that comes again after a success changes nothing |
| `DeviceRevocation.OthersUntouchedIff` | internal/application/auth_handlers.go:276-361 | for every request and every pattern of faults: nothing of other installations changes exactly if the token is not that of an expired session of another installation |
| `DeviceRevocation.OthersUntouched` | internal/application/auth_handlers.go:276-361 | in particular a device with a live session never touches another installation |
| `DeviceRevocation.StrangersSessionGoes` | internal/storage/memory/auth_store.go:315-343 | a valid store where it does: a stranger presents the token of an expired session and it goes |
| `DeviceRevocation.WrongSecretChangesNothing` | internal/application/auth_handlers.go:296-331 | a request without a session and with no secret, or one other than the registered one, changes nothing, whatever fails |
| `DeviceRevocation.RightSecretRemoves` | internal/application/auth_handlers.go:296-331 | with the registered secret, stored hashed or plain, and no authentication record of the installation, the registration and its deliveries go, and nothing else |
| `DeviceRevocation.CredentialsStay` | internal/storage/postgres/postgres_auth.go:497-558 | the credentials that remaining sessions and handoffs need stay, with the same contents |
| `DeviceRevocation.RetryFinishesIff` | internal/application/auth_handlers.go:308-331 | once the registration is gone, a retry finishes exactly if the session is still alive or nothing was left to do |
| `DeviceRevocation.DeliveryStays` | internal/application/auth_handlers.go:308-331 | a valid store where it does not: the answer is a success and the deliveries stay |
| `DeviceRevocation.DeviceServer.RevokeMobileDevice` | internal/application/auth_handlers.go:276-361 | the handler's steps, with all answers |
| `AccountRevocation.RowsRevoked` | internal/storage/postgres/postgres_auth.go:615-714 | the database's account revocation keeps the invariant, ends exactly the account's sessions, and leaves exactly the credentials in use, none of them the account's |
| `AccountRevocation.AccountsAgree` | internal/storage/postgres/postgres_auth.go:615-714 | the memory store does the same, in every map order, if what both stores know of decides alike about every login under way and every handoff of another account |
| `AccountRevocation.AccountsDisagree` | internal/storage/memory/auth_store.go:565-580 | and otherwise some order gives another state |
| `AccountRevocation.LoginKeptByDatabase` | internal/storage/memory/auth_store.go:565-580 | a valid store where they differ: memory drops a login under way that the database keeps |
| `AccountRevocation.AttemptOnAccount` | internal/application/auth_handlers.go:375-515 | an attempt achieves everything, or it reports an error and all authentication records stay, the caller's session included |
| `AccountRevocation.AttemptsRevokeAccount` | internal/application/auth_handlers.go:375-515 | however attempts fail, after one without faults the account has no credential, session, handoff or registration left, nor has the caller's installation |
| `AccountRevocation.RepeatAfterAccount` | internal/application/auth_handlers.go:386-421 | a request that comes again after a success changes nothing |
| `AccountRevocation.AccountOfSession` | internal/application/auth_handlers.go:375-421 | a session speaks for its account exactly in the hands of its own device and while its credential is stored |
| `AccountRevocation.StrangersChangeNothing` | internal/application/auth_handlers.go:386-421 | a request without a session of the account, and with no secret or a wrong one, changes nothing whatever fails, nor does one with another device's token |
| `AccountRevocation.SecretRevokesAccount` | internal/application/auth_handlers.go:386-421 | with the registered secret, and nothing stored by the broker for the installation, the account of the registration goes with all its registrations; without an account nothing does |
| `AccountRevocation.InstallationsGone` | internal/application/auth_handlers.go:440-515 | after a success no registration of the account is left, white space around its identifier or not, and no delivery for their installations |
| `AccountRevocation.RemovedIff` | internal/storage/memory/store.go:119-146 | a registration goes exactly if it is the account's or its installation is named, white space around the names apart |
| `AccountRevocation.RetriesAgreeIff` | internal/application/auth_handlers.go:440-494 | attempts that fail anywhere, one of them without faults, leave what a first attempt without faults leaves exactly if no delivery, login or handoff belongs to an installation that only the registrations name |
| `AccountRevocation.DeliveryForgotten` | internal/application/auth_handlers.go:465-483 | a concrete case: the deliveries of a second installation outlive a failure and the retry |
| `AccountRevocation.SessionEndsIff` | internal/storage/postgres/postgres_auth.go:615-714 | a success ends the caller's session exactly if the account's identifier has no surrounding white space |
| `AccountRevocation.AccountServer.DeleteForAccount` | internal/storage/memory/store.go:119-146 | exactly the registrations of the account or of a named installation go, in any map order |
| `AccountRevocation.AccountServer.DeleteDeliveries` | internal/application/auth_handlers.go:476-483 | installation by installation, in any order, until one fails |
| `AccountRevocation.AccountServer.RevokeAllMobileSessions` | internal/application/auth_handlers.go:375-515 | the handler's steps, with all answers |

## Left out

- HTTP routing, JSON, templates, logging and the audit log: no state that later behaviour depends on.
- The Twitch, APNs, FCM and Web Push clients and the refresh of OAuth tokens: only whether they succeed appears.
- Encryption of stored tokens, SHA-256, HMAC signatures and random numbers: symbolic hashes and new values instead.
- Transactions, migrations and connections of the database: the statements modelled are atomic changes of tables.
- Configuration, URL and address checks, the badge cache, registration upsert and its validation, the legacy import.
- The text of notifications and the routing of each event type: any rule for whom an event concerns is allowed, apart from mutes.
- Wall-clock deadlines, tickers and heartbeats: replaced by steps that let time pass.
- The hub of socket connections, partial writes and the closing of sockets by another goroutine; a write succeeds completely or not at all.
- Chat session connections, their reconnects and backoff, and the subscriptions made on them.
- The HTTP handler for logout, whose store operation is modelled, and the calls that revoke tokens at Twitch, whose failures are ignored.
- `AccountRevocation` and `DeviceRevocation` follow the database's stores, whose calls fail without effect; the calls of a memory store do not fail.
- Where user identifiers come from: they are those of the Twitch credential, so a `|` in one, which `Subscriptions.LosesNothingIff` turns on, would have to be issued by Twitch.
- EventProcessor.DeliverToRegistration: the flush after an enqueue takes no time; `FlushRuns.FlushIsRun` has the sends at different times.
- The `jsonb` column of the settings table normalises a payload's text; the model keeps it as it came.
- Several server processes on one database: reservations and locks are those of one process.
- The default status of a record enqueued without one, and the update time of a channel's state, which nothing reads.
- DeliveryRuns.DueRecordsSurvive: speaks of records that are due at every state in between; a record acknowledged meanwhile may be trimmed.
- EventProcessing.ExactlyOnce: speaks of runs in which the calls of this and other messages spare its records, which `Sparing.SparedExactly` makes exact, clean-up finds them within retention, which `EventRetention.WeekIsARun` discharges for a week, and no device that is told is revoked meanwhile.
- RateLimitRuns.EvictionIsInvisible: requires that the limit on keys is not reached; beyond it least recently seen buckets go and their callers start afresh.
- LoginFlow.LoginsGoBack: a statement of safety; that logins get through is stated step by step in `LoginsUnderWay` and `LoginPromises`, since a credential may be cleaned up between the consumed handoff and the session, and the login then fails.
