# Verified model of the API caches, logins and the proxy's exit

This project models the parts of the repository whose correctness depends on the order in which
several clients touch shared state, and proves what each of them is meant to guarantee.

- **The generation-versioned read cache** (`Generations`, `StatisticsCache`, `StatisticsReadCaches`).
  Readers cache answers under a counter value they read before querying; a purge increments the
  counter, which expires seven days after its first increment. `Generations` is a state machine of
  one profile in which every event is one atomic store command; `StatisticsCache` carries it out on
  string keys of a Redis keyspace shared by any number of profiles, so each theorem about the
  machine is a theorem about the keys; `StatisticsReadCaches` holds the methods of the code.
- **The mirror of profile settings** (`ProfileSettings`, `CustomRules`, `RuleConcurrency`,
  `BreakingOff`, `SettingsMirror`, `MirrorHistory`, `StoredContents`, `ProfileDeletion`, `OverlappingUpdates`,
  `OverlappingLists`, `RuleOperations`, `OverlappingRules`, `Cache`). Pipelines are sequences of commands with an interpreter, so a reader
  between two commands, a connection that breaks and two interleaved pipelines are prefixes and
  merges of sequences. `Cache.RedisCache` holds the client's methods; their argument `Link` says
  how many commands still reach the server and how many replies come back, so a command may take
  effect and yet be reported as failed.
- **The session limit** (`Sessions`, `LoginRaces`, `StoredSessions`, `LoginLimits`): the two logins as
  methods on one store, and as a state machine of any number of interleaved logins.
- **Ceremonies, JSON pointers and shutdown** (`Ceremonies`, `JsonPointer`, `Shutdown`).

`Redis` is the command interpreter and clock, `Keys` and `Text` the key builders and decimals,
`Wrappers` the usual option and result types. `dafny verify dfyconfig.toml` checks everything.
Automatic induction is off for every lemma: a proof is its body.

## What was found

- The comment at `api/cache/generation.go:12-15` says that a reused generation is safe once all
  entries written under 0 have expired. That is enough for 0 only (`ZeroReuseIsSafe`). Generation 1
  is reused as well: an answer cached under 1 in the last instant of a counter's life is current
  again after the first purge of the next life (`OneReuseIsStale`). Over all runs the protocol is
  safe exactly when D + R <= G and D + R <= S + 1 (`AlwaysSafeIff`), where D is the longest time
  between a reader's generation read and its write, R the life of an answer, G that of a counter
  and S the least time between a counter's expiry and the next purge. Nothing in the code
  establishes the second condition (`DeployedTimes`). The promise at
  `api/cache/statistics_read_cache.go:55-56` that cached answers are never read again is thus
  kept within one counter life, or under that condition; what is always kept is the bound on
  staleness (`BoundedStaleness`).
- A rule added while its profile's settings are rewritten survives exactly when its SADD had not
  run at the moment the rewrite listed the set (`AddSurvivesIff`); a complete add just before the
  listing, of a rule the rewrite does not know, is removed.
- Pipelines that break off keep half of the agreement between the rule set and the rule hashes;
  `BreakingOff` says exactly when they keep the other half. A profile whose add or update broke off
  can be deleted completely exactly when no new rule was written before its SADD and no stale
  rule was left between its SREM and its DEL (`BrokenAddLeaksIff`, `BrokenUpdateLeaksIff`).
- Two operations on one profile whose commands interleave can leave a listed rule without its hash
  exactly when one writes a rule that the other drops (`PairsKeepNoDanglingIff`), and can leave a rule
  hash unlisted exactly when one writes a rule that the other removes, or any rule beside a deletion
  of the profile (`PairsKeepNoOrphanIff`). Two updates therefore never leave a hash unlisted, and
  keep every listed rule's hash if and only if they want the same of the rules listed
  (`UpdatesAgreeIff`).
- Two overlapping updates can end with a list that neither caller wrote, unless the two lists hold at
  most one id in all (`UpdatesNeverMixIff`).
- The session limit is exceeded by overlapping password logins: with M of them between check and
  save, max(1, limit - 1) + M is the exact maximum (`BoundIsExact`). Stored sessions as such are
  bounded only together with the passkey logins under way and the sessions that failed ones left
  behind (`StoredBoundIsExact`, `RunBoundIsExact`).
- The shutdown body runs once even when it panics: the deferred call that follows then returns
  with the database still connected, and with the collectors not told to quit if the panic came
  at that statement or before (`ReturnedCallIff`, `DeferredReturnsUndone`).

## Model

| member | source | states |
|---|---|---|
| Generations.InvStep | api/cache/generation.go:17-42 | Every command of readers and purges keeps the invariant that ties each live answer's generation, within its counter life, to the number of purges its data was queried after |
| Generations.SafeWithinLife | api/cache/generation.go:17-24 | In every run in which no counter has expired, no lookup returns data queried before a purge that preceded the reader's generation read, for all delays, any number of readers and purges, and failed EXPIREs |
| Generations.OnlyEarlierLivesAreStale | api/cache/statistics_read_cache.go:55-59 | Without any timing hypothesis a stale answer can only come from an earlier life of the counter |
| Generations.ZeroReuseIsSafe | api/cache/generation.go:12-15 | With D + R <= G the reuse of generation 0 never serves a stale answer, over any number of counter lives |
| Generations.ZeroReuseIsStale | api/cache/generation.go:12-15 | With D + R > G a run exists that serves one |
| Generations.SpacedIsSafe | api/cache/generation.go:12-42 | With D + R <= G and D + R <= S + 1 every state the invariants admit is safe, across lives |
| Generations.OneReuseIsStale | api/cache/redis.go:51-72 | When a new life may begin sooner, a run exists in which generation 1 is current again while an answer of the previous life is live |
| Generations.AlwaysSafeIff | api/cache/generation.go:12-42 | The protocol is safe over all runs if and only if D + R <= G and D + R <= S + 1 |
| Generations.DeployedTimes | api/cache/statistics_read_cache.go:12-13 | The same condition at the deployed 60 s and 7 days; without spacing of the lives it fails for every D |
| Generations.BoundedStaleness | api/cache/statistics_read_cache.go:12-13 | An answer served at any time was queried less than D + R earlier, even when slow readers overwrite newer entries |
| StatisticsCache.ReadsAgree | api/cache/statistics_read_cache.go:33-49 | Reading counter and answer keys as strings returns exactly the machine's generation and cached answer, absent counters reading as 0 |
| StatisticsCache.ShowsEvent | api/cache/generation.go:26-42 | Each event's Redis command keeps the keyspace equal to the machine's counter and answers, values and deadlines |
| StatisticsCache.ServedAnswersAreFresh | api/cache/statistics_read_cache.go:33-59 | For any moves of any number of profiles and of foreign users of the server, what GetStatistics returns is less than D + R old, and fresh when the times are spaced or the profile's counter never expired |
| StatisticsReadCaches.ReadGenerationOf | api/cache/generation.go:26-36 | An absent counter is 0; an unreadable or undecodable one is an error, never 0 |
| StatisticsReadCaches.BumpGeneration | api/cache/generation.go:38-42 | Success exactly when INCR arrived, was answered and did not fail, and so was the EXPIRE of a counter it created; the reading is then one more, and a counter that was absent expires in seven days |
| StatisticsReadCaches.BumpReadings | api/cache/redis.go:51-72 | The reading before and after a bump, and the deadline of a new counter |
| StatisticsReadCaches.BumpShows | api/cache/redis.go:51-72 | A bump, whatever of it arrives and whichever replies are lost, is a run of the machine: the purge takes effect with INCR |
| StatisticsReadCaches.StatisticsReadCache.Generation | api/cache/statistics_read_cache.go:33-37 | Reads the profile's counter in the statistics scope |
| StatisticsReadCaches.StatisticsReadCache.GetStatistics | api/cache/statistics_read_cache.go:39-49 | A miss, a hit or an error, told apart |
| StatisticsReadCaches.StatisticsReadCache.SetStatistics | api/cache/statistics_read_cache.go:51-53 | The answer is stored under its generation with the read TTL whenever the command arrives, even when success is not reported |
| StatisticsReadCaches.StatisticsReadCache.InvalidateStatistics | api/cache/statistics_read_cache.go:55-59 | The same for the profile's counter in the statistics scope |
| StatisticsReadCaches.GetProfileStatistics | api/service/statistics/read.go:77-138 | The reply and the keyspace at each exit: unknown timespan, disabled statistics, unreadable generation, cached or undecodable entry, empty range, failed guard, failed query, empty answer, and the write under the generation for 60 s |
| StatisticsReadCaches.ReadIsARun | api/service/statistics/read.go:107-138 | A whole read, whatever fails on the way, is a run of the machine: the keyspace shows the state after its events |
| StatisticsReadCaches.ReplyIsHit | api/service/statistics/read.go:168-183 | A read replies from the cache exactly when the machine hits a decodable answer, and with that answer |
| StatisticsReadCaches.QueriesIff | api/service/statistics/read.go:114-137 | A read that is not served queries exactly when its range is not empty and neither guard nor query fails, and writes exactly when the answer is then not empty |
| Keys.AnswerKeysInjective | api/cache/statistics_read_cache.go:18-21 | For colon-free profile ids an answer key determines profile, generation and timespan |
| Keys.AnswerKeysMeetWithColons | api/cache/statistics_read_cache.go:18-21 | With a colon in a profile id two different answers can share a key |
| Keys.CounterIsNoAnswer | api/cache/generation.go:22-24 | A counter key is never an answer key, whatever the ids |
| Keys.SettingsKeysInjective | api/cache/redis.go:134-160 | Settings keys of distinct colon-free profiles, or with distinct names, never collide |
| Keys.RuleKeysSeparate | api/cache/redis.go:222-228 | A rule's hash is not the rule set, and distinct rule ids have distinct keys |
| Keys.ReaderKeysAgree | proxy/cache/redis.go:163-173 | The proxy composes exactly the keys that the API writes |
| Keys.FamiliesDisjoint | api/cache/ceremony.go:13-15 | Settings, read-cache and ceremony keys never collide |
| Text.IntRoundTrip | api/cache/statistics_read_cache.go:20 | Parsing the printed form of any 64-bit integer gives it back |
| Text.FormatIntInjective | api/cache/statistics_read_cache.go:20 | Printed decimals are colon-free and distinct for distinct integers |
| Text.ParseIntIff | api/cache/generation.go:35 | A stored string reads as a number exactly when it is an optional sign and digits whose value is a 64-bit integer, and is an error otherwise |
| Text.PrintedIsCanonical | api/cache/statistics_read_cache.go:20 | A printed number has no superfluous zero and no plus sign |
| Cache.RedisCache.Incr | api/cache/redis.go:51-72 | INCR, EXPIRE only for a counter just created, the value reported even when EXPIRE fails |
| Cache.RedisCache.Put | api/cache/redis.go:74-83 | A value with its expiration, or nothing |
| Cache.RedisCache.Get | api/cache/redis.go:85-95 | The stored string, absence, or an error |
| Cache.RedisCache.CreateOrUpdateProfileSettings | api/cache/redis.go:124-172 | Success exactly when the set could be listed and every command arrived and was answered without an error; success stores every struct under its own name, both lists and every rule, and means the update on any image; failure leaves a prefix |
| Cache.RedisCache.SetProfileSettingsFields | api/cache/redis.go:174-188 | Success stores each value under its field, the last of several, and leaves all other fields and keys alone; exact success condition, prefix on failure |
| Cache.RedisCache.AppendToList | api/cache/redis.go:357-375 | Appends all ids in order after what the list of that name held, with one RPUSH |
| Cache.RedisCache.RemoveFromList | api/cache/redis.go:377-397 | One LREM per id, stopping at the first that fails |
| Cache.RedisCache.QueueCustomRules | api/cache/redis.go:230-246 | Queues for each rule in order a hash of its action, value and syntax, then one SADD of all their keys, and returns the keys |
| Cache.RedisCache.QueueReplaceCustomRules | api/cache/redis.go:248-262 | Queues the current rules, then the removal of exactly the listed keys that are not kept |
| Cache.RedisCache.AddCustomRules | api/cache/redis.go:272-290 | Success lists every rule and stores its action, value and syntax, the last of a repeated id; exact success condition, prefix on failure |
| Cache.RedisCache.RemoveCustomRule | api/cache/redis.go:292-308 | The hash goes, then the member; success leaves neither; stops at the first failure |
| Cache.RedisCache.DeleteProfileSettings | api/cache/redis.go:310-355 | The fixed keys, every listed rule hash, then the set; success leaves nothing exactly when no hash was unlisted and no name foreign; exact success condition, prefix on failure |
| CustomRules.EffectsSound | api/cache/redis.go:230-262 | What a pipeline does to the set and the hashes is, key by key, a fold over that key's status, from any state with dangling members or orphaned hashes |
| CustomRules.ReplaceEffect | api/cache/redis.go:248-262 | A completed replacement leaves the last rule under each wanted key and nothing under each stale one |
| RuleConcurrency.ListedAfterWritten | api/cache/redis.go:230-246 | At every prefix of a replacement, a newly listed rule already has its new hash |
| RuleConcurrency.UnlistedBeforeDeleted | api/cache/redis.go:248-262 | At every prefix, a stale rule is unlisted before its hash goes |
| RuleConcurrency.ReaderSafety | proxy/cache/redis.go:155-229 | A reader that lists the set after any i commands of an update and reads a hash after any j >= i finds every staying rule, and its hash entirely old or entirely new |
| RuleConcurrency.UpdateKeepsNoDangling | api/cache/redis.go:124-172 | Every set member has a hash at every prefix of an update |
| RuleConcurrency.AddKeepsNoDangling | api/cache/redis.go:272-290 | The same at every prefix of an add |
| RuleConcurrency.RemoveKeepsNoOrphan | api/cache/redis.go:292-308 | Every rule hash is listed at every step of a removal |
| RuleConcurrency.DeleteKeepsNoOrphan | api/cache/redis.go:310-355 | The same at every step of a deletion |
| BreakingOff.RemovalDanglesIff | api/cache/redis.go:292-308 | A removal leaves a listed rule without its hash if and only if it breaks off between its two commands and the rule was listed |
| BreakingOff.AddOrphansIff | api/cache/redis.go:272-290 | An add of any rules leaves an unlisted hash if and only if it breaks off before its SADD after writing a rule that was not listed |
| BreakingOff.DeletionDanglesIff | api/cache/redis.go:310-355 | A deletion leaves listed rules without hashes if and only if rules were listed and it breaks off after its first listed hash and before the set goes |
| BreakingOff.UpdateOrphansIff | api/cache/redis.go:124-172 | An update leaves an unlisted hash if and only if it breaks off before its SADD after writing a new rule, or between the SREM and the DEL of stale rules that have hashes |
| RuleConcurrency.AddSurvivesIff | api/cache/redis.go:124-172 | In every interleaving of an add of fresh rules with an update, an added rule survives with its hash if and only if its SADD had not run when the update listed the set, and is removed otherwise |
| RuleConcurrency.BesideArises | api/cache/redis.go:124-172 | Every split of an add of fresh rules around an update's listing of the set is such an interleaving, whatever typed state it starts from |
| RuleConcurrency.NoLostAdd | api/cache/redis.go:272-290 | With the SADD still to come, the final set is exactly the wanted and the added keys, all with hashes |
| OverlappingUpdates.LastListWinsIff | api/cache/redis.go:132-146 | Of two overlapping rewritings of a list, the one whose DEL comes last determines the list if and only if all pushes of the other come before that DEL |
| OverlappingUpdates.LastUpdateWinsIff | api/cache/redis.go:124-172 | The same for two whole overlapping updates of a profile, of whose commands only those on the list's key matter |
| OverlappingLists.ListsNeverMixIff | api/cache/redis.go:132-146 | Every interleaving of two rewritings of a list ends as one of the callers wanted if and only if the two push at most one id in all |
| OverlappingLists.MixedUpdateArises | api/cache/redis.go:124-172 | Two updates with two ids or more in all can end with a list neither caller wrote, whatever was stored |
| OverlappingLists.UpdatesNeverMixIff | api/cache/redis.go:124-172 | Two whole updates end with the list of one of the callers in every interleaving if and only if the two lists hold at most one id in all |
| OverlappingRules.OverlapKeepsNoOrphan | api/cache/redis.go:248-262 | However two updates of a profile overlap, every rule hash is listed in the end |
| OverlappingRules.PairsKeepNoDanglingIff | api/cache/redis.go:124-355 | Any two operations leave every listed rule with its hash in every interleaving if and only if no rule is written by one and dropped by the other |
| OverlappingRules.PairsKeepNoOrphanIff | api/cache/redis.go:124-355 | Any two operations leave every rule hash listed in every interleaving if and only if no rule is written by one while the other removes it or deletes the profile |
| OverlappingRules.UpdatesKeepNoDanglingIff | api/cache/redis.go:248-262 | Two updates leave every listed rule with its hash in every interleaving if and only if neither keeps a rule that the other removes |
| OverlappingRules.UpdatesAgreeIff | api/cache/redis.go:124-172 | When both listed the set before either changed it, that is when they want the same of the listed rules |
| OverlappingRules.DanglingArises | api/cache/redis.go:124-355 | For every rule that one operation writes and another drops, an interleaving that leaves it listed without a hash |
| OverlappingRules.OrphanArises | api/cache/redis.go:272-308 | For every rule that one operation writes and another ends by unlisting, an interleaving that leaves its hash unlisted |
| RuleOperations.OpDoes | api/cache/redis.go:124-355 | Which operations write, list, unlist and drop a given rule key |
| SettingsMirror.UpdateFromAnyState | api/cache/redis.go:124-172 | From any typed state a completed update assigns: set, hashes, both lists in order, settings hashes overlaid, stale keys gone, all other keys unchanged |
| SettingsMirror.ListWritesEffect | api/cache/redis.go:132-146 | A list is rewritten in the given order with its duplicates, whatever was stored |
| StoredContents.UpdateStores | api/cache/redis.go:133-164 | After an update each of the six hashes holds the entries of its own struct over what it held, missing statistics settings as disabled, both lists are as given, and every rule is stored field by field |
| StoredContents.AddStores | api/cache/redis.go:230-246 | After an add every rule is listed with its action, value and syntax, and other rules are as before |
| StoredContents.RemovalStores | api/cache/redis.go:292-308 | After a removal the rule is neither listed nor stored, and other rules are as before |
| StoredContents.FieldsStore | api/cache/redis.go:174-188 | After writes of single fields each holds its last value, and every other field and key is as before |
| StoredContents.QueueLayout | api/cache/redis.go:230-246 | One hash of three fields for each rule, in order, and then one SADD of all keys |
| StoredContents.AppendStores | api/cache/redis.go:190-203 | After an append the list of that name ends with the ids, in order |
| StoredContents.RemoveStores | api/cache/redis.go:205-220 | After a removal the list is what the LREMs leave, and other keys are as before |
| StoredContents.RemoveAllSnoc | api/cache/redis.go:377-397 | Removal decides element by element and keeps the order |
| MirrorHistory.OpMeaning | api/cache/redis.go:124-397 | Every completed operation maps the stored form of an image to the stored form of the image it means |
| MirrorHistory.HistoryMirrors | api/cache/redis.go:124-397 | After any history of completed operations on any profiles, every profile's keys are exactly those of its image |
| MirrorHistory.AgreeAtRest | api/cache/redis.go:230-262 | At rest, a rule is listed if and only if it has a hash |
| MirrorHistory.OpOwn | api/cache/redis.go:124-397 | An operation writes keys of its own profile only |
| ProfileDeletion.DeleteCompleteIff | api/cache/redis.go:310-355 | A deletion leaves nothing of the profile if and only if no rule hash was unlisted and no key had a name foreign to the layout; all other keys stay |
| ProfileDeletion.DeleteIsCompleteAndLocal | api/cache/redis.go:310-355 | After any history of completed operations a deletion is complete and local |
| ProfileDeletion.BrokenAddLeaksIff | api/cache/redis.go:272-290 | After an add that broke off at any command, the deletion of the profile is complete if and only if the SADD had run or every rule written was there before |
| ProfileDeletion.BrokenUpdateLeaksIff | api/cache/redis.go:124-172 | The same for an update, with its two windows |
| MirrorHistory.RemoveAllIsFilter | api/cache/redis.go:205-220 | The LREM loop is an order-preserving filter by the set of ids |
| MirrorHistory.ListsRefineSets | api/cache/redis.go:190-220 | Over any history, membership in the image's list is add-all and remove-all on sets, despite duplicates |
| MirrorHistory.StoredListsRefineSets | api/cache/redis.go:190-220 | The same of the list that is stored, over any history of completed operations on any profiles |
| Sessions.SessionRepository.SaveSession | api/db/mongodb/session.go:121-149 | Upserts a session, or fails and changes nothing |
| Sessions.SessionRepository.DeleteSession | api/db/mongodb/session.go:151-159 | Removes one session by its token |
| Sessions.SessionRepository.DeleteSessionsByAccountID | api/db/mongodb/session.go:161-169 | A session stays, with its account, if and only if it is another account's |
| Sessions.SessionRepository.DeleteSessionsByAccountIDExceptCurrent | api/db/mongodb/session.go:171-182 | A session stays, with its account, if and only if it is another account's or the kept one |
| Sessions.SessionRepository.CountSessionsByAccountID | api/db/mongodb/session.go:184-192 | Counts the account's sessions |
| Sessions.Login | api/api/auth.go:67-104 | A password login alone: accepted exactly below the limit or after removal, the store in every outcome, at most limit sessions; other accounts keep exactly their sessions |
| Sessions.FinishLogin | api/api/webauthn.go:198-225 | A passkey login alone: accepted exactly when its own session counted stays below the limit, the store in every outcome; other accounts keep exactly their sessions |
| LoginRaces.PasswordAlone | api/api/auth.go:67-104 | The state machine's events of one password login, uninterrupted and failing in any way, leave the store and the acceptance that the method does |
| LoginRaces.PasskeyAlone | api/api/webauthn.go:198-225 | The same for a passkey login, its clean-up deletion included |
| LoginRaces.InvStep | api/api/webauthn.go:198-225 | Each store call of each login, logout, expiry and failed call keeps the bound of every account |
| LoginRaces.MixedLoginsBounded | api/api/auth.go:67-104 | In every interleaving, accepted stored sessions plus pending password logins are at most max(1, limit - 1) + M |
| LoginLimits.BoundIsExact | api/api/auth.go:67-104 | max(1, limit - 1) + M is the exact maximum of accepted stored sessions over all runs |
| LoginLimits.LimitsInPractice | api/api/webauthn.go:198-225 | Passkey logins alone reach limit - 1 and no more, without locking; one password login at a time reaches exactly the limit |
| StoredSessions.StoredPartition | api/api/webauthn.go:198-225 | In every reachable state an account's stored sessions are exactly its accepted ones, those of passkey logins between save and end, and those that failed ones left, and none is two of these |
| StoredSessions.OtherAccountsKept | api/api/webauthn.go:198-225 | In every reachable state, no step of a login changes the stored sessions of another account |
| LoginLimits.StoredBoundIsExact | api/api/webauthn.go:198-225 | Over the reachable states with at most q passkey logins in flight and at most f left sessions, stored sessions are at most b if and only if max(1, limit - 1) + M + q + f <= b |
| LoginLimits.RunBoundIsExact | api/api/webauthn.go:198-225 | The exact maximum of stored sessions over the runs that respect q and f throughout; with q = 0 it is what password logins alone reach |
| LoginLimits.StoredUnbounded | api/api/webauthn.go:205-222 | Without such limits no number bounds them |
| Ceremonies.ConsumeSucceedsIff | api/cache/ceremony.go:31-44 | After any history, a token is consumed exactly when its last save has neither been consumed nor expired, with that save's data |
| Ceremonies.SingleUse | api/cache/ceremony.go:17-44 | In every history, successful consumes of a token plus the stored ceremony never outnumber its saves |
| Ceremonies.SpentForGood | api/cache/ceremony.go:31-44 | A consume spends the ceremony, undecodable data and a lost reply included |
| Cache.RedisCache.SaveCeremony | api/cache/ceremony.go:17-29 | Is the save event of the histories |
| Cache.RedisCache.ConsumeCeremony | api/cache/ceremony.go:31-44 | Is the consume event of the histories, and returns what it took |
| JsonPointer.TwoPassesAreOneScan | api/api/custom_rules.go:232-238 | The two replacements equal one left-to-right scan on every string, malformed escapes included |
| JsonPointer.DecodeIsScan | api/api/custom_rules.go:232-238 | Decoding is the scan of the text after one leading slash, or of the whole text when there is none |
| JsonPointer.DecodeEncode | api/api/custom_rules.go:229-238 | Every group name comes back from its escaped pointer |
| JsonPointer.EncodeDecodeIff | api/api/custom_rules.go:229-238 | A pointer comes back from its name if and only if it is a well-formed single segment of RFC 6901 |
| JsonPointer.DecodeInjective | api/api/custom_rules.go:229-238 | Different well-formed pointers name different groups |
| JsonPointer.EmptyNameIff | api/api/custom_rules.go:229-231 | The name is empty if and only if the pointer is empty or "/" |
| JsonPointer.EscapeIsTwoPasses | api/api/custom_rules.go:232-238 | The escape that decoding inverts is itself two replacements in the opposite order |
| JsonPointer.OrderMattersIff | api/api/custom_rules.go:234-236 | The opposite order of the passes differs exactly on the strings that contain "~01" |
| JsonPointer.OtherOrderFails | api/api/custom_rules.go:234-236 | On "~01" the code's order gives "~1" and the opposite one "/" |
| Shutdown.Process.TrackRun | proxy/main.go:142-151 | Counts a run when it is tracked |
| Shutdown.Process.MarkDone | proxy/main.go:142-151 | Takes a run off the count once |
| Shutdown.Process.SafelyRun | proxy/main.go:166-183 | Restarts after every panic; the run leaves the count exactly when some run returns normally |
| Shutdown.Process.WaitFor | proxy/main.go:153-164 | Once a channel is ready: success exactly when the timeout was not chosen, and then every tracked run has ended |
| Shutdown.Process.StopCollectors | proxy/main.go:76-82 | Tells the collectors to quit, then waits until a channel is ready, unless one of the two panics |
| Shutdown.Process.DoShutdown | proxy/main.go:195-225 | The whole log of a body that does not panic, spelt out; otherwise the effects before the statement that panics, each once and in program order; quit is closed exactly if that statement is later |
| Shutdown.Process.Shutdown | proxy/main.go:185-193 | The body runs in the first call only, even if that call panics |
| Shutdown.Process.SignalExit | proxy/main.go:83-139 | The two calls of a signal exit perform one body; a panic in the first leaves undone what comes after it, though the deferred call runs |
| Shutdown.CountIsUnfinished | proxy/main.go:142-151 | In every interleaving the wait group counts exactly the runs that have not returned normally, and is zero exactly when all have |
| Shutdown.ShutdownOrder | proxy/main.go:195-225 | In every interleaving, wherever the body panics, each effect happens at most once, listeners stop before collectors are told to quit, and the database is left last |
| Shutdown.ReturnedCallIff | proxy/main.go:185-193 | A call that has returned leaves the database connected if and only if the body panicked, in the other call; the collectors were not told to quit if and only if it panicked there or before |
| Shutdown.DeferredReturnsUndone | proxy/main.go:83-85 | For every statement, a panic of the signal call at it is followed in some run by a deferred call that returns with the database connected |
| Shutdown.DisconnectIsLate | proxy/main.go:153-164 | waitFor reports success only when every run has ended, and the database is left only then or after the timeout |
| Shutdown.BodyEnds | proxy/main.go:195-225 | In every run the body takes at most seven steps, and until it is over its next step waits for nobody |
| Shutdown.CleanEnd | proxy/main.go:142-164 | From every state up to the wait, crashed collectors included, a run exists in which all collectors end, the wait succeeds and the database is left |

## Left out

- Generations.AlwaysSafeIff: time is a whole number and each store command atomic; Redis's expiry granularity and clock differences between servers are not modelled.
- Generations.InvStep: D is a bound on the writes that arrive; the code has no deadline of its own between the generation read and the write, so D is a parameter.
- StatisticsReadCaches.GetProfileStatistics: the query, its aggregation and the JSON encoding are one opaque answer, and an encoding failure, which only skips the write, is not modelled.
- Cache.RedisCache.Incr: the Redis client's own retry of a command whose reply is lost is not modelled; a retried INCR is two bumps of the machine.
- Cache.RedisCache.CreateOrUpdateProfileSettings: Privacy, Security, Logs and Advanced are taken to be present; the default statistics settings are not written back into the caller's value; each settings struct writes a fixed, non-empty set of fields.
- Cache.RedisCache.AppendToList: the services and blocklists methods differ in the key only and are one method here.
- Cache.RedisCache.RemoveFromList: as for AppendToList.
- Cache.RedisCache.Put: a value that the Redis client cannot encode is not modelled.
- Cache.RedisCache.SMembers: a set is listed in some order; every order is possible.
- Cache.RedisCache.ConsumeCeremony: decoding is an arbitrary predicate on the stored text, and encoding never fails.
- MirrorHistory.HistoryMirrors: operations on one profile complete and do not overlap; broken and overlapping ones are the subject of `BreakingOff`, `RuleConcurrency` and the `Overlapping` modules. Colon-free profile ids are assumed, as the ids of the store are.
- RuleConcurrency.ReaderSafety: the caller's rules may repeat an id, in which case the hash is that of one of them; a rule hash is taken to write the three fields action, value and syntax, so that HSET overwrites it.
- LoginRaces.MixedLoginsBounded: tokens are never issued twice, and authentication itself is a precondition.
- Sessions.SessionRepository.SaveSession: of a stored session only the account is modelled.
- Shutdown.Process.WaitFor: a method cannot wait, so the call is made when the wait ends; the waiting itself is in the state machine.
- OverlappingRules.PairsKeepNoOrphanIff: a deletion is taken to list the set before the other operation changes it.
- Shutdown.ShutdownOrder: a failing effect is not told apart from a successful one, since the code only logs failures; the Sentry writer is taken to be present, and its second close is not modelled.
- JsonPointer.DecodeEncode: the request handlers around the decoder are not modelled.
- The blocklists updater, custom-rule group operations, statistics aggregation and device folding, TOTP, subscriptions and the other service-layer logic.
- Networking, configuration, request handling, cookies, rate limits, password hashing and WebAuthn cryptography.
