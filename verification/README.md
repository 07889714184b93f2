# Velocity: a Dafny model of its protocols

Velocity is a Go web framework. Most of it is wiring, but several parts are protocols with stated guarantees. This
project models those parts and proves the guarantees for all inputs, all runs and all interleavings.

How the model is laid out:

- Concurrent code is a step system. A state holds the shared data and one program counter per goroutine; an event is one
  lock section, one atomic operation or one clock reading of one of them; a run is any sequence of enabled events. Each
  theorem about runs holds for every interleaving of any number of callers.
- Code that updates an object is a class whose methods are proved against functions of the old state, and the laws are
  lemmas about those functions.
- Loops stay loops, with invariants.

| files | part of the system |
|---|---|
| `blacklist.dfy`, `refresh.dfy`, `refresh_progress.dfy`, `refresh_checks.dfy` | JWT refresh, revoke and sign-out, with their two stores |
| `unwrap.dfy`, `retire.dfy`, `bindings.dfy`, `rebind.dfy` | lifecycle boundaries: re-binding and retirement |
| `throttle_counter.dfy`, `throttle_delay.dfy`, `login_throttler.dfy` | the login throttle |
| `remember.dfy` | the cache's populate election |
| `package_state.dfy` | who owns the process-wide package state |
| `lifecycle.dfy` | modules over New, Bootstrap and Shutdown |
| `render.dfy` | Inertia prop resolution over a full response and its partial reloads |
| `fan_out.dfy`, `race.dfy` | the parallel helpers |
| `pipeline.dfy`, `bus.dfy` | the command bus and its cached middleware chain |
| `totp.dfy` | time-based one-time passwords and recovery codes |
| `words.dfy`, `options.dfy` | int64 arithmetic; a value that may be absent |

`dafny verify dfyconfig.toml` checks everything.

## Where the code and its promises part

The model follows the code. In these places a property one would expect is false of it; each has a lemma with a concrete
input, or states the exact condition under which the property holds.

- A sign-out bumps no generation for a token without a uid, whose refresh is checked under the key `<nil>`, nor for one
  whose uid prints as empty; for every other token it bumps the one a refresh reads (`RefreshProtocol.UserKeysAgree`,
  `RefreshProtocol.SignOutBumpsIff`, `RefreshProtocol.SignOutCanBumpNobody`).
- When the chain modules fail, bootstrap unwinds twice, and the second unwind can retire an instance a second time
  (`Rebind.SecondUnwind`, `Rebind.SecondUnwindRetiresTwice`).
- A displaced instance that is kept because an Unwrap chain cannot be followed is reported once per field it left, not
  once (`Retire.KeptReportedPerField`, `Retire.KeptReportedTwice`).
- The progressive delay doubles in 64 bits. A large base can wrap to a short delay, so the delay can fall as attempts
  pile up (`ThrottleDelay.ExactWhenNoWrap`, `ThrottleDelay.NondecreasingIff`, `ThrottleDelay.DelayCanFall`).
- One lost store write can strand a throttle bucket that then never expires
  (`ThrottleCounter.NoBucketStaysWithoutExpiry` says exactly when, `ThrottleCounter.StrandedNeverLapses`,
  `ThrottleCounter.LostIncrementNeverLapses`).
- A populate lock that lapses during the callback lets a second winner in, from whatever state
  (`Remember.LapseAdmitsAnother`, `Remember.LapseLetsWinnersOverlap`).
- Chain modules bootstrapped for the first time after Shutdown are never shut down (`Lifecycle.LateChainStaysUp`,
  `Lifecycle.BootstrapAfterShutdown`).
- A deferred prop whose key contains a comma is announced, and no request can ever deliver it; nor does the reload of a
  group deliver an empty key that is alone in it (`Render.GroupIsDelivered`, `Render.GroupIsCarriedIff`,
  `Render.CanBeNamedIff`, `Render.CommaKeyIsNeverDelivered`).
- A dispatch that found a handler can lose it: a middleware stage may pass on a command of another type, and the handler
  is resolved for that one (`Bus.HandlerIsFound`, `Bus.TerminalResolvesLive`, `Bus.StageCanLoseHandler`).
- A one-time code is refused when an already used step of the window happens to have the same code
  (`Totp.AcceptedIff`, `Totp.CollidingCodeIsRefused`).
- With ten digits or more the one-time code is not the one RFC 4226 defines, and from 32 digits on the generator divides
  by zero (`Totp.TenDigitsExactIff`, `Totp.TenDigitsCanBeWrong`, `Totp.PanicsFrom32`).

## Model

| member | source | states |
|---|---|---|
| `Blacklist.AddMeaning` | auth/jwt.go:156-171 | After Add, at every later instant the id is blacklisted exactly when it already was or the new deadline covers it; no other id changes and live entries are kept |
| `Blacklist.InMemoryBlacklistStore.Add` | auth/jwt.go:156-171 | The new entries are those AddMeaning is about, and it reports consumption exactly when the deadline is ahead and the id was not live |
| `Blacklist.InMemoryBlacklistStore.IsBlacklisted` | auth/jwt.go:175-193 | With nothing between its two lock sections, it answers whether the id is live, and drops only an entry that is not |
| `Blacklist.InMemoryBlacklistStore.Cleanup` | auth/jwt.go:196-206 | The sweep removes exactly the expired entries |
| `Blacklist.InMemoryRefreshGenerationStore.Current` | auth/jwt.go:450-457 | The user's generation, 0 for a user never bumped |
| `Blacklist.InMemoryRefreshGenerationStore.Bump` | auth/jwt.go:460-468 | Bumping raises the user's generation by one and no other user's; generations only grow |
| `RefreshProtocol.UserKeysAgree` | auth/jwt.go:970-978 | The key a refresh checks and the key a sign-out bumps are the same exactly for tokens that carry a uid |
| `RefreshProtocol.SignOutBumpsIff` | auth/jwt.go:1187-1226 | In every run a successful sign-out bumped the counter a refresh for its user reads exactly when the token carries a uid that does not print as empty, and bumped nothing otherwise |
| `RefreshProtocol.SignOutCanBumpNobody` | auth/jwt.go:1187-1226 | Runs for a missing and for an empty uid where the sign-out succeeds and no generation changes |
| `RefreshProtocol.CallerStays` | auth/jwt.go:950-1040 | What is known of a caller between two of its steps survives every step of every other caller, cleanup and clock tick |
| `RefreshProtocol.OpKeeps` | auth/jwt.go:156-206 | Every write to the stores keeps the invariant tying the entries and generations to the log of what was done |
| `RefreshProtocol.RunKeeps` | auth/jwt.go:950-1226 | The whole invariant holds after every run of refreshes, sign-outs, lookups, revocations, bumps and cleanups |
| `RefreshProtocol.SpentOnce` | auth/jwt.go:950-1040 | In every interleaving at most one refresh of a token reaches the signing step, and it consumed the token strictly before its expiry |
| `RefreshProtocol.UsedMeansSpent` | auth/jwt.go:1018-1035 | A refusal as already used means the id was put on the blacklist; if only refreshes did that, one of them reached signing |
| `RefreshProtocol.BlacklistedUntilDeadline` | auth/jwt.go:156-193 | After an Add of a future deadline returned, no lookup begun later, even inside a refresh begun earlier, answers not listed up to that deadline, nor is about to drop an entry |
| `RefreshProtocol.DropsOnlyExpired` | auth/jwt.go:175-193 | The second lock section of a lookup never removes a live entry, under all interleavings |
| `RefreshProtocol.SigningWasDecided` | auth/jwt.go:985-1040 | A caller that signs presented a refresh token, signs for the identity its final decision was taken for, and judged the expiry after it |
| `RefreshProtocol.BumpEndsEarlierTokens` | auth/jwt.go:970-1017 | Between a token's issue and the final decision of a refresh that signs there is no bump of its user (that nothing else refuses it: `RefreshProgress.RefusalHasCause`) |
| `RefreshProtocol.SignOutHolds` | auth/jwt.go:1187-1226 | A sign-out that reports success, after any number of failed attempts, leaves the id blacklisted to its expiry and every earlier refresh token of the user stale |
| `RefreshProgress.RefusalHasCause` | auth/jwt.go:950-1061 | In every reached state a refusal has its cause: expired means the expiry is reached, stale that a logged bump passed the token's generation (or it claims a negative one), used that the id was spent, and so on |
| `RefreshProgress.OutageRefusesOnly` | auth/jwt.go:950-1040 | The remaining refusals come from a store or the user lookup failing at that very step |
| `RefreshProgress.RecheckIsExact` | auth/jwt.go:950-1040 | After the blacklist lookup a refresh goes on exactly when the token has not expired |
| `RefreshProgress.HonestRefreshIsServed` | auth/jwt.go:950-1040 | From every reached state a refresh under way with an unexpired, unlisted, not outdated refresh token, left alone with stores that answer, mints a token within twelve steps, for the identity it looked up |
| `RefreshProgress.LookupTellsTruth` | auth/jwt.go:175-193 | A lookup left alone answers whether the id is live when it starts, and leaves no expired entry of it |
| `RefreshProgress.DisabledListsNothing` | auth/jwt.go:1233-1242 | With the blacklist disabled every lookup answers not listed |
| `RefreshProgress.HonestSignOutSucceeds` | auth/jwt.go:1187-1226 | From every reached state a sign-out whose token is in order, left alone, reports success within four steps |
| `RefreshProgress.RevocationHolds` | auth/jwt.go:1122-1134 | A revocation that reported success keeps the id on the blacklist until the expiry it was given |
| `RefreshProgress.EventsTakeEffect` | auth/jwt.go:196-206 | A cleanup drops exactly the entries that are over; issues and bumps are recorded |
| `RefreshChecks.RefreshAnswers` | auth/jwt.go:950-1040 | From every reached state a refresh that begins and is left alone is refused exactly for the first thing that stands against its token (no expiry, expired, no id, on the blacklist, another type, outdated), and otherwise mints |
| `RefreshChecks.FailsClosed` | auth/jwt.go:912-949 | A store, signature check or user lookup that fails ends the refresh at that step with its own refusal; a failed lookup answers listed; a revocation or sign-out does not report success |
| `RefreshChecks.FailedAddStillBumps` | auth/jwt.go:1209-1225 | A sign-out whose blacklist write failed still bumps, and reports failure |
| `RefreshChecks.FailedWriteLandsOrNot` | auth/jwt.go:937-945 | A write that reported a failure has landed in full or not at all |
| `RefreshChecks.ChecksWriteNothing` | auth/jwt.go:1144-1164 | No step before the consume, or before a sign-out's writes, changes either store |
| `RefreshChecks.OutdatedSignsNobodyOut` | auth/jwt.go:1146-1155 | In every run a sign-out with a refresh token that reported success began while the token was not outdated; tokens without an id neither mint nor sign out |
| `RefreshChecks.RevokeTakesEffect` | auth/jwt.go:1105-1134 | A revocation left alone holds until the expiry given, and without one for the time to live |
| `RefreshChecks.DisabledWritesNothing` | auth/jwt.go:1122-1125 | With the blacklist disabled no run writes to it and a revocation returns at once |
| `RefreshChecks.IssuedIsCurrent` | auth/jwt.go:735-770 | A token issued while the generation store answers is not outdated; one issued while it is down is at generation 0 |
| `UnwrapChain.UnwrapHolds` | rebind_owned.go:83-114 | Following a chain makes at most 9 calls and gives an answer whose claim about the chain holds: found within 8 unwraps, ended without it, or unknown for a panic, a cycle or a longer chain |
| `UnwrapChain.AnswersExclusive` | rebind_owned.go:61-114 | No two answers fit one chain, so each is given exactly when its claim holds |
| `UnwrapChain.CycleNeverEnds` | rebind_owned.go:96-110 | A chain that comes back to a value has a link at every depth |
| `UnwrapChain.CycleMeetsNothingNew` | rebind_owned.go:96-110 | What a cyclic chain has not met by the first repetition it never meets |
| `Retire.HoldOf` | rebind_owned.go:151-200 | The first holder that holds, or cannot be shown not to hold, an instance |
| `Retire.FirstHoldIsHeld` | rebind_owned.go:151-200 | Not held means no holder is the instance, reaches it by unwrapping, or cannot be followed |
| `Retire.DisplacedSince` | rebind_owned.go:151-200 | The loop over the fields returns the displaced instances and the kept fields of the specification |
| `Retire.DisplacedAre` | rebind_owned.go:151-200 | It returns, once each, exactly the instances that left a field and that nothing holds |
| `Retire.KeptAre` | rebind_owned.go:180-197 | The reports are exactly the fields whose displaced instance is kept because a chain cannot be followed |
| `Retire.DisplacedIsFree` | rebind_owned.go:151-200 | A displaced instance is in no owned field, component or hook, nor reached from one by unwrapping |
| `Retire.KeptReportedPerField` | rebind_owned.go:144-150 | A kept instance is reported as often as the number of fields it left |
| `Retire.KeptReportedTwice` | rebind_owned.go:144-150 | An input where one instance is reported twice |
| `Bindings.BindConsumers` | rebind_owned.go:280-305 | All or nothing: it succeeds exactly when every affected consumer accepts, and otherwise changes no binding |
| `Bindings.EachMovesItsPart` | rebind_owned.go:213-305 | After the commits, each consumer's part of the wiring is what its own commit makes of what the boundary found, and untouched otherwise |
| `Bindings.CommitIsLocal` | rebind_owned.go:315-391 | A commit changes only its own consumer's part |
| `Bindings.CellsFollowAfter` | rebind_cells.go:237-278 | After an accepted boundary every forwarder cell holds its field's instance, or that cache's default store, the encryptor cell is not empty while something needs it, and cells bound before stay bound |
| `Bindings.ChannelKeptOrFollows` | rebind_owned.go:349-370 | A database channel a module set is untouched; the framework's own follows the database, and its driver when that names one |
| `Bindings.ORMDefaultKeptOrFollows` | rebind_owned.go:315-334 | An ORM default something else installed is untouched; the framework's own follows the database |
| `Bindings.LockerKeptOrFollows` | scheduler_cache_locker.go:285-303 | The framework's locker follows the cache once cache or scheduler changed, and only while its own scheduler is in the field and no module gave that another locker |
| `Bindings.BatchQueueFollows` | rebind_owned.go:376-379 | The batch callbacks follow the queue field |
| `Bindings.RotatorFollows` | rebind_owned.go:383-385 | The auth manager in its field rotates for the CSRF instance in its field once either changed, and other managers keep their rotators |
| `Bindings.ErrorPagesFollow` | rebind_owned.go:389-391 | A new error handler gets the page renderer and none loses it |
| `Bindings.AcceptedIff` | rebind_owned.go:280-305 | A boundary is refused exactly for a panicking prepare of a changed field, a needed encryptor replaced by none, or a cache that cannot hold the sessions it must |
| `Rebind.App.RetireDisplaced` | rebind_retire.go:88-131 | Every displaced instance is recorded, and parked when the previous snapshot held it as its database, else closed |
| `Rebind.App.RunBoundary` | rebind_owned.go:415-435 | The app's new state is that of the boundary specification; a failed boundary leaves the snapshot, every cell and every binding as they were |
| `Rebind.App.UnwindRetire` | rebind_retire.go:137-148 | The app's new state is that of the unwind specification |
| `Rebind.RetireAllMeans` | rebind_retire.go:88-131 | Each retired instance is recorded, and closed or parked, exactly once; parked are exactly those the previous snapshot held in its database field and in no earlier one |
| `Rebind.BoundaryKeeps` | rebind_owned.go:415-435 | One boundary, failed or not, keeps: each instance retired once, each retired one closed or parked, no bound field holding a retired one |
| `Rebind.RetiresExactlyDisplaced` | rebind_owned.go:415-435 | A successful boundary retires exactly the displaced instances nothing holds |
| `Rebind.UnwindRetiresExactlyDisplaced` | rebind_retire.go:137-148 | An unwind retires exactly the instances displaced since the last boundary that nothing holds |
| `Rebind.ParksExactlyDatabases` | rebind_retire.go:88-148 | A boundary or an unwind parks exactly the displaced databases and starts closing exactly the other displaced instances |
| `Rebind.RetiredWhenFree` | rebind_retire.go:88-148 | When an instance is retired, by a boundary or by an unwind, no owned field, component or hook is it or leads to it |
| `Rebind.UnwindRetiresOnce` | rebind_retire.go:137-148 | One unwind after any boundaries retires no instance twice |
| `Rebind.BoundariesKeep` | rebind_owned.go:415-435 | The retirement invariant holds after every run of boundaries |
| `Rebind.RetiredOnce` | rebind_retire.go:63-148 | Over every run of boundaries, ended by at most one unwind, each instance is retired at most once and is closed or parked |
| `Rebind.PutBackRetiresNothing` | rebind_owned.go:411-435 | An instance a field holds again, or one never bound, is not retired by the next boundary or unwind, whatever was replaced elsewhere: of A, B, A neither is |
| `Rebind.CellsFollowOverRuns` | rebind_owned.go:280-305 | Over every run, each cell holds what its field held at the last successful boundary |
| `Rebind.SecondUnwind` | bootstrap.go:42-89 | A second unwind retires an instance again exactly when the first one found it back in a field and the second displaces it |
| `Rebind.SecondUnwindRetiresTwice` | bootstrap.go:42-89 | A run from the empty app, two boundaries and two unwinds, that retires an instance twice |
| `ThrottleCounter.ExpiryKept` | auth_throttle.go:175-189 | Every step keeps: a bucket without an expiry has a caller about to re-put it or was stranded by a lost write, and only such a bucket is stranded |
| `ThrottleCounter.NoBucketStaysWithoutExpiry` | auth_throttle.go:162-189 | In every interleaving with expiry and RecordSuccess, once no call is under way a bucket is without an expiry exactly when a lost write stranded it and neither a put nor a forget followed; otherwise it lapses within the decay |
| `ThrottleCounter.StrandedNeverLapses` | auth_throttle.go:162-189 | A bucket without an expiry that nobody is about to re-put stays so, its count never falling, through every run that does not forget the key |
| `ThrottleCounter.LostIncrementNeverLapses` | auth_throttle.go:175-189 | A run in which one lost reply strands a bucket, and every continuation short of a forget leaves it denying |
| `ThrottleCounter.NewWindowOpens` | auth_throttle.go:175-189 | After a forget, or once the window is over, the next attempt counts 1 and opens a window of the full decay |
| `ThrottleCounter.LiveKeyCountsOn` | auth_throttle.go:175-189 | Inside a window an attempt counts one more than the key holds and leaves its deadline |
| `ThrottleCounter.FailedAddIsCountedOn` | auth_throttle.go:175-189 | A failed add goes on to the increment, which counts two when the add had landed in an empty window |
| `ThrottleCounter.CountsArePermutation` | auth_throttle.go:175-211 | Inside one window the N calls on a key get counts that are a permutation of 1..N, and exactly min(N, limit) are admitted |
| `ThrottleDelay.ProgressiveDelay` | auth/throttle.go:85-107 | For a positive base and excess the delay is positive and at most the ceiling in force; otherwise it is 0 |
| `ThrottleDelay.ExactWhenNoWrap` | auth/throttle.go:72-107 | The delay is the base doubled per further attempt, capped, exactly when the shift neither wraps to a short value nor is cut off early |
| `ThrottleDelay.DefaultIsExact` | auth/throttle.go:72-107 | At the default base and ceiling it is that for every excess |
| `ThrottleDelay.NondecreasingIff` | auth/throttle.go:85-107 | The delay never falls exactly when no shift up to 40 wraps to a short value; base * 2^40 < 2^63 is enough |
| `ThrottleDelay.DelayCanFall` | auth/throttle.go:85-107 | A base and two attempt counts where it falls |
| `LoginThrottler.DimensionsGetTheirOwnCap` | auth_throttle.go:139-148 | Every pair, identifier and address key gets its own dimension's limit |
| `LoginThrottler.CacheLoginThrottler.KeysAreApart` | auth_throttle.go:274-276 | Two throttle keys have two count keys and two slot keys, and a slot key is the count key of exactly the throttle key ending in its suffix |
| `LoginThrottler.CacheLoginThrottler.SlotsMeetNoCount` | auth_throttle.go:244-276 | No key ThrottleKeys derives has its count where a slot is |
| `LoginThrottler.CacheStore.Add` | cache/drivers/memory.go:556-585 | Adds only to a key that is absent or expired; what it stores counts 1 at each instant until the ttl is over, and a live key is left as it was at every later instant |
| `LoginThrottler.CacheStore.Increment` | cache/drivers/memory.go:649-690 | Counts one more than the key is worth now; a live key keeps its deadline, any other restarts at 1 with none |
| `LoginThrottler.CacheStore.Get` | cache/drivers/memory.go:481-505 | A live key is seen with its count, and so is one at the very instant of expiry, which an add no longer respects; later it is not |
| `LoginThrottler.CacheLoginThrottler.CountAttempt` | auth_throttle.go:175-189 | An attempt counts one more than the window holds (two, if the add landed and reported a failure), keeps the window's deadline or opens a new one, leaves the key as it was when it fails and nothing landed, and leaves attempts, verdict and delay of every other throttle key as they were |
| `LoginThrottler.CacheLoginThrottler.Reserve` | auth_throttle.go:197-211 | Admits exactly when the count is within the limit, admits when the attempt could not be counted, reports the promised delay of its excess (the one Delay would report) unless that wraps, and leaves every other throttle key as it was |
| `LoginThrottler.CacheLoginThrottler.Allow` | auth_throttle.go:150-160 | Allowed exactly while the stored count is below the limit |
| `LoginThrottler.CacheLoginThrottler.Delay` | auth_throttle.go:227-237 | The promised delay of the stored excess unless that wraps, and none while the key is within its limit |
| `LoginThrottler.CacheLoginThrottler.Admit` | auth_throttle.go:244-254 | One trial slot per key for the hold; a store failure admits, and still takes a free slot when the add landed; no other throttle key's count is touched, but for one that ends in the slot's suffix |
| `LoginThrottler.CacheLoginThrottler.RecordSuccess` | auth_throttle.go:264-272 | The key's count and slot are gone as far as the store let them be forgotten, nothing else is, and every other throttle key is as it was |
| `LoginThrottler.LocalLoginAdmitter.Admit` | auth/throttle.go:129-154 | Admits exactly when the key's slot is free; the sweep changes no other key's slot at any later instant |
| `LoginThrottler.LocalLoginAdmitter.Release` | auth/throttle.go:159-166 | Frees that slot only |
| `LoginThrottler.SlotExcludes` | auth/throttle.go:129-166 | Over any run a held slot keeps every trial of its key out until it lapses or is released |
| `Remember.ValueKept` | cache/manager.go:698-778 | Every step keeps: what is stored is a winner's result, each answer is a result, no caller's callback runs twice, no loser polls more than 50 times |
| `Remember.OnlyResultsStored` | cache/manager.go:666-778 | In every run, lapsing locks included, only successful results of winners are stored, every answer is one or the caller's own, and a loser polls exactly 50 times before its own callback (that they are stored and served: `Remember.ResultIsServed`) |
| `Remember.OnlyPopulatersStore` | cache/manager.go:771-778 | Of the callers' steps only a winner's write changes the stored value, to its own result |
| `Remember.ResultIsServed` | cache/manager.go:698-778 | A winner whose callback returned and whose write succeeded leaves its result in the slot, in every continuation until the store drops it or another populater writes, and a caller that reads meanwhile answers it without calling back |
| `Remember.WinnerAnswersItsResult` | cache/manager.go:717-735 | Such a winner answers its result |
| `Remember.FailureIsAnswered` | cache/manager.go:771-778 | A failed callback stores nothing and is answered as its error or panic; a failed write stores only what landed and is answered as a store error |
| `Remember.LoserFailureIsAnswered` | cache/manager.go:737-763 | A loser is cancelled exactly when its context is, answers its own callback's failure as such, and never touches the slot or the lock |
| `Remember.AnsweredStays` | cache/manager.go:698-763 | An answered caller does nothing more |
| `Remember.MissesOnlyAnEmptySlot` | cache/manager.go:709-714 | A caller goes for the lock exactly when the slot is empty |
| `Remember.LosesOnlyToAHolder` | cache/manager.go:715-720 | It becomes a loser exactly when the lock is held, and otherwise takes it for the lock's ttl |
| `Remember.LoserFallsBack` | cache/manager.go:737-763 | A loser left with an empty slot reads fifty times and then answers its own callback's result, storing nothing |
| `Remember.UnlockFrees` | cache/manager.go:771-778 | The unlock frees the lock exactly when it succeeds |
| `Remember.WinnersNeverOverlap` | cache/manager.go:698-778 | If no lock lapses during a populate, two winners never populate at once, and with locks that work the lock is free once none does |
| `Remember.WinnerAlwaysUnlocks` | cache/manager.go:771-778 | A winner leaves its populate phase only through its unlock, after success, error or panic |
| `Remember.LapseAdmitsAnother` | cache/manager.go:698-778 | From any state, once a populating caller's lock has lapsed, another caller can populate beside it, at once unless somebody holds the lock |
| `Remember.LapseLetsWinnersOverlap` | cache/manager.go:666-778 | A run from the start, for every ttl, where a lapsed lock lets two winners overlap |
| `PackageState.Process.Install` | package_state.go:66-81 | The stack is that of the specification, and the packages hold the top app's values |
| `PackageState.Process.Release` | package_state.go:89-126 | The app's entry is gone, the others keep their order, and the packages hold the new top's values or the defaults |
| `PackageState.InstallKeepsOnce` | package_state.go:66-81 | Installing leaves each live app on the stack once, in its place |
| `PackageState.ReleaseKeepsOnce` | package_state.go:89-126 | Releasing takes one app off and leaves each other once |
| `PackageState.HistoryTells` | package_state.go:46-143 | After every history the stack lists exactly the live apps, in the order they became live, each with what it last recorded |
| `PackageState.NewestLiveAppOwns` | package_state.go:46-143 | For every history the installed values are those the newest live app last recorded, or the defaults when none is live |
| `Lifecycle.RunModuleLifecycle` | bootstrap.go:580-592 | Inits in order, every Init before any Start, Starts in order; succeeds exactly when no call fails, and counts the completed Inits |
| `Lifecycle.ShutdownInReverse` | serve.go:359-366 | Shuts down each of the modules once, last first, and calls nothing else |
| `Lifecycle.RunCleanups` | app.go:223-235 | Runs every pushed cleanup once, last pushed first |
| `Lifecycle.App.New` | app.go:931-1005 | A failed New has run every cleanup it pushed in reverse, and shut down exactly the modules whose Init completed, last first; a successful one ran none |
| `Lifecycle.CleanupsInReverse` | app.go:216-235 | The cleanups of a failed New run in the reverse order of its steps, one for each step it had taken and no other |
| `Lifecycle.App.Bootstrap` | bootstrap.go:42-89 | The body runs at most once and its result is sticky; after a run whose modules pass they are all up and started, and failed ones are unwound and dropped |
| `Lifecycle.App.Shutdown` | serve.go:233-366 | The teardown runs once; after it every module whose Init completed was shut down exactly once, in reverse within its list, chain modules before the others |
| `Lifecycle.UnwoundCounts` | serve.go:359-366 | In an unwound list each module was shut down as often as its Init completed |
| `Lifecycle.LateChainStaysUp` | bootstrap.go:42-89 | Chain modules bootstrapped after the teardown are unwound only if there are none |
| `Lifecycle.BootstrapAfterShutdown` | bootstrap.go:42-89 | New, Shutdown and a first Bootstrap with one module: it stays up |
| `Lifecycle.ShutdownComponents` | serve.go:506-542 | The sweep's calls are those of the specification over the reverse walk |
| `Lifecycle.WalkIsReverse` | serve.go:536-541 | The sweep meets the entries in reverse order of registration, each value before its hooks |
| `Lifecycle.SweptInOrder` | serve.go:521-541 | The calls are made in the order of that walk, at an instance's first meeting when it is comparable |
| `Lifecycle.SweptOnce` | serve.go:506-542 | A comparable component is shut down once however often it is registered, an incomparable one once per registration, and nothing else |
| `Render.ListSurvivesHeader` | bond/render.go:318-343 | A list of keys survives the comma-separated header exactly when no key has a comma and it is not the empty key alone |
| `Render.ResolveOne` | bond/render.go:383-535 | Each case of the switch delivers, records and fails as the one-line delivery rule says |
| `Render.WithRecordIsLocal` | bond/render.go:94-130 | Recording a prop's metadata changes what is recorded of no other key |
| `Render.ResolveProps` | bond/render.go:372-539 | Whatever the order of the map, exactly the delivered props are resolved with their values and metadata; it fails exactly when a delivered prop's function does |
| `Render.ExtractDeferredGroups` | bond/render.go:351-369 | The groups list exactly the deferred keys, each once and in its own group, and none is empty |
| `Render.RemoveKeys` | bond/render.go:632-646 | Exactly the keys not named stay, in their order |
| `Render.WithoutParts` | bond/render.go:632-646 | Removing keys from a list removes them from its parts, so what stays keeps its order |
| `Render.RenderPage` | bond/render.go:27-75 | The page is the one the order-free specification describes, or an error exactly when a delivered prop fails |
| `Render.AnnouncesDeferredOnly` | bond/render.go:27-39 | A full response announces exactly the deferred keys and delivers none of them; a partial one announces nothing |
| `Render.MetaIsConsistent` | bond/render.go:542-590 | No key is both appended and prepended, every key with metadata is delivered, deep merges are merges, and reset keys have no merge metadata |
| `Render.PartialIff` | bond/render.go:309-315 | A request is partial exactly for its own component and with a list of props to send or to leave out |
| `Render.OrdinaryPropsDelivered` | bond/render.go:592-601 | Ordinary props: all not held on a full response; on a partial one none named in except, and of the others those named in only, or all when it is empty |
| `Render.AlwaysDelivered` | bond/render.go:421-424 | Always props are in every response with their value |
| `Render.NamedPropsDelivered` | bond/render.go:384-450 | Lazy, optional and deferred props are delivered exactly by a request for the component that names them, unless held; except has no say |
| `Render.WalksAgree` | bond/render.go:351-539 | Two walks of one map give pages that differ at most in the order of their lists |
| `Render.GroupIsDelivered` | bond/render.go:27-75 | The partial reload of an announced group delivers, of its keys, exactly those without a comma that the client does not hold, unless the empty key is alone; when the list survives the header, exactly the group's keys not held and the always props |
| `Render.GroupIsCarriedIff` | bond/render.go:27-75 | For a client that holds nothing the reload carries the group, whole and alone, exactly when its list survives the header |
| `Render.CommaKeyIsNeverDelivered` | bond/render.go:318-324 | A key with a comma that comes only when named is delivered by no request |
| `Render.CanBeNamedIff` | bond/render.go:309-333 | Some request delivers a prop that comes only when named exactly when its key has no comma |
| `Render.NothingForgotten` | bond/render.go:27-75 | Every prop is delivered, announced, already held, or waits to be named because it is lazy or optional |
| `FanOut.EffectiveCap` | async/parallel.go:27-36 | The cap is between 1 and the number of functions, and never above the one asked for or the default |
| `FanOut.StepKeeps` | async/parallel.go:66-112 | Every step keeps the semaphore equal to the workers holding a place and each slot equal to its own function's result once written |
| `FanOut.NeverOverCap` | async/parallel.go:66-112 | At most cap functions are being called at any moment of any schedule |
| `FanOut.AlwaysFinishes` | async/parallel.go:66-112 | No schedule is stuck before the caller is past the wait, and every complete one takes the same number of steps |
| `FanOut.SameAsSequential` | async/parallel.go:471-514 | When the caller is past the wait the slices are those of a plain loop, whatever the schedule |
| `FanOut.Sequential` | async/parallel.go:66-112 | The plain loop the helpers are compared with |
| `FanOut.AllN` | async/parallel.go:66-112 | AllN's and MapN's answer under every schedule at the effective cap: the values in order with zeros for panics, and the lowest-index panic |
| `FanOut.AllWithErrorN` | async/parallel.go:142-200 | AllWithErrorN's answer under every schedule at the effective cap: the lowest-index error of either kind and no values, or every value |
| `FanOut.TryForEachAnswers` | async/parallel.go:416-444 | Under every schedule each item's slot holds its own error or none |
| `Race.Result.Complete` | async/result.go:42-51 | The first delivery stays and only it reports a win |
| `Race.Result.Fail` | async/result.go:55-58 | The same for an error |
| `Race.RunKeeps` | async/parallel.go:214-285 | The invariant tying cell, won flag, cancellation, recorded panic and workers holds after every schedule |
| `Race.OutcomeIsFair` | async/parallel.go:214-285 | What is delivered is a value some function returned, a panic when all panicked, or that there were no functions; the generic error never occurs |
| `Race.OutcomeStays` | async/result.go:42-67 | A delivered outcome never changes |
| `Race.RaceSettles` | async/parallel.go:262-285 | No schedule is stuck before the supervisor ends, and then exactly one outcome was delivered: an error exactly when every function panicked |
| `Race.LosersAreCancelled` | async/parallel.go:246-285 | Once a value was delivered and announced, or the supervisor ended, the context is cancelled, and a function not yet called never is |
| `Race.FirstPanicIsDelivered` | async/parallel.go:239-283 | The first panic recorded stays the recorded one and is the error delivered, if one is; two functions never both count as the winner |
| `Race.RunsAreBounded` | async/parallel.go:214-285 | Every schedule ends |
| `Pipeline.Build` | pipeline/pipeline.go:54-64 | The loop from the last stage to the first builds the right fold |
| `Pipeline.AddedStagesSitInside` | pipeline/pipeline.go:44-64 | Stages added later sit inside those already there |
| `Pipeline.WalkIsFold` | pipeline/pipeline.go:54-64 | A walk in and out of the stages, changing the command and the answer on the way and turning at a stage or at the destination, answers what the fold answers |
| `Bus.StepKeeps` | bus/bus.go:228-236 | Every step of Through, Register and Dispatch keeps the lock, cache, list and caller invariants |
| `Bus.CacheIsCurrent` | bus/bus.go:460-491 | At every instant the cached chain is absent or built from the list in force, which outside a Through's critical section is the middleware field |
| `Bus.DispatchUsesOneList` | bus/bus.go:260-301 | Every dispatch that has its chain, stopped by a stage or not, uses one list that was in force at some instant of the call: every stage added before it started, none added after it ended |
| `Bus.HandlerIsFound` | bus/bus.go:417-442 | Once the first check found a handler: a handler is called only for a command that came through the whole chain, and fits its type then; a command that kept its type always meets one, the first found if registered or without middleware; only a changed type that does not handle itself can meet none |
| `Bus.TerminalResolvesLive` | bus/bus.go:434-442 | At the terminal a handler is called exactly when the command given there has a registered handler at that instant or handles itself |
| `Bus.FirstCheckIsExact` | bus/bus.go:260-270 | The first check refuses exactly a type with no registered handler that does not handle itself |
| `Bus.CallsTakeEffect` | bus/bus.go:206-236 | A Through that returned added exactly its stages behind the others; a Register that returned left its type with a handler |
| `Bus.HitNeedsNoLock` | bus/bus.go:457-463 | A Dispatch that starts while a chain is cached has the list in force after one step, whoever holds the lock |
| `Bus.BuiltOncePerList` | bus/bus.go:457-473 | In every run a chain is built at most once for each list that was in force, however many Dispatches race for it |
| `Bus.DispatchWalks` | bus/bus.go:260-310 | Whatever the stages pass on and answer, the Dispatch returns, with that walk as its record |
| `Bus.StageCanLoseHandler` | bus/bus.go:417-442 | A run where a stage passes on a command of another type and the dispatch meets no handler though the first check found one |
| `Bus.DispatchIsFold` | bus/bus.go:260-301 | In every interleaving a dispatch answers what a fresh fold of that list around the terminal answers for its command |
| `Totp.SelectChooses` | auth/totp.go:206-211 | The masked select is the plain choice on every int64 |
| `Totp.VerifyAndConsume` | auth/totp.go:155-201 | The branch-free scan returns the earliest matching step if it is later than the last one used, and (false, 0) otherwise |
| `Totp.AcceptedIff` | auth/totp.go:155-201 | A code is accepted exactly when it is that of a later step of the window and of no step up to the last one used |
| `Totp.CollidingCodeIsRefused` | auth/totp.go:155-201 | When two adjacent steps share a code and the first was used, the code of the second is refused |
| `Totp.AcceptedStepsIncrease` | auth/totp.go:140-154 | Over every run of attempts the accepted steps strictly increase, as section 5.2 of RFC 6238 requires |
| `Totp.NextAttemptIff` | auth/totp.go:140-154 | After any attempts one more is accepted exactly when its code is that of a step of the window after the last accepted one and of none up to it, and the earliest such step is taken |
| `Totp.ReplayIsRefused` | auth/totp.go:140-201 | A code once accepted is refused as long as its step is in the window |
| `Totp.GenerateCode` | auth/totp.go:361-388 | The digits, zero-padded, write the number dynamic truncation takes from the digest, modulo the 32-bit power of ten; it panics exactly when that is zero |
| `Totp.TruncatedIs` | auth/totp.go:369-373 | The truncated number is the one whose base-256 digits are the four bytes at the offset in the digest's last nibble, the first without its top bit |
| `Totp.RfcExample` | auth/totp.go:361-388 | The worked example of section 5.4 of RFC 4226 gives 872921 |
| `Totp.NineDigitsExact` | auth/totp.go:361-388 | Up to nine digits the code is the number dynamic truncation takes from the digest (section 5.3 of RFC 4226) modulo the power of ten |
| `Totp.TenDigitsExactIff` | auth/totp.go:375-379 | From ten digits on it is, exactly for numbers below the wrapped modulus |
| `Totp.TenDigitsCanBeWrong` | auth/totp.go:375-379 | A digest whose ten-digit code is wrong |
| `Totp.PanicsFrom32` | auth/totp.go:375-379 | The modulus is zero, and the generator panics, exactly from 32 digits on |
| `Totp.ConsumeRecoveryCode` | auth/totp.go:239-268 | A code is consumed exactly when it is stored; the first match is removed and nothing else moves |

## Left out

- Signatures, HMAC, hashing, base32, JSON and bcrypt: a verified token is a record of claims, and a secret is a function from steps to codes or digests.
- The HTTP server, signals, console commands, code generation, configuration, templates and server-side rendering: input, output and plumbing.
- Swapping the blacklist or generation store during a run: one store per run. What a cache's default store and an instance's type are is fixed per run as well.
- Retrying SignOutToken with a refresh token after its bump landed: the code refuses it as stale, so the retry property is for access tokens.
- The generation check when the cache manager builds a store, and Remember on stores other than the manager's default: they add no new protocol.
- Retirement timers, the wait for retirements and the close of parked databases: starting a close is one step. The event and logger sweeps and the session scheme refresh of a boundary are wiring.
- Tokens of the package-state stack are the apps' entries, not pointers.
- Module calls that panic, and the teardown's draining of servers, schedulers and queues: modules return errors, and a teardown step is its module and component part.
- Functions handed to the parallel helpers that depend on one another or never return; ForEach, GoForEach and RaceWithTimeout: easy variants, or timing.
- Shared and flashed props, and the values behind props: a prop's value is a number and its function answers once per response.
- Bus events, queued dispatch and factories: not part of the cached chain. A stage calls the next at most once, and does not panic.
- A login throttler without a store: it counts nothing and admits everyone.
- Base32 secrets that do not decode: VerifyAndConsume answers (false, 0) before the modelled part.
- Verify without replay protection: the same window scan with fewer promises.
- Totp.ConsumeRecoveryCode: the index select is a plain choice; the masks are modelled for int64 in Totp.ConstantTimeSelect.
- Access rules, collections, broadcasting, redirects, sessions and cookies: easy members, or decided in code that is not part of this model.
