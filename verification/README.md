# Verification of the commission, identity and provider services

A Dafny model of the stateful core of the platform, and proofs of what that core guarantees.
`dafny verify dfyconfig.toml` checks everything.

## What is modelled

* **Canonical texts** (`Text`). What trimming and upper-casing do to a text, on which all keys and
  comparisons of the services rest.
* **Commission hierarchy** (`Graph`, `HierarchyTable`, `HierarchyWalks`, `HierarchyService`,
  `HierarchySafety`, `HierarchyRequests`, `HierarchyEffects`, `HierarchyDepth`,
  `HierarchyInterleaving`). Parent/child edges with service scopes and a global fallback. The two
  bounded walks are loops proved against an unbounded description of the parent chain; create,
  update and delete are methods of a class; safety is proved over all sequences of calls, and for
  the unique indexes over all interleavings of reads and writes. `HierarchyRequests` goes from a
  request to the answer it leads to.
* **Cache, login limiter, OTP** (`Redis`, `CacheServices`, `LoginLimiter`, `LoginAddresses`,
  `LoginInterleaving`, `LoginOverlapRuns`, `OtpServices`, `OtpLocks`, `OtpProtocol`, `OtpTallies`,
  `OtpAttempts`, `OtpDeletions`, `OtpGuessRuns`, `OtpCutIn`). A key-value store with expiry; the
  limiter and the OTP service as classes over it, with laws over all runs of their calls; and
  overlapping logins and the OTP protocol as timed state machines over single Redis and database
  steps.
* **Sessions and refresh** (`Sessions`, `RefreshProtocol`), **credentials and onboarding**
  (`Credentials`, `CredentialProtocol`, `CredentialColumns`, `OnboardingRuns`), **login IDs**
  (`Digits`, `LoginIds`, `Registration`). Transactions that commit or roll back, and stale reads
  followed by guarded writes in every interleaving.
* **Commission rules and distributions** (`RuleScopes`, `CommissionRules`, `RuleInterleaving`,
  `Distributions`, `DistributionInterleaving`): tables under canonical keys.
* **Role permissions** (`Authorization`) and **AEPS merchant profiles** (`MerchantProfiles`,
  `MerchantInterleaving`).

A class method does what the service method does when its calls do not overlap. The `...Protocol`
and `...Interleaving` modules split calls into reads and writes and let the parts of different
calls run in any order; they use the same guards and effects as the classes.

## Results that differ from what one would expect

* The two walks of the hierarchy disagree by one: a child whose parent's chain has exactly 19
  edges is accepted and then cannot be resolved (`AcceptedChildResolves`). Twenty creations from
  the root down get there (`GuardAcceptsTooDeep`).
* A service's effective graph can become cyclic: through a global edge, and through every call
  that takes a service edge away and so reveals the global one, be it a deletion, a deactivation
  by update, or a move to another scope. None of them runs a walk over that service.
  `EffectiveStaysAcyclicIff` says for every call and every service exactly when the graph stays
  acyclic; `GlobalEdgeCanCloseCycle`, `DeletionRevealsCycle`, `DeactivationRevealsCycle` and
  `MoveRevealsCycle` give reachable cases. Overlapping creations can close a cycle even within one
  scope (`ConcurrentCreationsCanCloseCycle`, exact condition in `LateWriteSafeIff`).
* More wrong guesses than the maximum can be hashed against an OTP, even if calls never overlap,
  for two reasons. A guess is hashed before it is counted, so it costs nothing if the increment
  fails, and any number of guesses can be lost that way (`DroppedGuessesCostNothing`). And the
  expiry is checked before the attempts counter is read, which may expire in between; if the call
  that reached the maximum failed to delete the state, this admits one guess more, counted once
  the OTP has expired. Together that is all: besides those lost, at most the maximum and one are
  hashed, and the bound is attained (`SequentialGuessesAreBounded`, `HashedBeforeExpiry`,
  `MaximumIsExceeded`); the maximum is kept if the deletions work (`DeletionKeepsMaximum`). After
  the maximum of counted guesses none succeeds (`WinsBelowMaximum`, `ExhaustedNeverSucceeds`).
* If calls do not overlap: a verification that cannot reach the cache to release its lock blocks
  those of its subject for 30 seconds from its start, and nothing else does
  (`RefusedAsInProgressIff`); a send that could not hand over its message makes nobody wait
  (`HasToWaitIff`).
* A send that cuts in on a verification leaves the new OTP a counter that expires too early. It
  admits at least 2 * max - 2 counted guesses if every deletion works, and 2 * max - 1 if not
  (`CutInExceedsThoughDeleted`, `CutInExceeds`).
* The limiter allows up to 2 * max - 2 recorded failures in an interval that is no longer than the
  window and the lock time, and that number is reached (`FailureBound`, `BoundIsAttained`). The
  same holds for an address and its own maximum, except that no successful login resets it
  (`AddressFailureBound`, `AddressBoundIsAttained`, `MaximumLocksIff`). Logins that overlap add to
  it: those let through before a lock compare their passwords under it. With at most k past the
  check and unfinished at once, it is the larger of 2 * max - 3 + k and max - 2 + 2 * k wrong
  passwords, again reached, and a login that stops midway stays among the k (`TriesAreBounded`,
  `TriesBoundIsAttained`).
* Both bounds leave out the logins let through in the last half second of a lock, and there is
  none for these: the lock's remaining lifetime reads zero there, so the check passes, while
  setting the lock again has no effect (`UnseenOnlyAtTheEnd`, `LetThroughOnlyAtTheEnd`,
  `UnseenFailuresAreUnlimited`).
* A rule's key is built from `toFixed(2)` of the binary number, its columns from the decimal
  number. For 1.005 the two differ, so the stored rule is not under the key of its stored scope
  and a second rule with the same stored scope is accepted. `OwnKeyIffAmountsAgree`,
  `ScopesStayUnique` and `DisagreementSplitsAScope` give the exact condition.
* Reactivating a distribution writes the role but not the key. If the row's role was changed since
  the lookup, the key no longer describes the row (`WriteKeepsKeysIffTimely`), and if another row
  has that rule and role by then, the rule has two rows of one role (`WriteKeepsOnePerRoleIff`,
  `UntimelyWriteDuplicates`). The comments of the service promise one row per rule and role.
* Role prefixes may contain digits. If one prefix continues another with a numeral (A and A1) and
  the counters reach far enough, some role generates a login ID that is taken; the transaction
  rolls its counter back, so from then on every creation for that role fails (`NoRunIsRefusedIff`,
  `RefusedForever`, `UsualStartsGetStuck`). Only a role that has no account yet gets out of it, by
  another prefix.
* A merchant profile's registration that overlaps with a preparation can be forgotten, and the
  provider asked again; `RegistrationStaysIff` and `AsksIff` say by exactly which calls, and
  `LateStartOverForgets` and `LatePreparationAsks` give runs.

## Assumptions

* SHA-256 is injective: a digest is represented by its pre-image. HMAC is an arbitrary function
  that is required to be injective where tokens must not be confused. A password, MPIN or OTP
  matches a hash exactly if it is the hashed one; hashes of passwords and MPINs are salted, so a
  newly computed one never occurred before.
* Generated UUIDs, CUIDs and tokens were never used before.
* Prisma's `updateMany` is one atomic compare-and-set, `$transaction` is atomic and rolls back on
  an exception, and a unique column refuses a second row with the same value.
* Time is in milliseconds and never runs backwards.
* Redis keys have the types the services give them, so INCR never meets a non-number.
* `toUpperCase` and `toLowerCase` are modelled on ASCII letters, `trim` on all white space that
  JavaScript removes.
* An amount column rounds the shortest decimal text of the number half up. That text preserves
  order and reproduces numbers of at most four decimals; a stored amount read back as a number is
  taken to be exact. Numbers of 10^21 and more, which `toFixed` writes differently, are outside.
* `localeCompare` is a total order on permission and package codes in which only equal codes tie.
* Role prefixes do not change. The service refuses that once a role has identities
  (apps/auth-service/src/role/role.service.ts:91-99); before that it is possible.
* Configuration values are positive integers, as the services' own readers of configuration make
  sure. Attempt counters do not reach the limits of their integers; a role's counter may, and a
  creation beyond its limit fails and is rolled back.

## Model

| member | source | states |
|---|---|---|
| `Text.TrimIs` | apps/commission-service/src/commission/commission-hierarchy.service.ts:48-56 | trimming removes exactly the outer white space |
| `Text.CodesAgreeIff` | apps/commission-service/src/commission/commission-hierarchy.service.ts:38-46 | two texts have one code iff they are the same up to case and outer white space |
| `Text.CodeIs` | apps/commission-service/src/commission/commission-hierarchy.service.ts:38-46 | the code of a text is its only variant without outer white space and without lower-case letters |
| `Text.NameIs` | apps/auth-service/src/identity/identity.service.ts:605-606 | the same for user names and e-mail addresses with lower case |
| `HierarchyTable.ActiveScopeKeyInjective` | apps/commission-service/src/commission/commission-hierarchy.service.ts:80-87 | for ids and scopes without a bar and no scope "*", two active-scope keys are equal exactly when child and scope are |
| `HierarchyTable.RelationshipKeyInjective` | apps/commission-service/src/commission/commission-hierarchy.service.ts:64-75 | the same for parent, child and scope of a relationship key |
| `HierarchyTable.StarScopeCollides` | apps/commission-service/src/commission/commission-hierarchy.service.ts:80-87 | without that condition it fails: scope "*" and the global scope have one key |
| `HierarchyTable.StoringKeepsIndexed` | apps/commission-service/src/commission/commission-hierarchy.service.ts:275-301 | storing a row whose two keys are free keeps both unique indexes and the agreement of flag and keys |
| `HierarchyTable.OneActiveParent` | apps/commission-service/src/commission/commission-hierarchy.service.ts:223-270 | at most one active row per child and scope |
| `HierarchyTable.EffectiveIsFunctional` | apps/commission-service/src/commission/commission-hierarchy.service.ts:100-129 | a child has at most one effective parent, its own or else the global one |
| `HierarchyTable.FindFirstAgreesWithKey` | apps/commission-service/src/commission/commission-hierarchy.service.ts:100-129 | finding a row by child, scope and active flag finds the same row as looking it up by its active-scope key |
| `HierarchyService.Proposed` | apps/commission-service/src/commission/commission-hierarchy.service.ts:195-222 | the row of a create request has the trimmed parent and child, each with its own role in canonical form, the canonical service or none, and is active unless the request says no; its keys are those of its fields |
| `HierarchyService.ProposedErrors` | apps/commission-service/src/commission/commission-hierarchy.service.ts:195-211 | otherwise the first blank field is reported, or that parent and child are the same |
| `HierarchyService.Moved` | apps/commission-service/src/commission/commission-hierarchy.service.ts:560-578 | an update leaves parent, child and both roles alone, stores the given service in canonical form and the given flag, keeps what is not given, and recomputes both keys |
| `HierarchyService.CommissionHierarchyService.FindActive` | apps/commission-service/src/commission/commission-hierarchy.service.ts:100-129 | finds an own active row of the child if there is one |
| `HierarchyService.CommissionHierarchyService.ResolveParentRecord` | apps/commission-service/src/commission/commission-hierarchy.service.ts:100-129 | returns the one effective parent of the child, or says that it has none |
| `HierarchyService.CommissionHierarchyService.AssertNoCircularHierarchy` | apps/commission-service/src/commission/commission-hierarchy.service.ts:147-187 | each verdict exactly: accepted iff the parent's effective chain ends within 19 edges and never meets the child; circular at u iff the walk first repeats at u; too deep iff neither within 20 steps |
| `HierarchyService.CommissionHierarchyService.FollowParents` | apps/commission-service/src/commission/commission-hierarchy.service.ts:443-508 | the loop returns exactly the whole parent chain, or the user it runs into again, or the depth error |
| `HierarchyService.CommissionHierarchyService.ResolveHierarchyForUser` | apps/commission-service/src/commission/commission-hierarchy.service.ts:426-508 | validates its arguments, then succeeds iff the chain ends within 19 edges; the result is the whole chain, levels 0, 1, 2, ..., each entry the effective parent of the one before with that edge's role, users distinct, the last one parentless |
| `HierarchyWalks.ClearExcludes` | apps/commission-service/src/commission/commission-hierarchy.service.ts:147-187 | an accepted walk excludes the circular and the depth verdict |
| `HierarchyWalks.RepeatExcludes` | apps/commission-service/src/commission/commission-hierarchy.service.ts:147-187 | a walk that meets a visited user within the limit is reported at that user only |
| `HierarchyWalks.OverlongExcludes` | apps/commission-service/src/commission/commission-hierarchy.service.ts:147-187 | a walk of 20 fresh steps is neither accepted nor circular |
| `HierarchyWalks.ChainMeansResolvable` | apps/commission-service/src/commission/commission-hierarchy.service.ts:443-508 | a finite parent chain is resolvable iff it has at most 19 edges, else too long, and never circular |
| `HierarchyWalks.LassoMeansNotResolvable` | apps/commission-service/src/commission/commission-hierarchy.service.ts:443-508 | a chain that runs into itself within the limit is reported at exactly that user |
| `HierarchyWalks.LongPathMeansTooLong` | apps/commission-service/src/commission/commission-hierarchy.service.ts:443-508 | 20 edges without repetition mean the depth error and nothing else |
| `HierarchyService.CommissionHierarchyService.FindByRelationshipKey` | apps/commission-service/src/commission/commission-hierarchy.service.ts:223-240 | a row with this key, if any |
| `HierarchyService.CommissionHierarchyService.FindByActiveScopeKey` | apps/commission-service/src/commission/commission-hierarchy.service.ts:241-270 | a row with this key, if any |
| `HierarchyService.CommissionHierarchyService.CreateHierarchy` | apps/commission-service/src/commission/commission-hierarchy.service.ts:195-348 | stores a row with exactly the requested fields, each user with its own role, iff it is valid, its keys are free and, if active, the walk accepts it; otherwise nothing changes and the error names the first reason, with the row in the way or the user met again |
| `HierarchyService.CommissionHierarchyService.UpdateHierarchy` | apps/commission-service/src/commission/commission-hierarchy.service.ts:560-664 | moves or (re)activates a row under the same condition; parent, child and roles stay, the given service and flag are stored, the errors are exact |
| `HierarchyService.CommissionHierarchyService.DeleteHierarchy` | apps/commission-service/src/commission/commission-hierarchy.service.ts:672-698 | switches the row off and clears its active-scope key, every other field stays; idempotent |
| `Graph.RedirectAcyclicIff` | apps/commission-service/src/commission/commission-hierarchy.service.ts:147-187 | replacing a user's parent edge leaves the graph acyclic iff every old cycle went through that user and the new parent does not lead back to it |
| `HierarchySafety.ClearMeansUnreachable` | apps/commission-service/src/commission/commission-hierarchy.service.ts:147-187 | the bounded walk is enough: an accepted parent reaches the child by no path of any length |
| `HierarchySafety.StoringKeepsSafe` | apps/commission-service/src/commission/commission-hierarchy.service.ts:275-301 | one accepted write keeps every scope a forest |
| `HierarchySafety.EveryScopeStaysAcyclic` | apps/commission-service/src/commission/commission-hierarchy.service.ts:147-187 | over every sequence of create, update and delete calls the global edges, and for each service its own edges, stay acyclic and uniquely indexed; moves between scopes and reactivations included |
| `HierarchySafety.EffectiveCycleIsMixed` | apps/commission-service/src/commission/commission-hierarchy.service.ts:100-129 | every cycle of an effective graph in a reachable state has at least one edge that is not the service's own and one that is not global |
| `HierarchySafety.ActivationAcyclicIff` | apps/commission-service/src/commission/commission-hierarchy.service.ts:560-664 | after activating an edge in service s, by create or update, s's effective graph is acyclic iff all its cycles went through the child before |
| `HierarchySafety.GlobalActivationEffect` | apps/commission-service/src/commission/commission-hierarchy.service.ts:275-301 | what a global edge does to the effective graph of a service |
| `HierarchySafety.GlobalActivationAcyclicIff` | apps/commission-service/src/commission/commission-hierarchy.service.ts:275-301 | a global edge keeps a service's effective graph acyclic iff the child has its own edge there or the new parent does not lead back; the code does not check this |
| `HierarchySafety.DeletionReveals` | apps/commission-service/src/commission/commission-hierarchy.service.ts:672-698 | deleting a service edge puts the child's global edge in its place |
| `HierarchySafety.DeleteAcyclicIff` | apps/commission-service/src/commission/commission-hierarchy.service.ts:672-698 | deleting a service edge keeps the effective graph acyclic iff the revealed global parent does not lead back; the code does not check this |
| `HierarchySafety.GlobalEdgeCanCloseCycle` | apps/commission-service/src/commission/commission-hierarchy.service.ts:275-301 | a two-call run whose effective graph has a cycle |
| `HierarchySafety.AcceptedChildResolves` | apps/commission-service/src/commission/commission-hierarchy.service.ts:468-505 | an accepted child resolves to itself and its parent's chain iff that chain has at most 18 edges; with exactly 19 the guard accepts and resolving fails |
| `HierarchyRequests.CreatedIsFound` | apps/commission-service/src/commission/commission-hierarchy.service.ts:426-508 | end to end: after an accepted active creation for a service, resolving the child under any spelling of that service, in another case or with white space around it, answers the requested parent in the requested role and then the parents that parent had, or the depth error iff those are 19 edges |
| `HierarchyRequests.GlobalIsFound` | apps/commission-service/src/commission/commission-hierarchy.service.ts:100-129 | and after a global one, under every service for which the child has no parent of its own |
| `HierarchyRequests.UpdatedIsFound` | apps/commission-service/src/commission/commission-hierarchy.service.ts:560-664 | and after an accepted update that moves or reactivates a row, under every spelling of the service the row then has |
| `HierarchyDepth.CreationsBuild` | apps/commission-service/src/commission/commission-hierarchy.service.ts:195-348 | for any different users whose rows have different keys, creations from the root down are all accepted up to a chain of 20 edges, and the last user resolves iff it has at most 19 |
| `HierarchyDepth.GuardAcceptsTooDeep` | apps/commission-service/src/commission/commission-hierarchy.service.ts:147-187 | so the failing case is reachable: after 19 such creations the parent resolves, the twentieth is stored and its child is too deep to resolve, the twenty-first is refused |
| `HierarchyDepth.LadderExists` | apps/commission-service/src/commission/commission-hierarchy.service.ts:195-222 | there are such users and requests, in any number, globally and for a service |
| `HierarchySafety.LateWriteSafeIff` | apps/commission-service/src/commission/commission-hierarchy.service.ts:275-301 | a write made after its check is outdated keeps the scopes forests iff at that moment the parent does not lead back to the child in the row's own scope |
| `HierarchyEffects.ChangeIsStored` | apps/commission-service/src/commission/commission-hierarchy.service.ts:195-698 | every call stores at most one row, whose keys are free, whose child is that of the row before, and which the walk has checked if it is active |
| `HierarchyEffects.StoringAcyclicIff` | apps/commission-service/src/commission/commission-hierarchy.service.ts:100-129 | one write seen from any service: its effective graph is acyclic afterwards iff all its cycles went through the child and the parent the child then has there does not lead back to it |
| `HierarchyEffects.EffectiveStaysAcyclicIff` | apps/commission-service/src/commission/commission-hierarchy.service.ts:609-628 | for every create, update and delete and every scope s: an acyclic effective graph of s stays acyclic iff the call is refused, or stores an active row of s itself, or the parent the child has in s afterwards does not lead back; deactivation by update and moves between scopes included |
| `HierarchyEffects.ThreeCreated` | apps/commission-service/src/commission/commission-hierarchy.service.ts:195-348 | three accepted creations build the table of the next three rows |
| `HierarchyEffects.DeletionRevealsCycle` | apps/commission-service/src/commission/commission-hierarchy.service.ts:672-698 | deleting a service edge there closes a cycle in the effective graph |
| `HierarchyEffects.DeactivationRevealsCycle` | apps/commission-service/src/commission/commission-hierarchy.service.ts:560-664 | so does deactivating it by an update |
| `HierarchyEffects.MoveRevealsCycle` | apps/commission-service/src/commission/commission-hierarchy.service.ts:560-664 | so does moving it to another service |
| `HierarchyInterleaving.UndisturbedCall` | apps/commission-service/src/commission/commission-hierarchy.service.ts:195-698 | a call whose checks pass and which nothing disturbs between its reads and its write does what the method does |
| `HierarchyInterleaving.IndexesSurviveInterleaving` | apps/commission-service/src/commission/commission-hierarchy.service.ts:223-270 | under any interleaving of reads and writes a row is active iff its active-scope key is set, and a child has at most one active parent per scope |
| `HierarchyInterleaving.KeysDescribeRows` | apps/commission-service/src/commission/commission-hierarchy.service.ts:64-87 | and both keys of every row are those of its own parent, child and scope, and unique |
| `HierarchyInterleaving.ConcurrentCreationsCanCloseCycle` | apps/commission-service/src/commission/commission-hierarchy.service.ts:275-301 | two creations that both pass their checks before either writes store a cycle |
| `CacheServices.Ceil` | libs/cache/src/cache.service.ts:226-231 | the least integer not below its argument |
| `CacheServices.CacheService.NormalizeTtl` | libs/cache/src/cache.service.ts:226-231 | rounds a positive lifetime up to whole seconds and refuses others |
| `CacheServices.CacheService.Get` | libs/cache/src/cache.service.ts:12-23 | an expired entry is as good as absent |
| `CacheServices.CacheService.Set` | libs/cache/src/cache.service.ts:25-34 | stores with a lifetime |
| `CacheServices.CacheService.Del` | libs/cache/src/cache.service.ts:36-44 | removes the keys |
| `CacheServices.CacheService.Ttl` | libs/cache/src/cache.service.ts:49-51 | the remaining lifetime in seconds, rounded to the nearest, -2 for no key |
| `CacheServices.CacheService.IncrementWithExpiry` | libs/cache/src/cache.service.ts:66-81 | counts up and starts the window on the first increment only |
| `CacheServices.CacheService.SetIfNotExists` | libs/cache/src/cache.service.ts:107-124 | sets and succeeds iff the key is absent or expired |
| `CacheServices.CacheService.DeleteIfValueMatches` | libs/cache/src/cache.service.ts:154-167 | removes the key iff it is live and holds the expected value |
| `LoginLimiter.KeyTextInjective` | apps/auth-service/src/auth/auth.service.ts:1525-1549 | the four kinds of limiter keys never coincide |
| `LoginLimiter.AuthService.CheckLoginRateLimit` | apps/auth-service/src/auth/auth.service.ts:1566-1608 | refuses iff at least half a second is left of the lock of the identifier or of the address, and names the longer remaining time, rounded to seconds |
| `LoginLimiter.AuthService.RecordFailedLoginAttempt` | apps/auth-service/src/auth/auth.service.ts:1610-1689 | counts one more failure on the identifier and on the address, each in its own window, and locks each of them exactly if that failure reaches its own limit, maxAttempts or maxIpAttempts, and it is not locked already |
| `LoginAddresses.AddressFailureBound` | apps/auth-service/src/auth/auth.service.ts:1610-1689 | in every run of logins one after the other, successful ones included, an interval no longer than window and lock time holds at most 2 * maxIp - 2 recorded failures from an address (1 if maxIp is 1), not counting those recorded while its lock lasts |
| `LoginAddresses.AddressUnseenOnlyAtTheEnd` | apps/auth-service/src/auth/auth.service.ts:1571-1582 | and one is recorded while that lock lasts iff the lock ends after the count and less than half a second after the check |
| `LoginAddresses.BelowMaximumNotRefused` | apps/auth-service/src/auth/auth.service.ts:1620-1623 | after every run in which no window held maxIp failures from an address, no login is refused for its address |
| `LoginAddresses.MaximumLocksIff` | apps/auth-service/src/auth/auth.service.ts:1650-1669 | the failure that makes maxIp in its window, and no earlier one, locks the address, for the lock time; every login from there is then refused until half a second before its end |
| `LoginAddresses.AddressBoundIsAttained` | apps/auth-service/src/auth/auth.service.ts:1610-1689 | for every configuration a run of failed logins for different identifiers attains the bound for addresses within two milliseconds |
| `LoginLimiter.AuthService.ClearLoginAttempts` | apps/auth-service/src/auth/auth.service.ts:1691-1710 | removes the identifier's counter and lock and nothing else |
| `LoginLimiter.FailureBound` | apps/auth-service/src/auth/auth.service.ts:1566-1710 | in every run of logins one after the other, an interval no longer than window and lock time without a successful login of the identifier holds at most 2 * max - 2 of its recorded failures (1 if max is 1), not counting those recorded while its lock lasts |
| `LoginLimiter.UnseenOnlyAtTheEnd` | apps/auth-service/src/auth/auth.service.ts:1571-1582 | and a failure is recorded while the lock lasts iff the lock ends after the count and less than half a second after the check |
| `LoginLimiter.BoundIsAttained` | apps/auth-service/src/auth/auth.service.ts:1566-1710 | for every configuration a run of failed logins only attains that bound within two milliseconds |
| `LoginLimiter.UnseenFailuresAreUnlimited` | apps/auth-service/src/auth/auth.service.ts:1571-1582 | in the last half second of a lock the limiter does not limit: for every configuration and n, a run records n failures within one millisecond |
| `LoginInterleaving.UndisturbedFailure` | apps/auth-service/src/auth/auth.service.ts:452-501 | a wrong password that no delay and no other call disturbs leaves the store as the failure of a sequential login does |
| `LoginInterleaving.TriesAreBounded` | apps/auth-service/src/auth/auth.service.ts:452-501 | in every interleaving of the single steps of overlapping logins, any of which may stop midway: if at most k logins of an identifier are past the check and unfinished at once, such an interval holds at most the larger of 2 * max - 3 + k and max - 2 + 2 * k comparisons with a wrong password, not counting logins that were let through while its lock lasted |
| `LoginInterleaving.LetThroughOnlyAtTheEnd` | apps/auth-service/src/auth/auth.service.ts:1571-1582 | and a login is let through while the lock lasts iff less than half a second is left of it |
| `LoginOverlapRuns.TriesBoundIsAttained` | apps/auth-service/src/auth/auth.service.ts:452-501 | for every configuration and k a run with at most k unfinished at once attains that bound; so without a limit on k there is none |
| `OtpServices.KeyTextInjective` | apps/auth-service/src/otp/otp.service.ts:81-121 | the four cache keys of all subjects are pairwise different texts |
| `OtpServices.RemainingTtl` | apps/auth-service/src/otp/otp.service.ts:137-144 | the rounded-up lifetime never ends before the OTP does, and less than a second after it |
| `OtpServices.CounterIsExact` | apps/auth-service/src/otp/otp.service.ts:456-500 | while a cached OTP lasts, the live counter is the number of wrong guesses counted against it |
| `OtpServices.OkWrongGuess` | apps/auth-service/src/otp/otp.service.ts:495-500 | counting a wrong guess keeps the counter exact even if its key had expired |
| `OtpServices.OtpService.DeleteOtpState` | apps/auth-service/src/otp/otp.service.ts:178-192 | removes the record and the counter |
| `OtpServices.OtpService.AcquireLock` | apps/auth-service/src/otp/otp.service.ts:252-283 | takes a lock iff it is free: the key then holds the token for the given seconds |
| `OtpServices.OtpService.ReleaseLock` | apps/auth-service/src/otp/otp.service.ts:564-568 | removes a lock iff it is live and holds the token, and nothing else |
| `OtpServices.OtpService.DeleteUnverified` | apps/auth-service/src/otp/repository/otp.repository.ts:38-46 | removes exactly the subject's unverified rows |
| `OtpServices.OtpService.Issue` | apps/auth-service/src/otp/otp.service.ts:299-319 | a pending row with the code's hash, created now, cached for its lifetime rounded up to a second, with no guess counted |
| `OtpServices.OtpService.SendUnderCooldown` | apps/auth-service/src/otp/otp.service.ts:285-382 | the subject's pending rows are replaced by the new one; if the message cannot be handed over, the row, the cached OTP and the cooldown are gone again |
| `OtpServices.OtpService.SendOtp` | apps/auth-service/src/otp/otp.service.ts:194-382 | the outcome exactly, in the order of the checks; a refusal changes nothing, a success leaves the new row the only pending one of its subject and holds the cooldown from its start, after a failed hand-over the cooldown is free |
| `OtpServices.OtpService.MarkVerifiedIfPending` | apps/auth-service/src/otp/repository/otp.repository.ts:55-68 | marks iff the row is pending and not expired |
| `OtpServices.OtpService.RejectGuess` | apps/auth-service/src/otp/otp.service.ts:495-519 | counts a wrong guess and withdraws the OTP at the maximum, and only there; if the increment fails, the guess has been hashed and nothing changes |
| `OtpServices.OtpService.AcceptGuess` | apps/auth-service/src/otp/otp.service.ts:521-546 | succeeds iff the row is still pending, and withdraws the OTP in either case |
| `OtpServices.OtpService.VerifyLocked` | apps/auth-service/src/otp/otp.service.ts:425-546 | a success consumes a pending row with the guess's hash below the maximum; before expiry the right guess succeeds iff the row is pending and a wrong one is counted, below the maximum, unless the increment fails; only once the OTP has expired can one more be counted |
| `OtpServices.OtpService.VerifyOtp` | apps/auth-service/src/otp/otp.service.ts:384-578 | the same behind the lock: it is refused as "in progress" exactly if the lock is held, and then changes nothing; otherwise the lock is free when it is done, or, if the cache does not answer, still holds its token for 30 seconds from the start |
| `OtpLocks.RefusedAsInProgressIff` | apps/auth-service/src/otp/otp.service.ts:404-423 | over all runs of calls that do not overlap: a verification is refused as in progress iff an earlier one of the same subject began less than 30 seconds ago and could not release its lock |
| `OtpLocks.HasToWaitIff` | apps/auth-service/src/otp/otp.service.ts:228-283 | and a send that the registration status allows has to wait iff an earlier one to the same subject succeeded and created its OTP less than the cooldown ago |
| `OtpLocks.NextVerification` | apps/auth-service/src/otp/otp.service.ts:564-568 | from any state: the second of two successive verifications is refused only if the first found the lock held or could not release it |
| `OtpProtocol.UndisturbedGuess` | apps/auth-service/src/otp/otp.service.ts:404-546 | a guess whose steps nothing disturbs wins exactly if it is right and the row is pending |
| `OtpProtocol.AtMostOneSuccess` | apps/auth-service/src/otp/otp.service.ts:404-546 | in every interleaving of the single steps of sends and verifications, lock expiry mid-call included, each OTP verifies at most once |
| `OtpProtocol.PurgedNeverVerified` | apps/auth-service/src/otp/otp.service.ts:285-319 | an OTP unverified when a later send deletes the unverified rows never verifies, not even for a call that has already compared its hash, nor if its own send puts it into the cache only then |
| `OtpProtocol.OneLockHolder` | apps/auth-service/src/otp/otp.service.ts:404-423 | at most one unexpired holder of the verification lock, and the key carries its token |
| `OtpProtocol.StaleReleaseIsHarmless` | apps/auth-service/src/otp/otp.service.ts:564-568 | a release by a caller whose lock expired changes nothing for the holder |
| `OtpProtocol.SuccessfulSendsApart` | apps/auth-service/src/otp/otp.service.ts:252-283 | the lock acquisitions of two successful sends for one key are at least the cooldown apart |
| `OtpTallies.HashedGuessesAreAccounted` | apps/auth-service/src/otp/otp.service.ts:473-500 | in every interleaving the wrong guesses hashed against an OTP are exactly those counted in time, those counted late, those dropped because their call failed before the increment, and those whose call has yet to count |
| `OtpAttempts.GuessesAreBounded` | apps/auth-service/src/otp/otp.service.ts:435-519 | in every orderly run at most the maximum of wrong guesses is counted against an OTP by calls that read the attempts before it expired, and at most one by a call that read them after; besides those lost, whose call failed or stopped between hash and increment, at most the maximum is hashed, and one more once the OTP has expired |
| `OtpAttempts.HashedBeforeExpiry` | apps/auth-service/src/otp/otp.service.ts:473-500 | a wrong guess hashed before the OTP expires finds fewer than the maximum counted and all other hashed ones lost; it exceeds the maximum iff those lost are at least as many as the counts left |
| `OtpAttempts.WinsBelowMaximum` | apps/auth-service/src/otp/otp.service.ts:521-546 | every success comes before the maximum is reached and before any late guess |
| `OtpAttempts.ExhaustedNeverSucceeds` | apps/auth-service/src/otp/otp.service.ts:435-546 | after the maximum of wrong guesses an OTP is never verified again in an orderly run, the right code included |
| `OtpAttempts.SequentialGuessesAreBounded` | apps/auth-service/src/otp/otp.service.ts:404-578 | runs in which no two calls overlap are orderly, so both bounds, on counted and on hashed guesses, hold for them |
| `OtpAttempts.GuessesWithinLocksAreBounded` | apps/auth-service/src/otp/otp.service.ts:404-423 | so are runs in which verifications overlap but each works only within its 30-second lock, and no send cuts in: both bounds hold for them, too |
| `OtpGuessRuns.DroppedGuessesCostNothing` | apps/auth-service/src/otp/otp.service.ts:473-500 | for every configuration, lifetime and n, a run without overlap hashes n wrong guesses before the OTP expires and counts none |
| `OtpGuessRuns.MaximumIsExceeded` | apps/auth-service/src/otp/otp.service.ts:435-457 | for every configuration, lifetime and d, a run without overlap attains the bound on hashed guesses: it drops d, counts the maximum, and counts one more, since the expiry is checked before the counter is read and the deletion at the maximum failed |
| `OtpDeletions.DeletionKeepsMaximum` | apps/auth-service/src/otp/otp.service.ts:495-519 | in orderly runs in which a call that reaches the maximum always deletes the state next, the counted guesses, late ones included, are at most the maximum, and so are the hashed ones besides those lost |
| `OtpCutIn.CutInExceeds` | apps/auth-service/src/otp/otp.service.ts:285-319 | outside the orderly runs the bound fails: a run in which a send cuts in on a verification, and the deletions at the maximum fail, counts 2 * max - 1 wrong guesses against the new OTP before it expires |
| `OtpCutIn.CutInExceedsThoughDeleted` | apps/auth-service/src/otp/otp.service.ts:285-319 | with a maximum of at least two, and every call that reaches the maximum deleting the state, such a run still counts 2 * max - 2 |
| `Sessions.MatchIsCondition` | apps/auth-service/src/session/session.service.ts:44-88 | the comparison in memory and the database condition accept the same tokens, legacy rows included |
| `Sessions.AcceptsOnlyItsToken` | apps/auth-service/src/session/session.service.ts:44-88 | a stored hash or legacy token accepts the token it stands for and no other |
| `Sessions.SessionService.Create` | apps/auth-service/src/session/session.service.ts:106-128 | stores the hash, never the token |
| `Sessions.SessionService.FindValidSessionById` | apps/auth-service/src/session/session.service.ts:526-579 | finds iff owner, revocation, expiry and token all fit |
| `Sessions.SessionService.RotateRefreshToken` | apps/auth-service/src/session/session.service.ts:173-193 | compare-and-set: replaces the token iff the row still accepts the current one, and changes nothing else but the time of use |
| `Sessions.SessionService.Revoke` | apps/auth-service/src/session/session.service.ts:130-142 | revokes one session |
| `Sessions.SessionService.RevokeAll` | apps/auth-service/src/session/session.service.ts:144-159 | leaves no unrevoked session of the identity; the count is the rows flipped |
| `Sessions.SessionService.RevokeUserSession` | apps/auth-service/src/session/session.service.ts:236-331 | revokes iff the session is the identity's and usable |
| `Sessions.SessionService.RevokeOtherSessions` | apps/auth-service/src/session/session.service.ts:333-415 | afterwards the calling session is the identity's only usable one; the count is the rows flipped |
| `Sessions.SessionService.RevokeAllUserSessions` | apps/auth-service/src/session/session.service.ts:417-505 | afterwards the identity has no usable session |
| `RefreshProtocol.RotationsFormOneChain` | apps/auth-service/src/auth/auth.service.ts:714-774 | for every interleaving of finds, rotations, logins and revocations, the successful rotations of a session form one chain, each token is consumed once, and a consumed one is accepted neither in memory nor by the database |
| `RefreshProtocol.UndisturbedRefreshRotatesIff` | apps/auth-service/src/auth/auth.service.ts:714-774 | a refresh that nothing disturbs rotates exactly if its session accepts the presented token |
| `RefreshProtocol.NewSessionRefreshes` | apps/auth-service/src/auth/auth.service.ts:714-774 | a new session can be refreshed any number of times before it expires, each time with the token that the refresh before drew |
| `RefreshProtocol.RevokedNeverRotates` | apps/auth-service/src/session/session.service.ts:173-193 | a revoked session stays revoked and never rotates again |
| `Credentials.IdentityService.SetPhoneForOnboarding` | apps/auth-service/src/identity/identity.service.ts:1096-1129 | stores the trimmed number, unverified, at stage PHONE_PENDING, and nothing else, iff the account is active, unverified, not completed and the number is free; the error is exact |
| `Credentials.IdentityService.MarkOnboardingPhoneVerified` | apps/auth-service/src/identity/identity.service.ts:1131-1171 | marks the phone and moves to PAN_PENDING, and nothing else, iff the number is still the expected one and the stage is PHONE_PENDING |
| `Credentials.IdentityService.AddPanForIdentityOnboarding` | apps/auth-service/src/identity/identity.service.ts:1208-1235 | stores the canonical PAN of the request, moves to CREDENTIAL_CHANGE_REQUIRED, and changes nothing else, iff the stage is PAN_PENDING with a verified phone and the PAN is free; the error is exact |
| `Credentials.OnlyCallerStaysSignedIn` | apps/auth-service/src/identity/identity.service.ts:827-841 | after a committed change the calling session is the identity's only usable one, and other identities' sessions are untouched |
| `Credentials.ResetSignsEveryoneOut` | apps/auth-service/src/identity/identity.service.ts:716-752 | after a committed reset no session of the identity is unrevoked and the draft cannot be used again |
| `Credentials.IdentityService.ChangePasswordAndRevokeOtherSessions` | apps/auth-service/src/identity/identity.service.ts:781-864 | commits iff the calling session is live and the expected hash is stored: the new hash and its time are stored, the other usable sessions are revoked, nothing else changes; a failure rolls everything back |
| `Credentials.IdentityService.ChangeMpinAndRevokeOtherSessions` | apps/auth-service/src/identity/identity.service.ts:888-973 | the same for the MPIN, and completes the onboarding and clears the temporary expiry |
| `Credentials.IdentityService.ResetPasswordWithVerifiedDraft` | apps/auth-service/src/identity/identity.service.ts:706-757 | commits iff the draft is verified, unexpired and the identity's and the account exists; stores the new hash and its time, consumes the draft and revokes all sessions |
| `Credentials.ChecksAgree` | apps/auth-service/src/auth/auth.service.ts:1825-1987 | the checks on the row a call has read let it through exactly in the states its later write is for, and each refusal states a fact about the row |
| `CredentialProtocol.WritingAdvances` | apps/auth-service/src/identity/identity.service.ts:917-928 | a guarded write by a call that saw sound facts takes a sound account forward, whatever happened since its read |
| `CredentialProtocol.OnboardingIsSound` | apps/auth-service/src/auth/auth.service.ts:1825-1987 | in every interleaving of reads and guarded writes: phone verified exactly from PAN_PENDING on and equal to the one whose OTP the verifying call checked, a PAN from CREDENTIAL_CHANGE_REQUIRED on, both credentials changed at COMPLETED, temporary expiry cleared exactly then |
| `CredentialProtocol.ChangesComeLast` | apps/auth-service/src/auth/auth.service.ts:946-970 | in every interleaving, an account whose password or MPIN is about to be changed has a verified phone and a PAN, and for the MPIN a changed password |
| `CredentialColumns.PanIsTheCommitted` | apps/auth-service/src/identity/identity.service.ts:1208-1235 | in every interleaving an account has a PAN iff a PAN call for it committed; only one ever did, and the stored PAN is the one it carried, the canonical form of one requested for this account |
| `CredentialColumns.PhoneIsACommitted` | apps/auth-service/src/identity/identity.service.ts:1096-1129 | the stored phone is that of a committed call, trimmed from one requested for this account |
| `CredentialColumns.NobodyShares` | apps/auth-service/prisma/schema.prisma:48-54 | no interleaving lets two accounts have the same phone or PAN |
| `CredentialProtocol.OnboardingNeverGoesBack` | apps/auth-service/src/auth/auth.service.ts:946-970 | between any two points of a run the onboarding rank never decreases and a verified phone or a PAN never changes |
| `CredentialProtocol.UndisturbedCallCommitsIff` | apps/auth-service/src/auth/auth.service.ts:801-826 | a call whose write follows its read at once commits: onboarding steps always, changes iff the session is live, resets iff the draft has not expired and the account exists |
| `OnboardingRuns.UndisturbedCallRuns` | apps/auth-service/src/auth/auth.service.ts:801-896 | a call whose read, OTP check and write nothing disturbs does to the tables exactly what its write does to what it read |
| `OnboardingRuns.OnboardingCompletes` | apps/auth-service/src/auth/auth.service.ts:1825-1987 | for every account, phone, PAN and session a run takes the new account to COMPLETED, with that phone and PAN in canonical form and both credentials changed |
| `OnboardingRuns.ConfirmedDraftResets` | apps/auth-service/src/identity/identity.service.ts:706-757 | from any state, a reset draft opened, confirmed and used in time sets the password and revokes every session of the account |
| `CredentialProtocol.EachCommitSpendsItsOwn` | apps/auth-service/src/identity/identity.service.ts:810-825 | of all changes expecting one stored hash at most one commits, a reset draft is used at most once, and a spent hash or draft stays spent |
| `LoginIds.SamePrefixInjective` | apps/auth-service/src/identity/identity.service.ts:513-516 | within a role the numbering is injective |
| `LoginIds.LoginIdRoundTrip` | apps/auth-service/src/identity/identity.service.ts:595-599 | with a digit-free prefix, prefix and number can be read back from the login ID |
| `LoginIds.PrefixesCollideIff` | apps/auth-service/src/identity/identity.service.ts:595-599 | two roles' login IDs can meet iff the prefixes are equal or one continues the other with a numeral without a leading zero |
| `LoginIds.NumbersCollideIff` | apps/auth-service/src/identity/identity.service.ts:595-599 | with counters that start anywhere and end at a limit: two roles can generate one login ID iff some number within the range of one is the partner of one within the range of the other |
| `LoginIds.ExtensionsMeetEventually` | apps/auth-service/src/identity/identity.service.ts:595-599 | wherever the counters start, a wide enough counter lets any such prefixes meet |
| `LoginIds.DigitFreeIsSafe` | apps/auth-service/src/identity/identity.service.ts:595-599 | distinct digit-free prefixes never meet |
| `Registration.IdentityService.CreateNumbered` | apps/auth-service/src/identity/identity.service.ts:579-602 | increments the counter and inserts the account iff the counter is below its limit and every unique column admits the row; otherwise nothing changes and the error says which |
| `Registration.IdentityService.CompleteRegistration` | apps/auth-service/src/identity/identity.service.ts:478-546 | creates the account of a draft under the role's next number, with the draft's phone and PAN and the given Aadhaar number, and deletes the draft, iff the role is active, its counter below the limit, and every unique column admits the account; a failure changes nothing and the error is exact |
| `Registration.IdentityService.CreateAdminManagedIdentity` | apps/auth-service/src/identity/identity.service.ts:547-681 | the same for an administrator: exactly one creator, an active role other than SUPER_ADMIN, normalised names |
| `Registration.SpellingsClash` | apps/auth-service/src/identity/identity.service.ts:605-606 | two administrator-created accounts exclude each other iff their user names or e-mail addresses are the same up to case and outer white space |
| `Registration.NoRunIsRefusedIff` | apps/auth-service/src/role/role.service.ts:38-45 | for every starting numbers and every limit of the counters, with distinct prefixes: no creation is ever refused for its generated login ID, in any run, iff no two roles' numbers meet |
| `Registration.MeetingGetsStuck` | apps/auth-service/src/identity/identity.service.ts:579-602 | if two roles' numbers meet, a run exists after which one of the roles generates a login ID that is taken |
| `Registration.DigitFreePrefixesAreSafe` | apps/auth-service/src/role/role.service.ts:38-45 | distinct digit-free prefixes are safe from any starting numbers |
| `Registration.UsualStartsGetStuck` | apps/auth-service/src/role/role.service.ts:38-45 | prefixes A and A1 with the usual start 1000 and a 32-bit counter are not |
| `Registration.RefusedForever` | apps/auth-service/src/identity/identity.service.ts:579-602 | and then the rolled-back counter keeps that role stuck for as long as its prefix stays |
| `RuleScopes.RuleKeyInjective` | apps/commission-service/src/commission/commission-rule.service.ts:98-122 | for codes without a bar and no operator "*", equal rule keys mean equal scopes |
| `RuleScopes.AmountsDecideKey` | apps/commission-service/src/commission/commission-rule.service.ts:67-73 | scopes that differ in their amounts to two decimals have different keys, whatever the codes |
| `CommissionRules.ValidateAmounts` | apps/commission-service/src/commission/commission-rule.service.ts:130-187 | passes iff the value is a non-negative number, a percentage at most 100, the bounds non-negative numbers and min <= max |
| `CommissionRules.PreparedIsBounded` | apps/commission-service/src/commission/commission-rule.service.ts:195-270 | what is written has canonical codes, 0 <= min <= max, a value in range, after the columns' rounding |
| `CommissionRules.OwnKeyIffAmountsAgree` | apps/commission-service/src/commission/commission-rule.service.ts:218-229 | a rule is stored under the key of its own stored scope iff the key's and the column's rounding agree on its amounts |
| `CommissionRules.PreparedIff` | apps/commission-service/src/commission/commission-rule.service.ts:130-215 | a request passes the checks iff it has a service, a role and amounts in range; a refusal states a fact about it |
| `CommissionRules.PreparedAsRequested` | apps/commission-service/src/commission/commission-rule.service.ts:195-270 | what is written has the canonical service, operator and role, the given kind, and the given amounts rounded as the columns do; the key is made of the codes and the amounts |
| `CommissionRules.MergedIsPatched` | apps/commission-service/src/commission/commission-rule.service.ts:375-470 | an update stores each given field and leaves every other one exactly as it was, through all roundings |
| `CommissionRules.CommissionRuleService.FindByKey` | apps/commission-service/src/commission/commission-rule.service.ts:236-240 | a rule with this key, if any |
| `CommissionRules.CommissionRuleService.CreateRule` | apps/commission-service/src/commission/commission-rule.service.ts:195-315 | stores the requested fields, in canonical form, iff the request is valid and its key is free; errors and defaults exactly |
| `CommissionRules.CommissionRuleService.UpdateRule` | apps/commission-service/src/commission/commission-rule.service.ts:375-510 | stores the given fields iff the merged rule is valid and no other rule has its key; absent fields keep their values |
| `CommissionRules.CommissionRuleService.DeleteRule` | apps/commission-service/src/commission/commission-rule.service.ts:542-565 | soft, idempotent delete |
| `RuleInterleaving.UndisturbedCreate` | apps/commission-service/src/commission/commission-rule.service.ts:195-315 | a creation that nothing disturbs between its reads and its write stores what is requested |
| `RuleInterleaving.UndisturbedUpdate` | apps/commission-service/src/commission/commission-rule.service.ts:375-510 | and an update the fields that are given, the others stay |
| `RuleInterleaving.RulesStayBounded` | apps/commission-service/src/commission/commission-rule.service.ts:195-510 | under every interleaving all stored rules are in range and no two share a key |
| `RuleInterleaving.RunKeepsOwn` | apps/commission-service/src/commission/commission-rule.service.ts:218-229 | if the requests' amounts round alike in key and column, every interleaving keeps each rule under its own scope's key |
| `RuleInterleaving.ScopesStayUnique` | apps/commission-service/src/commission/commission-rule.service.ts:195-510 | and then no two rules share a scope to two decimals |
| `RuleInterleaving.DisagreementSplitsAScope` | apps/commission-service/src/commission/commission-rule.service.ts:67-73 | for every amount on which the roundings disagree, a run stores two rules with one scope |
| `RuleInterleaving.NearlyDisagrees` | apps/commission-service/src/commission/commission-rule.service.ts:67-73 | 1.005 is such an amount |
| `Distributions.DistributionKeyInjective` | apps/commission-service/src/commission/commission-distribution.service.ts:63-72 | a distribution key decides the rule and the normalised role |
| `Distributions.OneRowPerRole` | apps/commission-service/prisma/schema.prisma:91-96 | a sound table has one row per rule and role |
| `Distributions.ValidateDistribution` | apps/commission-service/src/commission/commission-distribution.service.ts:74-93 | passes iff the value is a non-negative number, a percentage at most 100 |
| `Distributions.StoredIsBounded` | apps/commission-service/src/commission/commission-distribution.service.ts:74-93 | a validated value is still in range after the column's rounding |
| `Distributions.CommissionDistributionService.FindByKey` | apps/commission-service/src/commission/commission-distribution.service.ts:204-212 | a row with this key, if any |
| `Distributions.CommissionDistributionService.CreateDistribution` | apps/commission-service/src/commission/commission-distribution.service.ts:101-377 | adds a row with the requested fields only if the rule has none for the role, takes an inactive one up again under its old id, refuses an active one; invalid requests are refused for a reason that holds |
| `Distributions.CommissionDistributionService.UpdateDistribution` | apps/commission-service/src/commission/commission-distribution.service.ts:435-547 | stores the given fields and the key of the row's rule and role iff the row that results is valid and no other row has that key; absent fields keep their values |
| `Distributions.ChangedIsRewritten` | apps/commission-service/src/commission/commission-distribution.service.ts:435-520 | the absent fields through the rounding of the value column, too |
| `Distributions.ChangeCheckSays` | apps/commission-service/src/commission/commission-distribution.service.ts:435-500 | and a refusal states a fact about the request, the row and the role |
| `Distributions.ChangeCheckIff` | apps/commission-service/src/commission/commission-distribution.service.ts:435-500 | an update passes its checks iff its role is named, active unless the row will not be, and the value in range for the kind it leads to |
| `Distributions.CommissionDistributionService.DeleteDistribution` | apps/commission-service/src/commission/commission-distribution.service.ts:556-579 | soft, idempotent delete |
| `DistributionInterleaving.UndisturbedCreate` | apps/commission-service/src/commission/commission-distribution.service.ts:101-377 | an admitted creation that nothing disturbs stores what is requested, in the inactive row of the rule and role if there is one |
| `DistributionInterleaving.UndisturbedUpdate` | apps/commission-service/src/commission/commission-distribution.service.ts:435-547 | and an admitted update the fields that are given, the others stay |
| `DistributionInterleaving.RowsStayBounded` | apps/commission-service/src/commission/commission-distribution.service.ts:101-547 | under every interleaving keys stay unique, values in range, and rows keep their id and rule |
| `DistributionInterleaving.WriteKeepsKeysIffTimely` | apps/commission-service/src/commission/commission-distribution.service.ts:251-275 | a write keeps every key describing its row iff a reactivation finds the row still in the role it looked up |
| `DistributionInterleaving.WriteKeepsOnePerRoleIff` | apps/commission-service/src/commission/commission-distribution.service.ts:251-275 | from a table whose keys describe its rows, a write keeps one row per rule and role iff it is timely or no other row has the rule and role it writes |
| `DistributionInterleaving.TimelyRunsStaySound` | apps/commission-service/src/commission/commission-distribution.service.ts:251-275 | with timely reactivations every interleaving keeps one row per rule and role |
| `DistributionInterleaving.SequentialRunsStaySound` | apps/commission-service/src/commission/commission-distribution.service.ts:101-579 | calls that do not overlap always keep one row per rule and role |
| `DistributionInterleaving.UntimelyWriteDuplicates` | apps/commission-service/src/commission/commission-distribution.service.ts:251-275 | for any two roles, a run in which a late reactivation gives the rule two rows of one role |
| `Authorization.SortSorts` | apps/auth-service/src/authorization/authorization.service.ts:42-45 | sorting by code orders and keeps the elements |
| `Authorization.Collect` | apps/auth-service/src/authorization/authorization.service.ts:47-73 | the two loops collect one grant for each code of an active permission, and no other |
| `Authorization.SortedValuesList` | apps/auth-service/src/authorization/authorization.service.ts:75-77 | the sorted values list exactly the collected codes, strictly increasing |
| `Authorization.ResolveRolePermissions` | apps/auth-service/src/authorization/authorization.service.ts:16-90 | no role: not found; inactive role: empty lists; else the active packages in order and exactly the codes reachable through them, strictly sorted, each once |
| `Authorization.GrantsAreExact` | apps/auth-service/src/authorization/authorization.service.ts:47-77 | with unique codes the grants are exactly the active permissions reachable through active packages |
| `Authorization.OrderDoesNotMatter` | apps/auth-service/src/authorization/authorization.service.ts:16-90 | two answers for the same reachable permissions are equal |
| `Authorization.PermutingKeepsReachable` | apps/auth-service/src/authorization/authorization.service.ts:42-73 | permuting packages and the permissions inside them changes nothing that is reachable |
| `MerchantProfiles.AepsMerchantProfileService.PrepareProviderRegistration` | apps/aeps-service/src/merchant-profile/aeps-merchant-profile.service.ts:46-158 | asks for the provider call iff the profile is neither barred nor registered, and says of every field what it is then: a rejected or failed profile starts over, others only take the given references; otherwise nothing changes |
| `MerchantProfiles.AepsMerchantProfileService.Note` | apps/aeps-service/src/merchant-profile/aeps-merchant-profile.service.ts:160-396 | the ten mark operations: refused without a profile, registering also if another profile of the provider has the merchant id; otherwise every field of the profile is as the mark says |
| `MerchantProfiles.MarkedAsStated` | apps/aeps-service/src/merchant-profile/aeps-merchant-profile.service.ts:160-396 | field by field: the status of each mark, its reason cut to 500 characters or none, the flags it sets and clears, first and latest times, and what it leaves alone |
| `MerchantProfiles.MarkedIsSound` | apps/aeps-service/src/merchant-profile/aeps-merchant-profile.service.ts:160-396 | every mark keeps a profile sound and registered |
| `MerchantProfiles.ProfilesAreSound` | apps/aeps-service/src/merchant-profile/aeps-merchant-profile.service.ts:46-297 | in every sequence of calls a stored merchant id implies registered, service-activated implies registered, onboarded and both timestamps, and merchant ids are unique per provider |
| `MerchantProfiles.RegisteredForever` | apps/aeps-service/src/merchant-profile/aeps-merchant-profile.service.ts:82-91 | once registered, always registered, and no later preparation asks for the provider again |
| `MerchantInterleaving.UndisturbedPreparation` | apps/aeps-service/src/merchant-profile/aeps-merchant-profile.service.ts:46-158 | a preparation that nothing disturbs does and asks exactly what the method does |
| `MerchantInterleaving.UndisturbedMark` | apps/aeps-service/src/merchant-profile/aeps-merchant-profile.service.ts:160-396 | and a mark, whether it reads first or not, writes the fields it stands for |
| `MerchantInterleaving.ProfilesStaySound` | apps/aeps-service/src/merchant-profile/aeps-merchant-profile.service.ts:46-396 | in every interleaving of the reads and writes, too, a stored merchant id implies registered, service-activated implies registered, onboarded and both timestamps, and merchant ids are unique per provider |
| `MerchantInterleaving.RegistrationStaysIff` | apps/aeps-service/src/merchant-profile/aeps-merchant-profile.service.ts:97-136 | from any reachable state with a registered profile and along any run, the registration is withdrawn iff a preparation writes that had read the profile, before that state, as rejected or failed and unregistered |
| `MerchantInterleaving.AsksIff` | apps/aeps-service/src/merchant-profile/aeps-merchant-profile.service.ts:82-157 | while a profile stays registered, a call asks for the provider iff it is a preparation that had read the profile before it was registered, and finishes |
| `MerchantInterleaving.LatePreparationAsks` | apps/aeps-service/src/merchant-profile/aeps-merchant-profile.service.ts:138-157 | a run in which that happens |
| `MerchantInterleaving.LateStartOverForgets` | apps/aeps-service/src/merchant-profile/aeps-merchant-profile.service.ts:97-136 | a run in which a registration is withdrawn |

## Left out

- Kafka, HTTP controllers, cookies, bootstrap, configuration, audit and notification publishing, list and pagination queries, response texts.
- The internals of argon2, JWT, HMAC and SHA-256, and the serialisation of cache values.
- Super-admin accounts and onboarding, and the check of phone and PAN against super-admin accounts: that table is not part of this model.
- The registration drafts' earlier steps: their updates are unguarded. Only completing a registration is modelled.
- Whether a caller presents the right current password or MPIN: the protocol lets every change through that check, so what is proved holds for more calls than the service admits.
- Trusted devices, KYC idempotency, wallet, transaction and commission calculation, in-flight request counters.
- Legacy OTP cache records without an id or with an attempts field, and the attempts column of the OTP table, which no decision reads.
- Failures of Redis or the database in the middle of a call, in the sequential classes, except for the increment of the OTP attempts, the deletion of OTP state and the hand-over of the message; in `OtpProtocol` and `LoginInterleaving` a call may stop at any step.
- The session-validation cache version and identity cache entries: they only invalidate.
- A depth bound for the descendants of a changed hierarchy edge, and disjoint amount slabs of rules: the code does not establish them.
- HierarchyInterleaving.IndexesSurviveInterleaving: says nothing about acyclicity, which overlapping calls do not keep; see `HierarchySafety.LateWriteSafeIff`.
- OtpAttempts.GuessesAreBounded: is about orderly runs; for others it fails (`OtpCutIn.CutInExceeds`). The single-success and lock results of `OtpProtocol` and the account of `OtpTallies` hold for all runs.
- LoginLimiter.FailureBound: is about logins one after the other, as `LoginAddresses.AddressFailureBound` is; for overlapping ones see `LoginInterleaving.TriesAreBounded`. None of them bounds the failures in the last half second of a lock; see `LoginLimiter.UnseenFailuresAreUnlimited`.
- LoginInterleaving.TriesAreBounded: leaves out the counter and the lock of the address, which only refuse more.
- The five direct writes of the profile table in apps/aeps-service/src/providers/vimopay/onboarding/vimopay-onboarding.service.ts (from lines 426, 529, 644, 800 and 1002): the first four ask for another action and withdraw at most the onboarded and activated flags, onboarded never without activated, and the last has the effect of the mark for activation; so each of them keeps the invariants of `MerchantProfiles`, and none withdraws a registration.
- MerchantProfiles.RegisteredForever: is about calls that do not overlap; for the others see `MerchantInterleaving.RegistrationStaysIff` and `MerchantInterleaving.AsksIff`.
- MerchantProfiles.AepsMerchantProfileService.Note: stands for the ten `mark` methods, which differ only in the fields they set; those are stated in the predicate `MarkEffect`.
- OtpLocks.RefusedAsInProgressIff: is about calls that do not overlap; what overlapping calls may do to the locks is in `OtpProtocol.OneLockHolder` and `OtpProtocol.StaleReleaseIsHarmless`.
