# DHCP scope reconciler: a verified model

The repository is an HTTP API that keeps DHCP scopes of a Windows server equal to what a Git
repository asks for. A request is turned into an ordered series of PowerShell cmdlets, issued one by
one over a pool of remote sessions, under a lock per scope. This project models that system and
proves what its runs do.

The centre is the server (`Server`): scope records, failover relationships shared between scopes and
the failover partner's copies, changed only by cmdlets with the acceptance rules the code relies on.
Each call meets a *weather*: it is processed, it is lost before it takes effect, or it takes effect
and its answer is lost. A request (`Api.Intent`, `Api.Serve`) reads the server through the payload
validators (`Reading`), diffs, and runs a plan (`Plans`) until the first failure. The same programs
are also written as methods over a mutable `DhcpServer` object (`WindowsServer`, `Reconciler`) and
proved to do exactly what `Serve` says.

On top of that stand:

- convergence, parity and idempotence (`Convergence`, `FailoverConvergence`, `Repair`): what one,
  two or any number of fault-free runs reach, as if-and-only-ifs;
- crashes (`CrashSafety`, `PartialScopes`, `Leftovers`, `Repair`): at which stops a half-done run can
  be repaired by a retry, and which leave a scope that no later request can read or change; what
  faults do to failover (`FailoverRetries`);
- the partner's copies (`PartnerSync`) and conservation of memberships over every history (`Api`);
- concurrency: commuting footprints (`Footprints`), the queries a request makes between its writes
  (`Queries`), serializability and freedom from deadlock under the lock manager (`Serializability`,
  `Locks`, `Scheduler`), and the session pool with its admission control and
  environment probe as an interleaved transition system (`RunspacePool`, `EnvironmentCheck`,
  `PoolConcurrency`, `PoolOutcomes`);
- error policy (`Forgiveness`): which refusals a request passes over, and that nothing is lost by it;
- the payload model (`Addresses`, `Exclusions`, `ScopeModel`, `ScopeValidators`), its CI twin
  (`CiTwin`) and the incremental CI run (`ChangedClusters`);
- text: the JSON the server answers with (`Encodings`, `TimeSpans`, `AddressText`), the command text it
  is sent (`PowerShellText`, `CommandText`, `RequestText`), and what that text means to it, read with
  Windows' own names and units (`CommandMeaning`).

## Where the code and its documentation disagree

- `app/services/scope_service.py:291-294` and the repository's own `README.md:400-401` say that a retry
  repairs whatever a failed attempt left. After a partial create it does so exactly if nothing was
  added yet or the stop is one that can be read (`Leftovers.RetryAfterPartialCreate`), and every create
  has a stop that is not (`Leftovers.CreateFaultBricks`). After a stopped update it does exactly under
  `CrashSafety.SafeUpdate` (`Repair.SafeIffNoFaultBricks`), and a stopped delete can be repaired exactly
  if the gateway is outside the range (`Leftovers.DeleteFaultBricksIffGatewayInRange`). Otherwise GET,
  PUT, POST and DELETE of the scope all fail without a write, for ever (`Repair.BrickedForever`).
- `app/services/scope_service.py:668-680` joins whatever relationship has the desired name. If an
  administrator made it with, say, a lead time the API does not accept, a request without any fault
  ends in an error and leaves its scope unreadable for good (`Repair.JoiningUnparsedBricks`).
- `app/services/psrp_pool.py:259-263` says that everything still queued was used before the session
  that failed. That holds exactly if nothing was parked later since that session was taken
  (`PoolConcurrency.DiscardedWereOlder`, `PoolConcurrency.DiscardCanHitNewer`).
- `scripts/validate_changed_clusters.py:135-136` offers a path to the sites directory. With more than
  one component no change is ever noticed (`ChangedClusters.NestedSitesDirSelectsNothing`).
- `app/services/ps_parsers.py:88-99` reads a lease of less than a day as 8 days or as 0, depending on
  how the TimeSpan was serialised (`Encodings.ShortLeaseDependsOnEncoding`).

## Model

| member | source | states |
|---|---|---|
| `Addresses.PrefixOfMask` | app/models/scope.py:399-407 | the masks `IPv4Network` accepts and the prefix length each stands for |
| `Addresses.AndNotIsFloor` | app/models/scope.py:343 | clearing low bits rounds down to a multiple of a power of two |
| `Addresses.OrIsSum` | app/models/scope.py:343 | or-ing into cleared low bits is addition |
| `Exclusions.NeighboursDecideDisjointness` | app/models/scope.py:242-257 | on a sorted list, comparing neighbours accepts exactly the lists without any overlapping pair |
| `Exclusions.SortIgnoresOrder` | app/models/scope.py:219-227 | lists with the same entries sort to the same list |
| `Exclusions.SortIsCanonical` | app/models/scope.py:219-227 | disjoint entries sort to a list in which each ends before the next begins, with nothing lost |
| `Exclusions.CanonicalListIsEnumeration` | app/services/ps_parsers.py:326-336 | the order a record's exclusion set is read back in is the canonical order |
| `ScopeModel.CanonicalIsFixed` | app/models/failover.py:70-90 | canonical failovers are exactly the fixed points of mode normalisation |
| `ScopeModel.UnusedModeFieldsAreIgnored` | app/models/failover.py:72-79 | fields of the mode not in use cannot make two failovers differ |
| `ScopeModel.FailoverDraft.EnforceModeFields` | app/models/failover.py:70-90 | rejects exactly when the mode's own field is missing, else overwrites the draft with its canonical form |
| `ScopeModel.ExclusionOrderIsIrrelevant` | app/models/scope.py:219-257 | acceptance and result do not depend on the order exclusions are sent in |
| `ScopeModel.Resubmission` | app/models/scope.py:481-485 | sending back the body of any accepted payload, null gateway included, gives the same payload |
| `ScopeModel.AcceptedPayloadIsSafe` | app/models/scope.py:399-479 | accepted payloads have a prefix of at most 30, lease only host addresses of their subnet, and never their own gateway |
| `ScopeModel.DerivedDefaults` | app/models/scope.py:320-396 | under 255.255.255.0, sent or left out alike, the exact acceptance condition in numbers; the mask resolves to 255.255.255.0, an omitted gateway to .254 and an omitted range to .1 to .253, each whether or not the other is sent |
| `ScopeModel.NothingElseIsDerived` | app/models/scope.py:331-389 | under any other mask an omitted gateway or range is rejected, and half a range is under every mask |
| `ScopeModel.HostInSlash24IsSum` | app/models/scope.py:343-395 | the mask-and-or arithmetic of the derived addresses equals addition |
| `ScopeValidators.ScopeDraft.SortExclusions` | app/models/scope.py:219-227 | leaves the canonical order, also for lists too short to sort |
| `ScopeValidators.ScopeDraft.NoDuplicateExclusions` | app/models/scope.py:229-239 | accepts exactly the lists without a repeated entry |
| `ScopeValidators.ScopeDraft.NoOverlappingExclusions` | app/models/scope.py:241-257 | accepts exactly the lists whose sorted neighbours are apart |
| `ScopeValidators.ScopeDraft.ResolveDefaultGateway` | app/models/scope.py:319-345 | derives only for an omitted gateway under the /24 mask; null and explicit stay |
| `ScopeValidators.ScopeDraft.ResolveDefaultRange` | app/models/scope.py:350-396 | a range is taken whole, derived whole under the /24 mask, or rejected |
| `ScopeValidators.ScopeDraft.SubnetConsistent` | app/models/scope.py:398-453 | accepts exactly the drafts whose addresses all fit the subnet of address and mask |
| `ScopeValidators.ScopeDraft.GatewayNotInRange` | app/models/scope.py:458-479 | rejects exactly a gateway that the range contains and no exclusion covers |
| `ScopeValidators.OverlapCheckSubsumesDuplicateCheck` | app/models/scope.py:229-257 | whatever passes the overlap check has no duplicates: the duplicate check never decides |
| `ScopeValidators.Validate` | app/dependencies/scopes.py:39-50 | the validator chain accepts exactly the bodies that meet the declarative specification, ends in the resolved payload, and otherwise reports the flaw that comes first in the validators' order |
| `ScopeValidators.AcceptsIffFlawless` | app/models/scope.py:219-479 | the accepted bodies are exactly those with none of the ten flaws the validators look for |
| `RangeTransition.StepsReachDesired` | app/services/scope_service.py:71-102 | every write is a superset or subset of the range held, and the last one is the desired range |
| `RangeTransition.StepsAreFewest` | app/services/scope_service.py:84-88 | no accepted sequence of writes to the desired range is shorter |
| `RangeTransition.StepsStayUsable` | app/services/scope_service.py:71-102 | intermediate ranges are well formed and stay strictly between network and broadcast |
| `RangeTransition.NothingNewIsLeasable` | app/services/scope_service.py:90-94 | no address outside both ranges is ever leasable iff they overlap or touch |
| `Server.StopIsPrefix` | app/services/scope_service.py:122-172 | whatever the faults, a run that gives up on failure leaves the state of a prefix of its steps, and of all of them if it succeeds |
| `Reading.DecodeIsPartial` | app/services/ps_parsers.py:303-357 | exactly which records can be read, and that a read shows the record's own values |
| `Reading.ShowsFieldwise` | app/services/ps_parsers.py:338-357 | a record shows a payload iff every field, option and exclusion agrees |
| `Convergence.ExclusionsReconcile` | app/services/scope_service.py:509-538 | in any order of the two differences a server that refuses overlaps accepts every removal and addition, and the final set is exactly the desired one |
| `Convergence.ExclusionStops` | app/services/scope_service.py:509-538 | which exclusions the server holds after any number of those calls; they are pairwise disjoint |
| `Convergence.RecordConverges` | app/services/scope_service.py:389-538 | the record part of a converge run is accepted step by step and ends showing the desired payload |
| `Convergence.NothingToDo` | app/services/scope_service.py:389-538 | a run has no record write iff the record already shows the desired payload |
| `Convergence.OptionsRemovedIffDropped` | app/services/scope_service.py:437-507 | a router or boot option is removed exactly if it was read and is not desired |
| `Convergence.RouterStop` | app/services/scope_service.py:448-470 | a dropped gateway goes last: the plan has a stop with range, parameters and resolvers as desired and the old router still set |
| `CrashSafety.SafeUpdateHoldsThroughout` | app/services/scope_service.py:366-546 | under the safety condition every stop leaves a record that is readable and again safe to update |
| `CrashSafety.EveryStopReadableIffSafe` | app/services/scope_service.py:366-546 | every stop of a converge run is readable iff the PXE pair is neither added nor removed and neither gateway is exposed on the way |
| `CrashSafety.HullStop` | app/services/scope_service.py:394-419 | the stop, inside the range transition, where the old gateway becomes leasable |
| `CrashSafety.HalfPairStop` | app/services/scope_service.py:477-507 | the stop between the two boot option writes leaves half a pair |
| `CrashSafety.BareGatewayStop` | app/services/scope_service.py:509-538 | the stop after the removals leaves the new gateway uncovered |
| `PartialScopes.CreateConverges` | app/services/scope_service.py:305-344 | a create that is not stopped ends showing what was asked for |
| `PartialScopes.CreateStops` | app/services/scope_service.py:305-344 | exactly which stops of a create leave a readable scope |
| `FailoverConvergence.FailoverStepsEnd` | app/services/scope_service.py:713-798 | without faults every failover cmdlet is accepted, the scope ends in a relationship iff one is desired, and can then be read iff that one was free or parses |
| `FailoverConvergence.ReachedInOnePass` | app/services/scope_service.py:668-798 | one pass reaches the desired failover exactly if the name is free, or its relationship parses and is this scope's alone, this scope's with the desired mode, partner and (HotStandby) role, or what is desired |
| `FailoverConvergence.ReachedInTwoPasses` | app/services/scope_service.py:668-798 | two passes do exactly if the name is free, or its relationship parses and has no other member or the desired mode, partner and (HotStandby) role, whatever its lead time and percentages |
| `FailoverConvergence.IdentityIsTermsFixed` | app/services/scope_service.py:743-760 | the identity the diff compares is exactly the relationship's name, mode, partner and (HotStandby) role, not its lead time or percentages |
| `FailoverConvergence.TunedInPlace` | app/services/scope_service.py:743-797 | a scope already in the desired relationship on those terms is tuned by at most one Set cmdlet, reaches what is desired whoever else is a member, and in no weather does a membership change |
| `FailoverConvergence.PassesSettle` | app/services/scope_service.py:668-798 | a reached failover stays; an unreachable one never moves again after the first pass |
| `FailoverConvergence.PassesNeeded` | app/services/scope_service.py:668-798 | any number of passes from two on ends where two end: one pass, two passes or never |
| `Api.PoliteAttempt` | app/services/scope_service.py:570-587 | one polite call keeps the server well formed and other scopes untouched, in any weather |
| `Api.LeavePolite` | app/services/scope_service.py:647-664 | a relationship is dropped only when it has no members |
| `Api.DeletePolite` | app/services/scope_service.py:550-588 | a record is removed only when the scope is in no relationship, wherever the run faults |
| `Api.RequestsArePolite` | app/services/scope_service.py:277-588 | any request in any weather keeps one relationship per scope, members existing, and every other scope's record, copy and memberships, and makes no relationship that the API cannot parse |
| `Api.HistoryConserves` | app/services/scope_service.py:277-588 | the same over every history of requests and faults |
| `Repair.PutConverges` | app/services/scope_service.py:366-546 | without faults every cmdlet of a PUT is accepted and the record is as desired; the PUT succeeds and GET shows the result iff the relationship asked for was free or parses |
| `Repair.PutIsIdempotent` | app/services/scope_service.py:366-546 | GET shows exactly the desired payload iff its failover was one pass away, and then a second PUT issues no cmdlet |
| `Repair.PostCreates` | app/services/scope_service.py:277-350 | POST of an absent scope meets the same postcondition, final read included |
| `Repair.MaskIsImmutable` | app/services/scope_service.py:384-387 | another mask is refused by PUT and POST with nothing written |
| `Repair.PutLeavesAStop` | app/services/scope_service.py:366-546 | in any weather PUT leaves its record at a stop of its plan |
| `Repair.OwnParsesUnlessJoined` | app/services/scope_service.py:668-680 | a request makes its scope unreadable through a relationship only by joining the one it asked for, when that did not parse |
| `Repair.UnparsedStays` | app/services/scope_service.py:647-798 | no request ever drops or changes a relationship that the API cannot parse |
| `Repair.RetriesStayRepairable` | app/services/scope_service.py:366-546 | if the update is safe, any number of PUTs and POSTs stopped anywhere leave the record safe and readable |
| `Repair.CrashAndRetry` | app/services/scope_service.py:366-546 | and the first PUT or POST without faults then reaches the desired record, and succeeds iff the relationship asked for was free or parsed |
| `Repair.CreatedScopeIsUpdatable` | app/services/scope_service.py:291-303 | what a create leaves meets the conditions under which a PUT converges and is safe |
| `Repair.PutsReachFailover` | app/services/scope_service.py:668-798 | one PUT, or two and more, end in the desired payload exactly under the one-pass and two-pass conditions |
| `FailoverRetries.RetryKeepsTwo` | app/services/scope_service.py:647-798 | stopping a PUT or POST anywhere neither gains nor loses the two-pass condition |
| `FailoverRetries.FaultyRetriesThenPuts` | app/services/scope_service.py:647-798 | after any faulty retries, two or more PUTs without faults show exactly the desired payload iff the condition held at the start |
| `FailoverRetries.StopCostsAPass` | app/services/scope_service.py:647-664 | a stop between leaving and dropping loses the one-pass condition and keeps the two-pass one |
| `FailoverRetries.PutKeepsMembers` | app/services/scope_service.py:743-797 | so a whole PUT, wherever it is stopped, takes nobody out of a relationship whose terms are the desired ones, and without faults ends with it as desired |
| `Repair.BrickedRefusesAll` | app/services/scope_service.py:175-199 | every verb on a scope that cannot be read fails without a write |
| `Repair.JoiningUnparsedBricks` | app/services/scope_service.py:668-680 | asking for an existing relationship that does not parse makes a fault-free PUT or POST fail and its scope unreadable |
| `Repair.BrickedForever` | app/services/scope_service.py:277-588 | no history of requests and faults makes an unreadable scope readable or changes its record |
| `Repair.UnsafeUpdateCanBrick` | app/services/scope_service.py:366-546 | every unsafe update has a call whose loss leaves the record unreadable |
| `Repair.SafeIffNoFaultBricks` | app/services/scope_service.py:366-546 | no weather leaves the scope unreadable iff the update is safe and the relationship asked for is free or parses |
| `Leftovers.PostLeavesAStop` | app/services/scope_service.py:295-350 | a POST in any weather leaves no scope or one of the stops of a create |
| `Leftovers.CreateFaultBricks` | app/services/scope_service.py:305-324 | every create has a fault, between adding the scope and setting DNS, that makes the scope unreadable |
| `Leftovers.RetryAfterPartialCreate` | app/services/scope_service.py:291-303 | whatever stopped a create, the same POST then succeeds and shows what was asked for iff the relationship is free or parses and no scope, or a readable stop, was left |
| `Leftovers.CreateStopRepairable` | app/services/scope_service.py:305-344 | from which stops of a create further faulty retries stay repairable |
| `Leftovers.RetriesAfterPartialCreate` | app/services/scope_service.py:291-303 | from those, any number of faulty retries and then one without faults reach what was asked for |
| `Leftovers.DeleteLeaves` | app/services/scope_service.py:570-588 | DELETE succeeds only if the scope is gone, and otherwise took away nothing but exclusions |
| `Leftovers.DeleteRemoves` | app/services/scope_service.py:550-588 | without faults DELETE succeeds exactly on a scope that is absent or can be read, and then removes it, leaves its relationship and drops that if it is empty, and changes nothing else |
| `Leftovers.AbsentIsDeleted` | app/services/scope_service.py:550-565 | deleting a scope that is not there succeeds and changes nothing, in any weather |
| `Forgiveness.RefusalsForgiven` | app/services/scope_service.py:122-172 | for every call of every request: the request goes on after a refusal exactly where the call's policy forgives that refusal, and after any other error only when it is deleting and the call removes an exclusion |
| `Forgiveness.GoingOnMeansGoal` | app/services/scope_service.py:277-588 | whatever others did to the server meanwhile, a call after which a request goes on has reached its goal, exclusions of a scope being deleted aside |
| `Leftovers.DeleteFaultBricksIffGatewayInRange` | app/services/scope_service.py:573-588 | some fault of a delete makes the scope unreadable iff its gateway lies in its range |
| `PartnerSync.PutSyncsIffItWrites` | app/services/scope_service.py:540-546 | a PUT with failover whose run goes through leaves the partner's copy equal iff it was equal before or the PUT wrote something |
| `PartnerSync.SuccessKeepsSynced` | app/services/scope_service.py:540-546 | a request whose run goes through keeps every member's copy up to date |
| `PartnerSync.HistoryKeepsSynced` | app/services/scope_service.py:540-546 | so does every history in which no run is stopped part way |
| `PartnerSync.LostReplication` | app/services/scope_service.py:627-634 | a lost replication leaves the desired state on the primary and the old copy on the partner |
| `PartnerSync.NoDiffNeverReplicates` | app/services/scope_service.py:543-544 | a run that finds no difference writes nothing, so it never makes up for it |
| `PartnerSync.UnreplicatedIsStale` | app/services/scope_service.py:540-546 | before the lost replication the run made the scope a member and changed its record unless it already showed the payload |
| `PartnerSync.StaleUntilARealChange` | app/services/scope_service.py:540-546 | after a lost replication any number of PUTs of the same payload all succeed, and a copy that was up to date is so now iff the record did not change |
| `PartnerSync.SyncIsLost` | app/services/scope_service.py:540-546 | so a synced server becomes and stays unsynced, though no further run is stopped, exactly when the record of a member changed |
| `PartnerSync.UnackedWriteSkipsReplication` | app/services/scope_service.py:540-546 | a write whose answer is lost has the same effect, without any replication failing |
| `WindowsServer.DhcpServer.RunPs` | app/services/scope_service.py:122-172 | issues one cmdlet in the present weather and fails exactly on what its tolerance does not cover |
| `WindowsServer.DhcpServer.SetScopeRange` | app/services/scope_service.py:77-91 | the server takes a range only if it is a superset or subset of the one held |
| `WindowsServer.DhcpServer.AddExclusionRange` | app/services/scope_service.py:525-538 | the server refuses an exclusion it holds and one that overlaps |
| `WindowsServer.DhcpServer.AddFailoverScope` | app/services/scope_service.py:670-678 | joining a relationship adds the member and changes no parameter |
| `WindowsServer.DhcpServer.ScopeState` | app/services/ps_parsers.py:359-376 | reading through the validators gives what `Read` says, whatever order the server lists things in |
| `Reconciler.ReconcileExclusions` | app/services/scope_service.py:509-538 | the two set differences are enumerated in some order and run as one plan |
| `Reconciler.ConvergeRecord` | app/services/scope_service.py:389-538 | the record part run cmdlet by cmdlet equals its plan, and `changed` says whether the plan was empty |
| `Reconciler.RemoveScopeFromFailover` | app/services/scope_service.py:647-664 | leaving, re-reading and dropping equals the plan made beforehand |
| `Reconciler.HandleFailoverDiff` | app/services/scope_service.py:713-798 | the failover diff equals its plan and reports whether it changed anything |
| `Reconciler.GetScope` | app/services/scope_service.py:354-357 | returns the payload read, or tells a missing scope from an unreadable one |
| `Reconciler.UpdateScope` | app/services/scope_service.py:360-546 | PUT on the mutable server does what `Serve` says and returns what is then read; each error exactly when its cause holds |
| `Reconciler.CreateScope` | app/services/scope_service.py:277-350 | POST does what `Serve` says and returns what is then read; each error exactly when its cause holds, and never that the scope is missing |
| `Reconciler.DeleteScope` | app/services/scope_service.py:550-588 | DELETE does what `Serve` says, succeeds only if the scope is gone, and tells an unreadable scope from a failed call |
| `Listing.ListScopes` | app/services/scope_service.py:207-252 | lists, once each and by address, exactly what GET returns; the scopes reported as errors are exactly those GET refuses |
| `Footprints.LocalEffectsCommute` | app/utils/locks.py:33-36 | cmdlets of different scopes that share no relationship name commute |
| `Footprints.IntentIsDetermined` | app/services/scope_service.py:366-588 | what a request sets out to do depends on its own record and relationships only |
| `Footprints.ServeReportIsDetermined` | app/services/scope_service.py:366-588 | so do all calls it makes and its answer, in any weather |
| `Queries.ProgramIsIntent` | app/services/scope_service.py:595-798 | run alone, in any weather, the calls decided by queries between the writes are those of the plan made beforehand |
| `Queries.AnswerIsDetermined` | app/services/scope_service.py:595-623 | a failover query sees the same on servers that agree on the scope's own record and names |
| `Serializability.AskKeeps` | app/services/scope_service.py:647-680 | a query in the middle of a request, whatever others did meanwhile, is answered as if the request had run alone |
| `Serializability.MoveKeeps` | app/utils/locks.py:24-36 | every step of every request keeps the interleaving equivalent to a serial one so far |
| `Serializability.Serializable` | app/utils/locks.py:24-36 | whatever the interleaving and the faults, the final state and every answer are those of serving the requests one after another in lock order |
| `Serializability.MutualExclusion` | app/utils/locks.py:33-36 | no two requests are in the critical section of one scope |
| `Serializability.MoveDescends` | app/utils/locks.py:33-36 | no schedule goes on for ever |
| `Serializability.NoDeadlock` | app/utils/locks.py:33-36 | whatever has happened, every request can still run to its end |
| `Locks.ScopeLockManager.GetLock` | app/utils/locks.py:24-30 | one lock object per scope, the same on every call, none shared |
| `Locks.ScopeLockManager.Acquire` | app/utils/locks.py:32-36 | entered iff nobody held the scope; holders of other scopes stay |
| `Scheduler.Schedule.Enter` | app/utils/locks.py:32-36 | the lock manager lets a request in exactly when the interleaving may, and its locks stay the interleaving's |
| `Scheduler.Schedule.Leave` | app/utils/locks.py:32-36 | leaving the block frees the lock as the interleaving says |
| `RunspacePool.CheckoutTakesNewestOrEmpties` | app/services/psrp_pool.py:228-254 | a checkout takes the newest session or empties the queue, and closes only expired ones |
| `RunspacePool.PsrpTransport.Checkin` | app/services/psrp_pool.py:219-226 | parking keeps the queue in the order of its time stamps |
| `RunspacePool.PsrpTransport.CheckoutIdle` | app/services/psrp_pool.py:228-254 | the pop loop ends, takes what the specification takes, and hands the rest to close once each |
| `RunspacePool.PsrpTransport.DiscardIdle` | app/services/psrp_pool.py:256-278 | the drain loop ends with the queue empty and every session in it handed to close once |
| `EnvironmentCheck.EnvironmentCache.Enter` | app/services/dhcp_service.py:284-296 | in the cache's own fields: passes iff success is cached, refuses iff a failure is cached and its time has not come, and otherwise probes with both cleared |
| `EnvironmentCheck.EnvironmentCache.Settle` | app/services/dhcp_service.py:298-316 | in the cache's own fields: success is cached iff the target is usable, a failure with its time iff it is known not to be, and a probe that broke leaves neither |
| `PoolConcurrency.SessionsAreOwnedOnce` | app/services/psrp_pool.py:219-354 | in every reachable state each session ever opened is exactly one of queued once, held by one call, or handed to close once |
| `PoolConcurrency.PoolIsBounded` | app/services/ps_executor.py:117-138 | sessions idle, in use or opening never exceed the permits, probe included; a probe never coexists with a command or another probe |
| `PoolConcurrency.CheckoutIsSound` | app/services/psrp_pool.py:228-254 | every execute, in every reachable state, starts on the newest unexpired session or on a fresh one with the queue empty |
| `PoolConcurrency.RetryIsNarrow` | app/services/psrp_pool.py:300-354 | a script is sent at most twice, the second time only to a fresh session after a pooled one raised; after a timeout never again |
| `PoolConcurrency.DiscardedWereOlder` | app/services/psrp_pool.py:256-263 | in every reachable state everything discarded was last used no later than the failed session iff nothing was parked later since that was taken |
| `PoolConcurrency.DiscardCanHitNewer` | app/services/psrp_pool.py:259-263 | with two permits a reachable discard closes a session used after the failed one |
| `PoolOutcomes.SpoiledSessionsAreClosed` | app/services/psrp_pool.py:280-298 | in every reachable state a session whose script timed out, or raised and is past its closing, has been handed to close once and is neither queued nor held |
| `PoolOutcomes.QueuedSessionsAnswered` | app/services/psrp_pool.py:280-354 | nothing but answered scripts ran on a queued session, in whichever calls |
| `PoolOutcomes.QueuedWasParked` | app/services/psrp_pool.py:219-226 | whatever is queued was parked by a script that returned on it, at the time it is stamped with |
| `PoolOutcomes.PooledFailureRetries` | app/services/psrp_pool.py:256-354 | when a pooled session has raised, it and everything queued are closed once and the script is sent again, to a session no call has had |
| `PoolOutcomes.CommandReplies` | app/services/ps_executor.py:134-148 | an admitted command ends in a result, timeout, transport or environment error exactly on a return, a timeout, a fresh session that raised, or a session that did not open |
| `PoolOutcomes.RepliesAreExplained` | app/services/ps_executor.py:110-148 | in every reachable state each reply given agrees with the outcome of the call's last attempt |
| `PoolOutcomes.ProbeSettles` | app/services/dhcp_service.py:213-316 | a probe passes exactly on a successful answer; an unsuccessful one, a timeout and a session that does not open are cached for the configured time and answered as environment errors; a broken one is not cached |
| `PoolOutcomes.FailedProbeRefuses` | app/services/dhcp_service.py:287-289 | after a failed probe, whatever happens until its time is up, every call that checks is refused and no session is opened, used or closed |
| `PoolOutcomes.FailureExpires` | app/services/dhcp_service.py:290-294 | from every reachable state without success and without a probe under way, a call that checks after waiting starts a probe exactly if the failure has expired |
| `PoolOutcomes.SuccessIsForGood` | app/services/dhcp_service.py:285-286 | once a probe has passed, every later check passes at once, whatever happens |
| `PoolOutcomes.AllAreAnswered` | app/services/ps_executor.py:110-138 | cache lock, permits and queue do not deadlock: from every state some moves answer every call |
| `CiTwin.BuildCiPayload` | scripts/validate_dhcp_values.py:287-503 | the script's validators, run in its own order and without sorting, accept exactly what `CiAccepts` says, keep the exclusions in file order, and otherwise report the flaw that comes first in that order |
| `CiTwin.ValidateDhcpContent` | scripts/validate_dhcp_values.py:543-656 | no error iff the cluster passes; and each error is listed exactly when its cause holds, of the payload's flaws the first |
| `CiTwin.CiAcceptsWhatTheApiAccepts` | scripts/validate_dhcp_values.py:287-503 | the script's model and the API's let exactly the same values through |
| `CiTwin.AscendingStartsFixTheOrder` | scripts/validate_dhcp_values.py:639-654 | on disjoint ranges ascending starts leave nothing for the API to sort |
| `CiTwin.CiRefinesApi` | scripts/validate_dhcp_values.py:287-654 | a cluster passes iff it does not opt in, or has a well-typed mapping with its required keys such that the API accepts the same values and resolves them to the very payload CI resolved |
| `CiTwin.PassingClusterIsSafe` | scripts/validate_dhcp_values.py:597-615 | the payload of a passing cluster is valid and field by field what the file says: its own resolvers after the inherited ones, exclusions in file order, and mask, gateway, range, scope name and relationship name derived exactly where the file gives none |
| `CiTwin.WrittenOutPasses` | scripts/validate_dhcp_values.py:543-656 | every payload the API can hold can be asked for in a values file that passes, and means itself |
| `ChangedClusters.ResolveTargets` | scripts/validate_changed_clusters.py:58-114 | asks for a full scan iff the global file changed, else returns the undominated targets of the changed files, each once, ordered by site, MCE and cluster |
| `ChangedClusters.OrderOfTargets` | scripts/validate_changed_clusters.py:114 | the targets are ordered by site, then MCE, then cluster, wider ones first |
| `ChangedClusters.StringOrder` | scripts/validate_changed_clusters.py:114 | the order of names: a beginning comes first, else the smaller character where they differ |
| `ChangedClusters.YamlNames` | scripts/validate_changed_clusters.py:99-101 | a file counts exactly if it is a stem with .yaml or .yml |
| `ChangedClusters.SelectedFiles` | scripts/validate_dhcp_values.py:120-157 | an empty filter selects everything, and a cluster filter exactly the file of that name or of that name with either extension |
| `ChangedClusters.NothingIsLost` | scripts/validate_changed_clusters.py:101-112 | every dropped target is covered by one that is kept |
| `ChangedClusters.NothingIsRepeated` | scripts/validate_changed_clusters.py:101-112 | no returned target covers another |
| `ChangedClusters.ChangedClustersAreSelected` | scripts/validate_dhcp_values.py:815-818 | a discoverable cluster with a changed file in its merge chain is selected |
| `ChangedClusters.SelectedClustersChanged` | scripts/validate_changed_clusters.py:66-99 | a selected cluster has a changed file in its chain, up to the extension of a cluster file |
| `ChangedClusters.NestedSitesDirSelectsNothing` | scripts/validate_changed_clusters.py:69-70 | with a nested sites directory nothing is ever selected and no full scan is asked for |
| `TimeSpans.SpanRoundTrip` | app/utils/ip_utils.py:12-54 | parsing a printed span gives its minutes and its whole days back, for every number of minutes |
| `TimeSpans.SpanTextParses` | app/utils/ip_utils.py:12-54 | the value of every clock text, with or without a day part, and which of them are refused |
| `TimeSpans.ParsedSpanHasParts` | app/utils/ip_utils.py:41-54 | nothing but such a text is read as a span |
| `TimeSpans.ParseTimespanMinutes` | app/utils/ip_utils.py:24-54 | the step-by-step parser computes the specified value, a bad day part counting as 0 |
| `Encodings.DecodingIgnoresRepresentation` | app/services/ps_parsers.py:37-357 | all serialisations of one record decode to the same payload, or all to none |
| `Encodings.SerialisedEncodes` | app/services/ps_parsers.py:225-234 | every record with a lease of at least a day has an encoding |
| `Encodings.SerialisedReadsBack` | app/services/ps_parsers.py:303-357 | what a readable record serialises to decodes to what the record shows |
| `Encodings.EncodedOptionReads` | app/services/ps_parsers.py:239-264 | an option's values are found whatever the order of options and however one value is wrapped |
| `Encodings.TextIffEncoded` | app/services/ps_parsers.py:37-49 | a value reads as a text iff it is that string or an address object that prints as it |
| `Encodings.AddressIffEncoded` | app/services/ps_parsers.py:37-49 | a value reads as an address iff it encodes that address |
| `Encodings.KnownWordsOnly` | app/services/ps_parsers.py:267-287 | only the known words for mode and role are read; an unknown one fails the relationship |
| `Encodings.EncodedFailoverReads` | app/services/ps_parsers.py:267-287 | a relationship is parsed the same from every form of its role, percentages and lead time |
| `Encodings.ShortLeaseDependsOnEncoding` | app/services/ps_parsers.py:88-99 | text and object forms of a lease agree iff it is at least a day; below, they read as 0 and 8 days |
| `PowerShellText.LexLiteral` | app/utils/powershell.py:9-12 | a quoted value lexes to itself, whatever apostrophes it contains |
| `PowerShellText.LiteralsAreInjective` | app/utils/powershell.py:9-12 | no value can break out of its literal: different values never print alike, whatever follows |
| `PowerShellText.PrintedCommandsReadBack` | app/services/scope_service.py:41-48 | lexing and parsing the text of a command gives back its name, flags and arguments |
| `PowerShellText.DottedQuadIsInjective` | app/utils/powershell.py:15-21 | different addresses have different texts |
| `AddressText.AddressIffQuad` | app/utils/powershell.py:15-21 | reading and printing an address are inverse: a text is read as an address iff it is how that address is printed |
| `CommandText.TextReadsBack` | app/services/scope_service.py:30-115 | the text of every cmdlet reads back as that cmdlet with exactly its arguments |
| `CommandMeaning.CallsMeanTheirSteps` | app/services/scope_service.py:41-115 | each call, read by the server's own cmdlet names, parameters, option numbers and units, asks for what its step stands for: the same effect on every server |
| `CommandMeaning.TextMeansItsStep` | app/services/scope_service.py:41-798 | the same of the line of text that is sent, whatever strings the payload carries |
| `CommandText.TextDeterminesEffect` | app/services/scope_service.py:30-798 | cmdlets with the same text do the same to every server |
| `RequestText.RequestTextIsFaithful` | app/services/scope_service.py:277-798 | both hold of every cmdlet that any valid request issues |
| `RequestText.RequestMeansItsSteps` | app/services/scope_service.py:277-798 | so the server, obeying the text of any call of any valid request, does what the step of the plan does |

## Left out

- Serializability.Serializable: the reads before a request's first write (whether the scope exists, then its state) are one step. Requests on different scopes that share a relationship name are excluded: the scope lock does not protect them.
- Serializability.NoDeadlock: says that every schedule can be completed; it says nothing about the fairness of the event loop.
- PartnerSync.HistoryKeepsSynced: requires that no run is stopped part way, not only that no replication call fails, because a lost answer has the same effect (`PartnerSync.UnackedWriteSkipsReplication`).
- CiTwin.BuildCiPayload: where a CI validator is word for word the API's, one method models both.
- CiTwin.ValidateDhcpContent: which values have the wrong YAML type is one flag, and such a file fails; the YAML merge is not modelled.
- Repair.PutConverges: assumes, like all results on runs, that the server holds each scope in at most one relationship and no members that do not exist, as Windows does. Relationships need not be ones the API can parse.
- CommandMeaning.CallsMeanTheirSteps: takes the meaning of cmdlets and parameters from Windows' documentation of them; a call with a parameter set other than those used here has no meaning in the model.
- CommandText.TextReadsBack: reads cmdlet calls, not the query scripts; typographic quotes, which PowerShell also takes as delimiters, are not modelled.
- GET concurrent with a write takes no lock and may see a scope half written.
- A query that fails stops a run like a lost next write; queries have no weather of their own.
- String lengths, blank and whitespace checks, control characters, and field order of the JSON.
- PowerShell compares names ignoring case; here names are compared exactly.
- `Add-DhcpServerv4Scope` works out the scope address from range and mask; the model passes it, and `ScopeModel.AcceptedPayloadIsSafe` shows that the two agree.
- Which messages of the server count as "not found" or "already exists": these are outcomes of the server model.
- What joining or creating a relationship copies to the partner: only replication updates the copies here.
- The scripts sent as queries, WinRM, the local transport, Kerberos, and the checks behind the environment probe; only their outcomes remain.
- Event-loop rebinding of pool, locks and semaphore, shutdown, and cancellation of a call.
- HTTP routing, status codes, authentication and logging.
- Deep merge, YAML loading, reporting and the command line of the CI scripts; Terraform, Docker and the Helm chart.
