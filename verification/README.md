# Leader election, alert rules and the smaller stateful cores, verified

This project models the parts of the control plane whose correctness does not show from reading one
function, and proves what they promise for every input, every run or every reachable state.

**Leader election.** Any number of replicas contend for one Kubernetes Lease. A claim reads the Lease, decides
on that snapshot, and writes under the version it read (`LeaseClaim`). A replica's belief changes when an
attempt ends (`Belief`), the loop then tells the recovery monitor and the watch (`ElectionLoop`, `Monitor`), and
the traffic gate admits requests only on a ready monitor. `ElectionSystem` is all of that as one step system
under a shared clock: reads, writes and answers interleave freely, attempts fail or time out at any moment,
writes land after their attempt was given up, processes crash and are replaced, and the other tasks of a process
call its monitor at any time. `ElectionInvariant` is what every step keeps; `ElectionSafety` draws the
consequences; `ElectionProgress` says what a leader keeps; `ElectionExactness` shows that the timing condition cannot
be weakened. `MonitorHistory` says what the monitor's flags and counters mean over whole histories.

With lease duration `L`, renew deadline `D` and retry period `R`, at most one replica believes it leads, and at
most one admits traffic, **exactly when** `(ceil(D/R) + 2) * R < L`, or `<=` if at one instant a leader's own
timeout is handled before another replica's next attempt. The configuration check accepts any `R < D < L`, so it
accepts timings that are not safe: 29/20/5 has a run with two leaders, both serving. The defaults 30/20/5 lie on
the boundary and depend on the tie rule.

`Supervisor` models how one process runs its worker generations, and `Routing` the Service label publication.
`WorkerSystem` puts the supervisors into the election: a generation outlives its leadership until the supervisor has
cancelled and joined it. At most one replica has a live generation **exactly when** generations end within a limit
that, added to `(ceil(D/R) + 2) * R`, still fits in `L` (`WorkerSafety`, `WorkerExactness`). The supervisor waits as
long as a generation takes, so as it stands no configuration guarantees that; the gate on traffic does not depend on
it.

**Alert rules.** `AlertSplit` and `AlertEval` model the evaluator of alert expressions, which works on text.
`AlertSyntax` gives the documented grammar as data, with its text and its meaning, and `AlertAgreement` proves that
evaluating the text gives the meaning. The documentation also promises an error for anything outside the grammar.
That is not so, and `AlertErrors` says exactly when evaluation raises, for every text: when one of the fragments it is
evaluated by is unsupported, or when a non-empty term is compared with an unreadable number. Fragments it is not
evaluated by (a third operand of a division or subtraction), whatever stands inside `absent(...)`, and matchers the
grammar does not have all pass.

**Smaller cores.** The bounded log cache (`LogCache`), the delivery-grant policy and its launcher-to-driver round
trip (`DeliveryGrants`, `Sorting`), the deterministic lifecycle event key (`LifecycleKey`), and saturating retry
delays (`Backoff`). A grant may be written as a list of its values, but is handed on with the names of its fields, so a
session value can exceed the size limit the policy it came from kept within; the driver then refuses it, and the round
trip is stated with that exact condition. `Text`, `Sets` and `Wrappers` hold what they share.

## Model

| member | source | states |
|---|---|---|
| `LeaseClaim.ValidateTiming` | backend/src/leader_config.rs:121-143 | timings are accepted exactly when 1 <= retry < renew < lease and 3 <= lease <= 300 |
| `LeaseClaim.TimingErrors` | backend/src/leader_config.rs:121-143 | what is refused, the first complaint that applies |
| `LeaseClaim.LeaseServer.Get` | backend/src/leader_election.rs:572-579 | reads the stored Lease, or not found |
| `LeaseClaim.LeaseServer.CreateLease` | backend/src/leader_election.rs:581-592 | creates only where nothing exists, under a new version |
| `LeaseClaim.LeaseServer.ReplaceLease` | backend/src/leader_election.rs:594-611 | compare and swap on the version; a forced conflict changes nothing |
| `LeaseClaim.ClaimOnce` | backend/src/leader_election.rs:396-469 | one claim is exactly a read, the decision on what was read, and the write landing; every error path leaves the store alone |
| `LeaseClaim.ClaimExactly` | backend/src/leader_election.rs:422-458 | field by field: a claim follows exactly while a trimmed, non-empty holder other than the claimant has a positive duration from its renew (else acquire) time that is not over; otherwise it writes itself as holder under the version read, keeping acquire time and count exactly if the trimmed holder is itself, or errs for want of a version |
| `LeaseClaim.ClaimWithoutLease` | backend/src/leader_election.rs:405-420 | without a Lease a claim creates one with itself as holder and no transitions; another read error is the claim's |
| `LeaseClaim.OwnClaimRenews` | backend/src/leader_election.rs:422-468 | a holder's claim on its own Lease is reported as held and writes the next version with the hold unbroken, expired or not |
| `LeaseClaim.FreeLeaseIsTaken` | backend/src/leader_election.rs:422-468 | a free or expired Lease is taken over under the next version |
| `LeaseClaim.AnswersExactly` | backend/src/leader_election.rs:409-468 | how every answer to a write is reported |
| `Belief.ElectionState.ObserveResult` | backend/src/leader_election.rs:333-394 | belief, success instant and transition count after a result, and the event reported, for all results |
| `Belief.BeliefExactly` | backend/src/leader_election.rs:333-394 | for every result and every kind of error: believing afterwards exactly after a confirmed claim, or after an error of a believer before its last success plus the deadline; the success instant and the count kept |
| `Belief.EventExactly` | backend/src/leader_election.rs:340-394 | the event reported for every result, with whether it was a leader's attempt and whether it ended the leadership |
| `Monitor.RecoveryMonitor.EnableLeaderElection` | backend/src/recovery.rs:105-115 | the whole snapshot after enabling: not ready, not leading, nothing proved |
| `Monitor.RecoveryMonitor.RecordLeaderAcquired` | backend/src/recovery.rs:118-130 | leading, all readiness cleared, one more acquisition |
| `Monitor.RecoveryMonitor.RecordLeaderRenewed` | backend/src/recovery.rs:133-138 | flags untouched, holder and transitions recorded |
| `Monitor.RecoveryMonitor.RecordLeaderFollower` | backend/src/recovery.rs:141-151 | not leading, all readiness cleared |
| `Monitor.RecoveryMonitor.RecordLeaderLost` | backend/src/recovery.rs:154-167 | not leading, all readiness cleared, a loss counted only if it was leading |
| `Monitor.RecoveryMonitor.RecordLeaderApiFailure` | backend/src/recovery.rs:169-176 | only the renewal or the acquisition failure counter moves |
| `Monitor.RecoveryMonitor.RecordLeaderConflict` | backend/src/recovery.rs:178-181 | only the conflict counter moves |
| `Monitor.RecoveryMonitor.RecordLeaderRouting` | backend/src/recovery.rs:185-194 | publication counts only while leading, and readiness follows |
| `Monitor.RecoveryMonitor.RecordLeaderRoutingFailure` | backend/src/recovery.rs:196-201 | routing and readiness withdrawn, failure counted |
| `Monitor.RecoveryMonitor.RecordUnavailable` | backend/src/recovery.rs:205-211 | with dispatch on: degraded and not ready; otherwise nothing |
| `Monitor.RecoveryMonitor.RecordAttempt` | backend/src/recovery.rs:214-260 | a success readies a leader, a partial or failed pass degrades and takes its readiness |
| `Monitor.ConsistentAfterEnable` | backend/src/recovery.rs:105-260 | after any calls, ready is the conjunction leader, resynced, published, not degraded; a non-leader has proved nothing |
| `Monitor.LeaderMeansHeld` | backend/src/recovery.rs:118-167 | over whole histories, the monitor leads exactly when some acquisition stands unended |
| `Monitor.FlagsSince` | backend/src/recovery.rs:118-260 | since that acquisition, the readiness flags say exactly whether the latest resync succeeded and the latest routing call published |
| `Monitor.ReadyMeansFreshEpoch` | backend/src/recovery.rs:118-260 | over whole histories, ready exactly when the current epoch is fresh: a resync not overturned and a publication not undone since the acquisition |
| `Monitor.GateExactly` | backend/src/router.rs:61-76 | a gate that is off passes everything; one that is on passes exactly on a ready snapshot, which over whole histories is a fresh epoch |
| `MonitorHistory.WithElection` | backend/src/recovery.rs:105-260 | over whole histories, each flag says exactly what has happened since the epoch began: degraded by the latest news of recovery, startup complete by any success, resynced and published by the latest attempt and routing call of a leader |
| `MonitorHistory.WithoutElection` | backend/src/recovery.rs:205-260 | a monitor that never enabled election is ready exactly when its latest news is a successful resync, or there is none and dispatch is off; degraded exactly when its latest news of recovery is bad; its startup complete exactly when dispatch is off or some resync succeeded |
| `MonitorHistory.TallyIsHistory` | backend/src/recovery.rs:118-260 | over whole histories, every counter is the number of the calls it counts, saturating, and the last result and repository count are those of the latest attempt |
| `MonitorHistory.HolderIsHistory` | backend/src/recovery.rs:118-167 | the holder and count observed are those of the latest election call, the process itself after its own claims |
| `MonitorHistory.LossesAreCounted` | backend/src/recovery.rs:154-167 | a loss is counted exactly when there was a leadership to lose |
| `ElectionLoop.HandleResult` | backend/src/leader_election.rs:203-295 | one turn keeps belief, monitor and watch in agreement and acquisitions minus losses balanced |
| `ElectionLoop.HandleEvent` | backend/src/leader_election.rs:204-295 | the monitor and the watch after each kind of event, call by call |
| `ElectionLoop.OtherTasks` | backend/src/main.rs:897-938 | routing, resync and availability calls never change leadership or its counters |
| `ElectionLoop.RunElectionLoop` | backend/src/leader_election.rs:167-298 | after every number of turns, belief, monitor and watch agree and acquisitions minus losses is 1 while leading, else 0, below saturation |
| `ElectionLoop.ActionsReachBelief` | backend/src/leader_election.rs:204-295 | for every belief and result, the calls made bring monitor and watch to the new belief |
| `ElectionLoop.AfterActions` | backend/src/leader_election.rs:204-295 | what each kind of event leaves in monitor and watch |
| `ElectionLoop.TurnCounts` | backend/src/leader_election.rs:204-295 | what a turn counts, result by result: conflicts, failed renewals and acquisitions, acquisitions and losses |
| `ElectionLoop.TurnRecords` | backend/src/leader_election.rs:204-295 | what a turn records of the holder, and that it leaves the rest alone |
| `ElectionLoop.TurnFlags` | backend/src/leader_election.rs:204-295 | a renewal and an error that ends nothing leave the flags alone; anything else clears readiness and sets leadership |
| `ElectionInvariant.MissedBound` | backend/src/leader_election.rs:372-381 | a failed attempt that does not yet drop the belief is at most the ceil(D/R)-th since the confirmed claim, so the next one still ends within the window |
| `ElectionInvariant.DecisionLinks` | backend/src/leader_election.rs:428-463 | what a claim writes over what it read: later renew time, and either the same holder with its acquisition and count kept or an expired Lease taken over |
| `ElectionInvariant.StepInv` | backend/src/leader_election.rs:167-298 | every step of the election keeps the invariant over store, requests in flight, replicas and history |
| `ElectionInvariant.ReachableInv` | backend/src/leader_election.rs:167-298 | the invariant holds in every reachable state |
| `ElectionSafety.Superseded` | backend/src/leader_election.rs:498-520 | when the Lease has passed to another holder, somebody's claim is a whole Lease duration younger |
| `ElectionSafety.MutualExclusion` | backend/src/leader_election.rs:191-298 | under the timing condition, no reachable state has two believers |
| `ElectionSafety.GateExclusion` | backend/src/router.rs:61-76 | under the same condition, no reachable state has two replicas admitting side-effect traffic |
| `ElectionSafety.BeliefDeadline` | backend/src/leader_election.rs:191-203 | a believer's latest confirmed claim is at most (ceil(D/R)+2)*R old by its stamp and less than D+2R by its observation |
| `ElectionProgress.ErrorsBeforeDeadline` | backend/src/leader_election.rs:372-389 | from every reachable state, an attempt of a believer that ends in any error leaves it believing exactly if that is before its last success plus the deadline |
| `ElectionProgress.LeaderOwnsLease` | backend/src/leader_election.rs:396-469 | in a safe configuration the Lease names its leader in every reachable state |
| `ElectionProgress.HolderRenews` | backend/src/leader_election.rs:191-204 | an attempt that reads its own Lease can end with the replica believing by that attempt's claim, whatever happens before its write lands short of another write, and whatever happens before it hears of it |
| `ElectionSafety.Agreement` | backend/src/leader_election.rs:204-295 | in every reachable state with nothing pending, monitor, watch and belief agree, and serving implies believing |
| `ElectionSafety.LeaseHistory` | backend/src/leader_election.rs:405-469 | in every run, writes that took effect come from different requests with strictly increasing versions and renew times, the holder changes only over an expired Lease, and the Lease is what the last of them wrote |
| `ElectionSafety.OneHolderPerVersion` | backend/src/leader_election.rs:594-611 | at most one claim is answered with success for each version of the Lease |
| `ElectionSafety.StaleClaimLeavesLease` | backend/src/leader_election.rs:594-611 | a stale write changes nothing and is answered by an error |
| `ElectionSafety.CurrentClaimTakesLease` | backend/src/leader_election.rs:396-469 | any other takes the next version, makes its owner the holder, and is reported to it as ownership |
| `ElectionSafety.TransitionsCountHolders` | backend/src/leader_election.rs:440-456 | whatever Lease a run finds, the transition count is the one found increased by the number of holder changes since, saturating at i32 max; from zero on a Lease the run created |
| `ElectionSafety.AcquireTimeFollowsHolder` | backend/src/leader_election.rs:440-456 | the acquire time is the stamp that began the current hold, or the one found if that hold is older than the run; unless the one found lies in the future, it changes exactly when the holder does |
| `ElectionSafety.OneUnchallenged` | backend/src/leader_election.rs:191-298 | two replicas cannot both have a confirmed claim that no other attempt started a Lease duration after |
| `ElectionExactness.TwoLeaders` | backend/src/leader_config.rs:136-143 | for every ordered timing outside the condition, a run with two replicas believing and serving at once |
| `ElectionExactness.ExclusionIsExact` | backend/src/leader_config.rs:136-143 | one believer at most, and one server at most, if and only if the timing condition holds |
| `ElectionExactness.AcceptedIsNotSafe` | backend/src/leader_config.rs:136-143 | the check accepts 29/20/5, which is unsafe, and 30/20/5, which is safe with the tie rule only |
| `WorkerSafety.StartIsEarlier` | backend/src/leader_election.rs:132-165 | no other replica starts an attempt a Lease duration after the claim behind a live worker generation, its watch true or already false |
| `WorkerSafety.ArisesInv` | backend/src/leader_election.rs:132-298 | every step of the election and every move of a supervisor keeps the invariant that ties live generations to claims |
| `WorkerSafety.OneGeneration` | backend/src/leader_election.rs:132-165 | no run has live worker generations of two replicas at once, if they end within what the Lease leaves after the belief window |
| `WorkerExactness.TwoGenerations` | backend/src/leader_election.rs:148-154 | for every ordered timing and every longer or missing limit, a run with two replicas' generations live at once |
| `WorkerExactness.GenerationsExact` | backend/src/leader_election.rs:132-165 | at most one live generation in the deployment if and only if (ceil(D/R)+2)*R plus the limit on ending one fits in the Lease duration |
| `WorkerExactness.NoLimitIsNotEnough` | backend/src/leader_election.rs:148-154 | the supervisor sets no limit, so no configuration has at most one generation at a time; the defaults would need generations to end at once |
| `Supervisor.Supervise` | backend/src/leader_election.rs:132-165 | the loop over coalesced watch values performs exactly the specified starts, cancellations and joins |
| `Supervisor.StopWorker` | backend/src/leader_election.rs:149-153 | callback first, then cancel and join of the worker held |
| `Supervisor.SupervisionIsSafe` | backend/src/leader_election.rs:132-165 | for every watch history: never two live generations, each cancelled after the callback and joined before the next starts, a worker held exactly when the value seen is true, none left at the end |
| `Supervisor.EveryLookActs` | backend/src/leader_election.rs:143-157 | the follower callback is made at every look that finds no leadership, worker or not, and once at the end; generations are started exactly as often as the value seen turned true |
| `Supervisor.SeesLatest` | backend/src/leader_election.rs:143-143 | whatever is coalesced, a look sees the last value sent |
| `Routing.RoutingPlan` | backend/src/leader_routing.rs:92-126 | the loop computes the specified plan |
| `Routing.Reconcile` | backend/src/leader_routing.rs:45-77 | a failed list or plan changes nothing; otherwise the pods end as the plan up to the first patch not confirmed leaves them, that one included if it was applied, and success means the whole plan |
| `Routing.StaleExactly` | backend/src/leader_routing.rs:92-126 | the clearing patches name exactly the other pods that are listed and selected |
| `Routing.PlanExists` | backend/src/leader_routing.rs:116-125 | in any list, publication has a plan exactly if the own pod is listed and fails with pod not found otherwise; withdrawal always has one |
| `Routing.WithdrawalPlan` | backend/src/leader_routing.rs:123-124 | withdrawal clears the own pod exactly if it is listed and selected |
| `Routing.PublicationIsSafe` | backend/src/leader_routing.rs:45-126 | for a listed own pod there is a plan, and at every prefix of it no more pods are selected than before or one, own selected only when nothing is; at the end exactly own |
| `Routing.PublicationConverges` | backend/src/leader_routing.rs:92-126 | planning again over the result finds nothing to do |
| `Routing.WithdrawalIsLocal` | backend/src/leader_routing.rs:92-126 | withdrawal touches only the own pod and leaves it unselected |
| `AlertSplit.SplitTopLevel` | deploy/kubernetes/validate-alert-rules.rb:91-112 | the loop over index, depth and current part computes the specified parts |
| `AlertSplit.BalancedWrapper` | deploy/kubernetes/validate-alert-rules.rb:167-175 | true exactly when the depth first returns to zero at the last character |
| `AlertSplit.SplitRejoins` | deploy/kubernetes/validate-alert-rules.rb:91-112 | joining the parts with the needle restores the text |
| `AlertSplit.SplitIsExact` | deploy/kubernetes/validate-alert-rules.rb:91-112 | the cuts are exactly the leftmost non-overlapping occurrences at depth zero, and the parts are what lies between them |
| `AlertSplit.PartsAreShorter` | deploy/kubernetes/validate-alert-rules.rb:114-165 | several parts are each shorter than the text, which is why the mutual recursion ends |
| `AlertEval.PeelParens` | deploy/kubernetes/validate-alert-rules.rb:151-153 | the stripping loop peels every pair that wraps the whole text |
| `AlertFactors.SelectorReadBack` | deploy/kubernetes/validate-alert-rules.rb:63-74 | a written selector parses to its name and matchers |
| `AlertFactors.SpacedReadBack` | deploy/kubernetes/validate-alert-rules.rb:69-71 | a written matcher is recognised, whatever blanks stand around its operator and whatever follows it |
| `AlertFactors.SelectExactly` | deploy/kubernetes/validate-alert-rules.rb:76-88 | what is selected are exactly the samples of that metric whose labels, empty if missing, meet every matcher |
| `AlertFactors.ValuesMeasured` | deploy/kubernetes/validate-alert-rules.rb:194-201 | the values or increases of what is selected, in order |
| `AlertFactors.MaxIsGreatest` | deploy/kubernetes/validate-alert-rules.rb:189-189 | the maximum is one of the values and no value exceeds it |
| `AlertFactors.SumIsTotal` | deploy/kubernetes/validate-alert-rules.rb:189-189 | the sum is the total of the values |
| `AlertFactors.InnerReadBack` | deploy/kubernetes/validate-alert-rules.rb:194-201 | a written range or instant selector gives its increases or values |
| `AlertFactors.PlainFactorReadBack` | deploy/kubernetes/validate-alert-rules.rb:177-192 | a written factor evaluates to its meaning |
| `AlertWords.SplitFirst` | deploy/kubernetes/validate-alert-rules.rb:91-112 | in a text of words, the first cut is at the first word equal to the keyword |
| `AlertWords.SplitNone` | deploy/kubernetes/validate-alert-rules.rb:91-112 | without such a word there is one part |
| `AlertAgreement.TermAgrees` | deploy/kubernetes/validate-alert-rules.rb:151-165 | a written term, nested parentheses included, evaluates to its meaning; division by zero is empty |
| `AlertAgreement.ComparisonFound` | deploy/kubernetes/validate-alert-rules.rb:133-149 | the comparison found in a written operand is the one written, whatever signs its selectors hold |
| `AlertAgreement.OperandAgrees` | deploy/kubernetes/validate-alert-rules.rb:133-149 | a written operand evaluates to its meaning: comparisons filter |
| `AlertAgreement.ComparisonsFilter` | deploy/kubernetes/validate-alert-rules.rb:133-147 | a term that means x, written with one of the five signs and a number n, evaluates to x exactly if x > n, x < n, x >= n, x <= n or x == n, and to nothing otherwise |
| `AlertAgreement.SpacingIsFree` | deploy/kubernetes/validate-alert-rules.rb:134-134 | so it does with any blanks around the number and, on one line, before the sign |
| `AlertAgreement.BlanksAround` | deploy/kubernetes/validate-alert-rules.rb:114-115 | spaces, tabs and line ends around an expression make no difference |
| `AlertAgreement.EvaluationAgrees` | deploy/kubernetes/validate-alert-rules.rb:33-192 | for every expression of the grammar and all samples, evaluating the text gives the meaning; `and` binds tighter than `or` |
| `AlertErrors.RaisesExactly` | deploy/kubernetes/validate-alert-rules.rb:114-201 | for every text and all samples, evaluation raises if and only if a fragment it is evaluated by is unsupported or a non-empty term is compared with an unreadable bound |
| `AlertErrors.TermRaises` | deploy/kubernetes/validate-alert-rules.rb:151-165 | a term raises if and only if one of the fragments it is evaluated by, two operands of the first operator that splits it, is unsupported |
| `AlertErrors.FactorRaises` | deploy/kubernetes/validate-alert-rules.rb:177-192 | a factor raises unless it is the clock, a readable number, `absent` of anything at all, or an aggregate of something |
| `AlertErrors.InnerRaises` | deploy/kubernetes/validate-alert-rules.rb:194-201 | an aggregate raises only over nothing: blanks, or a range without a selector |
| `AlertErrors.SelectorsNeverRaise` | deploy/kubernetes/validate-alert-rules.rb:63-88 | a selector is refused only if it is empty |
| `AlertErrors.OnlyTwoOperandsCount` | deploy/kubernetes/validate-alert-rules.rb:155-163 | a third and later operands of a division or subtraction count for nothing, right or wrong |
| `AlertErrors.AnythingInAbsent` | deploy/kubernetes/validate-alert-rules.rb:182-184 | whatever stands inside `absent(...)` evaluates |
| `AlertErrors.UnknownMatcherDropped` | deploy/kubernetes/validate-alert-rules.rb:69-71 | a matcher with `!=` is dropped: the selector reads as if it were not there |
| `AlertErrors.NonsensePasses` | deploy/kubernetes/validate-alert-rules.rb:29-31 | a fragment that is an error alone evaluates to zero in third place, against the documentation |
| `LogCache.LogBundleCache.GetAt` | backend/src/log_bundle_cache.rs:77-81 | the entry if it is younger than the time to live |
| `LogCache.LogBundleCache.PutAt` | backend/src/log_bundle_cache.rs:88-101 | stale entries go, an oldest one makes room for a new session, the rest stays |
| `LogCache.FindOldest` | backend/src/log_bundle_cache.rs:92-95 | an entry no other is older than |
| `LogCache.EvictionExplained` | backend/src/log_bundle_cache.rs:88-101 | an evicted entry is outlived by 64 other sessions put at or after it |
| `LogCache.CacheIsFaithful` | backend/src/log_bundle_cache.rs:77-101 | after every history: at most 64 entries, a hit is the session's latest put and fresh, and a fresh put is missed only if 64 other sessions were put at or after it |
| `LogCache.LatestPutStays` | backend/src/log_bundle_cache.rs:88-101 | after every history the latest put is there, and nothing that was stale by then is |
| `DeliveryGrants.NormalizedExactly` | backend/src/delivery_grants.rs:222-239 | a name is accepted exactly when, blanks aside, it is two segments around one slash, and only the blanks go |
| `DeliveryGrants.CheckGrants` | backend/src/delivery_grants.rs:95-129 | the loop reports the first error in order, or normalises every grant |
| `DeliveryGrants.Parse` | backend/src/delivery_grants.rs:73-138 | the parse is the specified one, errors in order |
| `DeliveryGrants.KeyIsIssue` | backend/src/delivery_grants.rs:119-128 | the duplicate key distinguishes exactly repository up to case and issue number |
| `DeliveryGrants.ParseExactly` | backend/src/delivery_grants.rs:73-138 | a decoded text is accepted exactly when its grants, cleaned, are admissible and name no issue twice |
| `DeliveryGrants.ParsedIsPolicy` | backend/src/delivery_grants.rs:73-138 | what is accepted is sorted, at most 128, and a rearrangement of the cleaned grants |
| `DeliveryGrants.ParsedInOrder` | backend/src/delivery_grants.rs:131-136 | the order is ascending: by repository without regard to case, character by character, then by issue |
| `DeliveryGrants.ParseRefusals` | backend/src/delivery_grants.rs:73-93 | blank is the empty policy; size, decoding and number are refused first, in this order |
| `DeliveryGrants.CheckedErrors` | backend/src/delivery_grants.rs:97-128 | the error of a grant is the first that applies of bad repositories, issue zero, bad branch, same repository up to case, and duplicate |
| `DeliveryGrants.FirstError` | backend/src/delivery_grants.rs:95-129 | the error reported is that of the first grant that has one |
| `DeliveryGrants.FindIsUnique` | backend/src/delivery_grants.rs:177-194 | the lookup finds a grant if and only if it is the matching one, and agrees with looking among the repository's grants |
| `DeliveryGrants.ForRepoIsPolicy` | backend/src/delivery_grants.rs:187-194 | one repository's grants are an ordered policy |
| `DeliveryGrants.SessionIsScoped` | backend/src/delivery_grants.rs:144-169 | the driver accepts only grants of its own repository |
| `DeliveryGrants.SessionOutcome` | backend/src/delivery_grants.rs:144-169 | absence is no grants; a blank value, a bad repository, a policy that does not parse and a grant of another repository are refused, in this order |
| `DeliveryGrants.SessionRoundTrip` | backend/src/delivery_grants.rs:144-219 | the driver reads back exactly the repository's grants in order, or refuses the value exactly when it exceeds the size limit |
| `DeliveryGrants.SessionValueTooLarge` | backend/src/delivery_grants.rs:213-219 | a policy of 65,536 bytes, its grant written as a list of values, is accepted, and the session value made from it is refused |
| `DeliveryGrants.ImplementationReposFor` | backend/src/delivery_grants.rs:198-209 | the loop with its seen set keeps first spellings, then orders them |
| `DeliveryGrants.ImplementationReposExact` | backend/src/delivery_grants.rs:196-209 | ascending without regard to case, no repository twice in whatever case, all and only those of the session's grants, each as the first grant for it spells it |
| `LifecycleKey.BuildersKeepId` | backend/src/audit/lifecycle.rs:311-339 | after any builders in any order, the id is derived from the fields as they are, with the last runtime attached |
| `LifecycleKey.BuildersSetFields` | backend/src/audit/lifecycle.rs:320-339 | every other field is what the latest builder for it said, or what it was |
| `LifecycleKey.NewEventDerived` | backend/src/audit/lifecycle.rs:285-309 | a new record's id is derived from its fields |
| `LifecycleKey.KeyExactly` | backend/src/audit/lifecycle.rs:431-455 | for valid session ids, keys agree exactly when action, backend, session and incarnation do |
| `LifecycleKey.KeyExample` | backend/src/audit/lifecycle.rs:449-453 | a key written out |
| `LifecycleKey.NoBars` | backend/src/audit/lifecycle_validate.rs:82-102 | a session id that passes validation holds no separator |
| `LifecycleKey.SessionExactly` | backend/src/audit/lifecycle_validate.rs:82-102 | the complaint about a session id, the first that applies; none exactly for 1 to 128 bytes of lowercase letters, digits and hyphens with no hyphen at either end |
| `LifecycleKey.Rfc3339Exactly` | backend/src/audit/lifecycle.rs:443-446 | two instants, of whatever years, are written alike exactly when they agree to the millisecond |
| `LifecycleKey.Rfc3339Layout` | backend/src/audit/lifecycle.rs:443-446 | within four-digit years, the year, then date and clock, 24 characters in all |
| `LifecycleKey.DateLayout` | backend/src/audit/lifecycle.rs:443-446 | month and day, two digits each, read back from the text |
| `LifecycleKey.ClockLayout` | backend/src/audit/lifecycle.rs:443-446 | hour, minute, second and millisecond read back from the text; second 60 within a leap second |
| `LifecycleKey.IncarnationExactly` | backend/src/audit/lifecycle.rs:437-448 | incarnations agree exactly when handle and creation instant to the millisecond do, or when a bare handle is a dated one written out |
| `LifecycleKey.HandleExactly` | backend/src/audit/lifecycle.rs:437-441 | the handle is the backend's id where there is one, else the hint, else a fixed word |
| `LifecycleKey.IdsDecide` | backend/src/audit/lifecycle.rs:437-448 | two runtimes with ids and equal creation instants share an incarnation exactly when the ids agree, whatever the hints hold |
| `LifecycleKey.BareExactly` | backend/src/audit/lifecycle.rs:437-448 | a runtime without creation instant can be mistaken for another exactly when its handle ends in a written instant |
| `LifecycleKey.MistakenExample` | backend/src/audit/lifecycle.rs:437-448 | two handles, one bare and one dated, with one incarnation |
| `LifecycleKey.KeysTellEventsApart` | backend/src/audit/lifecycle.rs:431-455 | the keys of two valid events agree exactly when action, backend, session, handle and creation instant do, or when a bare handle is a dated one written out |
| `Backoff.RetryBackoff.constructor` | backend/src/retry.rs:29-37 | floor at least 1, ceiling at least the floor |
| `Backoff.RetryBackoff.NextDelay` | backend/src/retry.rs:39-43 | the k-th delay since construction or reset is min(initial * 2^k, max) |
| `Backoff.RetryBackoff.Reset` | backend/src/retry.rs:45-47 | counting starts again |
| `Backoff.DoublingSaturates` | backend/src/retry.rs:39-43 | every intermediate number fits in 64 bits, and saturation never shows in the delays |
| `Backoff.DelaysGrow` | backend/src/retry.rs:39-43 | delays never shrink, never reach zero, never pass the ceiling |
| `Backoff.CeilingIsReached` | backend/src/retry.rs:39-43 | from the 65th delay on, the ceiling |
| `Backoff.JitteredDelay` | backend/src/retry.rs:52-61 | the base itself without jitter, otherwise whole milliseconds within the percentage band |
| `Backoff.RangeIsBand` | backend/src/retry.rs:56-60 | every intermediate number fits in 64 bits; the range drawn from is never empty, lies in the band, and is the whole band unless the product overflows |
| `Text.TrimExactly` | backend/src/leader_election.rs:426-426 | trimming removes the blanks at both ends, all of them, and nothing else |
| `Text.TrimmedSpace` | backend/src/leader_election.rs:426-426 | ASCII, no-break and ideographic blanks are trimmed, printable ASCII is not |
| `Text.LowerExactly` | backend/src/delivery_grants.rs:110-113 | equal up to ASCII case exactly if equal letter by letter up to case |
| `Text.LexExactly` | backend/src/delivery_grants.rs:131-135 | ascending order: equal so far, then shorter or smaller |

## Left out

- Clock drift and late timers: one ideal clock, in microseconds, for all replicas; attempts start, time out and are observed on time, and the Lease stamp is the instant the attempt starts.
- Restart within one instant: a replica is replaced under the same identity only after the instant its predecessor last started an attempt.
- Mixed configurations: all replicas run with the same timings; identities are distinct and without blanks at the ends, as validated DNS names are.
- Outside interference with the Lease: nobody but the replicas writes or deletes it once the run has begun; the Lease found at the beginning is arbitrary.
- Log lines, and the Lease fields the claim copies unchanged (labels, strategy, preferred holder).
- LeaseClaim.ClaimOnce: a missing identity is an error there; the election itself is modelled with identities only, as configuration demands.
- Monitor.RecoveryMonitor.RecordLeaderAcquired: the wall-clock time of the renewal, a metric, is not kept.
- Monitor.RecoveryMonitor.RecordLeaderRenewed: the wall-clock time of the renewal, a metric, is not kept.
- Monitor.RecoveryMonitor.RecordAttempt: the duration and the wall-clock times of attempts, metrics, are not kept.
- ElectionLoop.HandleResult: the loop ending because the watch has no receiver left is not modelled.
- ElectionLoop.RunElectionLoop: takes the results and instants of the attempts as given; when attempts run is in `ElectionSystem`. The loop ending because the watch has no receiver left is not modelled.
- Routing.PublicationIsSafe: over the pods as listed; pods that appear or are relabelled by others during the patches are not modelled.
- Which worker tasks a generation runs, and what they do besides calling the monitor; a generation ends with its process.
- AlertAgreement.EvaluationAgrees: texts with single blanks between words and none inside selectors (other blanks are covered for one matcher, one comparison and around the whole); numbers end in a digit; label values hold no quotation marks, parentheses or line breaks. Parenthesised terms and the operators `>=` and `<=`, which the evaluator accepts beyond the documented grammar, are included.
- Floating point: alert values are reals, and `Float` and regular-expression matching are arbitrary functions; an invalid regular expression does not raise.
- Alert fixtures, rule files and the reporting around the evaluator.
- DeliveryGrants.SessionRoundTrip: JSON encoding and decoding are assumed inverse to each other; branch-name rules and byte lengths are arbitrary functions.
- DeliveryGrants.SessionValueTooLarge: assumes of JSON what it says about grants whose texts need no escaping, and that `main` is an acceptable branch.
- Sorting is a stable sort by comparison; which algorithm the library uses does not matter to it.
- LifecycleKey.KeyExactly: about the key text; that the name-based UUID keeps different keys apart is not a theorem. Instants are dates and times of day; the calendar behind them is not modelled.
- The other length checks of lifecycle validation, the property bag and delivery of events.
- Backoff.JitteredDelay: which value of the range is drawn is arbitrary; its distribution is not modelled.
- Audit admission counters: each call moves one counter, so conservation would only add easy members.
- Configuration parsing other than the election timings, access policy, HTTP plumbing, the session backends, the reconciler and the frontend.
