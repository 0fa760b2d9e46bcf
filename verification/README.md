# Verified model of the vSphere CSI driver operator

This project models the stateful parts of the vSphere CSI driver operator in Dafny and proves what
they keep over every schedule and every run.  `dafny verify dfyconfig.toml` checks all of it.

**Node-check worker pool** (`NodePool*.dfy`).  The producer, the channel, the workers, the WaitGroup and
the locked host map form a transition system with an arbitrary scheduler; Go's panics are states, so
their absence is proved.  `Failures` is the sequential check.  Every schedule has a bounded length, a
check that returns says what the sequential check says, and the only other way to stop is for good, with
the producer in front of a full channel and no worker left.  That happens for some schedule if and only
if the nodes except the last W+1 hold at least W failures (`CanBlock`); with the ten workers of the
operator, 20 nodes never block and 21 can.  What a returning check reports is the first so many failures of
the sequential check, in some order, and any number from one to W is possible (`ReportedExactlyWhen`); so
the severity of the conclusion is up to the schedule exactly when one of the first W failures is more
severe than the first (`ScheduleMattersExactlyWhen`).

**Controller** (`CheckResults`, `Backoff`, `EnvironmentChecker`, `Conditions`, `SyncMachine`,
`SyncTheorems`, `SyncOutcomes`, `Controller`).  `SyncMachine.Sync` is one sync as a function of process and cluster
state; the class in `Controller.dfy` follows the source's methods and is proved equal to it, with all
vCenter sessions closed on every path.  The theorems are about every run of syncs, crashes and status
writes by others; `SyncOutcomes` says how each sync ends and what it leaves alone, read off its inputs, and
that foreign conditions survive every run.  A check that asks to block the install can be overruled by a more severe result with a
weaker effect; `InstallBlockOverruledExactlyWhen` says when, and `UnsupportedDriverStartsExactlyWhen` what
follows for a cluster with a foreign driver.  A Degraded condition from a failed login promises that the
first sync that logs in and writes its secret re-examines it.  `PromiseKeptExactlyWhen` names the one write
that can break this, the one that stores the conclusion of the checks; no other write matters.
`LostWriteHidesRecovery` is such a run: everything is well again, every check passes, that write is lost,
and for an hour Degraded=True stays unexamined, however many syncs follow.

**Storage policies** (`StoragePolicy`, `AssociatedTypes`, `StorageClass`).  The vCenter is a value changed
by atomic API calls, any of which may fail; the reconciler converges from every state, then idles, and in a
run with failures leaves no more datastores untagged than calls failed.  The cached policy names are those of the last successful passes, and as long as nobody deletes a cached policy
and the infrastructure keeps its name, the storage class is only ever applied with a policy that exists in
every vCenter visited, even after it was unmanaged or removed for a while.  A datastore that carries a tag
of the right name is skipped, so the profile may not select it: `WillSelect` is the exact condition, and
`ForeignTagIsNeverReplaced` an input that fails it.  The throttle is shared: in a sync whose steps follow
within a minute, once all vCenters are cached, only the vCenter at whose visit the deadline has passed is
reconciled; as long as no deadline falls inside a sync, all but the first starve (`SyncRepeatedly`).

**Configuration** (`Templates`, `Credentials`, `IniValues`, `DriverConfig`, `ConfigReadsBack`,
`PlatformSpecConversion`, `LegacyTargets`, `Topology`, `Ordering`, `Platform`).  Placeholder substitution in random map order agrees with simultaneous
substitution in every well-formed template exactly when no value mentions another placeholder
(`OrderInvisibleExactlyWhen`); in the shipped template a password that mentions `${USER}` shows the order
(`PasswordShowsOrder`).  A password comes back through the INI reader exactly when it holds no CR,
LF or NUL; a user name exactly when it has the DOMAIN\user form, or holds none of these and no quote or
backslash.  Every other entry of the file has its exact condition as well (`ConfigReadsBack`): datacenters
are not quoted, the cluster's name is not escaped.  The reader is modelled on the vendored gcfg scanner.
Converting a legacy configuration is idempotent
exactly for the inputs that are `Stable`.  Every legacy file is, as loaded, unless the environment of the
operator gives one of its vCenters another address (`VSPHERE_VCENTER_<id>` with `VCENTER_<id>_SERVER`); a
`server` line in a VirtualCenter section cannot, since the legacy reader then rejects the file and nothing
is converted.  The failure-domain gauges are exact cardinalities.

Where code and comments differ, the code is followed: one entry of the untouchable conditions is spelled
`VMWareVSphere...` and so does not carry the operator's prefix.  `UpdateTag` is taken to store every
field it is given.  A virtual machine without a host makes `checkOnNode` call `Error` on a nil error
(check_nodes.go line 166); such a node is outside the pool model.

## Model

| member | source | states |
|---|---|---|
| NodePoolTheorems.PoolSafety | pkg/operator/vspherecontroller/checks/check_nodes.go:55-113 | in every reachable state nothing has panicked, the WaitGroup counter is the adds minus the dones and not negative, no Done precedes the last Add, the channel is closed at most once, sent = buffered + received, at most W results, and a returned check leaves no worker behind |
| NodePoolTheorems.NoSendAfterClose | pkg/operator/vspherecontroller/checks/check_nodes.go:77-83 | in every reachable state with a closed channel the producer is past all sends and closes |
| NodePoolSafety.ReachableInv | pkg/operator/vspherecontroller/checks/check_nodes.go:85-113 | every schedule keeps the inductive invariant: no received node is forgotten, and no failure is held or reported twice |
| NodePoolTheorems.VerdictIsSequential | pkg/operator/vspherecontroller/checks/check_nodes.go:65-73 | on every schedule that returns, the outcome is a single pass exactly when all nodes and all referenced hosts are healthy, and otherwise consists of exactly the failures the sequential check finds among the nodes received |
| NodePoolOutcomes.ReportedExactlyWhen | pkg/operator/vspherecontroller/checks/check_nodes.go:85-113 | some schedule reports c failures, namely the first c of the sequential check, if and only if c is at most W and at least one unless nothing is wrong |
| NodePoolOutcomes.ScheduleMattersExactlyWhen | pkg/operator/vspherecontroller/checks/check_nodes.go:65-101 | all schedules end in the same severity if and only if none of the first W failures is more severe than the first |
| NodePoolOutcomes.FoldEndsInPeak | pkg/operator/vspherecontroller/vsphere_environment_checker.go:75-82 | folding the reported results ends in the highest severity among them |
| NodePoolOutcomes.OldHardwareRaces | pkg/operator/vspherecontroller/checks/check_nodes.go:132-163 | a node of an old hardware version before one that is not a vSphere node: one schedule ends in block-or-degrade, another in degrade |
| NodePoolTheorems.SilentReturnMeansHealthy | pkg/operator/vspherecontroller/checks/check_nodes.go:169-172 | returning without a result means every host was really checked, although later nodes on a marked host pass early |
| NodePoolTheorems.FailuresComplete | pkg/operator/vspherecontroller/checks/check_nodes.go:254-264 | the sequential reference finds each rejected node and each bad host exactly once |
| NodePoolTheorems.SequentialVerdict | pkg/operator/vspherecontroller/checks/check_nodes.go:132-218 | the sequential reference finds nothing exactly when everything is healthy |
| NodePoolTheorems.ScheduleBound | pkg/operator/vspherecontroller/checks/check_nodes.go:220-252 | no schedule is longer than 6n + 5W + 6 steps |
| NodePoolTheorems.OnlyStuckState | pkg/operator/vspherecontroller/checks/check_nodes.go:220-252 | nothing can move exactly when the check returned or the producer is blocked on a full channel with all workers gone |
| NodePoolTheorems.BlockedNeedsFailures | pkg/operator/vspherecontroller/checks/check_nodes.go:75-101 | a reachable blocked state implies W failures among all nodes but the last W+1 |
| NodePoolTheorems.SmallClustersAlwaysReturn | pkg/operator/vspherecontroller/checks/check_nodes.go:220-252 | with at most 2W nodes every schedule that cannot go on has returned |
| NodePoolBlocking.FailuresCanBlock | pkg/operator/vspherecontroller/checks/check_nodes.go:75-101 | when the failures come that early, a schedule that blocks for good is constructed |
| NodePoolBlocking.BlocksExactlyWhen | pkg/operator/vspherecontroller/checks/check_nodes.go:220-252 | some schedule blocks if and only if the failures come early enough |
| NodePoolBlocking.TwentyNodesIsTheLimit | pkg/operator/vspherecontroller/checks/check_nodes.go:22-30 | with ten workers, some cluster of n nodes has a schedule that reaches a blocked state if and only if n is above 20 |
| CheckResults.CheckClusterStatus | pkg/operator/vspherecontroller/checks/check_error.go:130-175 | the rebuilt result is sound, and degraded status and degrade action go together |
| CheckResults.BlocksInstallExactlyWhen | pkg/operator/vspherecontroller/checks/check_error.go:130-175 | which results block the install: degrade, block driver install, or block-or-degrade with an annotated driver, a failed lookup or a failed connection |
| CheckResults.WorstIsLastMaximum | pkg/operator/vspherecontroller/vsphere_environment_checker.go:71-82 | folding yields the last result of the highest severity, and keeps soundness |
| CheckResults.WorstActionIs | pkg/operator/vspherecontroller/checks/check_error.go:39-47 | the order of severity, from the list of results alone: which action the fold ends in |
| CheckResults.InstallBlockOverruledExactlyWhen | pkg/operator/vspherecontroller/vsphere_environment_checker.go:75-82 | a check that asks to block the install is overruled exactly when nothing degrades, the last block-or-degrade result is not about the connection, and the CSIDriver is known not to be ours |
| CheckResults.OldHardwareUnblocksInstall | pkg/operator/vspherecontroller/vsphere_environment_checker.go:75-82 | an unsupported driver blocks the install, but together with a virtual machine of an old hardware version it blocks upgrades only |
| CheckResults.ConstructedIsSound | pkg/operator/vspherecontroller/checks/check_error.go:75-128 | every action above pass that the checks or the login build, by constructor or as a literal, carries an error |
| CheckResults.CheckForCSINode | pkg/operator/vspherecontroller/checks/check_existing_driver.go:35-58 | blocks the install exactly when some CSINode lists the driver, degrades exactly when listing fails |
| CheckResults.CheckExistingDriver | pkg/operator/vspherecontroller/checks/check_existing_driver.go:13-33 | nothing is reported exactly with our annotated driver, or with no driver object and no node listing it; the install is blocked exactly for an unsupported driver; degraded exactly when a lookup fails |
| Backoff.BaseDelay | pkg/operator/vspherecontroller/vsphere_environment_checker.go:13-23 | the k-th base delay is 2^k minutes up to the cap, and the step budget never runs out first |
| EnvironmentChecker.EnvironmentChecker.Check | pkg/operator/vspherecontroller/vsphere_environment_checker.go:53-96 | one call is the transition `AfterCheck`, whose properties over all histories follow |
| EnvironmentChecker.EnvironmentChecker.ResetExpBackoff | pkg/operator/vspherecontroller/vsphere_environment_checker.go:98-101 | makes the checker due now and restores the default backoff |
| EnvironmentChecker.StreakSetsBackoff | pkg/operator/vspherecontroller/vsphere_environment_checker.go:61-95 | after any history the backoff is the default advanced by the number of failures in a row |
| EnvironmentChecker.DelayAfterStreak | pkg/operator/vspherecontroller/vsphere_environment_checker.go:53-96 | after k failures in a row a failing check waits min(2^k minutes, one hour) plus jitter, a passing one exactly an hour, and a check runs exactly when due |
| EnvironmentChecker.ChecksAreSpaced | pkg/operator/vspherecontroller/vsphere_environment_checker.go:57-59 | without a reset two executed checks are more than a minute apart |
| Conditions.HasErrorConditions | pkg/operator/vspherecontroller/vspherecontroller.go:461-482 | true exactly when some condition is Degraded=True or Upgradeable=False by suffix |
| Conditions.IsErrorMeans | pkg/operator/vspherecontroller/vspherecontroller.go:463-477 | an error condition is a kind ending in Degraded that is True or one ending in Upgradeable that is False |
| Conditions.RemoveConditions | pkg/operator/vspherecontroller/operator_removal.go:98-135 | the two loops compute `Removed` |
| Conditions.RemovalIsExact | pkg/operator/vspherecontroller/operator_removal.go:98-135 | every removable condition of the snapshot is gone, all others are kept, Disabled=True is present |
| SyncMachine.LoginResult | pkg/operator/vspherecontroller/vspherecontroller.go:440-459 | sound, and a pass exactly when every connection was prepared and both logins succeeded |
| SyncTheorems.UpdatedShows | pkg/operator/vspherecontroller/vspherecontroller.go:531-620 | what the conditions of this controller read after one status write, reasons and messages included, whatever the list was before |
| SyncTheorems.EveryRunIsSafe | pkg/operator/vspherecontroller/vspherecontroller.go:179-211 | after any run operands were started at most once by this process, Degraded=True comes with Upgradeable=False, and a process that was ever Managed exits instead of removing operands |
| SyncTheorems.RunKeepsInv | pkg/operator/vspherecontroller/vspherecontroller.go:156-280 | syncs, crashes and foreign status writes keep the invariant, even when status writes fail |
| SyncTheorems.LoginGate | pkg/operator/vspherecontroller/vspherecontroller.go:290-300 | a sync passes the connection gate exactly when every login succeeded |
| SyncTheorems.StartsExactlyWhen | pkg/operator/vspherecontroller/vspherecontroller.go:202-211 | a sync starts the operands if and only if it sees an annotated CSIDriver, or runs checks that do not block the install and whose warning, if any, is stored |
| SyncTheorems.UnsupportedDriverStartsExactlyWhen | pkg/operator/vspherecontroller/vspherecontroller.go:321-342 | where the existing-driver check finds an unsupported driver, operands start if and only if the checks ran, their result was stored and the other results overrule it |
| SyncTheorems.ConditionsAfterChecks | pkg/operator/vspherecontroller/vspherecontroller.go:321-348 | whenever checks run, the displayed conditions and the reason given are a table over folded result, CSIDriver and operand state if the write that stores the conclusion succeeds, and unchanged if it is lost |
| SyncOutcomes.ConditionsAfterFailedLogin | pkg/operator/vspherecontroller/vspherecontroller.go:440-459 | what is displayed after a failed login, as a table over its cause, the driver lookup and operand state; nothing changes if the write is lost |
| SyncOutcomes.SyncKeepsForeign | pkg/operator/vspherecontroller/vspherecontroller.go:557-615 | no sync without removal touches a condition of somebody else, nor their order |
| SyncOutcomes.RunKeepsForeign | pkg/operator/vspherecontroller/vspherecontroller.go:557-615 | over any run without removal, foreign conditions are what others last wrote |
| SyncOutcomes.StorageSyncedExactlyWhen | pkg/operator/vspherecontroller/vspherecontroller.go:263-277 | a sync reaches the storage class if and only if it logs in, writes the secret, stores what it had to, and operands run and are not blocked |
| SyncOutcomes.FailsExactlyWhen | pkg/operator/vspherecontroller/vspherecontroller.go:156-280 | a sync returns an error if and only if a read, lookup, secret, needed write, storage sync or deletion failed; it exits exactly on removal after Managed |
| SyncOutcomes.RemovalExactlyWhen | pkg/operator/vspherecontroller/operator_removal.go:75-95 | removal changes conditions if and only if both deletions and the write succeed, and then exactly as it should |
| SyncOutcomes.ResetExactlyWhen | pkg/operator/vspherecontroller/vspherecontroller.go:249-254 | the checker is reset if and only if a lost connection is back while an error condition is stored |
| SyncOutcomes.UpgradeBlockAloneResets | pkg/operator/vspherecontroller/vspherecontroller.go:461-482 | a block of upgrades alone makes a reconnecting sync run the checks |
| SyncTheorems.CheckQueuesResync | pkg/operator/vspherecontroller/vspherecontroller.go:308-319 | every executed check queues a re-sync no earlier than the next check |
| SyncOutcomes.WakesUpExactlyWhen | pkg/operator/vspherecontroller/vspherecontroller.go:308-319 | a sync queues exactly one wake-up if it runs the checks, by the delay of the next check, and none otherwise |
| SyncTheorems.PromiseKeptExactlyWhen | pkg/operator/vspherecontroller/vspherecontroller.go:249-261 | one sync keeps the promise to re-examine a login failure if and only if there is none, it does not reach the checks, the conclusion of the checks is stored, or the next check is due at once |
| SyncTheorems.RunKeepsWillRecheck | pkg/operator/vspherecontroller/vspherecontroller.go:249-261 | over any run that loses no conclusion of checks, a stored login failure implies that the connection status is false or the checker is due |
| SyncTheorems.FailedLoginIsRechecked | pkg/operator/vspherecontroller/vspherecontroller.go:249-261 | the first sync that logs in and writes the secret then runs the checks; the conditions are overwritten if its conclusion is stored, and unchanged otherwise |
| SyncTheorems.LostWriteHidesRecovery | pkg/operator/vspherecontroller/vspherecontroller.go:321-348 | a run from a new process in which every check passes and one lost write leaves the failed login's Degraded=True; over every further run of syncs with working logins it stays, unexamined, until an hour has passed |
| SyncTheorems.AllWellIsUnalarming | pkg/operator/vspherecontroller/vspherecontroller.go:302-306 | among those syncs are the ones that log in, write the secret and would pass every check |
| SyncTheorems.HiddenRun | pkg/operator/vspherecontroller/vsphere_environment_checker.go:57-59 | once connected, no run of Managed syncs with working logins runs a check before it is due, or changes what is shown of a login failure |
| Controller.VSphereController.Sync | pkg/operator/vspherecontroller/vspherecontroller.go:156-280 | one sync is the transition of the model; every session is closed and the connection list empty at the end |
| Controller.VSphereController.LoginToVCenter | pkg/operator/vspherecontroller/vspherecontroller.go:484-509 | opens exactly the sessions its connections account for, on every error path |
| Controller.VSphereController.Connect | pkg/operator/vclib/connection.go:169-210 | a failed REST login keeps the SOAP client, so its session stays accounted for |
| Controller.VSphereController.Logout | pkg/operator/vspherecontroller/vspherecontroller.go:236-247 | closes exactly the sessions of the connections and drops the list |
| Controller.VSphereController.UpdateConditions | pkg/operator/vspherecontroller/vspherecontroller.go:531-620 | one atomic write of all three conditions, or nothing |
| Controller.VSphereController.Assess | pkg/operator/vspherecontroller/vspherecontroller.go:368-402 | the gate of the model, with its write |
| Controller.VSphereController.Install | pkg/operator/vspherecontroller/vspherecontroller.go:282-349 | the install transition of the model |
| Controller.VSphereController.RemoveAll | pkg/operator/vspherecontroller/operator_removal.go:75-92 | removes conditions only after all assets and the storage class are deleted |
| StoragePolicy.StoragePolicyAPI.constructor | pkg/operator/storageclasscontroller/vmware.go:68-90 | names derived from the infrastructure, and exactly the failure domains of this vCenter |
| StoragePolicy.StoragePolicyAPI.CreateStoragePolicy | pkg/operator/storageclasscontroller/vmware.go:214-250 | from any state: without failing calls it succeeds; success leaves every target tagged and the profile present; the profile is created at most once, last, after every target was attached in the run; with nothing to do no mutating call is attempted; exactly which targets a failure-free run leaves matched by category and tag |
| StoragePolicy.StoragePolicyAPI.TagAll | pkg/operator/storageclasscontroller/vmware.go:169-180 | every failure domain is attempted: a visit in which no call fails leaves its datastore tagged, whatever happens during the others |
| StoragePolicy.StoragePolicyAPI.CreateZonalStoragePolicy | pkg/operator/storageclasscontroller/vmware.go:164-194 | all failure domains are attempted, each counting by itself, and the profile is created only if all were tagged |
| StoragePolicy.LostAreFew | pkg/operator/storageclasscontroller/vmware.go:169-180 | every datastore left untagged has cost a failed call of its own |
| StoragePolicy.StoragePolicyAPI.AttachTags | pkg/operator/storageclasscontroller/vmware.go:196-212 | success leaves the datastore tagged; before the policy exists it is tagged anew in the policy's category |
| StoragePolicy.StoragePolicyAPI.CreateOrUpdateTag | pkg/operator/storageclasscontroller/vmware.go:272-353 | success attaches the first tag of our name, in our category, and undoes no other match |
| StoragePolicy.StoragePolicyAPI.EnsureCategory | pkg/operator/storageclasscontroller/vmware.go:276-309 | success leaves the category with an unchanged identifier and the canonical form of its old types, or just the required types if it is new |
| StoragePolicy.StoragePolicyAPI.EnsureTag | pkg/operator/storageclasscontroller/vmware.go:311-342 | success leaves the first tag of our name in the category; all other tags are untouched |
| StoragePolicy.StoragePolicyAPI.CheckForTagOnDatastore | pkg/operator/storageclasscontroller/vmware.go:252-270 | true exactly when the call succeeds and a tag of our name is attached |
| StoragePolicy.Reconcile | pkg/operator/storageclasscontroller/storageclasscontroller.go:158-165 | one run with a fresh client: success means everything is in place, only a failing call prevents it, profiles are kept and not doubled, nothing is attempted if all is in place, no more datastores stay untagged than calls failed, and the profile ends up selecting a target if and only if `WillSelect` held before |
| StoragePolicy.ForeignTagIsNeverReplaced | pkg/operator/storageclasscontroller/vmware.go:196-212 | with the policy in place and a tag of our name in another category attached, no failure-free run makes the profile select the datastore |
| StoragePolicy.ConvergeThenIdle | pkg/operator/storageclasscontroller/vmware.go:214-250 | whatever partly failed runs left, the next failure-free run converges and the one after attempts nothing; never two profiles |
| AssociatedTypes.AppendPrefix | pkg/operator/storageclasscontroller/vmware.go:491-505 | sorted, and its elements are the prefixed inputs |
| AssociatedTypes.UpdateAssociatedTypes | pkg/operator/storageclasscontroller/vmware.go:482-489 | strictly sorted, with exactly the prefixed inputs and required types |
| AssociatedTypes.CanonicalIsUnique | pkg/operator/storageclasscontroller/vmware.go:500-502 | two results are equal if and only if the prefixed sets, united with the prefixed required types, agree, whatever order or multiplicity |
| AssociatedTypes.CanonicalIsIdempotent | pkg/operator/storageclasscontroller/vmware.go:482-489 | updating an updated list changes nothing |
| StorageClass.StorageClassController.SyncStoragePolicy | pkg/operator/storageclasscontroller/storageclasscontroller.go:144-175 | which steps are skipped, throttled or reconciled, what a reconciliation leaves in the vCenter, and that the pause after k earlier ones is 2^k minutes up to half an hour |
| StorageClass.StorageClassController.SyncConnection | pkg/operator/storageclasscontroller/storageclasscontroller.go:111-123 | history and both caches change only on a success, by exactly that success; a reconciliation leaves the vCenter provisioned |
| StorageClass.CacheIsLastPass | pkg/operator/storageclasscontroller/storageclasscontroller.go:121 | the cache holds the name of the last successful step of each vCenter |
| StorageClass.StorageClassController.SyncNext | pkg/operator/storageclasscontroller/storageclasscontroller.go:111-123 | one iteration keeps one policy name, the policies behind the cached names and, for a Managed class, the cached names |
| StorageClass.StorageClassController.SyncPolicies | pkg/operator/storageclasscontroller/storageclasscontroller.go:111-123 | succeeds exactly when every step does; in a quick sync of cached vCenters exactly the one at whose visit the check is due is reconciled |
| StorageClass.StorageClassController.Sync | pkg/operator/storageclasscontroller/storageclasscontroller.go:105-135 | the storage class is applied exactly once, with the shared name, if no step failed, and never otherwise; with one infrastructure name and cached policies in place, the applied one exists in every vCenter visited, whatever became of the class before; conditions follow |
| StorageClass.StorageClassController.SyncRepeatedly | pkg/operator/storageclasscontroller/storageclasscontroller.go:153-168 | over any run of quick syncs each reconciles only the vCenter at whose visit the deadline has passed, which is the first one unless a deadline falls inside a sync |
| StorageClass.StorageClassController.SyncStorageClass | pkg/operator/storageclasscontroller/storageclasscontroller.go:214-230 | only a Managed class is applied, with the shared policy name |
| StorageClass.StorageClassController.CachesHoldOneName | pkg/operator/storageclasscontroller/storageclasscontroller.go:121-122 | with one infrastructure name every cached name and the shared name is that policy or empty |
| StorageClass.StorageClassController.CachesAgree | pkg/operator/storageclasscontroller/storageclasscontroller.go:121-122 | with a Managed class throughout besides, all cached names and the shared name agree |
| StorageClass.StorageClassController.AppliedPolicyExists | pkg/operator/storageclasscontroller/storageclasscontroller.go:121-126 | with one infrastructure name, and all vCenters cached and backed, a non-empty shared name is a policy of each of them |
| Templates.Substitute | pkg/operator/vspherecontroller/vspherecontroller.go:733-740 | with inert values every iteration order of the map ends in simultaneous substitution |
| Templates.ReplaceFillsHole | pkg/operator/vspherecontroller/vspherecontroller.go:733-740 | one replacement in a partly filled template fills exactly its holes |
| Templates.OrderInvisibleExactlyWhen | pkg/operator/vspherecontroller/vspherecontroller.go:747-752 | the order cannot be observed in any template if and only if no value mentions another placeholder that does not stand for itself |
| Templates.ReplaceRewrites | pkg/operator/vspherecontroller/vspherecontroller.go:733-740 | one replacement fills its holes and rewrites the values already filled in, and nothing else |
| Templates.OrderShows | pkg/operator/vspherecontroller/vspherecontroller.go:733-740 | if one value alone mentions other placeholders, then in any template with its hole once, two orders give different texts, one of them the simultaneous substitution |
| DriverConfig.PasswordShowsOrder | pkg/operator/vspherecontroller/vspherecontroller.go:731-740 | in the shipped vCenter template a password that mentions `${USER}` gives different sections in two orders |
| Templates.RenderedIsClean | pkg/operator/vspherecontroller/vspherecontroller.go:744-752 | rendered sections mention a placeholder only if a value does |
| DriverConfig.VCenterTemplateFits | assets/csi_cloud_config_vcenters.ini:1-5 | the shipped vCenter template is well formed |
| DriverConfig.ConfigTemplateFits | assets/csi_cloud_config.ini:1-7 | the shipped configuration template is well formed |
| DriverConfig.SectionsAreClean | pkg/operator/vspherecontroller/vspherecontroller.go:722-745 | the concatenated vCenter sections mention no placeholder if no input does |
| DriverConfig.ApplyClusterCSIDriverChange | pkg/operator/vspherecontroller/vspherecontroller.go:695-772 | fails exactly when credentials cannot be listed; with plain inputs the file is one function of the inputs, sections in sorted key order, labels from infrastructure or driver, independent of map order |
| DriverConfig.CredentialsSurvive | pkg/operator/vspherecontroller/vspherecontroller.go:731-740 | a rendered section starts with address and datacenters of its vCenter, and password and user name read back under the exact conditions below |
| ConfigReadsBack.SectionReadsBack | pkg/operator/vspherecontroller/vspherecontroller.go:722-745 | in the whole file, each vCenter has its section, whose datacenters, password, user name and migration URL read back under their exact conditions; with several vCenters there is no URL |
| ConfigReadsBack.ClusterIdReadsBack | pkg/operator/vspherecontroller/vspherecontroller.go:747-752 | the cluster name of the file reads back if and only if it has no quote, backslash, CR, LF or NUL |
| ConfigReadsBack.CategoriesAre | pkg/operator/utils/topology.go:36-42 | with two or more failure domains the labels are zone and region, otherwise those of the driver object |
| ConfigReadsBack.LabelsReadBack | pkg/operator/vspherecontroller/vspherecontroller.go:754-758 | the labels read back joined if and only if they need no escaping, and splitting recovers them if and only if none holds a comma |
| ConfigReadsBack.SnapshotOptionReadsBack | pkg/operator/vspherecontroller/vspherecontroller.go:760-766 | every snapshot option has its line, and its value reads back if and only if it is bare |
| IniValues.BareRoundTrip | vendor/gopkg.in/gcfg.v1/scanner/scanner.go:216-268 | an unquoted value reads back if and only if it holds no special, control or comment character and no blank at either end |
| IniValues.QuotedRoundTrip | vendor/gopkg.in/gcfg.v1/scanner/scanner.go:216-258 | a quoted value that is not escaped reads back if and only if it holds no quote, backslash, CR, LF or NUL |
| Credentials.PasswordRoundTrip | pkg/operator/vspherecontroller/vspherecontroller.go:830-833 | a password reads back, ending at its closing quote, if and only if it has no CR, LF or NUL |
| Credentials.UsernameRoundTrip | pkg/operator/vspherecontroller/vspherecontroller.go:835-842 | a user name reads back if and only if it has the domain form or none of quote, backslash, CR, LF, NUL |
| Credentials.DomainUserMeans | pkg/operator/vspherecontroller/vspherecontroller.go:836-837 | the domain form is two non-empty words over the two alphabets around one backslash |
| Credentials.DomainUsersSurvive | pkg/operator/vspherecontroller/vspherecontroller.go:835-842 | every such name reads back, its backslash included |
| Credentials.RawSpecialsAreLost | pkg/operator/vspherecontroller/vspherecontroller.go:835-842 | an unescaped name with a quote or backslash never reads back |
| Credentials.ReadingShrinks | vendor/gopkg.in/gcfg.v1/scanner/scanner.go:216-258 | a value read is shorter than its text by every quote pair and every further special character |
| Credentials.ReadQuotedEscaped | vendor/gopkg.in/gcfg.v1/read.go:20-51 | reading an escaped, quoted text returns it without its carriage returns, or fails on LF and NUL |
| PlatformSpecConversion.Infrastructure.ConvertToPlatformSpec | pkg/operator/vspherecontroller/vspherecontroller.go:911-951 | for any iteration order the result is a conversion in the sense of `Converted` |
| PlatformSpecConversion.Infrastructure.ConvertIntree | pkg/operator/vspherecontroller/vspherecontroller.go:953-965 | adds vCenter and failure domain of the workspace if the legacy map knows it |
| PlatformSpecConversion.Infrastructure.AddVCenter | pkg/operator/vspherecontroller/vspherecontroller.go:967-978 | appends the vCenter filed under that name, if any |
| PlatformSpecConversion.MissingVCentersAppendedOnce | pkg/operator/vspherecontroller/vspherecontroller.go:922-932 | for a map keyed by address, the given vCenters stay in front, and each missing one is appended exactly once, as the same set in any order |
| LegacyTargets.WorkspaceBecomesDomain | pkg/operator/vspherecontroller/vspherecontroller.go:953-994 | when a spec without failure domains gets one, and that this is the legacy workspace, part by part |
| LegacyTargets.ConversionKeepsTarget | pkg/operator/vspherecontroller/vspherecontroller.go:980-994 | the storage policy then tags the datastore that it would tag without failure domains, and no other |
| PlatformSpecConversion.SplitThenJoin | pkg/operator/vspherecontroller/vspherecontroller.go:957 | splitting cuts at every comma and nowhere else |
| PlatformSpecConversion.JoinThenSplit | pkg/operator/vspherecontroller/vspherecontroller.go:957 | splitting recovers joined parts without commas |
| PlatformSpecConversion.IdempotentExactlyWhen | pkg/operator/vspherecontroller/vspherecontroller.go:911-951 | converting twice, in any two orders, is converting once if and only if the input is `Stable` |
| PlatformSpecConversion.KeyedIsStableExactlyWhen | pkg/operator/vspherecontroller/vspherecontroller.go:922-947 | for a map keyed by address, that fails only for a single vCenter and a workspace known to the legacy copy alone |
| PlatformSpecConversion.LoadedIsKeyedExactlyWhen | vendor/k8s.io/cloud-provider-vsphere/pkg/common/config/config.go:136-243 | a loaded map is keyed by address if and only if the environment redirects no vCenter, and it covers the legacy copy |
| PlatformSpecConversion.LoadedConfigConvertsOnce | vendor/k8s.io/cloud-provider-vsphere/pkg/common/config/config_ini_legacy.go:129-172 | so every loaded legacy file converts idempotently unless the environment redirects a vCenter |
| PlatformSpecConversion.RedirectedVCenterIsAddedTwice | pkg/operator/vspherecontroller/vspherecontroller.go:927-932 | a file with two vCenters, both redirected by the environment, for which the second conversion appends the same vCenter again |
| Topology.UpdateMetrics | pkg/operator/utils/topology.go:44-116 | every gauge is the cardinality of the set it is named after, for any list of failure domains |
| Topology.SumSizes | pkg/operator/utils/topology.go:101-104 | the sum of the per-key set sizes is the number of pairs, in any order |
| Topology.Note | pkg/operator/utils/topology.go:68-92 | one failure domain adds at most one key and one pair |

## Left out

- getVM, getHost, version comparisons and feature gates of a node check: each node and each host has a fixed verdict within one call.
- A virtual machine without a host: the source then dereferences a nil error.
- Listing nodes failing in `NodeChecker.Check`: an early return with one degraded result.
- Contexts, timeouts and cancellation everywhere.
- NodePool is a transition system on values: goroutines and locks have no direct counterpart.
- LastTransitionTime, events, logging and Prometheus registration; the gauges of `UpdateMetrics` are returned as numbers.
- Texts of error messages that come from other systems: fixed strings or input strings stand for them.
- Conflict retries inside a status write: a write either happens at once or fails.
- The vSphereConnectionFunc test hook of the controller.
- Reading INI and YAML configuration, except quoted values and which vCenters a legacy file yields; credentials in it and in the environment; deleting the legacy ConfigMap; operand controllers and their hooks.
- Snapshot options are key and value pairs given in order; validating them is not modelled.
- Jitter is an arbitrary addition to the base delay; its one-percent bound is not used.
- The lookup of the default datastore: its URL is an input of the configuration file.
- Deletion of tags, policies or categories by others during or between syncs: cached names are backed only while it does not happen.
- API calls that take effect although they report an error.
- Invalid UTF-8 in credentials: strings are sequences of characters.
