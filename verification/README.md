# Arcway: a verified model

Arcway is a control plane for proxy servers. This project models its three most intricate parts and
proves what they keep true, in Dafny 4.11. `dafny verify dfyconfig.toml` checks everything.

**The expiry guard** (`internal/expiryguard`, `internal/guardwire`). A process beside the Agent that
holds leased tunnels and client deadlines. It writes its intent to a state file before it acts, so that
a crash at any point leaves nothing exposed that it will not come back to. The guard is modelled twice:

* as a state machine (`GuardMachine`) whose world is memory, state file, the set of exposed inbounds, the
  installed nftables list, the clock and the holder of the operations lock. Every action is one instant
  at which another goroutine or a crash can intervene; every write may be committed, committed but
  reported as failed, or not committed; every Agent or nft call may fail before or after its effect.
  `GuardInvariants` proves an invariant inductive, `GuardRuns`, `PortReservations`, `ScheduleRuns` and
  `RoundProgress` prove what holds along every run, and `GuardLimits` and `SilentWork` prove exactly
  where the guarantees end. `TunnelAnswers` and `AddressBits` say what the answers to requests mean in the
  fields of requests and records. `Operations` says which steps of one operation can follow each other and
  which of them send the scheduler a message, so that the messages of a history are determined by its steps;
* as the class `ExpiryGuard.Guard`, the source's methods over mutable fields. A ghost history ties every
  method to the machine: `Valid` says that the object's past is a run of the machine from its very first
  start and one of whole operations in the order of `Operations`, and `Extends` that a method only lengthens
  it. `OthersRun` stands at every point where a method
  waits; callers may rely only on its contract, which `OutsideRunInterferes` derives from the machine.

**Managed clients** (`internal/handler/child_manage.go`, `credential_email_migrator.go`). A client action
changes the Xray runtime, the configuration file and a sidecar of deadlines, in that order, with rollback.
`InboundClients` is the client list, `ClientExpirations` the sidecar, `ManagedClients` the actions on the
three stores as functions of how each outside call ends (and the class whose methods meet them),
`ClientSafety` what they keep, `ClientDeadlines` what they mean client by client, `ClientSessions` and
`SessionDeadlines` what sessions of them, of restarts and of crashes keep, and `ClientProgress` when they
succeed. `CredentialMigration` is the saga built on the same actions, `MigrationSafety` when it leaves
database and Agent together and how it comes apart.

**Custom-rule sync** (`internal/handler/apply_custom_rules.go`). `InsertAndErase` is the algebra of passes
that filter a list and insert at its ends, `CustomRules` and `ProxyGroups` are the sync itself,
`RuleLines` says what one rule leaves line by line, and `SyncFixpoint` proves that repeating the sync
changes nothing from the second time on.

## What does not hold

Where the code does less than one would expect, the model follows the code, a lemma exhibits the failing
run, and another gives the exact condition:

* Three ways, and no other, give the scheduler work without a message: a grant that succeeds, a cleanup whose
  intent was recorded but reported as failed, and a client deadline that was recorded but reported as failed
  (`SilentWork.TunnelMissedIff`, `DeadlineMissedIff`; each is open from every sleep: `SilentGrant`,
  `SilentCleanup`, `SilentUpsert`). A tunnel can stay exposed arbitrarily long after its deadline
  (`SleepsThroughDeadline`), and after its cleanup was requested until its own deadline
  (`SleepsThroughCleanup`); a client can outlive a deadline
  recorded so until a timer that was set before (`SleepsThroughUpsert`).
* A cleanup request for a tunnel that had given its port back reserves the port again without a check, and
  its table entry can then shadow the port's new owner (`PortReservations.ReclaimIsSafeIffPortFree`,
  `GuardLimits.ReclaimedPortShadows`, `GuardLimits.ShadowedTunnel`).
* An operation that read the clock before a deadline may still renew after it, and only such an operation
  (`GuardLimits.RevivalIffInFlight`, `RevivedInFlight`).
* A request stamped in the future can be replayed (`ReplayTable.ReplayIffFromTheFuture`).
* A deadline on an inbound whose protocol has no credential field makes the whole sidecar unreadable
  (`ClientExpirations.ReloadsIff`, `OneEntryBlocksReload`).
* A client can be re-added with a deadline that the sidecar does not hold
  (`ClientSafety.DeadlineIsDurableIff`, `ClientProgress.AnyDeadlineCanBeLost`); a deadline given with a padded tag,
  or for a client that is present under another email, is never enforced
  (`DeadlineIsEnforcedIff`, `PaddedDeadlineIsForgotten`, `DeadlineOfPresentClientIff`,
  `DeadlineMissesPresentClient`).
* Expiry looks at the file only: a client whose inbound runs without being defined outlives its deadline
  (`ClientSafety.ExpiryRemovesTheClientIff`, `RuntimeOnlyClientOutlives`).
* A suspend request can be answered as done while the file still says active, after a fail-closed pass that
  could not be written (`TunnelAnswers.CleanupSuccess`, `SuspendedAheadOfTheFile`); a delete cannot
  (`DeleteIsRecorded`).
* Deadlines of different clients share a key when a tag contains the separator
  (`ClientDeadlines.NulTagsCollide`); without it they never do (`SetMeans`).
* `remove-client` can report failure after removing (`FailedRemovalKeepsIff`). That, and lost replies, take
  the migration apart (`MigrationSafety.ErrorKeepsOldIff`, `RefusedRemovalLocksOut`, `LostRemovalLocksOut`,
  `LostAdditionSplits`); if another client already has the new email,
  the migration reports success and the user is locked out (`SuccessKeepsAccessIff`).
* The migrator's comments expect the Agent to answer `inbound X not found`; the Agent writes `Inbound`. The
  orphan path is taken exactly for tags that contain the word themselves
  (`MigrationSafety.OrphanIsRecognisedIff`).
* A rule set line is put in again with every sync when its list holds a node without a JSON form, such as an
  infinity, because then nothing is recorded (`SyncFixpoint.UnencodableRuleSetGrows`).
* Runtime and file part exactly at the events that `ClientSessions.Clean` excludes, among them a crash
  between the two writes, adding an inbound whose tag the file defines otherwise, and a removal that does not
  reach the file (`ClientSessions.SessionsStaySyncedIff`).
* The first sync of an appended rule may keep a duplicate that the second takes away
  (`SyncFixpoint.FirstSyncIsFinalIff`, `UnrecordedSyncIsFinalIff`, `FirstAppendIsFinalIff`).

## Model

| member | source | states |
|---|---|---|
| GuardInvariants.StepKeepsInv | internal/expiryguard/tunnels.go:328-990 | Every action of the guard, with every way its write or call can end, keeps: write-ahead, agreement of file and memory, exclusive ports, well-formed records, and a table that names only what still reserves its port |
| GuardRuns.WriteAheadSafety | internal/expiryguard/tunnels.go:739-778 | At every instant of every run an exposed inbound is in memory and in the file in a state the scheduler returns to, so a terminal record in either means the inbound is gone |
| GuardRuns.CrashAnywhere | internal/expiryguard/guard.go:108-203 | A crash at any instant restarts into a world that satisfies the invariant, with memory equal to the file and the exposure unchanged |
| GuardRuns.FileMatchesMemory | internal/expiryguard/guard.go:153-287 | At every instant both copies have the same schedules up to retry counters and the same tunnels up to an unwritten fail-closed pass |
| GuardRuns.GenerationDiscipline | internal/expiryguard/tunnels.go:289-301 | From any instant to any later one, across copies and crashes: tag, addresses, ports, network and sources never change, generations never fall, within one the hard deadline is fixed and the lease never shrinks |
| GuardRuns.DeletionIsFinal | internal/expiryguard/tunnels.go:795-806 | Once either copy says deleted or delete pending, both always do |
| GuardRuns.LeasesAreBounded | internal/expiryguard/tunnels.go:206-216 | A lease never exceeds ten minutes from its last grant, and an active tunnel is due exactly at its effective deadline |
| GuardRuns.SilentControllerBound | internal/expiryguard/tunnels.go:263-268 | Without further grants, every tunnel active at a later instant is due within ten minutes of the earlier one |
| GuardRuns.NoRevival | internal/expiryguard/tunnels.go:703-724 | Once the clock has reached a generation's deadline, no continuation extends that generation, unless an operation in flight read the clock and the active record before the deadline and its longest lease is longer |
| GuardLimits.RevivalIffInFlight | internal/expiryguard/tunnels.go:695-724 | From any world past a generation's deadline some continuation extends it exactly when an operation is in flight that read the clock before the deadline, read the record as active and has not stored it since, and whose longest lease exceeds its lease |
| GuardLimits.RevivedInFlight | internal/expiryguard/tunnels.go:695-724 | A run in which a renewal in flight revives a lapsed generation |
| GuardRuns.PortExclusivity | internal/expiryguard/tunnels.go:344-353 | Provisioning, active and expiring tunnels never share a listen port, in memory or in the file |
| PortReservations.RunKeepsReservations | internal/expiryguard/tunnels.go:281-283 | Without cleanup requests for released tunnels, all reserving states are exclusive along every run |
| PortReservations.ReclaimIsSafeIffPortFree | internal/expiryguard/tunnels.go:800-815 | A cleanup request for a released tunnel keeps reservations exclusive exactly when its old port is free |
| GuardLimits.ReclaimedPortShadows | internal/expiryguard/tunnels.go:531-578 | For every pair of rival tunnels there is a run whose table applies the deleted one's sources to the live one's port |
| GuardLimits.ShadowedTunnel | internal/expiryguard/tunnels.go:531-578 | The concrete run: the admitted host is refused and another one admitted |
| GuardRuns.SourceAclSafety | internal/expiryguard/tunnels.go:618-680 | Once all live restricted tunnels are named by the installed table, every continuation that does not lose the table keeps it so |
| GuardRuns.RebuildProtects | internal/expiryguard/tunnels.go:618-633 | A complete rebuild protects every live restricted tunnel, whatever happened before |
| GuardLimits.StaleRebuildIsSafe | internal/expiryguard/guard.go:465-471 | Installing a list read earlier, outside the operations lock, is safe when nothing was provisioned since |
| GuardLimits.StaleRebuildUnprotects | internal/expiryguard/guard.go:465-471 | One tunnel provisioned in between is enough for the old list to expose it |
| PortReservations.LivePacketsAreFiltered | internal/expiryguard/tunnels.go:549-578 | In a protected world with exclusive reservations the kernel accepts a packet to a live restricted tunnel exactly when its source is in one of that tunnel's ranges |
| PortReservations.EveryLivePacketIsFiltered | internal/expiryguard/tunnels.go:549-578 | The same for every world of every run that starts protected and reclaims no port |
| SourceAcl.CompilerCorrect | internal/expiryguard/tunnels.go:549-578 | First match over the generated rules accepts a packet exactly when the first listed resource with its port admits its source, or none has that port; for any list mixing both families |
| SourceAcl.BuildRules | internal/expiryguard/tunnels.go:549-578 | The loop that splits families and writes accept and drop rules produces the compiled list |
| SourceAcl.SoleEntryDecides | internal/expiryguard/tunnels.go:549-578 | A resource alone on its port decides every packet to it |
| SourceAcl.UnlistedPortOpen | internal/expiryguard/tunnels.go:549-578 | Packets to ports that no resource lists are accepted |
| SourceAcl.NormalizeSourceCidrs | internal/expiryguard/tunnels.go:147-171 | The loop rejects with the first problem, and otherwise returns the canonical ranges, sorted and without repetition |
| SourceAcl.NormalizeIdempotent | internal/expiryguard/tunnels.go:147-171 | A normalised list is its own normal form |
| SourceAcl.CanonicalSourcesAreNormal | internal/expiryguard/tunnels.go:244-261 | What reload accepts as sources is exactly what normalising leaves as it is |
| AddressBits.PrefixFixesLeadingBits | internal/expiryguard/tunnels.go:147-171 | A range without host bits admits exactly the addresses of its family that agree with it in as many leading bits as its prefix says, of 32 or 128 |
| AddressBits.RefusedRanges | internal/expiryguard/tunnels.go:147-171 | Which single ranges are refused: malformed ones, a zero prefix, and those that begin at the unspecified address or in the multicast range |
| AddressBits.MulticastBits | internal/expiryguard/tunnels.go:134-137 | Multicast addresses begin with 1110 in IPv4 and with eight ones in IPv6 |
| AddressBits.NormalizeMeans | internal/expiryguard/tunnels.go:147-171 | At most 64 ranges, each bounded, are accepted; the result is sorted and holds exactly the ranges asked for, bit by bit |
| TunnelModel.NormalizedIsPersistable | internal/expiryguard/tunnels.go:173-261 | Every admitted request yields a record that reload accepts, with a lease inside the bound and a deadline ahead |
| TunnelAnswers.AdmissionMeans | internal/expiryguard/tunnels.go:173-242 | A request is admitted exactly under the plain conditions on its fields, as a record with its own addresses, ports, generation, deadlines and sources, literally; otherwise the error names a condition that fails |
| TunnelAnswers.ReloadAccepts | internal/expiryguard/tunnels.go:244-261 | Reload accepts exactly the records whose fields satisfy the plain conditions |
| TunnelModel.RetryDelayBounds | internal/expiryguard/guard.go:316-324 | Retry delays lie between 5 and 320 seconds and never shrink with more attempts |
| TunnelModel.RetryDelayDoubles | internal/expiryguard/guard.go:316-324 | Five seconds at first, twice as long each time, 320 seconds from the seventh attempt on |
| Schedules.KeyIdentifies | internal/expiryguard/guard.go:92-106 | A schedule has a key exactly with a tag and a client that can be named, and the same key exactly for the same trimmed tag, naming field and trimmed name; for tags without a NUL |
| Schedules.AdmittedMeans | internal/expiryguard/guard.go:234-249 | What is stored: the request's own client and deadline, with nothing attempted |
| Schedules.AttemptTime | internal/expiryguard/guard.go:300-303 | A schedule is attempted at its deadline, or at the next attempt set when that is later |
| Schedules.ReloadAccepts | internal/expiryguard/guard.go:126-133 | Reload accepts exactly schedules with a deadline that stand under the tag, naming field and name of their own client |
| DurableState.WriteThenLoad | internal/expiryguard/guard.go:108-203 | What is written from a good memory loads back to exactly that memory |
| DurableState.RestartLoadsTheFile | internal/expiryguard/guard.go:108-203 | In every world of every run the file's image loads, and to the state a restart continues from |
| DurableState.ListValues | internal/expiryguard/guard.go:158-167 | Collecting and sorting a map gives the one listing in key order |
| DurableState.ReadTunnels | internal/expiryguard/guard.go:134-149 | The loading loop accepts exactly the lists without an invalid or repeated record |
| DurableState.ReadEntries | internal/expiryguard/guard.go:126-133 | The loading loop accepts exactly the lists of valid schedules, the last of a key winning |
| DurableState.ImageMeans | internal/expiryguard/guard.go:153-183 | The file has version 2, the token, and every schedule and tunnel exactly once, ordered by key and by ID |
| DurableState.ReadEntriesMean | internal/expiryguard/guard.go:126-133 | Reading keeps, for each key, exactly the last schedule of the list with it |
| DurableState.ReadTunnelsMean | internal/expiryguard/guard.go:134-149 | Tunnels are read exactly when all are well formed and no two have one ID, and then all of them |
| DurableState.LoadMeans | internal/expiryguard/guard.go:108-151 | A file is read exactly with version 1 or 2 and both lists readable; its token, if it has one, counts before the configured one; without a file the guard starts empty |
| ScheduleRuns.SchedulesAreNeverLost | internal/expiryguard/guard.go:234-287 | A deadline present at one instant and not at a later one was released in between by a request or a finished removal that reached the file |
| ScheduleRuns.DeadlinesAreDurable | internal/expiryguard/guard.go:439-463 | At every instant memory holds a deadline exactly when the file does |
| ScheduleRuns.FailedRequestChangesNothing | internal/expiryguard/guard.go:234-287 | A request that fails before the rename changes neither copy |
| ScheduleRuns.RenewalSurvivesAttempt | internal/expiryguard/guard.go:439-445 | An attempt for a deadline that has since moved changes nothing |
| ScheduleRuns.AttemptSettles | internal/expiryguard/guard.go:439-463 | After any attempt the schedule is gone, moved, or due 5 to 320 seconds ahead, whatever the write came to |
| ScheduleRuns.AttemptMeans | internal/expiryguard/guard.go:439-463 | An attempt drops the schedule when the client was removed and the file says so, and otherwise counts one attempt and sets the next after the delay for that many; all else stays |
| ScheduleRuns.PassMakesProgress | internal/expiryguard/guard.go:475-494 | Along every run, after attempts on a due list nothing in it is due again for five seconds, unless put back meanwhile |
| SchedulerSleep.WakesInTime | internal/expiryguard/guard.go:495-515 | The timer fires no later than any attempt that was known when it was set, and not before the first |
| Operations.IdleIffFree | internal/expiryguard/tunnels.go:682-845 | In every history made of whole operations, none is in flight exactly when the operations lock is free |
| Operations.OperationKeepsOthers | internal/expiryguard/tunnels.go:682-990 | An operation touches one tunnel: no other inbound is exposed or removed, and no other record is new, lost or changed but by a fail-closed pass |
| SilentWork.TunnelMissedIff | internal/expiryguard/guard.go:465-515 | In every history and for every sleep in it, without a message so far and between operations: the timer comes too late for a tunnel exactly when its record was written since by a grant that succeeded or by a cleanup whose intent was recorded but reported as failed, never both, and no known attempt nor the idle hour comes in time |
| SilentWork.DeadlineMissedIff | internal/expiryguard/guard.go:234-266 | The same for a client deadline: exactly when it was recorded since by a request reported as failed, and no known attempt nor the idle hour comes in time |
| SilentWork.SilentGrant | internal/expiryguard/tunnels.go:739-779 | From every sleep between operations, every admissible grant can succeed without a message; its deadline is met only if the timer meets it |
| SilentWork.SilentCleanup | internal/expiryguard/tunnels.go:807-816 | From every sleep between operations, every admissible cleanup can leave its tunnel pending in both copies, due and exposed as before, without a message and before the scheduler wakes |
| SilentWork.SilentUpsert | internal/expiryguard/guard.go:249-266 | From every sleep, every well-formed deadline can end in memory and in the file without a message; it is met only if the timer meets it |
| SilentWork.SleepsThroughUpsert | internal/expiryguard/guard.go:249-266 | For every deadline within the hour a run in which it is recorded in both copies and the scheduler does not wake before the hour ends |
| SilentWork.SleepsThroughDeadline | internal/expiryguard/tunnels.go:764-779 | For every delay a run without a message in which a tunnel granted during a sleep is exposed that long after its deadline, and the scheduler has not woken |
| SilentWork.SleepsThroughCleanup | internal/expiryguard/tunnels.go:807-816 | A cleanup intent that reaches the file but is reported as failed sends no message: the record is pending in both copies, due and exposed, until the timer fires |
| SilentWork.IdleHourMaySuffice | internal/expiryguard/guard.go:495-515 | A tunnel granted after fifty-five idle minutes is attended in time by the idle hour alone |
| GuardInterference.OutsideRunInterferes | internal/expiryguard/tunnels.go:635-665 | Whatever other goroutines do while an operation holds its lock leaves exposure, table and definitions alone and at most withdraws records |
| GuardInterference.ProtectionContinues | internal/expiryguard/tunnels.go:667-680 | Protection at one point of a history holds at every later one |
| GuardInterference.AttemptMakesProgress | internal/expiryguard/tunnels.go:939-990 | An attempt whose records reached memory leaves its tunnel terminal, or due between five seconds after it began and 320 seconds after it ended |
| RoundProgress.RoundAddsUp | internal/expiryguard/guard.go:472-494 | The phases of an undisturbed round, with every write committed, leave nothing due at the instant it began; everything tried is gone, terminal, or due five to 320 seconds later, and nothing else is worse than before |
| RoundProgress.RoundShrinks | internal/expiryguard/guard.go:491-494 | At any horizon within five seconds of such a round fewer items are due after it, unless it tried nothing that was due by then |
| RoundProgress.SpinBound | internal/expiryguard/guard.go:472-494 | Run's inner loop goes round within five seconds at most once for every item that was due by the end of them |
| ExpiryGuard.Guard.ApplyTunnel | internal/expiryguard/tunnels.go:682-779 | Every outcome by the records read: refusals and repeats change nothing, a renewal is exactly the longer lease, a grant means both copies active, exposed and restricted, a failed grant leaves what was there or, in both copies, its own record, due at once or active with its deadline; and exactly which outcomes send a message to the scheduler; and no other tunnel is touched |
| TunnelAnswers.ApplyRefusals | internal/expiryguard/tunnels.go:695-738 | An admissible request is refused with each error exactly under a condition on the fields of the request and of the records; a newer generation that differs from the record in any address, port, network or source is a definition conflict; refusals change nothing |
| TunnelAnswers.ApplyComplaints | internal/expiryguard/tunnels.go:682-690 | A request that is not admissible changes nothing and is told a condition that fails |
| TunnelAnswers.ApplySuccess | internal/expiryguard/tunnels.go:691-779 | Success on the generation on record means it is active and the one asked for, and only its lease grows; otherwise the record, exposure and table entry afterwards are literally what the request asks for, the generation is newer, and no other tunnel had the port |
| ExpiryGuard.Guard.TransitionForCleanup | internal/expiryguard/tunnels.go:781-845 | Refusals change nothing; success means terminal in both copies with inbound and table entry gone; when the Agent or the table fails, the record stays pending towards the requested state and is due within five seconds; when a record was not safely written, nothing was touched and both copies are as before or pending, or nothing is left outside and the record is terminal in both or pending and due; exactly which outcomes send a message; and no other tunnel is touched |
| TunnelAnswers.CleanupRefusals | internal/expiryguard/tunnels.go:781-799 | Each error of a refused cleanup exactly under a condition on its fields and the record; refusals change nothing |
| TunnelAnswers.CleanupSuccess | internal/expiryguard/tunnels.go:800-845 | Without error memory has the requested generation in the requested state or pending towards it, and the file says the same exactly when it agrees with memory |
| TunnelAnswers.DeleteIsRecorded | internal/expiryguard/tunnels.go:800-845 | After a delete without error both copies have the requested generation deleted or delete pending |
| TunnelAnswers.SuspendedAheadOfTheFile | internal/expiryguard/tunnels.go:635-665 | For every restricted tunnel a run in which an unwritten fail-closed pass lets a suspend be answered as done while the file says active |
| TunnelAnswers.CleanupChanges | internal/expiryguard/tunnels.go:804-845 | A reported change leaves the record terminal in both copies and otherwise as it was, and neither inbound nor table entry |
| TunnelAnswers.CleanupInterrupted | internal/expiryguard/tunnels.go:816-836 | When the Agent or the table fails, memory has the record pending towards what was asked, attempted at most once, due within five seconds and otherwise as it was |
| TunnelAnswers.CleanupUnrecorded | internal/expiryguard/tunnels.go:804-845 | Without a safe record of the intent nothing outside changes and both copies are as they were or pending, due at once; without one of the end the inbound is gone and the record terminal or pending |
| ExpiryGuard.Guard.ExpireOrCleanup | internal/expiryguard/tunnels.go:939-990 | How an attempt may end: outdated, too early, intent lost, retried with one more attempt and its delay, or finished with nothing left outside |
| TunnelAnswers.ClosedMeans | internal/expiryguard/tunnels.go:939-990 | A completed attempt leaves nothing outside and takes the record where it was going: expired from active, once a deadline has come, and as was asked for otherwise; nothing else of it changes |
| TunnelAnswers.RetriedMeans | internal/expiryguard/tunnels.go:939-990 | A failed attempt keeps the record on its way, counts one attempt, and sets the next after the delay for that many |
| TunnelAnswers.IntentLostMeans | internal/expiryguard/tunnels.go:950-958 | An expiry whose intent was not safely written touches nothing outside, and memory is as it was or has the record expiring, due at once |
| TunnelAnswers.SparedMeans | internal/expiryguard/tunnels.go:939-949 | Outdated snapshots and tunnels with both deadlines ahead are left alone |
| TunnelAnswers.AttemptTimes | internal/expiryguard/tunnels.go:911-937 | When each state is taken up: active at the earlier deadline, pending and provisioning ones when written or at their next attempt, terminal ones never |
| ExpiryGuard.Guard.InitializeTunnelSafety | internal/expiryguard/tunnels.go:667-680 | Success means that every live restricted tunnel is protected, also after the due attempts; failure leaves no restricted tunnel active or provisioning in memory |
| ExpiryGuard.Guard.PrepareTunnelAcl | internal/expiryguard/tunnels.go:624-633 | Success means that every live restricted tunnel is protected |
| ExpiryGuard.Guard.FailClosedTunnelAcl | internal/expiryguard/tunnels.go:635-665 | Exactly the restricted tunnels meant to run are withdrawn, in memory even when the file was not written |
| TunnelAnswers.FailClosedMeans | internal/expiryguard/tunnels.go:635-665 | Exactly the records with sources that are active or provisioning become expiry pending towards suspended, due at once, and nothing else changes |
| ExpiryGuard.Guard.RebuildTunnelAcl | internal/expiryguard/tunnels.go:618-622 | Success installs the complete list of resources that need one, but the excluded |
| ExpiryGuard.Guard.AclResources | internal/expiryguard/tunnels.go:531-547 | Exactly the resources that need an entry, by port and ID |
| TunnelAnswers.ListedMeans | internal/expiryguard/tunnels.go:531-547 | The list has exactly the records with sources that are neither deleted nor expired, each with its own port and sources |
| ExpiryGuard.Guard.CheckDurablePort | internal/expiryguard/tunnels.go:344-353 | True exactly when no other reserving record has the port |
| ExpiryGuard.Guard.StoreTunnel | internal/expiryguard/tunnels.go:328-342 | One record changes in both copies, in neither, or in both with an error, as a step of the machine |
| ExpiryGuard.Guard.DueTunnels | internal/expiryguard/tunnels.go:911-937 | Exactly the due records by ID, and the earliest attempt of the rest |
| ExpiryGuard.Guard.Load | internal/expiryguard/guard.go:108-151 | A process started on the file left by any history resumes that history in the restarted world |
| ExpiryGuard.Guard.PersistLocked | internal/expiryguard/guard.go:153-203 | The file becomes the image of memory or stays as it was |
| ExpiryGuard.Guard.Upsert | internal/expiryguard/guard.go:234-266 | Stores the normalised schedule in both copies or in neither, and sends a message exactly on success |
| ExpiryGuard.Guard.Delete | internal/expiryguard/guard.go:268-287 | Drops the schedule from both copies or from neither, and sends a message exactly on success |
| ExpiryGuard.Guard.UpdateAgentToken | internal/expiryguard/guard.go:205-219 | Replaces the token in both copies or in neither |
| ExpiryGuard.Guard.Due | internal/expiryguard/guard.go:295-314 | Exactly the due schedules, each once, and the earliest attempt of the rest |
| ExpiryGuard.Guard.FinishAttempt | internal/expiryguard/guard.go:439-463 | Changes only the schedule whose deadline is still the attempted one, which is settled afterwards |
| ExpiryGuard.Guard.Round | internal/expiryguard/guard.go:472-509 | What a round tried is exactly what was due; undisturbed and with every write committed it leaves nothing due at its start and everything tried resting five to 320 seconds; a round that found nothing changes nothing and sets the timer for the earliest attempt |
| ExpiryGuard.Guard.AttemptDue | internal/expiryguard/guard.go:472-494 | Both due lists and the attempts on them |
| GuardWire.OpenInvertsSeal | internal/guardwire/wire.go:44-123 | Opening a sealed request returns its plaintext exactly when the receiver is within two minutes of the sender's second, and otherwise fails as outside the window |
| GuardWire.SignatureBindsRequest | internal/guardwire/wire.go:35-42 | Two accepted requests with one signature have the same method, path, timestamp, nonce and body |
| GuardWire.OpenAccepts | internal/guardwire/wire.go:79-123 | Exactly which requests open, in numbers: two minutes, 16, 32 and 28 bytes, and the five signed lines |
| GuardWire.TimestampsParse | internal/guardwire/wire.go:48-86 | A printed 64-bit timestamp parses back to itself |
| GuardWire.ParsedIsInt64 | internal/guardwire/wire.go:83-86 | Only timestamps that fit in 64 bits with a sign are accepted |
| ReplayTable.Receiver.OpenRequest | internal/expiryguard/guard.go:517-545 | Result and table after one request: prune, refuse a repeated nonce, record the others |
| ReplayTable.AcceptancesAreApart | internal/expiryguard/guard.go:531-542 | Two acceptances of one nonce are more than two minutes apart, in every history |
| ReplayTable.AcceptedIff | internal/expiryguard/guard.go:517-545 | Every arrival of every history is accepted exactly when it opens and no acceptance of its nonce was recorded in the two minutes before |
| ReplayTable.AcceptedAtMostOnce | internal/expiryguard/guard.go:517-545 | A request stamped no later than the clock that first accepted it is never accepted again |
| ReplayTable.AcceptedAgainIff | internal/expiryguard/guard.go:517-545 | Exactly when a later arrival of an accepted request is accepted, at any later place in any history, for its two clock readings |
| ReplayTable.ReplayIffFromTheFuture | internal/expiryguard/guard.go:517-545 | A replay can succeed exactly for requests stamped later than their first acceptance |
| ReplayTable.RefusedRequestLeavesTable | internal/expiryguard/guard.go:527-541 | A refused request never adds to the table |
| InboundClients.InboundObject.MutateClient | internal/handler/child_manage.go:2021-2072 | Adds the client unless one matches, or removes every match, in the one list of the protocol; errors change nothing |
| InboundClients.AddKeepsUnique | internal/handler/child_manage.go:2046-2055 | Adding keeps credentials and emails unique |
| InboundClients.RemoveKeepsUnique | internal/handler/child_manage.go:2057-2071 | Removing keeps credentials and emails unique |
| InboundClients.RemoveKeepsOthers | internal/handler/child_manage.go:2057-2071 | Exactly the elements that do not match stay, each once and in order |
| InboundClients.RemoveTakesAtMostOne | internal/handler/child_manage.go:2010-2017 | From a list with unique clients a removal takes at most one, and none exactly when nothing matches |
| InboundClients.MutateFrame | internal/handler/child_manage.go:2021-2072 | An action changes nothing but that list, and finds the same list afterwards |
| InboundClients.MutateTwice | internal/handler/child_manage.go:2021-2072 | Doing an action again changes nothing |
| InboundClients.RemoveUndoesAddOnInbound | internal/handler/child_manage.go:2021-2072 | Removing after an add that changed something restores the list, and the whole inbound exactly when the list was an array before |
| ClientDeadlines.FieldsOfProtocols | internal/handler/child_manage.go:1514-1556 | The credential field and the list field of every protocol |
| ClientDeadlines.ListMeans | internal/handler/child_manage.go:1514-1539 | Which list an action works on |
| ClientDeadlines.MatchesMean | internal/handler/child_manage.go:2000-2019 | An addition finds a client by credential or email, a removal by the credential of the request if it has one and by its email otherwise |
| ClientExpirations.SetKeepsGood | internal/handler/child_manage.go:1626-1648 | Setting or clearing a deadline keeps every entry well formed under its own key |
| ClientDeadlines.IdentityMeans | internal/handler/child_manage.go:1569-1582 | A deadline is kept for the email of the client, or for the credential of its protocol when it has none |
| ClientDeadlines.SetMeans | internal/handler/child_manage.go:1584-1648 | Setting or clearing leaves exactly the deadline asked for, or none, for that inbound and client, and every deadline for another inbound or another client as it was; for tags without a NUL |
| ClientDeadlines.NulTagsCollide | internal/handler/child_manage.go:1584-1586 | With a NUL in a tag, deadlines of different clients on different inbounds share a key and one takes the other away |
| ClientExpirations.ReloadsIff | internal/handler/child_manage.go:1657-1713 | A written sidecar loads back to its entries exactly when every protocol has a credential field, and otherwise not at all |
| ClientDeadlines.ReloadMeans | internal/handler/child_manage.go:1671-1699 | Reload accepts a list exactly when it accepts each entry, which is a plain condition on its fields |
| ClientDeadlines.LoadedMeans | internal/handler/child_manage.go:1689-1699 | Whatever is loaded is an entry of the file, its texts trimmed and its protocol in lower case |
| ClientExpirations.OneEntryBlocksReload | internal/handler/child_manage.go:1569-1582 | One accepted deadline for another protocol makes the file unreadable |
| ClientExpirations.StateFile | internal/handler/child_manage.go:1701-1713 | The file is each entry once, in order, determined by the entries |
| ClientExpirations.ReadSidecar | internal/handler/child_manage.go:1671-1699 | The loading loop is the loading function, with its first error |
| ClientExpirations.Due | internal/handler/child_manage.go:1766-1786 | Exactly the deadlines that have come, oldest first, and the next one |
| ManagedClients.RewriteKeepsOthers | internal/handler/child_manage.go:2839-2855 | Replacing a definition keeps everything with another tag, in order |
| ManagedClients.ChildManager.ReplaceInboundInConfig | internal/handler/child_manage.go:2818-2864 | On success the first definition of the tag is replaced and the others are dropped; on failure the file is unchanged |
| ManagedClients.ChildManager.UpdateClientExpiration | internal/handler/child_manage.go:1816-1833 | Memory changes only when the write is reported as done; the file may change without that |
| ManagedClients.ChildManager.ManageClient | internal/handler/child_manage.go:2212-2309 | The action on the three stores, for every way its outside calls can end |
| ManagedClients.ChildManager.ExpireManagedClient | internal/handler/child_manage.go:1941-1998 | The expiry attempt on the three stores, for every way its outside calls can end |
| ManagedClients.ChildManager.RemoveWholeInbound | internal/handler/child_manage.go:2341-2362 | Removing an inbound: runtime, then file and deadlines, whose failures are only logged |
| ManagedClients.ChildManager.AddWholeInbound | internal/handler/child_manage.go:2311-2339 | Adding an inbound: runtime, then one more definition in the file, whose failure is only a warning |
| ClientSafety.ActKeepsSynced | internal/handler/child_manage.go:2254-2296 | Every exit of an action leaves runtime and file with the same definitions unless an undoing call fails, and no other tag is touched |
| ClientSafety.FailedAddChangesNothing | internal/handler/child_manage.go:2256-2296 | A failed add leaves the definition as it was in both |
| ClientSafety.DoneRewritesTheList | internal/handler/child_manage.go:2254-2309 | A successful action gives exactly the added or removed list in both, and reports whether it changed |
| ClientSafety.PastDeadlineRemoves | internal/handler/child_manage.go:2242-2247 | After success with a past deadline no matching client and no deadline for it is left |
| ClientSafety.FailedRemovalKeepsIff | internal/handler/child_manage.go:2279-2295 | A failed removal leaves the definition as it was exactly when it was refused, nothing matched, the runtime did not take it, or the file was not written; otherwise the client is gone everywhere |
| ClientSafety.DeadlineIsDurableIff | internal/handler/child_manage.go:1626-1648 | After success the file has the deadline asked for exactly when memory did not hold that very entry before, or the file already had it |
| ClientSafety.DoneSays | internal/handler/child_manage.go:1816-1833 | After success memory has exactly the deadline asked for under the key of the client, and the same as before under every other key |
| ClientDeadlines.ActionKeepsOthers | internal/handler/child_manage.go:1816-1833 | After a successful action every deadline for another inbound or another client is in memory as it was, and for its own there is exactly the one asked for |
| ClientDeadlines.ExpiryKeepsOthers | internal/handler/child_manage.go:1941-1998 | A successful expiry drops its own deadline and keeps every other |
| ClientDeadlines.DroppedTagMeans | internal/handler/child_manage.go:1835-1858 | Removing an inbound drops exactly the deadlines with its tag, once that is written |
| ClientDeadlines.AdditionMeans | internal/handler/child_manage.go:2242-2309 | After a successful addition the list is as it was, with the client at its end unless one with its credential or email was in it |
| ClientDeadlines.RemovalMeans | internal/handler/child_manage.go:2242-2309 | After a successful removal, or an addition whose deadline has passed, exactly the elements that share the naming field are gone and the others keep their order |
| SessionDeadlines.SessionsTrack | internal/handler/child_manage.go:1816-1888 | Along every session, also with crashes inside actions and whole inbounds added and removed, without a sidecar write that was renamed and reported as failed, the file records exactly the deadlines in memory, and a restart loads them |
| ClientSafety.ReaddedWithoutDurableDeadline | internal/handler/child_manage.go:1816-1833 | An unreported write followed by a successful re-add leaves a client whose deadline is not in the file |
| ClientSafety.RenewedClientIsLeftAlone | internal/handler/child_manage.go:1950-1953 | An attempt on a deadline that changed since the snapshot changes nothing |
| ClientSafety.ExpiryRemovesTheClientIff | internal/handler/child_manage.go:1941-1998 | After success no matching client is left in file or runtime exactly when the file defined the inbound or the runtime had none; the deadline and no other is dropped, and a failing attempt keeps it in memory |
| ClientSafety.RuntimeOnlyClientOutlives | internal/handler/child_manage.go:1957-1959 | Removing an inbound without clearing its deadlines and adding it without writing the file leads to a client that the successful attempt on its deadline leaves running |
| ClientSafety.UndefinedExpires | internal/handler/child_manage.go:1957-1959 | In any store where the inbound runs without being defined, the attempt succeeds, drops the deadline and changes nothing that runs |
| ClientSafety.ExpireKeepsSynced | internal/handler/child_manage.go:1967-1993 | Expiry keeps runtime and file together and touches no other tag |
| ClientSessions.SessionsStaySyncedIff | internal/handler/child_manage.go:2177-2362 | Along every session of requests, expiries, whole inbounds added and removed, restarts, and crashes at any stage of a request or expiry: runtime and file agree on every tag at every instant exactly when they did at first and every event is clean, which is a condition on how its calls ended and on what the file defined |
| ClientSessions.SessionsStaySynced | internal/handler/child_manage.go:2177-2309 | Requests, expiries and restarts whose undoing calls work are clean, so that sessions of them keep runtime and file together |
| ClientSafety.DeadlineIsEnforcedIff | internal/handler/child_manage.go:1596-1616 | A deadline given with a new client is enforced by the next successful attempt exactly when the tag is not padded |
| ClientSafety.PaddedDeadlineIsForgotten | internal/handler/child_manage.go:1596-1616 | The concrete padded tag: the attempt succeeds, forgets the deadline and leaves the client in |
| ClientSafety.DeadlineOfPresentClientIff | internal/handler/child_manage.go:1569-1582 | For a client that was present already the attempt removes something exactly when a client has the recorded identity |
| ClientSafety.DeadlineMissesPresentClient | internal/handler/child_manage.go:2000-2017 | The concrete case of a deadline that is accepted and never enforced |
| ClientProgress.ActSucceedsIff | internal/handler/child_manage.go:2212-2309 | When no outside call fails, an action succeeds exactly when the sidecar loads, the inbound exists with a usable list, and the client can be named |
| ClientProgress.ExpireSucceedsIff | internal/handler/child_manage.go:1941-1998 | When no outside call fails, an attempt succeeds exactly when the inbound is gone or its list can be searched |
| ClientProgress.AnyDeadlineCanBeLost | internal/handler/child_manage.go:1816-1833 | From every sound state and for every new client, add, removal with one unreported write, and add again leave the client without a deadline in the file |
| CredentialMigration.Migrator.MigrateOne | internal/handler/credential_email_migrator.go:169-289 | The saga on Agent and row, for every way its calls can end |
| CredentialMigration.Migrator.RunOnce | internal/handler/credential_email_migrator.go:55-122 | Only rows whose email is the username or the registered email, and not the new form, change, and only to the new form; the run is marked as done only when none of them is left |
| CredentialMigration.MovedIsNew | internal/handler/credential_email_migrator.go:147-166 | A moved row needs no further migration |
| CredentialMigration.VerdictsMean | internal/handler/credential_email_migrator.go:147-166 | A row is legacy exactly when its email is the username or the registered email and not the new form; new and empty ones likewise by their fields |
| ClientProgress.MigrationSucceeds | internal/handler/credential_email_migrator.go:169-289 | When no outside call fails, a row whose client can be named is moved in the database and on the Agent |
| MigrationSafety.SuccessMeansBoth | internal/handler/credential_email_migrator.go:169-289 | Success means the new email in the database, and on the Agent the old list with the old client out and the new one added |
| MigrationSafety.SuccessKeepsAccessIff | internal/handler/credential_email_migrator.go:228-236 | After success the credential still works exactly when nobody else had the new email |
| MigrationSafety.CleanFailureKeepsOld | internal/handler/credential_email_migrator.go:236-287 | An error without a failed compensation leaves the old email in both and every other client in place |
| MigrationSafety.ErrorKeepsOldIff | internal/handler/credential_email_migrator.go:208-287 | After any error, whichever calls failed and whichever replies were lost, the database has the old email, every other client is in place, and the old client is on the Agent exactly when its removal never took effect or was taken back in effect |
| MigrationSafety.RefusedRemovalLocksOut | internal/handler/credential_email_migrator.go:208-226 | Without a lost reply: a removal that is answered as failed after it removed the client leaves the user without one |
| MigrationSafety.LostRemovalLocksOut | internal/handler/credential_email_migrator.go:199-226 | A removal whose reply is lost leaves the user without a client |
| MigrationSafety.LostAdditionSplits | internal/handler/credential_email_migrator.go:237-254 | An addition whose reply is lost leaves the new email on the Agent and the old one in the database |
| MigrationSafety.MigrationForgetsDeadline | internal/handler/credential_email_migrator.go:199-235 | Success leaves no deadline for the client under either identity |
| MigrationSafety.OrphanIsRecognisedIff | internal/handler/credential_email_migrator.go:215-329 | A row whose inbound is gone is brought up to date exactly when its tag contains the word looked for |
| MigrationSafety.OnlyOrphansGoOn | internal/handler/credential_email_migrator.go:208-226 | A removal answered by an error ends the migration of the row with its email as it was, unless the text says both inbound and not found; then only the database is brought up to date |
| InsertAndErase.PassShape | internal/handler/apply_custom_rules.go:278-300 | A pass of filtering and inserting steps in closed form |
| InsertAndErase.LaterPassReplaces | internal/handler/apply_custom_rules.go:1145-1195 | A later pass that erases what an earlier one inserted leaves no trace of it |
| InsertAndErase.StableIff | internal/handler/apply_custom_rules.go:278-300 | Passing again changes nothing exactly when the steps erase all they insert; otherwise the list grows |
| RuleText.ExtractRuleKey | internal/handler/apply_custom_rules.go:532-545 | The scan returns the text before the second comma, or all of it |
| CustomRules.RemoveNodes | internal/handler/apply_custom_rules.go:1271-1296 | Keeps exactly the nodes that are not recorded strings, in order |
| CustomRules.RemoveDuplicates | internal/handler/apply_custom_rules.go:560-615 | Keeps exactly the nodes that do not repeat a new rule, in order |
| RuleLines.RepeatsMeans | internal/handler/apply_custom_rules.go:560-615 | A line repeats an inserted one exactly when it is a scalar that does not begin with RULE-SET and has the same text up to the second comma, letter case aside, or both begin with MATCH |
| RuleLines.RuleSetReads | internal/handler/apply_custom_rules.go:631-650 | A line names a rule set exactly when it begins with these letters in any case, after trimming and without a leading dash |
| RuleLines.KeyMeans | internal/handler/apply_custom_rules.go:532-545 | The key is the text up to the second comma, or all of it |
| CustomRules.Document.ApplyRule | internal/handler/apply_custom_rules.go:1087-1205 | One rule on the list and its record, in every mode, also when its content holds no list under "rules"; what is recorded is its strings, or nothing when one of its nodes has no JSON form |
| RuleLines.ReplacementMeans | internal/handler/apply_custom_rules.go:1116-1143 | A replacement that is not on record leaves its own lines followed by exactly the old scalar lines that begin with RULE-SET, in their order, by positions |
| RuleLines.PrependMeans | internal/handler/apply_custom_rules.go:1144-1172 | A prepended rule leaves its own lines followed by exactly the old ones that are neither recorded nor repeated, in their order |
| RuleLines.AppendMeans | internal/handler/apply_custom_rules.go:1173-1195 | An appended rule leaves exactly the old lines that are not recorded, in their order, followed by its own |
| RuleLines.NewListMeans | internal/handler/apply_custom_rules.go:1160-1195 | Where the file has no list, the rule's own becomes the list |
| RuleLines.IdleRules | internal/handler/apply_custom_rules.go:1116-1205 | Content without a list, a replacement on record and an unknown mode leave the list alone |
| RuleLines.RecordMeans | internal/handler/apply_custom_rules.go:1196-1205 | What is on record afterwards: the digest, and the strings of the content or none |
| CustomRules.Document.Sync | internal/handler/apply_custom_rules.go:218-303 | All rules in order with the records read at the start, then the missing groups |
| SyncFixpoint.SyncIsPass | internal/handler/apply_custom_rules.go:278-300 | A recorded sync is a pass of the algebra |
| SyncFixpoint.SecondSyncIsFinal | internal/handler/apply_custom_rules.go:278-300 | From any list and any records, the second sync and the third give the same list and records |
| SyncFixpoint.StableSyncIff | internal/handler/apply_custom_rules.go:278-300 | A recorded rule set is stable exactly when every inserted node is taken out again; otherwise the list grows with every sync |
| SyncFixpoint.UnencodableRuleSetGrows | internal/handler/apply_custom_rules.go:1197-1205 | A prepended rule set line whose list holds a node without a JSON form is never taken back: the list grows with every further sync |
| SyncFixpoint.RepeatedSyncIsStable | internal/handler/apply_custom_rules.go:278-303 | For any number of syncs, rules, groups and records are from the second on what they were then |
| SyncFixpoint.EditsLeaveNoTrace | internal/handler/apply_custom_rules.go:1160-1195 | After an edit the sync gives the new contents around what both versions keep of the file |
| SyncFixpoint.FirstSyncIsFinalIff | internal/handler/apply_custom_rules.go:278-300 | The first sync of any rules from any file and any records: its start is the file, or what the last effective replacement puts in its place, its tail the rules after that; it is final exactly when the tail's insertions around what the tail keeps of the start equal the recorded rules' insertions around what they keep of that, or, without a list, when no rule would start one |
| SyncFixpoint.UnrecordedSyncIsFinalIff | internal/handler/apply_custom_rules.go:278-300 | For rules applied for the first time: exactly when no line of the file that outlives the first sync is taken out by the recorded rules, and no inserted line that outlives the later rules is taken out by the later recorded ones |
| SyncFixpoint.FirstAppendIsFinalIff | internal/handler/apply_custom_rules.go:1174-1195 | One appended rule applied for the first time: final exactly when the file had none of its lines |
| ProxyGroups.AutoAddMissingProxyGroups | internal/handler/apply_custom_rules.go:655-765 | Adds every missing group that a rule names, each once, behind the old ones |
| ProxyGroups.GroupsAreClosed | internal/handler/apply_custom_rules.go:655-765 | Afterwards every named group exists, the old ones are an unchanged prefix, and a second call adds nothing |
| RuleLines.PolicyMeans | internal/handler/apply_custom_rules.go:683-708 | The policy of a line is its last field between commas, or the one before a final no-resolve of at least four, unless it is built in |
| RuleLines.AddedGroupsMean | internal/handler/apply_custom_rules.go:711-755 | Each added group is named by some line and by no old group, and has its members in the right order |

## Left out

- HTTP routing, JSON and YAML text, logging, temporary files, file modes and the `nft` and `systemd` commands: only how such calls can end is modelled.
- `tunnelidentity.Tag` and the digest in `scheduleKey`: taken as injective; the key is the digest's input.
- GuardWire.Crypto: hashes, MAC and AEAD are functions of which `Correct` asks only inversion and sizes; `SignatureBindsRequest` excludes collisions for the pair it is about.
- SourceAcl.NormalizeSourceCidrs: parsing of address text is not modelled, ranges are (family, base, prefix), and they are ordered by these numbers instead of by their text.
- Base.Lower: letters outside ASCII are not folded, and white space is the Latin-1 set.
- ReplayTable.Receiver.OpenRequest: the table of one process; a restart empties it.
- ReplayTable.Monotone: requests enter the table in the order of their recorded clock readings; the code reads the clock before it takes the lock, so that two requests at once may be recorded in the other order.
- ExpiryGuard.Guard.PrepareTunnelAcl: at start-up it is taken as finished before requests are served; `StaleRebuildIsSafe` and `StaleRebuildUnprotects` say what overlapping would do.
- ExpiryGuard.Bell.Ring: the wake-up channel counts the messages of this object's own operations; that other goroutines send besides, and that Run takes them, is part of `SilentWork` only, where an operation's message comes with the release of its lock, before which the code sends it.
- ExpiryGuard.Guard.OthersRun: only steps that need no operations lock. Run holds that lock only inside an attempt on a tunnel, so that in the code whole tunnel operations may run between its due lists and its attempts, and while it waits for the Agent to remove a client; that what a round tried is exactly what was due, and that an idle round found the memory it began with, are stated for rounds without such operations in between.
- ExpiryGuard.Guard.Round: the rounds that Run makes one after the other are a sequence in `RoundProgress.SpinBound`; the endless loop itself is not a method.
- GuardMachine.Enabled: an Agent call is made only while the installed table names the resource's sources, so runs in which somebody else deletes the table between its rebuild and the call are excluded; losing it at any other instant is the step `TableLost`.
- ExpiryGuard.Guard.ApplyTunnelInbound: a call takes effect at most once and before it returns, and nobody else creates managed tags.
- ExpiryGuard.Guard.Load: the last change of file mode, which can fail, is not modelled.
- The clock is monotone, generations are unbounded, and a write whose directory sync failed is taken as renamed.
- ManagedClients.ChildManager.ManageClient: a request without a client object, which is refused before anything is read.
- ClientSessions.SessionsStaySyncedIff: a started Xray is taken to run the first definition of every tag. The in-place writing of the configuration file, which a crash can leave half done, is taken as written or not.
- CredentialMigration.Migrator.RunOnce: one server's Agent at a time, emails taken as strings, and a failing database update taken as having no effect.
- CredentialMigration.NotFoundText: the Agent's own message, without the status line that some transports put in front of it, which contains nothing that the migrator looks for.
- CustomRules.Document.Sync: DNS and rule-provider rules, the choice of rules by owner and subscription, failing records, and the text round trip of the file; applying rules without records is not modelled either.
- The status, traffic and capability reports of tunnels, the remote installer and its server leases, log tailing, ACME, DNS providers, federation, sessions and node sync: plumbing around the modelled parts.
