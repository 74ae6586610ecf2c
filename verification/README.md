# Unix-AGB in Dafny

A model of Unix-AGB's decision and enforcement path, and proofs about it: telemetry becomes
per-namespace state, state becomes audited decisions, denials are compiled into an authenticated
expiring cache, and a guardian enforces that cache through seccomp notifications, across crashes and
restarts. There is one module per component; `dafny verify dfyconfig.toml` checks everything.

Conventions:

- Code that updates objects or files is a class or a method with a loop. Its contract ties the new state
  to a function of the old one, and the lemmas are about that function, over all inputs, runs or crashes.
- Digests, message authentication codes, the neural prediction and the clock are function-valued or
  numeric parameters. Injectivity or shape of a digest is assumed only where a lemma requires it.
- File operations that can fail are boolean parameters: an operation happens completely or not at all.
- Strings are sequences of Unicode code points; lengths that Rust takes in bytes are `Text.ByteLen`.
- Exceptions and error returns are `Result` values. Error texts name the kind of failure only.

| module | component |
|---|---|
| BrokerProtocol, GuardianLoop | kernel, broker generations, report channel and guardian; the lease-recovering guardian's loop |
| Contracts, Gate3Policy | the record validators, `evaluate` and `compile` |
| Gate3Cache, Gate3Audit, JsonText | the compiled cache, the grouped audit log, what both JSON writers print |
| TamperEvidence | what a signed snapshot's text says about its entries |
| RuntimePolicy | the Python reader that enforces snapshots |
| DryRun, DryRunLoop | the dry-run process as a machine with a crash between any two steps, and as the loop itself |
| Enforcement | that machine together with a guardian that reloads the cache file it writes |
| AsmCm | the ASM-CM adapter's per-namespace state |
| BenchmarkEngines, PersistentEngine | the deterministic engines and the snapshotted proxy |
| TelemetryPipeline, IndependentCorpus, CorpusReplay | windows, reviews, the loader, the evaluation |
| PolicyBroker | the broker's cache, its log, replay and compaction |
| Canonicalization, LinkBaselines | entity renaming; the link joins |
| RateLimits, GuardianResilience, AdminServer | sliding-window limiters and the authenticated handoff |
| HeartbeatChain, CanonicalStore | the heartbeat hash chain; the canonical event log |

## Findings

Where a promised property fails, the condition under which it holds is proved.

- The Rust writer signs JSON text that leaves characters beyond `~` as they are; the Python reader
  re-encodes with escapes. A snapshot with a single non-ASCII boot id, or DEL, in a namespace or in the
  revision is therefore rejected as a whole (`JsonText.WritersAgreeIffPortable`,
  `RuntimePolicy.ReaderAcceptsIffPortable`); `DryRun.AccentedEventIsValid` is a valid event in one.
- The writer takes any non-empty key as it is; the reader strips its key file and wants 32 bytes. A key that
  is shorter, or begins or ends with white space, signs snapshots that no guardian loads. With the
  condition above this makes the exact condition for loading, `Enforcement.GuardianLoads`.
- A cache file rewritten within one modification time and to the same size is not read: the guardian goes on
  with what it holds and can miss a denial (`Enforcement.UnchangedFingerprintMisses`).
- Acknowledged audit lines at risk are at most a group less one for each process since the log was last
  durable, not in all: a process that ends on an invalid line does not synchronize, and the next one
  counts from zero (`DryRun.UndurableAcknowledgementsBounded`, `DryRun.BoundIsMet`). One group less one
  is enough if processes end synchronized (`DryRun.OneGroupAtRisk`).
- Eviction on lookup shows exactly if a lookup comes before the expiry of a put that an earlier lookup found
  expired, so never on a clock that does not go back (`Gate3Cache.EvictionShowsIff`,
  `Gate3Cache.BackwardClockForgets`).
- When the lease-recovering guardian has handled a broker's death, nothing is in flight exactly if nothing
  was before, or the broker left by exit 71 with leases reported and the thread can be read
  (`BrokerProtocol.NothingInFlightIff`). After every other death, also a kill that leaves a lease behind
  (`BrokerProtocol.KillAfterLeaseHappens`), the guardian gives up and uses no lease. After exit 71 without
  leases it gives up, too; with an unreadable thread it starts a replacement
  (`BrokerProtocol.RecoveryAnswersTheLease`). What is left in flight is never answered
  (`BrokerProtocol.LeftInFlightIsOrphaned`, `BrokerProtocol.UnresolvedIsNeverAnswered`).
- The policy broker joins namespace and resource by `|`. Two namespaces can share a key exactly if one,
  with `|` after it, begins the other with `|` after it (`PolicyBroker.KeysIdentify`,
  `PolicyBroker.KeysCollide`).
- A review may give its label source as a number: reviewing tests its text, the loader fails on the item.
  Reviewed items load exactly if the sources of the deciding reviews are texts
  (`IndependentCorpus.ReviewedCorpusLoads`, `IndependentCorpus.NumericSourceIsAcceptedNotLoaded`).
- A family that is a list or an object passes review and loader, and cannot be counted
  (`CorpusReplay.LoadedIsReplayable`).
- The link join takes the tool of a missing terminal event for the tool without a name. Whatever came before,
  a hit on a suffix is a hit on the whole exactly if it holds a terminal event
  (`LinkBaselines.SuffixIsSoundIff`); `LinkBaselines.LostTerminalMisleads` and
  `LinkBaselines.EvictedDestinationMisleads` are the failing trajectories for windows and eviction. All bounded
  forms are sound on trajectories that end in a terminal event, and on those in which every tool has a
  name (`LinkBaselines.WindowsAreSound`, `LinkBaselines.EvictionIsSound`).
- The frozen canonicalizer passes negative tokens through, the operational one rejects them
  (`Canonicalization.FrozenAgrees`).
- The heartbeat loop moves the head before it appends: a failed append leaves a summary that does not
  verify (`HeartbeatChain.WrittenVerifies`).

## Model

| member | source | states |
|---|---|---|
| BrokerProtocol.InvariantStep | scripts/run_gate4_listener_guardian.py:56-106 | every step of kernel, broker, channel and guardian keeps the protocol's one inductive invariant |
| BrokerProtocol.AnsweredOnceNeverContinued | scripts/run_gate4_listener_guardian.py:90-95 | in every run no notification is sent two answers by anyone, and no target notification is ever continued |
| BrokerProtocol.DeniedIffTarget | scripts/run_gate4_listener_guardian.py:71-82 | in every run an answer is a denial iff its notification is the target's, or a broker gave it and looked that notification up in vain; so if every lookup finds the process, denied iff target |
| BrokerProtocol.RejectedOnlyIfDiedLate | scripts/run_gate4_listener_guardian.py:90-95 | in every run a broker's answer is rejected only if the notification died after its last validity check and before that answer |
| BrokerProtocol.DeathsAreDue | scripts/run_gate4_listener_guardian.py:83-106 | exit 70 of generation 1 comes with the answer that makes the configured number, exits 71 and 72 once the configured number is received and before as many are answered |
| BrokerProtocol.ReceivedAreAccounted | scripts/run_gate4_listener_guardian.py:56-106 | conservation: once everything is read, every notification ever received is answered, counted as gone, held, the one of a rejected answer, or recovered, each once |
| BrokerProtocol.LeasesAreUnanswered | scripts/run_gate4_inflight_crash.py:85-89 | once everything is reported and read, a watching guardian holds no lease of an answered notification |
| BrokerProtocol.LeaseCoversCrashBeforeSend | scripts/run_gate4_listener_guardian.py:85-89 | after exit 71, at the end of the channel, the guardian's lease map holds the one unanswered notification iff the generation reports leases |
| BrokerProtocol.NothingInFlightIff | scripts/run_gate4_inflight_crash.py:94-109 | after every death of a broker, of any code and generation: nothing is in flight iff nothing was, or it was exit 71 with leases reported and a readable thread; after any other death kernel, answers and leases stay as they are and the guardian gives up |
| BrokerProtocol.LeftInFlightIsOrphaned | scripts/run_gate4_inflight_crash.py:94-109 | what is still in flight then has no running holder, under a guardian that gave up or has used up its recovery |
| BrokerProtocol.KillAfterLeaseHappens | scripts/run_gate4_inflight_crash.py:94-98 | a broker killed after the guardian read its lease, with the notification in flight, is reached |
| BrokerProtocol.RecoveryAnswersTheLease | scripts/run_gate4_inflight_crash.py:94-109 | after exit 71, whatever the environment does: exactly which notification is answered and how, when the guardian gives up and when generation 2 starts |
| BrokerProtocol.UnreadableIsOrphaned | scripts/run_gate4_inflight_crash.py:27-32 | with leases and an unreadable thread the crashed broker's notification is orphaned, whether or not its thread has died |
| BrokerProtocol.UnresolvedIsNeverAnswered | scripts/run_gate4_inflight_crash.py:27-32 | a notification so orphaned is not answered by any run |
| BrokerProtocol.NothingInFlightAfterStop | scripts/run_gate4_listener_guardian.py:104-106 | after exit 70 no notification is received and unanswered |
| BrokerProtocol.StrandedWithoutLease | scripts/run_gate4_listener_guardian.py:83-84 | after exit 72 exactly one notification is stranded and no lease of it was or will be read |
| BrokerProtocol.ExitBeforeLeaseHappens | scripts/run_gate4_listener_guardian.py:83-84 | exit 72 is reached with a guardian still watching |
| BrokerProtocol.ExitBeforeSendHappens | scripts/run_gate4_listener_guardian.py:85-89 | exit 71 is reached, with and without leases, with everything read and the notification in flight |
| BrokerProtocol.StopHappens | scripts/run_gate4_listener_guardian.py:104-106 | exit 70 is reached after an answer, with a guardian still watching |
| BrokerProtocol.TallyIsReal | scripts/run_gate4_inflight_crash.py:69-70 | the guardian's counts never exceed the answers given, and equal them once everything is reported and read |
| BrokerProtocol.OnlyStopsAreReplaced | scripts/run_gate4_listener_guardian.py:178-187 | the guardian without leases: generation 2 starts iff generation 1 left by exit 70 and the start succeeds, with kernel and answers unchanged; every other end fails |
| GuardianLoop.LeaseGuardian.HandleReport | scripts/run_gate4_inflight_crash.py:84-93 | one report updates leases, decisions, invalid count and crash report as the protocol's guardian does |
| GuardianLoop.LeaseGuardian.Respond | scripts/run_gate4_inflight_crash.py:25-35 | an invalid notification or unreadable thread is never answered; otherwise the answer is the kernel's protocol step |
| GuardianLoop.LeaseGuardian.HandleEnd | scripts/run_gate4_inflight_crash.py:94-109 | the end-of-channel branch leaves exactly the protocol's next kernel, answers, guardian and replacement broker |
| Contracts.NamespaceIsIdentity | src/contracts.rs:63-68 | two namespaces are equal iff boot id, pid and start time are, whatever the boot id contains |
| Gate3Policy.DenyIsValidDecision | src/policy.rs:368-384 | whatever is evaluated to a denial passes the decision contract, length bounds included |
| Gate3Policy.DenyCompiles | src/policy.rs:386-416 | compile returns a decision iff the effect is DENY, and that decision is valid, of the active revision, and expires within the time to live |
| Gate3Policy.EffectsMean | src/policy.rs:329-366 | an evaluated decision denies iff all contracts and identities hold and the band is restricted, or elevated with confident, evidenced, fingerprinted findings, each with its reason; it allows iff they hold and the band is normal or monitored; fail-closed iff abstained |
| Gate3Policy.AbstentionsName | src/policy.rs:326-366 | an abstention gives one reason, and what it says is the case: a failing contract or identity, or, if all hold, what the risk band or its evidence lacks |
| Gate3Policy.DecisionIdIff | src/policy.rs:505-511 | decisions on valid events share an id iff event id, namespace, state revision and policy revision agree, or a revision with NULs makes up for a longer namespace, which one common revision or NUL-free ones exclude |
| Gate3Policy.CacheKeyInjective | src/policy.rs:498-503 | the cache key determines namespace, operation and resource digest, even if the namespace contains the separator |
| Gate3Policy.CacheKeySeparatesProcesses | src/policy.rs:490-503 | valid events share a key iff process identity, operation and resource digest agree |
| JsonText.WritersAgreeIffPortable | deploy/agb_gate3_runtime.py:34-37 | the Rust and the Python JSON text of the same document are equal iff no string has a character beyond the tilde |
| TamperEvidence.SignedTextFixesEntries | src/policy.rs:518-530 | equal signed texts, by either writer, mean equal revisions and entries equal field by field, expiry included |
| TamperEvidence.AcceptedIsWritten | deploy/agb_gate3_runtime.py:24-50 | what the reader accepts under the code of a written snapshot is that snapshot's entries under its key and revision, if codes tell the two texts apart |
| TamperEvidence.LoadedIsWritten | src/policy.rs:222-251 | the like for the cache's own loader |
| Gate3Cache.CompiledDecisionCache.Put | src/policy.rs:150-161 | accepted iff revision matches and the entry is valid; a rejected put changes nothing |
| Gate3Cache.CompiledDecisionCache.Lookup | src/policy.rs:163-188 | all five answers, and eviction of an expired entry |
| Gate3Cache.LookupReasons | src/policy.rs:163-188 | a lookup hits iff there is a live entry of the revision that is not stale, with that entry's effect and id; each reason for a miss is given iff it is the first that applies |
| Gate3Cache.CompiledDecisionCache.Clear | src/policy.rs:190-192 | forgets all entries |
| Gate3Cache.CompiledDecisionCache.Perform | src/policy.rs:149-192 | put, lookup and clear on the object give the answers of the operation sequences that the history theorems are about, whatever follows |
| Gate3Cache.CompiledDecisionCache.SaveAuthenticated | src/policy.rs:202-220 | the snapshot lists the entries in ascending key order under their signature |
| Gate3Cache.CompiledDecisionCache.LoadAuthenticated | src/policy.rs:222-251 | the loading loop: same first error, or exactly the accepted live entries |
| Gate3Cache.LoadsIff | src/policy.rs:222-251 | any snapshot loads iff the key is non-empty, it is the signed snapshot of its entries under this revision and key, and its live entries are acceptable |
| Gate3Cache.CacheRefinesHistory | src/policy.rs:149-192 | a cache that is the put history minus expired entries answers every further operation sequence like that history |
| Gate3Cache.EvictionIsInvisible | src/policy.rs:163-188 | for every operation sequence with a non-decreasing clock, effect and decision id equal those of a plain last-put-per-key history |
| Gate3Cache.EvictionShowsIff | src/policy.rs:163-188 | for every operation sequence on any clock, answers differ from the history's iff some lookup would hit a put that an earlier lookup found expired |
| Gate3Cache.BackwardClockForgets | src/policy.rs:173-176 | the shortest such sequence, for every acceptable decision |
| Gate3Cache.SaveThenLoad | src/policy.rs:202-251 | load succeeds iff all live entries are acceptable; it restores exactly them and is lookup-equivalent for every later time |
| Gate3Audit.Gate3AuditLog.Append | src/policy.rs:285-296 | a denial or a full group is synchronized at once; the whole new log state under write and sync failures |
| Gate3Audit.Gate3AuditLog.Sync | src/policy.rs:298-307 | a successful sync makes every line durable; a failed one changes nothing |
| RuntimePolicy.NewestIsMaximal | deploy/agb_gate3_runtime.py:93-101 | the chosen entry is the first of the active ones that are maximal by (state revision, expiry), and missing iff nothing is active |
| RuntimePolicy.Gate3RuntimePolicy.Reload | deploy/agb_gate3_runtime.py:66-86 | the state and result of a reload in every case of unchanged, failing and fresh files |
| RuntimePolicy.Gate3RuntimePolicy.Decide | deploy/agb_gate3_runtime.py:88-101 | the loop over what a reload leaves held is the decision the enforcement theorems are about; a failed reload of a loaded policy keeps its entries |
| RuntimePolicy.ReloadNeverPartial | deploy/agb_gate3_runtime.py:53-86 | entries afterwards are the old ones or a complete authenticated snapshot of enforceable denials |
| RuntimePolicy.ReaderAcceptsIff | deploy/agb_gate3_runtime.py:24-50 | any snapshot is accepted, whole, iff its format and revision are the reader's, its code is that of the text the reader writes, and every entry is a denial of the revision with a positive state revision |
| RuntimePolicy.StripMeans | deploy/agb_gate3_runtime.py:73-73 | stripping a key file gives back the key between any white space |
| RuntimePolicy.ReaderAcceptsIffPortable | deploy/agb_gate3_runtime.py:24-50 | what the writer signed is accepted, with the same entries, iff key and revision are the writer's and revision and namespaces stay below the tilde |
| DryRun.ReachableInv | src/bin/agb-policy-dry-run.rs:63-112 | every run with crashes and restarts anywhere keeps the machine's invariant |
| DryRun.CacheFileRestsOnDurableAudit | src/bin/agb-policy-dry-run.rs:89-99 | at every crash point each entry of the cache file has its denial in the durable part of the audit |
| DryRun.AuditRecordsRequests | src/policy.rs:368-384 | in every run each audit line is of a taken request: its decision, with exactly that request's evidence ids, namespace, state revision, scope and time |
| DryRun.ResponsesAnswerRequests | src/bin/agb-policy-dry-run.rs:85-110 | in every run each response answers a taken request: with the decision evaluated for it if it acknowledges a line, and else by an abstention that fails closed; evidence, scope and identity are the request's either way |
| DryRun.CacheFileRecordsRequests | src/policy.rs:386-416 | in every run each entry of the cache file has a durable denial of a taken request and carries its namespace, operation, resource digest, state revision, evidence digest and expiry |
| DryRun.UndurableAcknowledgementsBounded | src/policy.rs:285-307 | at every crash point, of the lines acknowledged since the last crash, each once, at most (group size - 1) times the processes since the log was last durable as a whole are at risk, none a denial |
| DryRun.BoundIsMet | src/bin/agb-policy-dry-run.rs:75-83 | for every number of processes, each can add up to group size - 1 to what is at risk, when they end without the last synchronization |
| DryRun.OneGroupAtRisk | src/bin/agb-policy-dry-run.rs:113-114 | if every process but the last ended synchronized or by a crash, at most group size - 1 are at risk in all |
| DryRun.CompilationNeverAbstains | src/policy.rs:468-486 | on the grouped path the compilation-failed and audit-not-durable abstentions are unreachable |
| DryRun.RestartSucceeds | src/bin/agb-policy-dry-run.rs:59-73 | a restart on the files of any reachable state loads |
| Enforcement.ArisingInv | deploy/agb_gate3_runtime.py:66-101 | in every run of dry-run processes and guardian, with crashes, failed and skipped reloads, whatever is held rests on durable denials and still enforces what was responded before it was loaded |
| Enforcement.GuardianLoads | deploy/agb_gate3_runtime.py:66-86 | a file read anew loads iff it is readable, revisions agree, the stripped key is the writer's secret of at least 32 bytes, and all texts are portable; otherwise nothing held changes |
| Enforcement.RespondedDenialIsEnforced | deploy/agb_gate3_runtime.py:88-101 | after a load, each denial responded before it is decided as a denial until its time to live ends, across crashes and failing later reloads; a decision whose reload loads denies all live ones; any other judges the retained snapshot |
| Enforcement.EnforcedDenialIsAudited | deploy/agb_gate3_runtime.py:88-101 | in every reachable state, whatever is held and however the reload goes: a decided denial cites a durably audited denial of the namespace younger than the time to live, newest among the held active entries |
| Enforcement.UnchangedFingerprintMisses | deploy/agb_gate3_runtime.py:69-72 | from any state whose held entries do not deny a namespace, a run responds a denial for it that the guardian misses while the fingerprint stays the same |
| DryRun.AccentedEventIsValid | src/contracts.rs:88-111 | a valid event whose namespace no snapshot can carry to the guardian |
| DryRunLoop.DryRunProcess.EvaluateAndAudit | src/policy.rs:456-467 | evaluation and audit are the machine's first two steps |
| DryRunLoop.DryRunProcess.CompileIntoCache | src/policy.rs:468-486 | compiling and putting is the machine's third step |
| DryRunLoop.DryRunProcess.SaveAndRespond | src/bin/agb-policy-dry-run.rs:97-110 | a denial is saved before it is responded; a failed save ends the process without a response |
| DryRunLoop.DryRunProcess.Serve | src/bin/agb-policy-dry-run.rs:77-111 | one iteration of the loop is a run of machine steps and adds exactly one response, or ends on a failed save |
| AsmCm.Namespace.RememberTokens | python/agb_fake_asm/asm_cm_engine.py:142-147 | in-place trimming keeps the last 128 tokens |
| AsmCm.Namespace.Update | python/agb_fake_asm/asm_cm_engine.py:192-292 | decision and new state, with rollback to the old state when prediction or checkpoint raises |
| AsmCm.RunAgrees | python/agb_fake_asm/asm_cm_engine.py:192-273 | a run's state is given by the accepted events: tokens, next value and evidence as latest allocation per key |
| AsmCm.HistoryIsLastAllocations | python/agb_fake_asm/asm_cm_engine.py:233-251 | revision equals last sequence equals the number of accepted events; the history is the last min(n, 64) allocations with distinct values, each pair's evidence exactly its event or nothing |
| AsmCm.DenialCitesTrigger | python/agb_fake_asm/asm_cm_engine.py:257-286 | for every prediction function a denial cites an earlier accepted trigger of the queried relation |
| AsmCm.DeniesIffCause | python/agb_fake_asm/asm_cm_engine.py:207-286 | for every prediction, in operations and labels: the next event is denied iff a query event for a kind of cause predicts a value that an accepted cause of that kind still owns; the denial cites that cause |
| AsmCm.RecentCauseIsDenied | python/agb_fake_asm/asm_cm_engine.py:230-279 | a cause among the last 64 that took a value owns it: predicting that value denies, citing it |
| AsmCm.GapsAbstain | python/agb_fake_asm/asm_cm_engine.py:192-207 | abstains iff the sequence has a gap, with the state unchanged; any other event is counted, and cites only itself unless denied |
| AsmCm.WindowEvidenceIsUsable | python/agb_fake_asm/asm_cm_engine.py:257-279 | a prediction that names a value in the window selects exactly the event that allocated it |
| BenchmarkEngines.SequenceRuleEngine.Update | python/agb_fake_asm/benchmark_engines.py:51-67 | one event changes one namespace's state and decides as the rule does |
| BenchmarkEngines.StatefulProxyEngine.Update | python/agb_fake_asm/benchmark_engines.py:119-148 | an abstention changes states at most by a default entry |
| BenchmarkEngines.SlidingWindowEngine.Update | python/agb_fake_asm/benchmark_engines.py:82-100 | the deque after clearing, appending and popping, and the last connect in it |
| BenchmarkEngines.RuleMeans | python/agb_fake_asm/benchmark_engines.py:51-63 | the rule's state says whether an exec was seen and which connect ends an unbroken chain |
| BenchmarkEngines.RuleDeniesIffChain | python/agb_fake_asm/benchmark_engines.py:51-67 | denies iff a credential open follows an exec and then an untrusted connect with no exec or trusted reset between, citing the last such connect |
| BenchmarkEngines.ProxyDecidesLikeRule | python/agb_fake_asm/benchmark_engines.py:119-148 | out-of-order events are stutter steps; the others are decided as the rule decides the accepted stream |
| BenchmarkEngines.GapFreeProxy | python/agb_fake_asm/benchmark_engines.py:119-148 | on gap-free streams the proxy equals the sequence rule and never abstains |
| BenchmarkEngines.AbstainFreeIffGapFree | python/agb_fake_asm/benchmark_engines.py:122-128 | a stream passes without abstention iff it has no gap |
| BenchmarkEngines.WindowIsRecent | python/agb_fake_asm/benchmark_engines.py:82-91 | the window holds exactly the last events within its size since the last trusted reset |
| BenchmarkEngines.WindowDeniesIffRecent | python/agb_fake_asm/benchmark_engines.py:82-100 | denies iff a credential open follows an untrusted connect within the window with no trusted reset between, citing the last such connect |
| BenchmarkEngines.WindowDeniesShortChains | python/agb_fake_asm/benchmark_engines.py:82-100 | a chain that spans at most the window is denied by window and rule, both citing the chain's last connect |
| BenchmarkEngines.NamespacesAreIsolated | python/agb_fake_asm/benchmark_engines.py:119-120 | a namespace's state and decisions depend on its own subsequence only |
| PersistentEngine.PersistentStatefulProxy.Update | python/agb_fake_asm/persistent_engine.py:86-95 | memory and file after an update; a failed checkpoint raises and leaves both as they were |
| PersistentEngine.RestartsAreTransparent | python/agb_fake_asm/persistent_engine.py:37-95 | with restarts and failed checkpoints anywhere: same decisions as one uninterrupted engine, and a restart restores memory up to default entries |
| PersistentEngine.ForeignSnapshotsRejected | python/agb_fake_asm/persistent_engine.py:37-56 | a document restores iff it is a snapshot of this engine and configuration with its checksum |
| TelemetryPipeline.Group | python/agb_fake_asm/telemetry_pipeline.py:129-145 | the grouping loop: first malformed record, or each namespace's events in input order |
| TelemetryPipeline.CutWindows | python/agb_fake_asm/telemetry_pipeline.py:169-192 | stepping through the ordered stream cuts consecutive renumbered windows |
| TelemetryPipeline.BuildCandidates | python/agb_fake_asm/telemetry_pipeline.py:95-195 | the whole build, with its errors in order |
| TelemetryPipeline.GroupsIffGroupable | python/agb_fake_asm/telemetry_pipeline.py:131-144 | a batch groups iff every record is sound and ids are distinct, in any order |
| TelemetryPipeline.SortSorts | python/agb_fake_asm/telemetry_pipeline.py:149-149 | sorting orders by sequence and permutes |
| TelemetryPipeline.BuildIsOrderless | python/agb_fake_asm/telemetry_pipeline.py:95-195 | every permutation of the input gives the same candidates or the same failure; only the blamed record may differ |
| TelemetryPipeline.WindowsPartition | python/agb_fake_asm/telemetry_pipeline.py:169-192 | windows put end to end at their source sequence are the stream; all but the last are full, each is numbered from 1, and split, subject and purpose are those of namespace and first executable |
| TelemetryPipeline.WindowsAreLossless | python/agb_fake_asm/telemetry_pipeline.py:147-192 | for each namespace of a build, its windows are exactly its ordered gap-free stream, or none if it is not collected |
| IndependentCorpus.ApplyReviews | python/agb_fake_asm/telemetry_pipeline.py:198-273 | candidate checks, the review loop, unknown and missing reviews, and the kept items in order |
| IndependentCorpus.AppliesIff | python/agb_fake_asm/telemetry_pipeline.py:198-252 | reviews apply iff every candidate is pending with split and revision, every review is complete, each candidate has a review, each review a candidate, and no trajectory two |
| IndependentCorpus.CheckEvents | python/agb_fake_asm/independent_corpus.py:88-101 | the inner loop's first error, or the grown set of ids |
| IndependentCorpus.LoadIndependentCorpus | python/agb_fake_asm/independent_corpus.py:22-126 | the loader's loop, with its errors and its selection |
| IndependentCorpus.LoadsIffWellFormed | python/agb_fake_asm/independent_corpus.py:33-126 | loads iff every item is sound (stated field by field), no two share an event, no namespace is on both sides of the split, and something is selected |
| IndependentCorpus.SourcesOfReviews | python/agb_fake_asm/telemetry_pipeline.py:254-273 | the items' label sources are all texts iff those of the deciding reviews are |
| IndependentCorpus.ReviewedCorpusLoads | python/agb_fake_asm/independent_corpus.py:33-126 | whatever was built and however it was reviewed, the items load iff every deciding review's label source is a text and something is selected; then exactly the selected ones, all of them without a selection |
| IndependentCorpus.NumericSourceIsAcceptedNotLoaded | python/agb_fake_asm/telemetry_pipeline.py:240-241 | a review with the label source 5 is accepted for every pending candidate, and the item does not load |
| CorpusReplay.ReplayTrajectory | scripts/benchmark_gate2.py:185-196 | the replay loop at source sequences leaves the engine's state and last decision |
| CorpusReplay.Evaluate | scripts/benchmark_gate2.py:184-217 | the counters over all trajectories, per family and per confidence |
| CorpusReplay.LoadedAsReviewed | python/agb_fake_asm/independent_corpus.py:105-126 | what loads are the chosen candidates in order, each with its id and events, malicious iff its deciding review says so, with that review's family and confidence, high if absent |
| CorpusReplay.OutcomeAsReviewed | scripts/benchmark_gate2.py:184-217 | each outcome has the effect of the last replayed event, and verdict, family and confidence of the deciding review |
| CorpusReplay.EvaluationMeans | scripts/benchmark_gate2.py:184-217 | end to end: tp is the number of chosen candidates reviewed malicious whose last replayed decision denies, and likewise fn, fp and tn; with the abstentions they are all chosen |
| CorpusReplay.TallyMeans | scripts/benchmark_gate2.py:167-179 | each cell counts what its name says, and cells and abstentions add up to the trajectories |
| CorpusReplay.StrataMean | scripts/benchmark_gate2.py:212-217 | a stratum exists iff it has trajectories and counts exactly those |
| CorpusReplay.LoadedIsReplayable | scripts/benchmark_gate2.py:184-217 | what loads can be replayed and counted iff no selected family is a list or an object |
| CorpusReplay.ReplayOfNamespace | scripts/benchmark_gate2.py:184-196 | the part of a replay about a namespace is the events of its kept windows, or none if it is not selected |
| CorpusReplay.KeptIsPrefix | scripts/benchmark_gate2.py:187-192 | keeping some windows leaves a gap-free stream iff a prefix of the windows is kept |
| CorpusReplay.ReplayIsTransparent | scripts/benchmark_gate2.py:184-196 | under any split or purpose filter: no abstention iff the surviving windows are a prefix, and if all survive, exactly the decisions on the raw ordered stream, event by event |
| PolicyBroker.Broker.Decide | src/bin/agb-policy-broker.rs:88-235 | every branch: new cache and file, and the response after auditing |
| PolicyBroker.Broker.AdminRequest | src/bin/agb-policy-broker.rs:93-135 | rotation clears the cache even when renaming fails, and drops the file only when it succeeds |
| PolicyBroker.MissAnswersAsked | src/bin/agb-policy-broker.rs:167-209 | on a miss the asked effect is answered and stored for the time to live, in the log too if keyed; an unsupported or unpersisted one is denied and changes nothing |
| PolicyBroker.AllowsOnly | src/bin/agb-policy-broker.rs:88-235 | a permission is a hit on a stored one, one asked for on a miss, a health probe, or a listing or rotation with the token, and always audited |
| PolicyBroker.RotationForgets | src/bin/agb-policy-broker.rs:108-132 | after a rotation, renamed or not, the next request for anything is a miss; the file goes only with the renaming, and a rotation that leaves it is a denial |
| PolicyBroker.ReplayLog | src/bin/agb-policy-broker.rs:293-323 | the replay loop: unexpired authentic lines, the last one per key wins, reading stops at an unreadable line |
| PolicyBroker.HeldIsLastUsable | src/bin/agb-policy-broker.rs:293-323 | after a replay a key is held iff some line about it is authentic, unexpired and before any unreadable line, and then as the last such line says, for the rest of its time |
| PolicyBroker.Compact | src/bin/agb-policy-broker.rs:333-354 | one line per entry, at the wall-clock second plus the whole seconds it has left |
| PolicyBroker.StartBroker | src/bin/agb-policy-broker.rs:293-363 | cache and file after a startup that fails before, after or not at all |
| PolicyBroker.ReplayedFrom | src/bin/agb-policy-broker.rs:299-321 | a loaded entry comes from the last accepted line about its key, and every accepted line's key is loaded |
| PolicyBroker.DeadlineDrift | src/bin/agb-policy-broker.rs:337-350 | a restart moves a deadline up by at most the second boundaries between its two wall-clock reads |
| PolicyBroker.InvariantStep | src/bin/agb-policy-broker.rs:151-209 | every request, stop, startup, rotation and foreign line keeps cache and log in step with what was stored |
| PolicyBroker.HitsAreCurrent | src/bin/agb-policy-broker.rs:151-166 | in every run a hit returns the latest stored decision for the key and revision since the last successful rotation, within TTL + 1 seconds plus startup drift |
| PolicyBroker.HitsAreFresh | src/bin/agb-policy-broker.rs:293-363 | if startups read the clock within one instant, no entry is used TTL + 1 seconds or more after it was stored |
| PolicyBroker.StoredIsHit | src/bin/agb-policy-broker.rs:151-166 | in every run, after a decision is stored for a key and revision, every request for them is answered by it for the whole time to live, whatever it asks for, if nothing else is stored for the key, nothing rotates and the broker does not stop |
| PolicyBroker.StoredSurvivesRestarts | src/bin/agb-policy-broker.rs:293-363 | the like for a keyed broker across stops, failed startups, foreign lines and instantaneous restarts, until the persisted deadline |
| PolicyBroker.InstantRestartKeepsDeadlines | src/bin/agb-policy-broker.rs:299-350 | such a startup keeps exactly the unexpired decisions, each at its deadline |
| PolicyBroker.KeysIdentify | src/bin/agb-policy-broker.rs:151-151 | keys are equal iff namespace and resource are, or a part of one namespace after a separator reappears in front of the other resource |
| PolicyBroker.KeysCollide | src/bin/agb-policy-broker.rs:151-151 | different namespaces share some key iff one with the separator after it is a prefix of the other with it |
| Canonicalization.CanonicalEntityEncoder.Encode | python/agb_fake_asm/canonicalization.py:23-39 | encoding or failure, and the entities taken in either way |
| Canonicalization.EncodingStreams | python/agb_fake_asm/canonicalization.py:23-39 | encoding a then b is encoding a + b |
| Canonicalization.RenamedEncodeAlike | python/agb_fake_asm/canonicalization.py:23-39 | from any two equally long sets of known entities, renamed inputs are encoded alike, failures included |
| Canonicalization.EncodingIsCompleteInvariant | python/agb_fake_asm/canonicalization.py:23-39 | equal encodings iff one list is an injective renaming of the other's entities with control tokens fixed |
| Canonicalization.EncodingIsIdempotent | python/agb_fake_asm/canonicalization.py:23-39 | encoding an encoding changes nothing |
| Canonicalization.EncodesIffFits | python/agb_fake_asm/canonicalization.py:28-37 | succeeds iff no token is negative and the distinct entities fit the budget |
| Canonicalization.PermutationIsInvisible | python/agb_gate2b/diagnostics.py:34-43 | permuting the entity range first does not change the encoding |
| Canonicalization.CanonicalizeEntityIds | python/agb_gate2b/diagnostics.py:60-78 | the frozen loop with its own counter computes the frozen encoding |
| Canonicalization.FrozenAgrees | python/agb_gate2b/diagnostics.py:60-78 | equals the operational encoder on non-negative tokens, and where it succeeds only there |
| LinkBaselines.EvictDown | python/agb_gate2b/baselines.py:14-17 | the eviction loop ends with the total within budget and a suffix of each table, or raises on empty tables |
| LinkBaselines.MaliciousFromLinks | python/agb_gate2b/baselines.py:7-29 | the loop over events under any budget, raising included |
| LinkBaselines.UnboundedJoins | python/agb_gate2b/baselines.py:19-29 | without a budget the answer is the join of the last links |
| LinkBaselines.EvictionIsSound | python/agb_gate2b/baselines.py:46-53 | a hit under a budget is a hit of the unbounded join iff there is a terminal event or the nameless tool's family never had a destination; if every tool has a name there is a terminal event |
| LinkBaselines.EvictedDestinationMisleads | python/agb_gate2b/baselines.py:12-29 | a trajectory without terminal event that hits under budget 2 and not without one |
| LinkBaselines.EvictionIsExactWithinBudget | python/agb_gate2b/baselines.py:46-53 | exact when distinct R3 and R4 subjects fit the budget |
| LinkBaselines.BudgetHolds | python/agb_gate2b/baselines.py:14-17 | raises iff the budget is negative and something was linked; otherwise the retained total fits |
| LinkBaselines.FsmPredict | python/agb_gate2b/baselines.py:38-43 | the bounded deque holds the last events that are not noise |
| LinkBaselines.SlidingPredict | python/agb_gate2b/baselines.py:59-63 | the join over Python's slice, for any window size |
| LinkBaselines.SuffixIsSoundIff | python/agb_gate2b/baselines.py:27-29 | a suffix's hit is a hit of every trajectory it ends iff it is not dangling, which for a hit means that it holds a terminal event |
| LinkBaselines.WindowsAreSound | python/agb_gate2b/baselines.py:32-63 | sliding-window and state-machine hits are unbounded hits unless what is kept is dangling, which it never is if the trajectory ends in R5 or names every tool |
| LinkBaselines.LostTerminalMisleads | python/agb_gate2b/baselines.py:27-29 | a trajectory with a nameless tool whose last window has lost R5 and hits, while the whole does not |
| RateLimits.PoppingIsFiltering | src/bin/agb-admin-server.rs:99-104 | popping old entries from the front of an ordered queue is filtering it |
| RateLimits.NeverMoreThanMaximum | python/agb_fake_asm/guardian_resilience.py:25-32 | on every non-decreasing clock no window holds more admissions than the maximum |
| RateLimits.RefusedOnlyWhenFull | python/agb_fake_asm/guardian_resilience.py:29-30 | a call is refused only when the window that ends with it is full |
| RateLimits.ClosedWindowHoldsMore | python/agb_fake_asm/guardian_resilience.py:27-28 | the half-open bound cannot be strengthened to closed windows |
| GuardianResilience.RestartBudget.Consume | python/agb_fake_asm/guardian_resilience.py:25-32 | the pruned list answers like counting over all admissions ever made |
| GuardianResilience.HandoffAuthenticator.Verify | python/agb_fake_asm/guardian_resilience.py:50-71 | the first failing check, that of the field set included; only an accepted message uses up its nonce |
| GuardianResilience.NoncesAreAcceptedOnce | python/agb_fake_asm/guardian_resilience.py:62-71 | in every run no nonce is accepted twice, and what is accepted is what was signed for that peer, in time |
| GuardianResilience.SignedIsAccepted | python/agb_fake_asm/guardian_resilience.py:45-71 | a signed message is accepted iff the peer is the allowed user and group, it is in time and its nonce was not accepted before |
| GuardianResilience.RefusalsMean | python/agb_fake_asm/guardian_resilience.py:50-69 | what a refusal says is the case; one for replay means that an earlier message with that nonce was accepted |
| AdminServer.Server.Handle | src/bin/agb-admin-server.rs:93-121 | admitted iff allowlisted and fewer than five of all the peer's admissions are in the window |
| AdminServer.AtMostFivePerPeer | src/bin/agb-admin-server.rs:98-121 | at most five admissions per peer in any closed window, whatever other peers do |
| HeartbeatChain.Record | scripts/run_gate4_automated_campaign.py:209-212 | the rows and the summary the loop leaves, also when an append fails |
| HeartbeatChain.Verify | scripts/verify_gate4_automated_campaign.py:19-32 | all mismatches, in order |
| HeartbeatChain.ErrorsMean | scripts/verify_gate4_automated_campaign.py:19-32 | a mismatch is reported iff it is one: a row's link, a row's digest, the head, the count |
| HeartbeatChain.WrittenVerifies | scripts/verify_gate4_automated_campaign.py:19-32 | what the loop writes verifies; after a lost append it does iff the digest of the lost body is the one before |
| HeartbeatChain.OnlyWrittenVerifies | scripts/verify_gate4_automated_campaign.py:19-32 | with an injective digest the only rows that verify against the writer's head and count are the written ones |
| CanonicalStore.Open | src/store.rs:14-37 | the replay loop opens the log or gives its first failure |
| CanonicalStore.Store.Append | src/store.rs:72-89 | accepted iff valid, new, increasing and written; a rejected append changes nothing; reopening stays possible |
| CanonicalStore.ReopeningRebuilds | src/store.rs:14-89 | after any accepted, rejected and failed appends, reopening gives exactly the index in memory |
| CanonicalStore.OpensIffWellFormed | src/store.rs:21-55 | a log opens iff records are valid, ids unique and sequences strictly increasing per namespace |
| CanonicalStore.IndexMeans | src/store.rs:39-55 | the index holds exactly the log's ids and each namespace's greatest sequence |

## Left out

- BrokerProtocol: a broker's loop is a program counter over its system calls, so that other parties can act between any two of them, rather than an object; which process a thread id belongs to is fixed for a run, so a thread id reused after a death is not representable; the rest of `run_proof` (workload, timeouts, teardown) is not modelled.
- PolicyBroker.HitsAreCurrent: the wall clock and the monotonic clock advance together; adjustments of the wall clock are not modelled.
- LinkBaselines.WindowsAreSound: takes a non-negative state-machine budget, as a bounded deque does; the risk score and the GRU baseline are not modelled.
- CorpusReplay.Evaluate: latencies, memory figures, the derived rates and engines other than the stateful proxy are left out.
- TelemetryPipeline.SortSorts: the library's sort is a stable insertion sort on values; in-place sorting and the mutation of the input events are not captured.
- Canonicalization.CanonicalEntityEncoder.Encode: one trajectory's tokens; the wrappers that copy the rest of a trajectory and use a fresh encoder for each are left out, and tokens that are not integers are excluded by the type.
- HeartbeatChain.Verify: manifest and artifact digests are single comparisons and left out.
- AdminServer.Server.Handle: the token check and operation after an admission, and the audit of the answer, are left out.
- AsmCm.Namespace.Update: one namespace's record; the dictionary of namespaces, the `all-events` inference feed and confidences are left out.
- BenchmarkEngines.SlidingWindowEngine.Update: a negative window size, which raises in the source, is not representable.
- Gate3Policy.DenyCompiles: confidences are real numbers; NaN and infinities are not modelled.
- RuntimePolicy.Gate3RuntimePolicy.Reload: the content is read in one step; the status is arbitrary beside it. In Enforcement the content is always the file the machine last wrote, and the key is a text.
- TelemetryPipeline.BuildCandidates: records have the event contract's types (a sequence is an integer, not 1.0), and all objects have the expected fields; checks of field sets are modelled for the handoff only.
- GuardianResilience.RestartBudget.Consume: time is real, without floating-point rounding, and a clock that goes back is outside the contract; the same holds for the admin limiter.
- Torn writes and failures after a partial effect: the code promises no recovery from them.
- JSON parsing, HMAC, SHA-256, sockets, seccomp ioctls, /proc, systemd and command lines: parameters or absent.
- The audit-only policy, egress policy, ensemble voting, review statistics, plotting and the campaign interface: simpler or single-branch code.
