# FYRwall verification model

This project models the parts of FYRwall whose correctness spans several functions, and
proves what they promise, for all inputs and all runs:

- the fleet protocol: the server's command queue and staged rollouts, the agent's
  stop-and-wait loop with its saved identity, enrollment, poll sequence numbers and
  certificate overlap;
- the firewall conflict engine, read against a first-match packet semantics, and the
  validation of transactions;
- the safe-transaction pipeline over a backend that may fail anywhere;
- two printer/parser pairs: iptables arguments and save-format lines, and the encrypted,
  rotated log and its decoder;
- schema migrations that may stop anywhere and resume with a longer list.

`dafny verify dfyconfig.toml` checks the whole project with Dafny 4.11.

## Layout

| file | what it holds |
|---|---|
| `Rollouts.dfy`, `CommandQueue.dfy` | targets, counts and batches of one rollout; the queue tables and every repository call on them as a function, with the invariant they keep |
| `AgentRegistry.dfy`, `Certificates.dfy` | tokens, credentials, sequences and revocation; fingerprint overlap |
| `FleetRepo.dfy`, `AgentApi.dfy` | the repository object and the agent handlers over it; each method is proved against those functions |
| `AgentSteps.dfy`, `RemoteAgent.dfy` | the small steps of the agent's loop, and one iteration as the code runs it |
| `FleetSystem.dfy` | server, agents and network together, and the safety theorems over all runs |
| `Addresses.dfy`, `Rules.dfy`, `PriorityOrder.dfy`, `Conflicts.dfy`, `Validation.dfy` | addresses, rule semantics, evaluation order, conflict reports, transaction validation |
| `IptablesBackend.dfy`, `TransactionManager.dfy` | the backend's operations and the pipeline over them |
| `Text.dfy`, `IptablesText.dfy`, `IptablesParser.dfy` | string functions and port fields; argument builder and tokenizer; parser and round trip |
| `LogFrames.dfy`, `LogRotation.dfy` | frames and decoder; rotation and retention |
| `Migrations.dfy` | the migration runner |

Code that updates state in place is a class or a method with loops, proved against a
function on values; the theorems are about those functions.

## Assumptions

- A repository call is one atomic step at one instant. `SetMaxOpenConns(1)`
  (internal/database/database.go:34) serialises single statements, and several calls are
  more than one statement, so this is an assumption about how calls interleave.
- `created_at` and `delivered_at` are ordered integers. The code compares them as text. The
  place of an agent in a listing by display name and hostname is an ordered integer too.
- UUIDs, raw tokens, credentials and issued fingerprints never repeat; SHA-256 is injective;
  opening what was sealed gives the plaintext back.
- Saving the agent's identity is atomic and succeeds, there is no re-enrollment during a
  run of the protocol, and an agent posts results only for commands it was given. The
  network may lose, delay, reorder and repeat results, may lose polls before or after the
  server handled them, and reports of any age may arrive.
- Go's text parsers for addresses are parameters of the model (`Net`), with the few facts
  that `NetOk` lists. Clocks, command outcomes and file times are parameters.
- Texts of error messages, summaries and remediations are reduced to codes.

## Where the code departs from what it promises

- **Rollback** (internal/firewall/iptables/iptables.go:188-203). `Snapshot` does not report a
  failing save, and `Restore` skips an empty text. `UncapturedRollback` is a run in which a
  half-applied transaction is reported as rolled back and is not; `RollbackExact` says
  exactly when a reported rollback does restore the state: when the IPv4 save was captured,
  or nothing had changed.
- **Certificate overlap** (internal/database/fleet.go:137-148). One lost rotation response is
  survived, two in a row without an adoption between them are not:
  `LetInUnlessTwoLost` is the exact condition, `TwoLostResponsesLockOut` an instance.
- **Shadowing** (internal/firewall/conflicts.go:102-145). A true subset test does not imply
  that every packet of the later rule is matched by the earlier one: `StateIsIgnored` and
  `OutgoingInterfaceIsSkipped` are instances, and a default route of one family is read as
  "any". `SubsetTestExact` is the exact condition on the two rules, and
  `ShadowedPairExact` says what it means for dropping the reported rule. The other way
  round `ContainedPassesTest` and `ContainedRuleIsReported` say that a contained rule is
  missed for no reason but its family (`PinnedFamilyIsMissed`).
- **Protocol texts** (internal/firewall/iptables/iptables.go:269-273). Printing accepts any
  protocol text. One that is not of the four known ones is read back as another protocol
  (`UnknownProtocolIsLost`, `ProtocolComesBack`), and an empty one makes the parser take the
  next flag for the protocol: by `LineRoundTrip` and `SaveRoundTrip` the rule comes back
  exactly when its protocol text is not empty.
- **Results of other agents** (internal/database/fleet.go:297-303). Storing a result checks
  the agent, advancing the rollout does not, so a result from another agent marks a target
  and leaves the command's row: `ForeignResultBreaksTables` is an instance. A result that
  contradicts an earlier one is stored as well. `ReportKeepsInvExactly` says which reports
  keep the invariant of the tables.

## Model

| member | source | states |
|---|---|---|
| Rollouts.CountsSum | internal/database/fleet.go:416-417 | the four target counts of a rollout always sum to the number of targets |
| Rollouts.ActivateCounts | internal/database/fleet.go:374-396 | a batch moves exactly min(batch size, pending) targets from PENDING to ACTIVE and touches no result |
| Rollouts.ActivateIsBatch | internal/database/fleet.go:374-396 | the activated targets are the first PENDING ones in ordinal order, with consecutive commands, and every other row is unchanged |
| Rollouts.ActivateStep | internal/database/fleet.go:388-396 | serving the next agent of the selection by its agent id extends the batch by exactly the next target, given distinct agents |
| Rollouts.FirstResult | internal/database/fleet.go:409-435 | the first result of a target lowers the work left by one and leaves either the full rollout invariant or a rollout due for its next batch |
| Rollouts.RepeatedResult | internal/database/fleet.go:409-435 | a repeated result leaves the whole rollout row and its targets as they were and asks for no batch, because a RUNNING rollout has an ACTIVE target |
| Rollouts.BatchKeepsInv | internal/database/fleet.go:367-398 | queueing the next batch re-establishes the rollout invariant and lowers the work left |
| Rollouts.RunningHasActive | internal/database/fleet.go:432-434 | a RUNNING rollout always waits for at least one target that holds a command |
| Rollouts.RolloutBounds | internal/database/fleet.go:423-431 | failures overshoot the budget by at most one batch, the stored counters account for all targets, COMPLETED means all finished within budget and FAILED means budget exceeded, both ways |
| CommandQueue.DeliversOldestEligible | internal/database/fleet.go:266-295 | a poll gets an oldest command of the agent that is queued or was delivered over two minutes ago, nothing exactly when there is none, and what it gets is not handed out again for two minutes |
| CommandQueue.DeliverExact | internal/database/fleet.go:266-295 | a poll marks and times the command that it hands out, lets the agent's other stale deliveries wait again, and changes no other row |
| CommandQueue.EnqueueKeepsInv | internal/database/fleet.go:260-264 | queueing a command keeps tables, targets and rollouts consistent |
| CommandQueue.EnqueueExact | internal/database/fleet.go:260-264 | the new row holds the agent, operation, parameters and time that it was queued with, and every other row stays |
| CommandQueue.DeliverKeepsInv | internal/database/fleet.go:266-295 | delivering and redelivering keeps tables, targets and rollouts consistent |
| CommandQueue.NewRolloutReady | internal/database/fleet.go:336-359 | whatever batch size and budget are asked for, the new rollout is fit for a first batch within bounds |
| CommandQueue.RolloutAsAsked | internal/database/fleet.go:336-359 | a new rollout runs what was asked for on the agents in order, with the batch size asked for between one and their number, and no negative budget |
| CommandQueue.StartRolloutKeepsInv | internal/database/fleet.go:319-365 | creating a rollout and queueing its first batch keeps the invariant of every rollout and gives each target a command of its own |
| CommandQueue.StartRolloutCarries | internal/database/fleet.go:319-365 | starting a rollout changes no other command or rollout, and the new one keeps the plan it was started with |
| CommandQueue.QueueBatchCarries | internal/database/fleet.go:388-396 | each new command of a batch is for its target's agent and carries the operation and parameters of the rollout |
| CommandQueue.CompleteCarries | internal/database/fleet.go:297-303 | a report, whoever sends it, changes no operation, parameter, agent or creation time of a command |
| CommandQueue.QueueBatchKeepsInv | internal/database/fleet.go:367-398 | a batch gives its targets fresh commands of their own agents, shared with no other target or rollout |
| CommandQueue.OnlyHolder | internal/database/fleet.go:401-402 | at most one rollout and one target wait for a command, so the lookup by command id is unambiguous |
| CommandQueue.FirstCompletion | internal/database/fleet.go:297-303 | the first result of a command keeps the invariant, strictly lowers what is left of the rollout that waits for it and changes no other rollout |
| CommandQueue.RepeatedCompletion | internal/database/fleet.go:297-303 | a repeated outcome changes no rollout, target or counter and queues nothing |
| CommandQueue.RepostChangesNothing | internal/database/fleet.go:297-303 | posting the stored result again leaves all tables exactly as they are |
| CommandQueue.CompletionStores | internal/database/fleet.go:297-303 | completing stores payload and error as they are, an empty payload as none, in the command's row and leaves its other columns, keeps every other row, and adds only new queued commands |
| CommandQueue.CompleteKeepsInv | internal/database/fleet.go:297-303 | every consistent report keeps the invariant of the tables |
| CommandQueue.ReportKeepsInvExactly | internal/database/fleet.go:297-303 | a report, whoever sends it, keeps the invariant exactly when no rollout waits for the command, it repeats an outcome, or it comes from the command's agent and is the first or turns round an outcome within the budget |
| CommandQueue.ForeignResultBreaksTables | internal/database/fleet.go:297-303 | another agent's result for a rollout command breaks the invariant |
| Rollouts.FlippedResult | internal/database/fleet.go:409-435 | a result that contradicts an earlier one queues no batch, and keeps the rollout invariant exactly within the stated budget |
| AgentRegistry.TokensAreSingleUse | internal/database/fleet.go:92-122 | in every run a token enrolls at most once, and never after it was used |
| AgentRegistry.BoundTokensStayBound | internal/database/fleet.go:105-107 | a token bound to an agent stays bound through every run and is used by no one else |
| AgentRegistry.LatestEnrollmentAuthenticates | internal/database/fleet.go:124-131 | after any run an agent authenticates with exactly the credential of its latest enrollment, and with none from a revocation until the next enrollment |
| AgentRegistry.AcceptedWhenCaughtUp | internal/database/fleet.go:182-197 | an agent that restarts behind the server is accepted exactly from the attempt on that catches up, whatever was lost before |
| AgentRegistry.SequenceNeverDecreases | internal/database/fleet.go:182-197 | between enrollments the stored sequence never decreases |
| AgentRegistry.EnrollmentStartsOver | internal/database/fleet.go:108-121 | an enrolled agent may start its sequence over without drift being flagged, a known agent keeps fingerprints and revision, and no other agent is touched |
| AgentRegistry.EnrollExact | internal/database/fleet.go:92-122 | enrollment succeeds exactly with a stored, unused, unexpired token that is unbound or bound to the agent, and writes exactly the enrolled row and the used token |
| AgentRegistry.TokenCreated | internal/database/fleet.go:85-90 | a token is stored under its hash, unused, with its agent and expiry, unless the hash is taken |
| AgentRegistry.RevokeExact | internal/database/fleet.go:170-181 | revoking a known agent clears its credential and fingerprints and touches nothing else |
| AgentRegistry.ReportExact | internal/database/fleet.go:182-197 | an accepted report writes sequence, hash and revision and touches no credential and no other agent |
| AgentRegistry.DriftBetweenReports | internal/database/fleet.go:182-197 | drift is flagged exactly between accepted reports whose hashes differ under one revision |
| Certificates.LetInUnlessTwoLost | internal/database/fleet.go:133-169 | an agent stays let in exactly when no two rotation responses are lost without an adoption between them; meanwhile the list has one or two entries and ends with the newest issued |
| Certificates.PlayKeepsShape | internal/database/fleet.go:149-169 | the list and the held certificate keep the shape that the number of responses lost in a row dictates |
| Certificates.LockedOutForever | internal/api/fleet.go:62-81 | a rejected agent cannot recover by polling or rotating |
| Certificates.TwoLostResponsesLockOut | internal/api/fleet.go:147-166 | two rotations in a row whose responses are lost lock the agent out |
| Certificates.RequestExact | internal/database/fleet.go:158-166 | a request with the newest certificate leaves only that one, one with an older keeps the list |
| Certificates.SupersededIsOut | internal/database/fleet.go:158-166 | once an adopted certificate was used no other one is let in |
| FleetRepo.FleetRepo.CreateEnrollmentToken | internal/database/fleet.go:85-90 | inserts an unused token, or fails on a hash that is present |
| FleetRepo.FleetRepo.Enroll | internal/database/fleet.go:92-122 | the enrollment step of the run theorems, with both tables changed together or not at all |
| FleetRepo.FleetRepo.Authenticate | internal/database/fleet.go:124-131 | true exactly for the credential whose hash is stored; a NULL hash never matches |
| FleetRepo.FleetRepo.RevokeAgent | internal/database/fleet.go:170-181 | the revocation step of the run theorems |
| FleetRepo.FleetRepo.UpdateState | internal/database/fleet.go:182-197 | accepts exactly reports that are not behind the stored sequence, and flags drift exactly when the hash changed under the same revision |
| FleetRepo.FleetRepo.RotateAgentCertificate | internal/database/fleet.go:137-148 | keeps the newest fingerprint and appends the issued one |
| FleetRepo.FleetRepo.CertificateMatches | internal/database/fleet.go:149-169 | lets a listed fingerprint of an agent that is not revoked in, and retires the overlap exactly when the newest of several is used |
| FleetRepo.FleetRepo.QueueCommand | internal/database/fleet.go:260-264 | one new queued row under a fresh id |
| FleetRepo.FleetRepo.NextCommand | internal/database/fleet.go:266-295 | returns an oldest eligible command, or nothing when there is none, and keeps the table invariant |
| FleetRepo.FleetRepo.Oldest | internal/database/fleet.go:275-278 | a queued command of the agent with the least creation time, or proof that there is none |
| FleetRepo.FleetRepo.CompleteCommand | internal/database/fleet.go:297-303 | equals the completion step of the protocol for every report, and keeps the invariant exactly for those that the tables can take |
| FleetRepo.FleetRepo.AdvanceRollout | internal/database/fleet.go:400-436 | changes exactly the rollout that holds the command as the result theorems describe |
| FleetRepo.FleetRepo.QueueRolloutBatch | internal/database/fleet.go:367-398 | the loop over the selected agents produces the whole batch at once described by the specification |
| FleetRepo.FleetRepo.CreateRollout | internal/database/fleet.go:319-365 | fails exactly on a group without members, otherwise targets every member once, in listing order, and keeps the invariant |
| FleetRepo.FleetRepo.Members | internal/database/fleet.go:324-332 | the agents of the group, each once, none missing, in listing order |
| FleetRepo.FleetRepo.ListAgents | internal/database/fleet.go:206-245 | all agents, each once, by display name and hostname |
| FleetRepo.FleetRepo.StartOn | internal/database/fleet.go:336-364 | the rollout rows and the first batch on given distinct targets, keeping the invariant |
| AgentApi.AgentApi.AuthenticateAgent | internal/api/fleet.go:62-81 | admits exactly an enrolled agent with its credential and, under TLS, a listed certificate in its name, and leaves the tables as one request of the overlap session does |
| AgentApi.AdmissionIsRequest | internal/api/fleet.go:62-81 | under TLS an admission is one request of the agent's overlap session and changes nothing but its fingerprints |
| AgentApi.AgentApi.HandleEnroll | internal/api/fleet.go:23-51 | writes exactly the enrolled row, with the issued certificate if there is one; what a successful enrollment hands out, and nothing else, is admitted right away, a refused one changes nothing, and a token is spent even when issuing the certificate fails |
| AgentApi.RevokedIsShutOut | internal/database/fleet.go:170-181 | after a revocation nothing that the agent presents admits it |
| AgentApi.AdmittedWhileLetIn | internal/api/fleet.go:62-81 | while only its fingerprints change, an admitted agent stays admitted exactly as long as its certificate session lets it in |
| AgentApi.AgentApi.HandlePoll | internal/api/fleet.go:83-124 | rejects exactly stale reports as a conflict, stores accepted ones and notifies exactly on drift, delivers the first command that any tick finds, and answers with nothing exactly when no tick finds one, leaving the queue as it was |
| AgentApi.AgentApi.HandleResult | internal/api/fleet.go:126-145 | completes a command exactly for an admitted agent that names one, and otherwise only authenticates |
| AgentApi.AgentApi.HandleRotate | internal/api/fleet.go:147-166 | with or without TLS the list keeps its newest entry and gets the issued one; under TLS that is one rotation of the overlap session, whether or not its response arrives |
| RemoteAgent.Synchroniser.RotateIfDue | internal/agent/sync.go:73-82 | a received certificate is held and saved, a failed rotation changes nothing |
| RemoteAgent.BackoffBounded | internal/agent/sync.go:94-142 | the back-off stays between one and 32 seconds whatever the polls answer |
| RemoteAgent.Synchroniser.constructor | internal/agent/sync.go:50-68 | a started agent holds the identity of its file and backs off one second |
| RemoteAgent.Synchroniser.Iterate | internal/agent/sync.go:69-143 | one iteration consists of steps the protocol allows, ends with memory and disk in agreement, executes a command exactly when it received one with no result left to post, raises the policy revision exactly for the four policy operations that succeed, and has a rotated certificate on disk |
| RemoteAgent.Synchroniser.Perform | internal/agent/sync.go:131-141 | the result is saved before it is posted and forgotten only once it was accepted |
| RemoteAgent.Synchroniser.PostLeftover | internal/agent/sync.go:83-93 | an accepted leftover result is forgotten in memory and on disk |
| FleetSystem.StepKeepsInv | internal/agent/sync.go:69-143 | every step of server, agents, network and crashes keeps the protocol invariant |
| FleetSystem.SavedCommandsNeverRunAgain | internal/agent/sync.go:131-140 | in every continuation of every reachable state a command whose result was saved is not executed again, its saved result and stored row never change, and stored sequences never go back |
| FleetSystem.StoredOutcomeIsSavedResult | internal/database/fleet.go:297-303 | in every reachable state a stored outcome is exactly the one saved result of that command, and a command ran once more than crashes lost an unsaved execution |
| FleetSystem.RolloutsStayInBounds | internal/database/fleet.go:319-436 | in every reachable state of the whole system every rollout meets the bounds on active and failed targets, conservation and its end states |
| FleetSystem.CommandsCarryWhatWasOrdered | internal/database/fleet.go:260-295 | in every reachable state a command carries the agent, operation, parameters and time of the step that queued it, or those of the rollout and target it belongs to, and an agent that received it holds exactly that operation and those parameters |
| FleetSystem.HandlingAgainChangesNothing | internal/database/fleet.go:297-303 | a result message that was handled once leaves the whole system unchanged when it is handled again after any further steps |
| FleetSystem.LoopStepIsProtocolStep | internal/agent/sync.go:94-141 | every step of the agent's loop is made of steps of the protocol whose runs the theorems quantify over |
| Addresses.BlocksNestOrMiss | internal/firewall/conflicts.go:180-189 | two CIDR blocks are nested or disjoint |
| Addresses.BlockSubsetExact | internal/firewall/conflicts.go:180-189 | a block lies within another exactly when the mask test holds and its prefix is not shorter |
| Addresses.AddrSubsetSound | internal/firewall/conflicts.go:165-191 | a true address test with a prefix no longer on the super side is containment |
| Addresses.AddrSubsetExact | internal/firewall/conflicts.go:165-191 | for canonical texts containment of addresses holds exactly when the test is true and the super prefix is no longer, default routes kept to their family |
| Rules.SubsetTestLeavesFour | internal/firewall/conflicts.go:112-145 | on a packet of the sub rule a true subset test leaves exactly the addresses, the outgoing interface and the state of the super rule in doubt |
| Rules.SubsetTestExact | internal/firewall/conflicts.go:102-145 | after a true subset test every packet of the sub rule is matched by the super rule exactly when the sub rule can match nothing or addresses, outgoing interface and state meet a condition that is read off the two rules |
| Rules.CanMatchExact | internal/firewall/conflicts.go:102-145 | whether some packet matches a rule is read off its family, addresses and ports |
| Rules.SubsetIsContainment | internal/firewall/conflicts.go:112-145 | for addresses written canonically and a sub rule that can match, the test with the condition is containment of packets, as far as the families are comparable |
| Rules.ContainedPassesTest | internal/firewall/conflicts.go:112-145 | a contained rule fails the test on no field but the family |
| Rules.PinnedFamilyIsMissed | internal/firewall/conflicts.go:116-119 | a rule for both families that an address pins to IPv4 is contained in its IPv4 twin and does not pass |
| Rules.SubsetTestSound | internal/firewall/conflicts.go:102-145 | with that condition, in a given world, every packet of the sub rule is matched by the super rule |
| Rules.PortSubsetSound | internal/firewall/conflicts.go:193-210 | a true port test is containment of port numbers |
| Rules.PortSubsetExact | internal/firewall/conflicts.go:193-210 | two fields of all ports or one range pass the test exactly when every port of one is a port of the other |
| Rules.IntersectMeansShared | internal/firewall/conflicts.go:293-301 | two fields of all ports or one range intersect exactly when some port number matches both |
| Rules.UnreadablePortIsZero | internal/firewall/conflicts.go:293-301 | a port text that is no number intersects as port zero does |
| Rules.StateIsIgnored | internal/firewall/conflicts.go:112-145 | two rules that differ in state pass the subset test although a packet of one escapes the other |
| Rules.OutgoingInterfaceIsSkipped | internal/firewall/conflicts.go:138-140 | with an incoming interface on the sub rule only, the outgoing interface is not compared, and a packet escapes |
| PriorityOrder.SortInPlace | internal/firewall/conflicts.go:29-34 | the adjacent swaps leave the specified stable order in the array |
| PriorityOrder.SortIsStable | internal/firewall/conflicts.go:29-34 | the order is sorted by priority, a permutation, and keeps rules of equal priority in sequence |
| PriorityOrder.SortWithout | internal/firewall/conflicts.go:22-34 | deleting a rule and ordering the list commute |
| Conflicts.AnalyzeConflicts | internal/firewall/conflicts.go:13-46 | the loops report every ordered pair's finding and the lockout checks, once per key |
| Conflicts.PairReports | internal/firewall/conflicts.go:49-110 | which one report two rules call for, with which severity, told from their fields |
| Conflicts.OrderExact | internal/firewall/conflicts.go:22-34 | the evaluation order holds exactly the enabled rules, sorted by priority and stable |
| Conflicts.LockoutChecks | internal/firewall/conflicts.go:234-269 | one finding for a covered loopback address and one for each endangered inbound allow, only for blocking inbound candidates |
| Conflicts.LockoutReports | internal/firewall/conflicts.go:234-269 | which reports a candidate gets: one if it covers the loopback address and one for each rule at risk, and none unless it blocks inbound traffic |
| Conflicts.RiskExact | internal/firewall/conflicts.go:255-267 | a rule is at risk exactly when it allows inbound traffic, the ports intersect, and one of the sources is any or they are equal |
| Conflicts.DedupeKeepsKeys | internal/firewall/conflicts.go:303-314 | deduplication invents nothing and loses no key |
| Conflicts.DedupeKeepsFirsts | internal/firewall/conflicts.go:303-314 | exactly the first conflict of each key is kept, once |
| Conflicts.KeyGivesCode | internal/firewall/conflicts.go:303-314 | conflicts with equal keys have equal codes |
| Conflicts.ReportOrigin | internal/firewall/conflicts.go:36-40 | every report on a pair, with a candidate or without, comes from two active rules, the earlier one named first |
| Conflicts.EveryFindingIsReported | internal/firewall/conflicts.go:36-45 | whatever two active rules, the candidate among them, call for in evaluation order is reported under its key |
| Conflicts.ContainedRuleIsReported | internal/firewall/conflicts.go:22-145 | of two active rules the later of which is contained in the earlier terminating one, the analysis reports the pair, when addresses are canonical, families comparable and ids hold no comma |
| Conflicts.ReportedRuleDecidesNothing | internal/firewall/conflicts.go:49-145 | every duplicate, overlap or shadowing report, with a candidate or without, names two active rules in evaluation order, and under the exact condition deleting the later one from that order changes no packet's first-match verdict |
| Conflicts.ReportedIdDecidesNothing | internal/firewall/conflicts.go:13-145 | with distinct ids, deleting the reported rule from the list with the candidate and ordering the rest changes no packet's verdict |
| Conflicts.ShadowedPairExact | internal/firewall/conflicts.go:102-145 | of two rules with a shadowing report the later one may be dropped in every world exactly when it only logs, matches nothing, or meets the exact condition |
| Text.ValidPortsParse | internal/firewall/validation.go:117-142 | a non-empty port field is valid exactly when the conflict engine reads it as 1 <= lo <= hi <= 65535 |
| Text.AtoiItoa | internal/firewall/iptables/parser.go:177-187 | printing a number and reading it gives it back |
| Text.AtoiSigned | internal/firewall/iptables/parser.go:177-187 | so does a number behind a sign |
| Text.SplitJoin | internal/firewall/iptables/parser.go:191-197 | splitting a join gives the parts back when none holds the separator |
| Validation.ValidateRule | internal/firewall/validation.go:13-85 | reports no error exactly for rules that meet every demand |
| Validation.ValidRuleMeans | internal/firewall/validation.go:13-85 | what validation accepts in terms of what the fields denote: known values, address blocks of a family that the rule has, one range of ports, none for icmp, and no blocking rule on loopback |
| Validation.LoopbackExact | internal/firewall/validation.go:144-155 | the loopback addresses are those of 127.0.0.0/8 and ::1 |
| Validation.CriticalMeansLockout | internal/firewall/conflicts.go:13-46 | the analysis contains a critical conflict exactly when a lockout check fires |
| Validation.DedupeKeepsCritical | internal/firewall/validate.go:42-48 | deduplication neither hides nor invents a critical conflict |
| Validation.ValidateTx | internal/firewall/validate.go:11-50 | a transaction is accepted exactly when each action is well-formed and locks nothing out of the rules it joins; the conflicts of every action's analysis are returned once per key |
| Validation.ActionConflictsExact | internal/firewall/validate.go:24-40 | an added rule is analysed against all current rules, a changed one against all but those it stands for, and any other operation against none |
| Validation.ActionOkExact | internal/firewall/validate.go:15-40 | without a rule exactly delete and set_policy are acceptable; with one the rule must be valid and lock nothing out of what it joins |
| Validation.AcceptedTransactionsLockNothingOut | internal/firewall/validate.go:11-50 | an accepted inbound deny, reject or drop that is added, updated, enabled or disabled spares 127.0.0.1 and shares no port with an existing inbound allow, other than the rule it replaces, of any or equal source and a single port or range |
| IptablesBackend.Backend.TakeSnapshot | internal/firewall/iptables/iptables.go:188-203 | captures each rule set whose save succeeds, and reports nothing otherwise |
| IptablesBackend.Backend.Apply | internal/firewall/iptables/iptables.go:206-222 | stops at the first failing action with the effect of those before it, and counts them |
| IptablesBackend.RunActionsExact | internal/firewall/iptables/iptables.go:206-222 | applying succeeds exactly when every action does; otherwise the count and the rule set are those at the first action that does not |
| IptablesBackend.Backend.Restore | internal/firewall/iptables/iptables.go:334-346 | loads the non-empty texts in turn, and leaves what a failing load left |
| IptablesBackend.ReinstateExact | internal/firewall/iptables/iptables.go:334-346 | which of the two texts are loaded, when the restore succeeds, and what a failing one leaves |
| TransactionManager.Manager.ApplyTransaction | internal/firewall/manager.go:101-177 | follows the pipeline of the outcome theorem for every answer of the backend |
| TransactionManager.Manager.CreateSnapshot | internal/firewall/manager.go:179-188 | hands out what the backend captured and remembers nothing |
| TransactionManager.Manager.RestoreLast | internal/firewall/manager.go:274-281 | fails without a snapshot, otherwise restores the remembered one and nothing else |
| TransactionManager.OutcomeTheorem | internal/firewall/manager.go:101-177 | success means the verified hash; an early return means an untouched state; a failed apply or verify means the pre-state once the IPv4 save was captured; a failed rollback means one critical issue |
| TransactionManager.OutcomesExact | internal/firewall/manager.go:101-177 | each early outcome means that exactly that gate is the first to refuse, success means that every gate, action and the verification pass and nothing else does, and a changed firewall means that every gate passed |
| TransactionManager.RollbackExact | internal/firewall/manager.go:142-167 | a rollback reported as done restores the state exactly when the IPv4 rule set was captured or had not changed |
| TransactionManager.UncapturedRollback | internal/firewall/iptables/iptables.go:188-203 | a save that fails unnoticed turns a reported rollback of a half-applied transaction into none |
| TransactionManager.RestoreLastBringsBack | internal/firewall/manager.go:274-281 | after any run a successful restore of the last transaction brings each captured rule set back to just before the most recent successful transaction |
| LogFrames.BigEndianRoundTrip | internal/logging/secure.go:263-264 | a length that fits its bytes is read back from them |
| LogFrames.DecryptFile | internal/logging/secure.go:275-310 | the loop terminates on any bytes and yields the specified decoding of the bytes read |
| LogFrames.DecodeCut | internal/logging/secure.go:275-310 | a file of frames cut at any byte decodes to exactly the plaintexts of the frames wholly inside the cut |
| LogFrames.WholeCounts | internal/logging/secure.go:292-307 | which frames count as wholly inside a cut |
| LogRotation.Rotator.Write | internal/logging/secure.go:94-106 | appends whole buffers, rotating first when the limit would be passed, and fails only when closed |
| LogRotation.AppendExact | internal/logging/secure.go:100-105 | a write that fits leaves the rotated files alone and extends the active one; one that does not starts a new file |
| LogRotation.Rotator.EnforceLocked | internal/logging/secure.go:142-176 | the loop keeps the files that the specified retention pass keeps |
| LogRotation.EncryptingRotator.Write | internal/logging/secure.go:256-270 | appends exactly one frame under the next nonce |
| LogRotation.SurvivorsAreSuffix | internal/logging/secure.go:164-175 | a retention pass removes exactly the oldest files, those too old and as many more as the limit demands |
| LogRotation.SurvivingLogIsSuffix | internal/logging/secure.go:94-176 | after any run of writes, retention passes and restarts the files hold whole frames, decode in age order to a suffix of the texts that were written, stay within the bounds on number and size, and every rotation was forced by a frame that did not fit |
| LogRotation.FittingRunKeepsAll | internal/logging/secure.go:100-105 | a run whose frames fit the limit rotates and drops nothing, restarts and retention passes included |
| LogRotation.EnforceDropsFront | internal/logging/secure.go:142-176 | a retention pass drops a beginning of the files: those too old, and as many more as the limit demands |
| LogFrames.FitsExact | internal/logging/secure.go:263-264 | a record fits when what is sealed is shorter than 2^32 bytes |
| LogFrames.NoncesDiffer | internal/logging/secure.go:258-261 | two counters of 64 bits give two nonces |
| IptablesText.RuleToArgs | internal/firewall/iptables/iptables.go:240-302 | builds the argument list of the round-trip theorem, or refuses |
| IptablesText.ArgsExact | internal/firewall/iptables/iptables.go:240-302 | printing accepts exactly add and delete of a rule with known direction and action, as command and chain of the direction, the place for add, and the match |
| IptablesText.AddInserts | internal/firewall/iptables/iptables.go:244-255 | the printed add puts the match on top of the chain of the rule's direction only |
| IptablesText.DeleteUndoesAdd | internal/firewall/iptables/iptables.go:244-255 | the printed delete right after the printed add leaves every chain as it was |
| IptablesText.Tokenize | internal/firewall/iptables/parser.go:138-159 | the loop yields the specified tokens |
| IptablesText.TokenizeLine | internal/firewall/iptables/parser.go:138-159 | tokenizing tokens without quotes that were joined, quoted where they hold spaces, gives back those that are not empty |
| IptablesText.NormalizeMultiPortLoop | internal/firewall/iptables/parser.go:191-197 | rewriting the parts in place yields the specified list |
| IptablesText.PortListRoundTrip | internal/firewall/iptables/parser.go:177-197 | a canonical list of ports and ranges survives printing with colons and reading as multiport |
| IptablesText.PortRoundTrip | internal/firewall/iptables/parser.go:177-187 | so does a single port or range |
| IptablesParser.ParseSave | internal/firewall/iptables/parser.go:25-134 | the loops yield the specified rules for any text |
| IptablesParser.TrimPadding | internal/firewall/iptables/parser.go:28-29 | white space around a line is dropped and nothing else |
| IptablesParser.CaseIgnored | internal/firewall/iptables/parser.go:161-210 | chain and protocol names are read whatever their case |
| IptablesParser.LineRoundTrip | internal/firewall/iptables/iptables.go:240-320 | printing an accepted rule and parsing the line gives back direction, action with deny as drop, the protocol as the parser names it, addresses, ports, interfaces and state, exactly when the protocol text is not empty |
| IptablesParser.ProtocolComesBack | internal/firewall/iptables/parser.go:161-174 | the protocol itself comes back exactly when it is tcp, udp, icmp or custom |
| IptablesParser.UnknownProtocolIsLost | internal/firewall/iptables/iptables.go:269-273 | a rule for sctp is printed as such and read back as custom |
| IptablesParser.SaveRoundTrip | internal/firewall/iptables/parser.go:25-134 | a save text of printed rules parses to all of them in order, numbered by priority, exactly when none of their protocol texts is empty |
| Migrations.Database.Migrate | internal/database/database.go:65-99 | the loop equals the specified run for every pattern of failures |
| Migrations.RunResumes | internal/database/database.go:65-99 | from a recorded prefix a run leaves exactly a recorded prefix, no shorter; it returns nil exactly when nothing left fails, then with the whole list applied; with nothing left it changes nothing |
| Migrations.RunsKeepPrefix | internal/database/database.go:65-99 | through any sequence of runs with growing lists the schema is the in-order application of exactly the recorded prefix |

## Left out

- HTTP, JSON, TLS handshakes, the web UI, the CLI and packaging are not modelled.
- AgentApi.AgentApi.HandlePoll: runs without other handlers between its ticks; in the protocol, accepting the report and answering are two steps with anything in between.
- RemoteAgent.Synchroniser.Iterate: whether the server lets a rotated certificate in is the subject of the certificate sessions.
- FleetRepo.FleetRepo.ListAgents: leaves open the order of agents with equal display name and hostname, as the query does.
- SQL is modelled as maps and sequences, and database errors only where migrations run.
- FleetSystem.StoredOutcomeIsSavedResult: does not model a failing or partial save of the agent's identity, or re-enrollment during a run.
- FleetRepo.FleetRepo.CertificateMatches: fingerprints are kept as a list, so the comma-joined text is not modelled.
- Completion and creation times that no decision reads, expiry times of certificates and descriptive agent columns are not modelled.
- Conflicts.ReportedRuleDecidesNothing: goes one way, since whether a dropped rule matters also depends on the rest of the list.
- Addresses.AddrSubsetExact: is about texts that parse; a text that does not is only compared for equality.
- Validation.AcceptedTransactionsLockNothingOut: does not cover comma-separated port lists of existing rules, which the range reader does not parse.
- IptablesParser.LineRoundTrip: leaves rule ids out, since the id is printed into the comment and not separated again, texts that hold a quote or a line break, which the tokenizer cannot carry, and what an empty protocol text leaves of the other fields; letter case is that of ASCII.
- The first-match theorem is not joined to applying rules, since iptables inserts at the top whatever the priority.
- LogRotation.SurvivingLogIsSuffix: runs start from an empty log, and it does not model failing renames and removals, torn writes, or lengths of 2^32 bytes and more.
- Goroutine scheduling of the log janitor and of `Close`, and locks, are not modelled.
- Ownership resolution is a parameter of the pipeline; the event that SetOwnership emits and the audit trail are not modelled.
- The ufw backend, health, RBAC, password policy, version comparison and secure configuration are not part of this model.
