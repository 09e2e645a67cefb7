# Verified models of awiki's notification, proxy, status and command-line logic

This project states and proves, in Dafny, what the stateful core of the awiki command line, its
daemon and its notification scripts guarantee. Eight components are modelled, each in the form
of its source: objects that update fields are classes, loops are methods with invariants, and
both are proved against functions about which the properties are then proved.

- **Task notifications** (`Notify*.dfy`). The one-shot runner is a transition system: any number
  of processes, one lock, one context file, a server, and an adversary that may raise an
  exception or kill a process between any two statements. `NotifySafety` holds the inductive
  invariant, `NotifyTheorems` what follows over whole runs, `NotifyAdmission` which events
  are let through and how replies are read, `NotifyReporting` when a task can still report, and
  `NotifyRunner` the imperative program, whose every method is proved to be a run of the system.
- **The saved CLI environment** (`RuntimeEnv`, `EnvCapture`, `Reinstall`, `EnvContents`). What is
  captured, quoting and decoding, the file format, and what the file holds after any history of
  reinstalls.
- **The heartbeat scheduler** (`Heartbeat`, `HeartbeatRuns`, `HeartbeatEffects`). One tick as an
  object, what is current after any run of ticks, with failing daemons, writes and ticks, and
  which heartbeats and statuses the ticks send.
- **The agent's proxy variables** (`AgentNetwork`, `Exclusions`, `SystemProxy`). Resolution,
  protection of local callbacks, and the line scanner for the system's proxy dictionary against
  a recursive reading of its nesting.
- **The notification adapter's duplicate cache** (`DedupeCache`, `DedupeHandler`,
  `DedupeForwards`). The cache as an object, its exact answers over call sequences, the
  interleaved request handlers, and how often an id is forwarded.
- **Durations** (`Duration`). Checked arithmetic, rounding and additivity of the unit parser.
- **JSON paths** (`JqPath`, `Json`). The path subset of jq and its composition law.
- **The paged inbox scan** (`InboxScan`). Completeness of a scan over pages of any size.

`Text`, `KeyOrder`, `ProxyKeys` and `Wrappers` hold what these share.

Three properties one might expect are false of the code, and are stated exactly.

- The notification guide (`skills/references/12-notify.md`, lines 227-230) says that a known
  preflight failure can be retried. When the claim itself cannot be written, the stored receipt
  reads `not_sent`/`preflight_failed` but carries a started send, and it is never retried
  (`NotifyReporting.FailedClaimIsNeverRetried`); with a final status the whole task can never
  report. `NotifyReporting.SendTransmitsIff` gives the exact condition under which a `send`
  transmits.
- The adapter does not forward an id at most once: two overlapping requests can both pass the
  check (`DedupeForwards.OverlappingRequestsBothForwarded`). `DedupeForwards.ForwardedTwiceIff`
  says exactly when a check can double a forward: when another request for the id is in flight
  and no entry is alive. Without such overlap the id is forwarded again only once it has been
  forgotten (`DedupeForwards.ForwardedAgainOnlyWhenForgotten`).
- A remembered id is not always reported for its whole lifetime through the next `max - 1`
  remember calls: a thread reads the clock before it takes the lock, and a reading that is
  overtaken makes a new entry the oldest (`DedupeCache.OvertakenKeyIsForgotten`).
  `DedupeCache.DuplicateIff` counts the rivals of an entry and is exact in every order.

The guide (lines 135-136) also shows message identifiers that end in the status. The script
derives them from the binding and the event id alone, and the model follows the script.

Modelling choices that matter for reading the statements:

- A message identity is the pair of binding and event id; it stands for the SHA-256 digest the
  script computes, so two identities are equal only if both parts are.
- Writing the context file is two points, before and after the atomic replacement, so an
  exception or a kill can fall on either side of it. The three read-only preflight calls are one
  point.
- Reading the clock is a step of its own in the adapter's threads; its readings are not negative.
- Clocks, probes, the server, the system proxy lookup and environment variables are parameters
  that range over all values; a theorem that needs a rising clock says so.
- Integers are unbounded in Dafny. The 128-bit checks and the nanosecond limit of durations, the
  `usize` bounds of slices and the 64-bit skip of the scan are written out.
- Which of several equally old cache entries is evicted is left open.

Check the project with `dafny verify dfyconfig.toml`.

## Model

| member | source | states |
|---|---|---|
| `NotifyTheorems.AtMostOnce` | skills/scripts/notify.py:101-195 | Over every interleaving of commands, faults, crashes, replies and server decisions, from any consistent context file, each event id begins its mutating send at most once, counting earlier invocations, and every started send is on disk as started. |
| `NotifyTheorems.FinalReportIsLast` | skills/scripts/notify.py:116-179 | Once a `completed` or `failed` message has begun to leave, no later action of any process makes another message leave; that message is the last of the run. |
| `NotifyTheorems.ReceiptsAreHonest` | skills/scripts/notify.py:142-195 | At every point of every run the stored receipt agrees with the server: `accepted` only for an accepted message, `not_sent` only for one that never left or was rejected, never a preflight reason for one that left. |
| `NotifyTheorems.IdentityIsStable` | skills/scripts/notify.py:116-146 | An event keeps its status and its message identity through every later action, and that identity is the one derived from the binding and the event id. |
| `NotifyTheorems.SettledReceiptIsFinal` | skills/scripts/notify.py:116-123 | With no process inside, a receipt that is not retryable is never replaced by any continuation of the run. |
| `NotifyTheorems.RestsUnsent` | skills/scripts/notify.py:116-123 | While an event's receipt is not retryable and nobody is sending it, no continuation begins its send. |
| `NotifyTheorems.DisabledStaysSilent` | skills/scripts/notify.py:223-227 | After `disable` nothing is ever sent again and every receipt stays exactly as it was. |
| `NotifyTheorems.OverTaskStaysSilent` | skills/scripts/notify.py:116-146 | With a final claim on disk and no retryable receipt, no continuation of any run ever sends anything. |
| `NotifyTheorems.StartsAreNew` | skills/scripts/notify.py:113-180 | From any state that satisfies the invariant, the messages that leave are appended to those that left before and none of them had left before. |
| `NotifyTheorems.RunAfterFinal` | skills/scripts/notify.py:124-131 | From any state that satisfies the invariant and in which a final message has left, no run sends anything. |
| `NotifyTheorems.RunEvolves` | skills/scripts/notify.py:101-195 | No run changes the binding, re-enables a disabled context, drops an event, or alters an event's status or identity. |
| `NotifyTheorems.RunsOn` | skills/scripts/notify.py:101-195 | A longer run extends the sends of a shorter one with events that had not left by then, with none after a final message, and its receipts are honest. |
| `NotifySafety.Preserved` | skills/scripts/notify.py:101-227 | Every single action of every process keeps the inductive invariant that ties the file, each process's private context and point, and the server together. |
| `NotifySafety.RunKeeps` | skills/scripts/notify.py:101-227 | The invariant holds after every run from a state in which it holds. |
| `NotifySafety.AdmitProceeds` | skills/scripts/notify.py:113-146 | When the checks let an event through, the context they prepare differs from the file only in this event's fresh receipt and a released final claim, and no final message has left. |
| `NotifyAdmission.ProceedIff` | skills/scripts/notify.py:102-146 | An event is admitted if and only if the binding is valid, the context is enabled, the event is addressed to the task, well named, authorised and complete, its receipt, if any, is one that preflight left, and no final claim stands but one it releases; the context then gains its fresh receipt and changes nothing else. |
| `NotifyAdmission.AnsweredIff` | skills/scripts/notify.py:109-123 | `disabled` is answered exactly for an addressed event of a disabled context, and the stored receipt exactly for an authorised event whose receipt is past preflight. |
| `NotifyAdmission.SettleIff` | skills/scripts/notify.py:181-190 | The settled receipt is what the fields of the reply say: accepted if and only if the reply is ok, names a message and sets either flag, with that message id; rejected if and only if both flags are false; else pending. |
| `NotifyAdmission.StartsAreAuthorised` | skills/scripts/notify.py:51-180 | Over every run each message that left has a status its task is authorised to report, under a binding that is authorised and names both parties. |
| `NotifyReporting.TerminalNeedsStartedEvent` | skills/scripts/notify.py:124-178 | In every run that begins without a file, `terminal` is set only while some event of that status has its send started. |
| `NotifyReporting.SendTransmitsIff` | skills/scripts/notify.py:102-180 | After every history from an empty directory, an undisturbed `send` of any event transmits if and only if the context is enabled, the event is addressed to the task, authorised and complete, its receipt, if any, has the same status and no started send, and no final claim stands but one this event may release; otherwise nothing is sent and the file is unchanged. |
| `NotifyReporting.UnstartedTaskCanReport` | skills/scripts/notify.py:119-131 | A task none of whose receipts has a started send can still report any acceptable event: earlier preflight failures do not block it. |
| `NotifyReporting.FailedClaimIsNeverRetried` | skills/scripts/notify.py:173-194 | Counterexample to `a preflight failure can be retried`: when the claim cannot be written, the event is stored as `not_sent`/`preflight_failed` with its send marked as started, nothing left, and no continuation of the run ever sends it; if its status is final, no continuation ever sends anything. |
| `NotifyRunner.Runner.constructor` | skills/scripts/notify.py:198-222 | An object opened on no file, or on a file consistent with what was sent, is a run of the protocol. |
| `NotifyRunner.Runner.Send` | skills/scripts/notify.py:101-195 | The imperative `send`, for every placement of faults and every believable server, remains a run of the protocol; an event that is not admissible leaves file and server alone and is answered as its fields decide; it starts at most the one message asked for, never one that left before and none after a final message, and a reported receipt is on disk and honest; when nothing goes wrong it sends and reports what the fields of the reply say. |
| `NotifyRunner.Runner.Screen` | skills/scripts/notify.py:102-144 | Refusals, the duplicate answer, the release of the final claim and the fresh receipt, performed in place in the order of the source, let through exactly the admissible events. |
| `NotifyRunner.Runner.Persist` | skills/scripts/notify.py:37-48 | The file afterwards is the old one or the whole new context; a return means the new one; an exception inside the `try` is caught, elsewhere it ends the command. |
| `NotifyRunner.Runner.Stake` | skills/scripts/notify.py:173-178 | The claim is on disk before control comes to the send: the receipt is pending with its send started, and `terminal` is the status exactly if that is final. |
| `NotifyRunner.Runner.Transmit` | skills/scripts/notify.py:179-190 | At most this one message leaves; a normal end has the receipt settled as the fields of the reply say. |
| `NotifyRunner.Runner.DecideLater` | skills/scripts/notify.py:179-190 | A decision of the server on a message whose process has given up keeps the object a run of the protocol and changes nothing but the delivery. |
| `NotifyRunner.Runner.Attempt` | skills/scripts/notify.py:148-190 | The body of the `try` ends settled with the message sent, raised and caught, or dead, each in a state of the protocol. |
| `NotifyRunner.Runner.Close` | skills/scripts/notify.py:191-195 | After success or a caught exception the last write leaves the lock free, and a reply reports the receipt that is then on disk. |
| `NotifyRunner.Runner.Report` | skills/scripts/notify.py:142-195 | From the first write to the release of the lock at most one message leaves and the object is again between invocations. |
| `NotifyRunner.Runner.Enable` | skills/scripts/notify.py:211-219 | `enable` never overwrites a file; it succeeds exactly when there is none, the binding is valid and no fault strikes, and then the file is a fresh enabled context whose binding is authorised and names both parties. |
| `NotifyRunner.Runner.Disable` | skills/scripts/notify.py:221-227 | `disable` changes only the switch; receipts and binding stay. |
| `RuntimeEnv.ReplaceAllIsEscape` | crates/awiki-deamon/src/cli_runtime_env.rs:362-369 | The four replacements one after another equal a single pass that escapes each of the four special characters, so no escape is escaped twice. |
| `RuntimeEnv.DecodeSavedEnvValue` | crates/awiki-deamon/src/cli_runtime_env.rs:118-147 | The decoding loop returns what the recursive decoder defines, including every refusal. |
| `RuntimeEnv.DecodeInvertsQuote` | crates/awiki-deamon/src/cli_runtime_env.rs:118-147 | A double-quoted text decodes to a value if and only if it is the quotation of that value, so decoding is the inverse of quoting and accepts nothing else in quotes. |
| `RuntimeEnv.QuoteIsLine` | crates/awiki-deamon/src/cli_runtime_env.rs:362-373 | The quotation of a value without line breaks is one line that decodes to the value, whatever other characters it holds. |
| `RuntimeEnv.SingleQuotedDecodes` | crates/awiki-deamon/src/cli_runtime_env.rs:118-121 | A single-quoted value decodes to itself, and is refused exactly when it holds a single quote. |
| `RuntimeEnv.BareDecodes` | crates/awiki-deamon/src/cli_runtime_env.rs:122-147 | A bare value without escapes decodes to itself, and is refused exactly when it holds a quote, white space or a shell operator. |
| `RuntimeEnv.ReadFailsIff` | crates/awiki-deamon/src/cli_runtime_env.rs:96-115 | A file cannot be read if and only if some line sets a proxy key to a value that cannot be decoded. |
| `RuntimeEnv.ReadSavedProxyConfiguration` | crates/awiki-deamon/src/cli_runtime_env.rs:96-115 | The reading loop over the lines of a file gives the map, or the first error, of the line-by-line definition. |
| `RuntimeEnv.EntryLineReads` | crates/awiki-deamon/src/cli_runtime_env.rs:96-115 | A rendered `NAME=value` line adds exactly that entry when the name is a proxy key and nothing otherwise. |
| `RuntimeEnv.ReadBackRendered` | crates/awiki-deamon/src/cli_runtime_env.rs:278-296 | Reading a rendered file back gives exactly the proxy entries that were rendered, for every capture that can be written. |
| `EnvCapture.SelectorsValid` | crates/awiki-deamon/src/cli_runtime_env.rs:208-226 | Whatever the selector lists hold, the accepted selectors have valid names and no two are equal. |
| `EnvCapture.CapturedIsWellFormed` | crates/awiki-deamon/src/cli_runtime_env.rs:235-276 | Every capture of every process environment can be written to the file and read back, given only that PATH and variable names hold no line break. |
| `EnvCapture.CapturesExactly` | crates/awiki-deamon/src/cli_runtime_env.rs:208-276 | A variable is captured, with its value, if and only if some token of the selector lists selects it by name or prefix, its value holds no line break or NUL, and it is neither PATH nor the selector list. |
| `EnvCapture.SelectorsReadBack` | crates/awiki-deamon/src/cli_runtime_env.rs:208-226 | The selector list that is saved parses to the same selectors. |
| `EnvContents.FileHoldsCapture` | crates/awiki-deamon/src/cli_runtime_env.rs:278-296 | The file of a capture holds exactly PATH, if any, the selector list and every captured variable with its value. |
| `EnvContents.HistoryHoldsLastCapture` | crates/awiki-deamon/src/cli_runtime_env.rs:55-94 | After any history of reinstalls the file holds, beside the proxy groups, exactly the PATH, the selector list and the other variables of the last acceptable capture. |
| `Reinstall.InheritGroup` | crates/awiki-deamon/src/cli_runtime_env.rs:80-86 | The in-place loop over one group of keys inherits the group of the old file exactly when the new capture names none of its keys. |
| `Reinstall.PreserveProxyConfiguration` | crates/awiki-deamon/src/cli_runtime_env.rs:69-94 | The method that updates the captured map group by group and then checks the mode equals the specified merge, and fails on an unreadable old file or an invalid mode. |
| `Reinstall.EnvFile.CaptureAndWrite` | crates/awiki-deamon/src/cli_runtime_env.rs:55-67 | The file becomes the rendered merge when preserving succeeds and is left as it was when it fails; EnvContents and Reinstall say what that file holds. |
| `Reinstall.MergeByGroup` | crates/awiki-deamon/src/cli_runtime_env.rs:76-87 | Each of the three groups is taken whole from the new capture if it names any of its keys, else whole from the old file; no key is mixed in from the other side. |
| `Reinstall.ReinstallHistory` | crates/awiki-deamon/src/cli_runtime_env.rs:55-115 | After any sequence of reinstalls from no file, the saved file reads back, group by group, as the last acceptable capture that named the group, and a file exists as soon as one capture was acceptable. |
| `Reinstall.ReinstallOver` | crates/awiki-deamon/src/cli_runtime_env.rs:55-115 | One reinstall over any file succeeds exactly when the file can be read and the mode (the captured one if there is one, else the saved one) is valid; then the file reads back as the newer of each group, and otherwise it is unchanged. |
| `RuntimeEnv.ReadIsWritable` | crates/awiki-deamon/src/cli_runtime_env.rs:96-147 | Whatever a file holds, the entries read from it are proxy entries on one line each, which can be written and read back. |
| `Reinstall.ReinstallFailsIff` | crates/awiki-deamon/src/cli_runtime_env.rs:88-94 | After any history a reinstall fails exactly on a captured mode other than `auto` and `inherit`, and then the file is unchanged. |
| `Heartbeat.HeartbeatScheduler.Tick` | crates/awiki-deamon/src/agent_status.rs:107-217 | One tick of the object equals the tick of the specification in its whole state, its effects on the outside and its result, also when it returns an error half way. |
| `Heartbeat.HeartbeatScheduler.ReleaseStatus` | crates/awiki-deamon/src/agent_status.rs:90-105 | The cached release status is refreshed exactly when it is missing or old, and the cached one is returned. |
| `Heartbeat.HeartbeatScheduler.WriteLatest` | crates/awiki-deamon/src/agent_status.rs:168-204 | A daemon's latest status is written exactly when its signature changed, it was never written, or its write is due; both records move together and only on success. |
| `Heartbeat.HeartbeatScheduler.Visits` | crates/awiki-deamon/src/agent_status.rs:140-205 | The loop over the daemons, which leaves at the first error, equals the fold over them. |
| `Heartbeat.VisitAllFailed` | crates/awiki-deamon/src/agent_status.rs:140-205 | Once a turn fails, no later daemon of the tick has any effect. |
| `HeartbeatRuns.StatusIsCurrent` | crates/awiki-deamon/src/agent_status.rs:128-211 | After every run of ticks, failed ones included, each daemon listed at the last check (if that check returned) whose write did not fail has on record the signature computed at that check, and a write younger than the interval of that check, active or idle, plus the check interval. |
| `HeartbeatRuns.LastCheckIsLast` | crates/awiki-deamon/src/agent_status.rs:128-131 | Every run has a last check, because the first tick is one. |
| `HeartbeatRuns.NextCheckIff` | crates/awiki-deamon/src/agent_status.rs:128-131 | After a check that returned, the next one is made if and only if the check interval has passed. |
| `HeartbeatRuns.LastCheckSucceeds` | crates/awiki-deamon/src/agent_status.rs:128-211 | Under a rising clock, after a tick that returned without an error the last check is one that returned without an error. |
| `HeartbeatRuns.FailedCheckIsRepeated` | crates/awiki-deamon/src/agent_status.rs:128-211 | A check that ends in an error is made again by the very next tick, unless the clock goes back. |
| `HeartbeatRuns.SinceCheck` | crates/awiki-deamon/src/agent_status.rs:128-211 | Since the last check no record has moved, and the check is younger than its interval. |
| `HeartbeatRuns.FailedWriteLeavesRecords` | crates/awiki-deamon/src/agent_status.rs:186-204 | A failed write leaves the time and the signature on record as they were before it. |
| `HeartbeatEffects.FailedWriteIsRetried` | crates/awiki-deamon/src/agent_status.rs:128-211 | At the next check after a failed write the status is written or fails again, if and only if it has not returned to the old recorded signature with a recorded write that is not yet due; the records then hold exactly a successful write, or are the old ones. |
| `HeartbeatEffects.CheckWrites` | crates/awiki-deamon/src/agent_status.rs:164-205 | At every check that returns, exactly the statuses that are not up to date are written or fail, and exactly the successes are recorded. |
| `HeartbeatEffects.RecordedWriteHappened` | crates/awiki-deamon/src/agent_status.rs:184-205 | What is on record for a daemon was written by some tick of the run, at the recorded time and with the recorded signature, and no later tick wrote a status of it. |
| `HeartbeatEffects.RecordedWriteNotAhead` | crates/awiki-deamon/src/agent_status.rs:184-192 | Under a rising clock no recorded write is ahead of the last tick. |
| `HeartbeatEffects.EmissionIff` | crates/awiki-deamon/src/agent_status.rs:147-163 | At every tick that returns, each listed daemon's heartbeat is sent or fails exactly at a control round, as its emission succeeds or fails, and a failure has its error recorded. |
| `HeartbeatEffects.NextHeartbeatIff` | crates/awiki-deamon/src/agent_status.rs:118-163 | After a control round that returned, whether its heartbeats were sent or failed, a daemon's next heartbeat is tried if and only if the active interval, at an active tick, or the idle one, at an idle tick, has passed since that round, and no tick in between tries it. |
| `HeartbeatEffects.FailedRoundIsRepeated` | crates/awiki-deamon/src/agent_status.rs:118-211 | A control round that ends in an error is made again by the next tick, unless the clock goes back or the interval grows. |
| `HeartbeatEffects.ControlIsCurrent` | crates/awiki-deamon/src/agent_status.rs:124-211 | After every tick without an error the last control round, whatever became of its heartbeats, is younger than the interval that tick used. |
| `HeartbeatEffects.OutcomeReports` | crates/awiki-deamon/src/agent_status.rs:145-217 | The outcome of a tick says truthfully whether it sent any heartbeat and wrote any status. |
| `HeartbeatEffects.TickFailsIff` | crates/awiki-deamon/src/agent_status.rs:117-205 | A tick returns an error if and only if it cannot start, or something is due and some daemon cannot be reconciled, cannot have its failed heartbeat or failed write recorded, or cannot have its status built. |
| `HeartbeatEffects.VisitAllLog` | crates/awiki-deamon/src/agent_status.rs:147-205 | The effects of a tick without an error are those of its daemons' turns in order, each judged by the scheduler at the start of the tick. |
| `HeartbeatRuns.ReleaseIsChecked` | crates/awiki-deamon/src/agent_status.rs:90-105 | In every run the cached release status is what some tick checked, at the recorded time. |
| `HeartbeatRuns.ReleaseIsCurrent` | crates/awiki-deamon/src/agent_status.rs:90-105 | Every tick that visits a daemon works from a release status younger than its interval. |
| `HeartbeatRuns.ReleaseIsKept` | crates/awiki-deamon/src/agent_status.rs:90-105 | A tick moves the time of the release status only when at least its interval has passed since it was checked. |
| `AgentNetwork.ResolveNetwork` | crates/awiki-deamon/src/agent_network.rs:54-127 | The in-place resolution, with its lookup, its probes and its early exits, gives the specified variables and the specified explanation. |
| `AgentNetwork.AddressesAllOrNothing` | crates/awiki-deamon/src/agent_network.rs:54-127 | The addresses an agent gets are the whole inherited group when any address is inherited, else the whole discovered group, if the mode is `auto`, the lookup finds something and every distinct local proxy in it answers, and else none; never a mixture. |
| `AgentNetwork.DetailIff` | crates/awiki-deamon/src/agent_network.rs:65-121 | Each explanation is given exactly under its own condition on the environment, the lookup and the probes: applied, automatic proxy silent, explicit proxy silent, lookup failed with its reason, unknown mode. |
| `AgentNetwork.SilentIff` | crates/awiki-deamon/src/agent_network.rs:96-117 | A proxy counts as silent if and only if some address key with a nonempty value, whose local addresses occur at no earlier such key, has a probe that is not answered. |
| `AgentNetwork.NothingToProtect` | crates/awiki-deamon/src/agent_network.rs:123-125 | Where every settled value is empty, nothing is protected and nothing is added. |
| `AgentNetwork.LookupUnused` | crates/awiki-deamon/src/agent_network.rs:65-95 | With an inherited address, or in any mode but `auto`, no result of the system lookup changes anything. |
| `AgentNetwork.ExclusionsAreAdditive` | crates/awiki-deamon/src/agent_network.rs:59-159 | Whenever a resolved value is nonempty, both exclusion keys end equal and free of duplicates and hold exactly the loopback names, the interface addresses, every inherited entry and, when automatic addresses are kept, every discovered one. |
| `AgentNetwork.SettledEntries` | crates/awiki-deamon/src/agent_network.rs:74-117 | Before callbacks are protected, an exclusion key holds its inherited entries followed by the discovered ones that are kept. |
| `AgentNetwork.ProtectCallbacks` | crates/awiki-deamon/src/agent_network.rs:129-159 | The push loops build the specified exclusion list under both spellings. |
| `AgentNetwork.ProtectMerges` | crates/awiki-deamon/src/agent_network.rs:129-159 | Both spellings end equal, free of duplicates, with exactly the entries of the four sources, and no other variable changes. |
| `AgentNetwork.ProtectIsIdempotent` | crates/awiki-deamon/src/agent_network.rs:129-159 | Protecting twice is protecting once. |
| `AgentNetwork.Take` | crates/awiki-deamon/src/agent_network.rs:74-86 | The loop over the discovered variables appends to existing exclusions and fills in addresses, in key order. |
| `AgentNetwork.Probe` | crates/awiki-deamon/src/agent_network.rs:96-117 | The probing loop, which asks each distinct local address once and stops at the first that is silent, decides whether any local proxy is silent. |
| `Exclusions.PushMissing` | crates/awiki-deamon/src/agent_network.rs:137-155 | The loop that pushes what is missing keeps the order and the first occurrence of each entry. |
| `Exclusions.AddNewFacts` | crates/awiki-deamon/src/agent_network.rs:137-155 | The result extends the old list, has exactly the elements of both, and has no duplicates. |
| `Exclusions.EntriesConcat` | crates/awiki-deamon/src/agent_network.rs:74-86 | Appending two lists with a comma appends their entries, blanks dropped, in order. |
| `Exclusions.EntriesOfJoin` | crates/awiki-deamon/src/agent_network.rs:137-158 | Joining clean entries and splitting them again gives them back. |
| `SystemProxy.ScanText` | crates/awiki-deamon/src/agent_network.rs:235-263 | The line loop with its depth counter and exceptions flag equals the step-by-step scan. |
| `SystemProxy.TextReads` | crates/awiki-deamon/src/agent_network.rs:235-263 | On every well-nested text the scan reads exactly the settings that a recursive reading of the nesting defines, and returns to depth zero. |
| `SystemProxy.HiddenText` | crates/awiki-deamon/src/agent_network.rs:235-263 | Nothing inside a scope that is neither the outer dictionary nor its exceptions list has any effect. |
| `SystemProxy.NestedScopesDoNotMatter` | crates/awiki-deamon/src/agent_network.rs:235-333 | Two well-nested texts that agree once the contents of all other nested scopes are removed give the same lookup result. |
| `SystemProxy.LookupIsComplete` | crates/awiki-deamon/src/agent_network.rs:264-333 | A successful lookup names every enabled kind under both spellings with its own address, no disabled kind, and the exclusions exactly when there are some. |
| `SystemProxy.LookupNames` | crates/awiki-deamon/src/agent_network.rs:292-330 | Each variable, under both spellings, is named if and only if its own kind is set to `1`. |
| `SystemProxy.LookupFailsIff` | crates/awiki-deamon/src/agent_network.rs:264-333 | A lookup fails if and only if a discovery protocol is on, or some kind is set and simple host names are excluded, an exclusion cannot be expressed, or a set kind has no valid address; with no kind set it finds nothing. |
| `SystemProxy.AddressReads` | crates/awiki-deamon/src/agent_network.rs:300-325 | A host, plain or in brackets, and a valid port give `scheme://host:port` of that kind, with IPv6 in brackets, or the address error. |
| `SystemProxy.EntryReads` | crates/awiki-deamon/src/agent_network.rs:240-256 | A line `key : value` is read as that key and that value, whatever the value holds. |
| `SystemProxy.ConvertedIff` | crates/awiki-deamon/src/agent_network.rs:282-291 | An exclusion with a leading `*.` becomes one with a leading dot, and any other stays as it is. |
| `DedupeCache.Cache.IsDuplicate` | scripts/hermes_notify_adapter.py:68-73 | The check removes what has expired and answers for the key. |
| `DedupeCache.Cache.Remember` | scripts/hermes_notify_adapter.py:75-82 | Remembering removes what has expired, evicts one oldest entry when the cache is full, and stores the key with its expiry. |
| `DedupeCache.LimitsFor` | scripts/hermes_notify_adapter.py:62-64 | Configured limits at or above the minima of 1 second and 128 entries are kept; lower ones are raised to them. |
| `DedupeCache.CapacityHolds` | scripts/hermes_notify_adapter.py:75-87 | After every sequence of calls, with any clock, the cache holds at most its maximum. |
| `DedupeCache.EntryHasCall` | scripts/hermes_notify_adapter.py:75-87 | Every entry stands for a remember call of that key, one lifetime before its expiry. |
| `DedupeCache.DuplicateWasRemembered` | scripts/hermes_notify_adapter.py:68-87 | No false positive: a positive answer means the key was remembered within its lifetime, with any clock. |
| `DedupeCache.RememberedIsDuplicate` | scripts/hermes_notify_adapter.py:68-87 | A key is reported until its lifetime ends, through the next `max - 1` remember calls, whenever only older readings reached the cache before its own and none for the same key after it, as with any clock that rises from call to call. |
| `DedupeCache.DuplicateIff` | scripts/hermes_notify_adapter.py:68-87 | In whatever order threads that have read the clock take the lock: for the last remember call of a key, with fewer than `max` rivals (remember calls after it, or before it with a reading not older), the answer is positive if and only if neither this call nor any in between was made at or after its expiry. |
| `DedupeCache.RivalsBounded` | scripts/hermes_notify_adapter.py:75-87 | The cache never holds more entries that would outlast a remember call than its rivals account for. |
| `DedupeCache.OvertakenKeyIsForgotten` | scripts/hermes_notify_adapter.py:68-82 | Counterexample to counting only later calls: for every capacity there is a run in which a key whose reading was overtaken is forgotten after one further remember call, long before its expiry. |
| `DedupeHandler.DuplicateMeansForwarded` | scripts/hermes_notify_adapter.py:154-174 | Over every interleaving of request threads, `duplicate` is answered only for an id that some thread forwarded with success and then remembered within its lifetime. |
| `DedupeHandler.FailedForwardsDoNotSuppress` | scripts/hermes_notify_adapter.py:154-174 | While no forward of an id has succeeded, every request for it goes on to be forwarded. |
| `DedupeHandler.AnswersAreExact` | scripts/hermes_notify_adapter.py:154-174 | Every answer in every history, with threads free to overtake each other between reading the clock and taking the lock, is exact with respect to the last remember call of its id: `duplicate` if and only if no call since was made at or after its expiry, given fewer than `max` rivals. |
| `DedupeHandler.ReadingsAreOvertaken` | scripts/hermes_notify_adapter.py:68-77 | There is a run whose clock readings rise in time and reach the cache in the other order. |
| `DedupeForwards.ForwardedAgainOnlyWhenForgotten` | scripts/hermes_notify_adapter.py:154-174 | While requests for an id do not overlap, it is forwarded again only when it was forgotten: between the checks of any two successful forwards lies a remember call of the id, and for the last of these the expiry had been reached or at least `max` rivals had come. |
| `DedupeForwards.ForwardedTwiceIff` | scripts/hermes_notify_adapter.py:154-174 | After any run without overlap, one more check of the id can lead to a second forward with no remember call between, if and only if another request for the id is in flight and the check finds no live entry. |
| `DedupeForwards.OverlappingRequestsBothForwarded` | scripts/hermes_notify_adapter.py:154-174 | Counterexample to `an id is forwarded at most once`: for every id there is a run in which two overlapping requests both forward it, since check and remember are separate critical sections. |
| `Duration.ParseUnitDuration` | crates/awiki-cli/src/cli_http.rs:220-243 | The loop over components with its running limit returns the specified total; an accepted duration is between 1 and the maximum of nanoseconds. |
| `Duration.ParseWith` | crates/awiki-cli/src/cli_http.rs:220-243 | An accepted duration is at least one nanosecond and at most the maximum of a signed 64-bit count. |
| `Duration.ParseDurationComponent` | crates/awiki-cli/src/cli_http.rs:245-301 | The checked 128-bit arithmetic returns the unbounded value within the limit and refuses the rest: an overflow happens only beyond the limit. |
| `Duration.AddComponents` | crates/awiki-cli/src/cli_http.rs:229-237 | Leaving the loop at the first total beyond the limit refuses exactly the texts whose whole total is beyond it. |
| `Duration.AddFraction` | crates/awiki-cli/src/cli_http.rs:285-295 | Skipping digits below one nanosecond loses nothing of the digit-by-digit sum. |
| `Duration.ReadWhole` | crates/awiki-cli/src/cli_http.rs:246-258 | The digit loop reads the number of the longest run of digits, and refuses only a number beyond 128 bits. |
| `Duration.FractionBelowUnit` | crates/awiki-cli/src/cli_http.rs:285-295 | However many fraction digits there are, they add less than one unit. |
| `Duration.ComponentRounding` | crates/awiki-cli/src/cli_http.rs:245-301 | A component is its exact decimal value rounded down by less than 9 nanoseconds, and lies below the next whole unit. |
| `Duration.ShortfallBound` | crates/awiki-cli/src/cli_http.rs:285-295 | The rounding loss is below 1, 6 or 9 nanoseconds for decimal, minute and hour units. |
| `Duration.ComponentLocal` | crates/awiki-cli/src/cli_http.rs:245-322 | A component is read the same whatever further components follow it. |
| `Duration.WrittenDurationReads` | crates/awiki-cli/src/cli_http.rs:220-322 | A whole number of any size followed by a unit parses to that many units, exactly when this lies within the limits. |
| `Duration.WrittenFractionReads` | crates/awiki-cli/src/cli_http.rs:220-322 | A decimal number, with digits on either side of the point, followed by a unit parses to its whole units plus its fraction, exactly when this lies within the limits. |
| `Duration.SignReads` | crates/awiki-cli/src/cli_http.rs:220-228 | A leading plus is ignored and a leading minus is refused. |
| `Duration.ParseIsAdditive` | crates/awiki-cli/src/cli_http.rs:220-322 | Two accepted unsigned durations written together parse to their sum, or are refused exactly when the sum passes the limit. |
| `JqPath.ApplyJqSubset` | crates/awiki-cli/src/cli_output.rs:168-191 | The segment loop returns the value, or the error, of the recursive walk. |
| `JqPath.PathsCompose` | crates/awiki-cli/src/cli_output.rs:168-239 | `.p.q` gives a result on a value if and only if `.p` gives some intermediate value on which `.q` gives it. |
| `JqPath.WalkComposes` | crates/awiki-cli/src/cli_output.rs:176-190 | Walking a joined path is walking its parts in turn, errors included, for any step function. |
| `JqPath.WalkedIsClosed` | crates/awiki-cli/src/cli_output.rs:172-174 | Every path that can be walked closes a bracket wherever it opens one, so the early bracket check refuses nothing that could succeed. |
| `JqPath.Slice` | crates/awiki-cli/src/cli_output.rs:198-206 | A slice holds the items from its start to the smaller of its end and the length of the array, and is empty otherwise: no bound is ever out of range. |
| `JqPath.FieldEvaluates` | crates/awiki-cli/src/cli_output.rs:193-208 | `.name` succeeds exactly on an object that has the field, and gives exactly that field. |
| `JqPath.SliceEvaluates` | crates/awiki-cli/src/cli_output.rs:193-239 | `.name[start:end]`, with either bound written or left open, succeeds exactly on an object whose field is an array, and gives exactly that slice of it. |
| `JqPath.OpenSlice` | crates/awiki-cli/src/cli_output.rs:198-206 | An open end reaches the last item, and `[:]` is the whole array. |
| `JqPath.LeadingDotsIgnored` | crates/awiki-cli/src/cli_output.rs:168-176 | Further dots in front of a path change nothing. |
| `JqPath.SegmentReadsBack` | crates/awiki-cli/src/cli_output.rs:210-239 | A written slice segment is read as exactly its name and its two bounds. |
| `InboxScan.AppendMatches` | crates/awiki-cli/src/system_test_probe_main.rs:4462-4494 | A page is accepted if and only if it is well formed and every message can be judged, and then exactly its matching messages are added in order. |
| `InboxScan.MatchingIff` | crates/awiki-cli/src/system_test_probe_main.rs:4477-4488 | The messages added are exactly those of the page whose id and sender are the wanted ones. |
| `InboxScan.ReadableIff` | crates/awiki-cli/src/system_test_probe_main.rs:4477-4483 | A message can be judged if and only if its id, and the sender of a wanted one, are nonblank strings without control characters. |
| `InboxScan.CollectMatches` | crates/awiki-cli/src/system_test_probe_main.rs:2866-2905 | For every server the scan ends after at most twenty requests with the outcome determined by the reply it stops at, and its skip always counts the messages seen. |
| `InboxScan.EmptyPageStops` | crates/awiki-cli/src/system_test_probe_main.rs:2893-2899 | A page that promises more and holds nothing ends the scan with a failure. |
| `InboxScan.FailureReports` | crates/awiki-cli/src/system_test_probe_main.rs:2889-2904 | A scan fails as its last reply says: a rejection as a transport failure, a failed call as its own failure, all else as a runtime failure. |
| `InboxScan.CompleteOrFailed` | crates/awiki-cli/src/system_test_probe_main.rs:2866-2905 | If the pages are cut from one inbox, an answer is exactly the matching messages of the whole inbox in order; there is no partial answer. |
| `InboxScan.SucceedsIff` | crates/awiki-cli/src/system_test_probe_main.rs:2866-2905 | On a server that fills its pages, the scan succeeds if and only if the inbox holds at most 2000 messages and every one can be judged. |
| `InboxScan.SeenIsPrefix` | crates/awiki-cli/src/system_test_probe_main.rs:2871-2902 | After every number of requests the messages seen are the prefix of the inbox that the skip counts: none twice, none missed. |

## Left out

- Power loss: the notification model covers exceptions and killed processes, not the loss of a directory entry, and nobody edits or deletes the context file from outside.
- Temporary files, permissions and the child-process supervision of the notification script.
- Validation of environment files beyond the proxy entries: PATH and variable names are taken to hold no line break, and writing the file is one step.
- The probes themselves: which local addresses a proxy address stands for, whether they answer within the budget, and the list of interface addresses are parameters; URL and IPv6 parsing is not modelled.
- The signature of a latest status is an arbitrary function of the release status; the payloads it summarises are not modelled.
- HeartbeatRuns.StatusIsCurrent: assumes that the daemons of one tick have distinct identifiers, because they are keys of the daemon's store.
- HeartbeatEffects.FailedWriteIsRetried: is about failed writes in ticks that return; a tick that returns an error is covered by HeartbeatRuns.FailedCheckIsRepeated.
- SystemProxy.TextReads: is about well-nested text; text with unbalanced braces is covered only by SystemProxy.ScanText.
- InboxScan.CompleteOrFailed: assumes that the inbox does not change during the scan; the requests carry no snapshot.
- The adapter's signature check, payload validation and conversion, and its HTTP layer.
- The plain-integer form of a duration setting (milliseconds), which is tried before the unit parser.
- Display of values and the remaining output formats, the identity, group and end-to-end encryption commands, the stores and the daemon's plugins.
