# Verified model of Z/IP Gateway's hard parts

Z/IP Gateway connects a Z-Wave network to IP. This project models, in Dafny, the parts of it that are
state machines over long sessions, bookkeeping over pools and lists, or codecs, and proves what they
promise. Each component has two files: one with the state as a value, a step function and the theorems
over all runs; and one with a class whose fields are updated in place, statement by statement as in the
C code, each method proved equal to the step function and keeping the proved invariant as `Valid()`.
`Common.dfy` holds what they share. Radio, timers, UDP and memory allocation enter as
parameters and as events in any order.

| component | theorems | code |
|---|---|---|
| Security 0 bootstrapping, one side and both sides | `SecureLearn.dfy`, `SecureLearnPair.dfy` | `SecureLearnStatechart.dfy` |
| Mailbox of sleeping nodes | `Mailbox.dfy`, `MailboxResults.dfy`, `MailboxSender.dfy` | `MailboxMachine.dfy` |
| Removal of IP associations | `IpAssoc.dfy`, `IpAssocRuns.dfy` | `IpAssocBridge.dfy` |
| Temporary associations | `TempAssoc.dfy` | `TempAssocTable.dfy` |
| Version interview | `VersionProbe.dfy` | `VersionProbeFsm.dfy` |
| Queue of network-management commands | `NmQueue.dfy` | `NmCommandQueue.dfy` |
| Adding nodes, interview lock, Smart Start, stored DSKs | `NmAdd.dfy`, `SmartStart.dfy`, `DskOwner.dfy` | `NmMachine.dfy` |
| Provisioning list | `Provisioning.dfy` | `ProvisioningStore.dfy` |
| Extra command classes | `NodeInfoClasses.dfy` | `NodeInfoConfig.dfy` |
| Node database | `NodeDb.dfy` | `NodeDatabase.dfy` |

`dafny verify dfyconfig.toml` checks everything.

## Where the code does not do what its documentation says

Each is kept as the code has it, with a concrete case and the exact condition under which the promise holds.

- Mailbox: an event that is not the pass's own makes it transmit the current frame again. Each frame is tried
  once if and only if no such event comes (`PassDrains`). The sender is busy with the first transmission and
  gives the repeat and all later frames back, so the pass ends and the result of the first comes too late
  (`StrayLosesResult`): the frames removed are exactly those delivered if and only if no stray event comes
  while a frame is under way that is then delivered (`RemovesDeliveredIff`).
- IP associations: a remove command is to be refused while a request is under way. It is refused exactly then,
  throughout a run, if and only if no event unsettles the counter: a last transmission that fails, the removal
  of a node that overlaps a request and is over at once, or a resumed chain that ends wrong
  (`RefusedWhileDueIff`; `RefusedIff` for runs without overlap, `NodeRemovalUnlocks`). The marks left behind
  make the removal of a node remove another node's association (`StaleMarkMisleads`): a request is exact if
  and only if no stale mark stands in front of a match (`RemoveCommandExactIff`, `RemoveByNodeExactIff`).
  Overlapping removals can break the assertion that a marked entry is left (`OverlapFailsAssertion`); in any
  run it never fails if and only if no callback resumes a chain that finds fewer marked entries than the
  counter says and stops at none of them (`AssertionHoldsIff`).
- Temporary associations: with fewer than four ids loaded a client is refused although an older association
  could be recycled (`RefusedInsteadOfRecycled`); `RefusedIff` gives all cases.
- Version interview: if the sender refuses a request the callback is never called (`CalledUnlessRefused`). A
  status of 0 vouches for the versions if and only if the node's cache can hold them (`InterviewCompletes`).
- Adding nodes: the interview lock is said to be released when the machine is idle. A stop that finds the
  machine idle is answered and leaves it idle; if the answer is confirmed only after a new inclusion has taken
  the lock, the confirmation resets the machine and the lock stays (`LateConfirmationLeavesLock`).
  `LockReleasedIff` gives the exact condition. Replies over plain UDP are confirmed at once.
- Adding nodes: a DSK is valid for this inclusion, says the record; a replacement and an inclusion for another
  controller do not forget the DSK of an earlier session, and a replacement handed to the SUC can store it for
  the new node (`ReplacementMisfiles`). Every DSK stored was given in its own session if and only if no good S2
  result comes in a session that was given none while one is left over (`StoredOwnIff`).
- Extra command classes: a two-byte class loses its second byte (`ExtendedLosesByte`). The length of the payload
  is cut to eight bits (`LongPayloadIsCut`) and otherwise not checked: a Set stays within the buffers if and
  only if what is left of it names at most 32 plain and 32 secure classes and 62 together (`SetFitsIff`).
  `GetReturnsSetIff` says which payloads a Get returns unchanged.
- Provisioning list: the parser drops a last element without a value (`WalkRecovers`).
- Node database: the endpoint cursor stops at a stored node without endpoints (`CursorVisitsAllIff`), and keys
  of different lengths can leave two nodes with the same key (`LongerKeyShadows`, `AddKeepsUniqueIff`); the one
  caller adds keys of sixteen bytes only, for which `RunKeepsUnique` holds.
- Security 0: the statechart registers scheme 0 for a session that did not fail if and only if the scheme is 0
  when a gateway that is no controller takes the verify (`ZeroMeansFailedRunIff`,
  `ZeroRegisteredWithoutFailing`); its one caller sets odd schemes only (`ZeroRegisteredIffFailed`). The
  joiner's last waiting state has no timer (`InheritedOnlyLeavesOnTransmit`).

## Model

| member | source | states |
|---|---|---|
| SecureLearn.RunKeepsTimerDiscipline | src-gen/Secure_learn.c:197-310 | in every run a timed state has its own timer armed or its timeout pending, never both, and no other; an untimed state has none |
| SecureLearn.TimeoutLeavesState | src-gen/Secure_learn.c:468-603 | a pending timeout is always the current state's, and the next cycle leaves that state downwards and consumes it: none is lost or stale |
| SecureLearn.CycleDescends | src-gen/Secure_learn.c:220-303 | except from Idle, a cycle that changes state goes strictly down in rank |
| SecureLearn.PollSettles | src/transport/security_layer.c:174-184 | the poll loop ends, outside every transient state and with no event flag left |
| SecureLearn.InheritedOnlyLeavesOnTransmit | src-gen/Secure_learn.c:606-627 | the joiner's Inherited state is left by a transmit result and by nothing else, in any run |
| SecureLearn.RunIsWellLogged | src-gen/Secure_learn.c:468-1000 | every run writes a path of the statechart: each entry, call and event may follow the one before |
| SecureLearn.KeyOnlyAfterReport | src-gen/Secure_learn.c:753-793 | on every path the key is sent only right after that node's scheme report with bit 0 set answered this session's scheme get |
| SecureLearn.InheritOnlyAfterVerify | src-gen/Secure_learn.c:939-976 | the inherit command follows sending the key, restoring the old key and a key verify from the same node |
| SecureLearn.KeyVerifyOnlyAfterKeySet | src-gen/Secure_learn.c:509-551 | the joiner verifies a key only to the node whose scheme get it answered, after that node set the key |
| SecureLearn.InclusionOutcome | src-gen/Secure_learn.c:879-936 | an inclusion ends through Fail with scheme 0, or with the scheme current at the node's last message |
| SecureLearn.OpenIsBusy | src-gen/Secure_learn.c:707-750 | a session is open, begun and not completed, exactly in the session states |
| SecureLearn.SessionsAlternate | src-gen/Secure_learn.c:641-704 | sessions never overlap, each completes once, and Idle is reached only after completion |
| SecureLearn.ZeroRegisteredIffFailed | src-gen/Secure_learn.c:868-936 | with odd schemes set, an inclusion ends with scheme 0 last registered if and only if it went through Fail |
| SecureLearn.ZeroMeansFailedRunIff | src-gen/Secure_learn.c:868-976 | in every run, whatever schemes are set, all inclusions end with scheme 0 registered exactly when they went through Fail, if and only if no verify is taken by a gateway that is no controller while the scheme is 0 |
| SecureLearn.ZeroRegisteredWithoutFailing | src-gen/Secure_learn.c:939-976 | a run, for every node, in which the scheme is 0 when the verify is taken: 0 is registered and the session ends without a failure |
| SecureLearn.TimeoutEndsSession | src-gen/Secure_learn.c:305-310 | in any run the expiry of the current timer alone brings one poll back to Idle |
| SecureLearnStatechart.Statechart.constructor | src-gen/Secure_learn.c:59-68 | entering gives the initial state of the model, which is valid |
| SecureLearnStatechart.Statechart.Exit | src-gen/Secure_learn.c:70-195 | leaving the machine stops a timed state's timer and no other |
| SecureLearnStatechart.Statechart.ReactLearnStart | src-gen/Secure_learn.c:468-506 | the code's reaction equals the model's |
| SecureLearnStatechart.Statechart.ReactLearnSchemeReport | src-gen/Secure_learn.c:509-551 | the code's reaction equals the model's |
| SecureLearnStatechart.Statechart.ReactLearnNewKey | src-gen/Secure_learn.c:565-603 | the code's reaction equals the model's |
| SecureLearnStatechart.Statechart.TakeInherit | src-gen/Secure_learn.c:565-603 | the code's reaction to the inherit command equals the model's |
| SecureLearnStatechart.Statechart.ReactLearnInherited | src-gen/Secure_learn.c:606-627 | the code's reaction equals the model's |
| SecureLearnStatechart.Statechart.ReactLearnEnd | src-gen/Secure_learn.c:641-704 | the code's reaction equals the model's |
| SecureLearnStatechart.Statechart.ReactIdle | src-gen/Secure_learn.c:707-750 | the code's reaction equals the model's |
| SecureLearnStatechart.Statechart.StartLearning | src-gen/Secure_learn.c:707-750 | the code's reaction to a learn request equals the model's |
| SecureLearnStatechart.Statechart.StartInclusion | src-gen/Secure_learn.c:707-750 | the code's reaction to an inclusion request equals the model's |
| SecureLearnStatechart.Statechart.ReactInclSchemeRequest | src-gen/Secure_learn.c:753-793 | the code's reaction equals the model's |
| SecureLearnStatechart.Statechart.ReactInclSendKey | src-gen/Secure_learn.c:796-825 | the code's reaction equals the model's |
| SecureLearnStatechart.Statechart.ReactInclSendInherit | src-gen/Secure_learn.c:828-865 | the code's reaction equals the model's |
| SecureLearnStatechart.Statechart.TakeSecondReport | src-gen/Secure_learn.c:828-865 | the code's reaction to the second scheme report equals the model's |
| SecureLearnStatechart.Statechart.ReactInclEnd | src-gen/Secure_learn.c:879-936 | the code's reaction equals the model's |
| SecureLearnStatechart.Statechart.ReactInclWaitVerify | src-gen/Secure_learn.c:939-976 | the code's reaction equals the model's |
| SecureLearnStatechart.Statechart.TakeVerify | src-gen/Secure_learn.c:939-976 | the code's reaction to the key verify equals the model's |
| SecureLearnStatechart.Statechart.PassOnInherit | src-gen/Secure_learn.c:939-976 | a controller goes on to the inherit command as in the model |
| SecureLearnStatechart.Statechart.FinishVerified | src-gen/Secure_learn.c:939-976 | another gateway registers the scheme and ends as in the model |
| SecureLearnStatechart.Statechart.ReactSendReport | src-gen/Secure_learn.c:990-1000 | the code's reaction equals the model's |
| SecureLearnStatechart.Statechart.ReactPassThrough | src-gen/Secure_learn.c:554-562 | the states that only pass on reach their successor as in the model |
| SecureLearnStatechart.Statechart.FailLearn | src-gen/Secure_learn.c:554-562 | entering the joiner's failure sets the scheme to -1 |
| SecureLearnStatechart.Statechart.FailInclusion | src-gen/Secure_learn.c:868-876 | entering the includer's failure registers scheme 0 and sets the scheme to -1 |
| SecureLearnStatechart.Statechart.RunCycle | src-gen/Secure_learn.c:220-303 | one reaction, then all event flags cleared; keeps the timer discipline and writes a path of the statechart |
| SecureLearnStatechart.Statechart.SecurePoll | src/transport/security_layer.c:174-184 | the loop equals the model's poll, ends outside transient states with no flag raised, and keeps discipline and path |
| SecureLearnStatechart.Statechart.RaiseTimeEvent | src-gen/Secure_learn.c:305-310 | a firing timer raises the timeout of the state that armed it, keeping discipline and path |
| SecureLearnStatechart.Statechart.Raise | src-gen/Secure_learn.c:375-451 | raising an event or setting a variable of the interface changes that alone and keeps discipline and path |
| SecureLearnPair.RunKeepsLedger | src/transport/security_layer.c:375-399 | over a radio that loses, delays and reorders but never invents, each message is taken at most as often as it was sent, for both sides in every run |
| SecureLearnPair.AgreementInEveryRun | src-gen/Secure_learn.c:753-976 | at every moment the includer has finished no more inclusions than the joiner has accepted keys, the joiner accepted no more keys than were sent, and each controller success is paid for by two reports |
| SecureLearnPair.SuccessMeansNewKey | src-gen/Secure_learn.c:565-603 | an includer at its end without failing: the joiner has entered NewKey |
| SecureLearnPair.ControllerSuccessMeansInherited | src-gen/Secure_learn.c:606-627 | through the controller branch, with one learn session, the joiner has also entered Inherited |
| Mailbox.PassDrains | src/Mailbox.c:1089-1144 | after a pass each frame of the node, those posted meanwhile included, has been credited one result in order, the frames credited with success are gone and the rest stand in order; as many transmissions as frames plus stray events, each frame once in posting order if and only if no stray event came |
| Mailbox.StrayRepeatsFrame | src/Mailbox.c:1089-1144 | a stray event during the pass tries the current frame again and moves nothing |
| MailboxResults.DeliveredAreRemoved | src/Mailbox.c:1089-1144 | without a stray event, at every moment of a pass the frames gone are exactly those whose own transmission was reported as delivered, the rest and those posted meanwhile standing in order |
| MailboxResults.StrayLosesResult | src/ClassicZIPNode.c:952-963 | after a stray event the busy sender gives the repeated frame and all later ones back, the pass ends with the list unchanged, and the first transmission's result, good or bad, no longer removes its frame |
| MailboxSender.RemovesDeliveredIff | src/ClassicZIPNode.c:952-963 | a whole pass with a sender that carries one frame at a time: the frames gone at its end are exactly those reported delivered; a frame is left under way if and only if a stray event came; once that frame's result is in, the frames gone are exactly the delivered ones if and only if it was not delivered |
| Mailbox.SessionSleepDecision | src/Mailbox.c:702-773 | a session back at idle made one no-more-information attempt if unicast and none if broadcast, delayed if and only if a tried frame asked for more |
| MailboxMachine.Machine.constructor | src/Mailbox.c:729-738 | an empty, idle mailbox |
| MailboxMachine.Machine.StateTransition | src/Mailbox.c:843-1200 | the transition code, calling itself, has the effect the model gives the event |
| MailboxMachine.Machine.MoveEntry | src/Mailbox.c:1089-1107 | a finished entry is stepped over, and removed if it was delivered |
| MailboxMachine.Machine.SendFromList | src/Mailbox.c:1089-1144 | the next frame of the node is tried, or the session ends |
| MailboxMachine.Machine.SendFrame | src/Mailbox.c:1117-1130 | the frame is tried; a refusal ends the session |
| MailboxMachine.Machine.EndPass | src/Mailbox.c:1131-1143 | without a frame left the node is sent to sleep at once or later |
| MailboxMachine.Machine.FindNext | src/Mailbox.c:1109-1115 | the loop stops at the first remaining frame of the node or at the end |
| MailboxMachine.Machine.SendNoMoreInformation | src/Mailbox.c:702-725 | sends to a unicast wake-up only |
| MailboxMachine.Machine.WakeUpEvent | src/Mailbox.c:747-783 | a wake-up starts a session only from idle |
| MailboxMachine.Machine.SendDoneEvent | src/Mailbox.c:785-791 | a result is noted and the machine moved on |
| MailboxMachine.Machine.PostFrame | src/Mailbox.c:548-664 | the frame goes to the end of the list in the lowest free slot, or is refused if none is free |
| IpAssoc.CallbackIsSound | src/Bridge_ip_assoc.c:1202-1220 | while one chain runs, every callback finds and leaves the first marked entry as the one it was armed with, and enough marks for the counter |
| IpAssoc.RemoveCommandStands | src/Bridge_ip_assoc.c:1053-1152 | under any callbacks only marked entries go, front first; the one report comes exactly when the request is over; the saved table is the one in memory |
| IpAssoc.CleanRemoveCommand | src/Bridge_ip_assoc.c:560-593 | from a table without marks and without failures, the entries left are exactly those that did not match, in order and saved, with the counter equal to the marks left throughout and one report |
| IpAssoc.CallbackDescends | src/Bridge_ip_assoc.c:1089-1109 | every awaited callback brings the request nearer its end |
| IpAssoc.DriveEnds | src/Bridge_ip_assoc.c:1089-1152 | a request under way is over after as many awaited callbacks as it has work left |
| IpAssoc.RequestEnds | src/Bridge_ip_assoc.c:1053-1152 | a request for k entries is over after at most 2k awaited callbacks |
| IpAssoc.RemovesMatchesIffNoStaleMark | src/Bridge_ip_assoc.c:1028-1042 | taking out as many marked entries as matched, from the front, takes out exactly the matches if and only if no stale mark stands in front of one |
| IpAssoc.RemoveCommandExactIff | src/Bridge_ip_assoc.c:560-593 | a remove command on an idle bridge, without a failed transmission, is over after at most two callbacks per match and has then removed exactly the matches if and only if no stale mark stood in front of one |
| IpAssoc.RemoveByNodeExactIff | src/Bridge_ip_assoc.c:201-216 | the same for the removal of a node, whatever the counter says |
| IpAssoc.StaleMarkMisleads | src/Bridge_ip_assoc.c:201-216 | after a failed request for node 7 the removal of node 8 removes node 7's association and leaves node 8's |
| IpAssocRuns.RefusedIff | src/Bridge_ip_assoc.c:560-593 | after any run from idle in which nodes are removed between requests, a remove command is refused, with nothing else done, if and only if a request is under way, or a transmission failed and no node was removed since; the assertion never failed |
| IpAssocRuns.ChainOutcome | src/Bridge_ip_assoc.c:1053-1152 | how far a chain runs: it uses up the marked entries it can pass by, and then is over, waits at the first other one, or fails for want of one |
| IpAssocRuns.StepFailsIff | src/Bridge_ip_assoc.c:1053-1074 | an event makes the assertion fail if and only if it resumes a chain that finds fewer marked entries than the counter says and stops at none of them |
| IpAssocRuns.AssertionHoldsIff | src/Bridge_ip_assoc.c:1053-1074 | over all runs, overlapping removals included, the assertion never fails if and only if no event is such |
| IpAssocRuns.StepGuardIff | src/Bridge_ip_assoc.c:560-593 | an event keeps the counter above zero exactly while callbacks are due, if and only if it is not one of those that unsettle it |
| IpAssocRuns.RefusedWhileDueIff | src/Bridge_ip_assoc.c:560-593 | over all runs, remove commands are refused exactly while a request is under way, at every moment, if and only if no event unsettles the counter |
| IpAssocRuns.NodeRemovalUnlocks | src/Bridge_ip_assoc.c:201-216 | removing a node without associations lets the next remove command in, also during a request or after a failed one |
| IpAssocRuns.OverlapFailsAssertion | src/Bridge_ip_assoc.c:1053-1074 | a run in which a node is removed during a request for it and no marked entry is left for the counter; `AssertionHoldsIff` has the condition |
| IpAssocBridge.Bridge.constructor | src/Bridge_ip_assoc.c:131-160 | a bridge with its table loaded and nothing under way |
| IpAssocBridge.Bridge.FindAndMarkForRemoval | src/Bridge_ip_assoc.c:1173-1200 | the loop marks every match and counts them |
| IpAssocBridge.Bridge.FindFirstMarked | src/Bridge_ip_assoc.c:1028-1042 | the loop finds the first marked entry, or none if none is marked |
| IpAssocBridge.Bridge.RemoveAllMarked | src/Bridge_ip_assoc.c:1053-1074 | the first marked entry is announced or removed as the model says; without one the assertion fails |
| IpAssocBridge.Bridge.RemoveAndPersist | src/Bridge_ip_assoc.c:1117-1152 | the entry leaves the table and the table is saved |
| IpAssocBridge.Bridge.FinishRemoval | src/Bridge_ip_assoc.c:1117-1145 | a permanent association first takes its virtual node out of the network; the request then continues |
| IpAssocBridge.Bridge.FindEntry | src/Bridge_ip_assoc.c:1117-1152 | the loop finds the entry a callback was armed with, if it is still there |
| IpAssocBridge.Bridge.ContinueWithNext | src/Bridge_ip_assoc.c:1089-1109 | the counter goes down and the next entry follows or the report is sent |
| IpAssocBridge.Bridge.HandleRemove | src/Bridge_ip_assoc.c:560-593 | the command is refused while a request is under way, else marks and starts |
| IpAssocBridge.Bridge.RemoveByNodeId | src/Bridge_ip_assoc.c:201-216 | the associations of a removed node are taken out |
| IpAssocBridge.Bridge.RemoveCallback | src/Bridge_ip_assoc.c:1202-1220 | a transmit result continues or gives up the request |
| IpAssocBridge.Bridge.LearnCallback | src/Bridge_ip_assoc.c:1089-1109 | the end of virtual-node removal continues the request |
| TempAssoc.RunKeepsInv | src/Bridge_temp_assoc.c:432-613 | in every run: slots, static ids and clients pairwise different, virtual id equal to static id and issued for the class, at most four long-range and four (or one) classic, pool exactly the table, entries in binding order, a lock names a table entry |
| TempAssoc.SetupKeeps | src/Bridge_temp_assoc.c:371-389 | what is added is always new to the table: neither the duplicate branch nor the missing-id branch is taken |
| TempAssoc.FreshKeeps | src/Bridge_temp_assoc.c:432-474 | the pool always has a slot; the new entry is bound to the client if and only if an id is loaded |
| TempAssoc.RecycleKeeps | src/Bridge_temp_assoc.c:476-498 | the recycled entry is the one bound longest ago of its class, the locked one aside; the others keep their order |
| TempAssoc.LookupsExact | src/Bridge_temp_assoc.c:193-207 | every entry is the one found by its virtual id and by its client |
| TempAssoc.ReplyFindsClient | src/Bridge_temp_assoc.c:112-152 | the id a frame is sent from leads back to its client, and asking again changes nothing |
| TempAssoc.RefusedIff | src/Bridge_temp_assoc.c:391-498 | a new client is refused exactly when no id is left to load, or the only classic association is locked, or there is none for a non-node target; never for long range |
| TempAssoc.EveryClientServed | src/Bridge_temp_assoc.c:391-498 | with four ids and no single-classic setting every client gets an association after any run |
| TempAssoc.RefusedInsteadOfRecycled | src/Bridge_temp_assoc.c:445-474 | with one id loaded a second client is refused while the first association could be recycled |
| TempAssoc.LockedIsNotRecycled | src/Bridge_temp_assoc.c:155-190 | a locked association keeps its client and its id through any run that does not touch the lock |
| TempAssocTable.Table.constructor | src/Bridge_temp_assoc.c:67-79 | an empty, unlocked table with nothing handed out yet; valid if the ids loaded are different classic ones |
| TempAssocTable.Table.LookupByZipClient | src/Bridge_temp_assoc.c:512-556 | the loop returns the first entry of the client and class |
| TempAssocTable.Table.LookupByVirtualNodeId | src/Bridge_temp_assoc.c:193-207 | the loop returns the first entry with the id |
| TempAssocTable.Table.AllocateSlot | src/Bridge_temp_assoc.c:445-449 | the lowest free pool slot, or none |
| TempAssocTable.Table.AddToTable | src/Bridge_temp_assoc.c:371-389 | appends, or frees the slot if an equal entry is there |
| TempAssocTable.Table.SetupAndSave | src/Bridge_temp_assoc.c:574-613 | binds the entry to the client; without an id it goes back to the pool |
| TempAssocTable.Table.TakeFresh | src/Bridge_temp_assoc.c:445-474 | a new entry with the next id of its class |
| TempAssocTable.Table.TakeOldest | src/Bridge_temp_assoc.c:476-498 | the loop takes out the first entry of the class that is not locked |
| TempAssocTable.Table.CreateAssociation | src/Bridge_temp_assoc.c:112-152 | the code equals the model's creation and keeps the table valid |
| TempAssocTable.Table.FindOrCreate | src/Bridge_temp_assoc.c:112-152 | the statements of the creation equal the model's |
| TempAssocTable.Table.RegisterLock | src/Bridge_temp_assoc.c:155-170 | the lock moves to this association of the table or to the unsolicited destination's; the table stays valid |
| TempAssocTable.Table.ReleaseLockOnTimeout | src/Bridge_temp_assoc.c:173-190 | the lock is released whoever holds it; the table stays valid |
| VersionProbe.SetThenGet | src/RD_internal.c:64-116 | a version set is read back for its class if the cache has an entry for it, and for no other class |
| VersionProbe.SetWritesFirst | src/RD_internal.c:93-116 | a set writes the first entry of the class and nothing else |
| VersionProbe.PostSettles | src/RD_probe_cc_version.c:134-274 | an event posted in step with the state comes to rest waiting or finished; it hangs only if its request was refused, and the failure flag is set by nothing else |
| VersionProbe.AnswerDescends | src/RD_probe_cc_version.c:22-109 | every reply lowers the number of replies that can still come |
| VersionProbe.InterviewCompletes | src/RD_probe_cc_version.c:111-274 | with all requests accepted the interview ends within nine replies, having asked each supported class of unknown version once in table order, capabilities and software exactly when due, and called back once with status 0 if and only if no version or capability reply was bad; then all versions are known if and only if the cache can hold them |
| VersionProbe.CalledUnlessRefused | src/RD_probe_cc_version.c:153-181 | whatever is refused or answered, the callback comes once, or never if and only if a request was refused |
| VersionProbe.GatewayIsNotAsked | src/RD_probe_cc_version.c:111-132 | the gateway itself gets one callback with status 0 and no request |
| VersionProbeFsm.Fsm.constructor | src/RD_internal.c:118-148 | a fresh record: never interviewed |
| VersionProbeFsm.Fsm.VersionGet | src/RD_internal.c:64-91 | the loop reads the version, 0 for a deleted node or a missing class |
| VersionProbeFsm.Fsm.VersionSet | src/RD_internal.c:93-116 | the loop writes the first entry of the class, nothing for a deleted node |
| VersionProbeFsm.Fsm.PostEvent | src/RD_probe_cc_version.c:134-274 | the recursive machine equals the model's and terminates |
| VersionProbeFsm.Fsm.PostIdle | src/RD_probe_cc_version.c:146-152 | the code's step equals the model's |
| VersionProbeFsm.Fsm.PostSendCcGet | src/RD_probe_cc_version.c:153-181 | the code's step equals the model's |
| VersionProbeFsm.Fsm.PostLastReport | src/RD_probe_cc_version.c:182-196 | the code's step equals the model's |
| VersionProbeFsm.Fsm.PostCheckIfV3 | src/RD_probe_cc_version.c:197-208 | the code's step equals the model's |
| VersionProbeFsm.Fsm.PostSendCapGet | src/RD_probe_cc_version.c:209-226 | the code's step equals the model's |
| VersionProbeFsm.Fsm.PostSendZwsGet | src/RD_probe_cc_version.c:227-252 | the code's step equals the model's |
| VersionProbeFsm.Fsm.PostProbeDone | src/RD_probe_cc_version.c:253-269 | the code's step equals the model's |
| VersionProbeFsm.Fsm.ProbeCcVersion | src/RD_probe_cc_version.c:111-132 | starting an interview equals the model's start |
| VersionProbeFsm.Fsm.CcVersionCallback | src/RD_probe_cc_version.c:22-57 | a version reply equals the model's |
| VersionProbeFsm.Fsm.NoteVersion | src/RD_probe_cc_version.c:32-54 | stores the version exactly if the reply is for the asked class and at least 1, else marks the failure |
| VersionProbeFsm.Fsm.VersionCapabilitiesCallback | src/RD_probe_cc_version.c:62-82 | a capability reply equals the model's |
| VersionProbeFsm.Fsm.VersionZwaveSoftwareCallback | src/RD_probe_cc_version.c:87-109 | a software reply equals the model's |
| NmQueue.RunKeeps | src/CC_NetworkManagement_queue.c:78-118 | in every run: listed elements are the allocated ones, at most ten; each accepted command is listed and unanswered or answered exactly once; a command starts only after all earlier ones for its node were answered, and while no other node is served |
| NmQueue.EachAnsweredOnce | src/CC_NetworkManagement_queue.c:106-118 | in every run from empty an accepted command has one final answer exactly once it left the list, and all have after a purge |
| NmQueue.RunAck | src/CC_NetworkManagement_queue.c:176-188 | in every run a command is ACKed exactly when it was handed to the handler; all other answers are NAKs |
| NmQueue.AcceptsUnlessFull | src/CC_NetworkManagement_queue.c:78-94 | a command is queued exactly while fewer than ten wait |
| NmQueue.PurgeNodeKeeps | src/CC_NetworkManagement_queue.c:164-173 | purging a node leaves the others' commands in order and the books balanced |
| NmQueue.PurgeAllKeeps | src/CC_NetworkManagement_queue.c:114-118 | purging everything empties the list with the books balanced |
| NmQueue.WakeUpServesAll | src/CC_NetworkManagement_queue.c:176-205 | a woken node has all its commands handed over, one per completion, and is then given back to the mailbox, the other nodes' commands waiting on in order |
| NmQueue.ServedWhateverComes | src/CC_NetworkManagement_queue.c:176-205 | whatever comes in between, a node being served is given back with none of its commands left, at the latest at the first completion in excess of its commands, if completions find the handler free |
| NmCommandQueue.CommandQueue.constructor | src/CC_NetworkManagement_queue.c:28-34 | an empty queue serving nobody, its books balanced |
| NmCommandQueue.CommandQueue.AllocateSlot | src/CC_NetworkManagement_queue.c:81-85 | the lowest free slot, or none |
| NmCommandQueue.CommandQueue.QueueCommand | src/CC_NetworkManagement_queue.c:78-94 | the command joins the end of the list with a waiting answer, or is left to its caller; the books stay balanced |
| NmCommandQueue.CommandQueue.FindElement | src/CC_NetworkManagement_queue.c:96-104 | the loop finds the first command of the node |
| NmCommandQueue.CommandQueue.RemoveElement | src/CC_NetworkManagement_queue.c:106-112 | the command gets its final answer and its slot is freed |
| NmCommandQueue.CommandQueue.WakeUpEvent | src/CC_NetworkManagement_queue.c:176-188 | hands over the node's first command unless another node is served or the handler is busy; order and books are kept |
| NmCommandQueue.CommandQueue.NmDoneEvent | src/CC_NetworkManagement_queue.c:190-205 | goes on with the served node or gives it back; order and books are kept |
| NmCommandQueue.CommandQueue.PurgeNodeCommands | src/CC_NetworkManagement_queue.c:164-173 | the loop removes the node's commands until none is left, the others' stand in order and the books stay balanced |
| NmCommandQueue.CommandQueue.PurgeAllCommands | src/CC_NetworkManagement_queue.c:114-118 | the loop removes the head until the list is empty, the books staying balanced |
| NmCommandQueue.CommandQueue.WaitingTimer | src/CC_NetworkManagement_queue.c:37-43 | a waiting command is announced once more and nothing else changes |
| NmAdd.StateKeeps | src/CC_NetworkManagement.c:711-1103 | every reaction of every state keeps the lock only where it will be given back, leaves the disabled bit, and adds a pending reply only if it sends a late one |
| NmAdd.StepLockIff | src/CC_NetworkManagement.c:1782-1801 | a step keeps the lock discipline if and only if it is not the confirmation of an earlier reply that resets a machine holding the lock |
| NmAdd.LockReleasedIff | src/CC_NetworkManagement.c:1482-1573 | over a whole run the lock is released in every state that does not own it, idle included, if and only if no such confirmation came |
| NmAdd.PromptRepliesReleaseLock | src/CC_NetworkManagement.c:1383-1395 | with replies confirmed at once, idle always means unlocked, through self-destruct, neighbour-update and SUC hand-over paths |
| NmAdd.BootstrapIsGuarded | src/CC_NetworkManagement.c:817-866 | in every run, late confirmations or not, bootstrapping and hand-over go on only with the interview locked |
| NmAdd.LateConfirmationLeavesLock | src/CC_NetworkManagement.c:618-626 | a stop answered while idle, then an inclusion, then the late confirmation of the answer: idle and locked |
| SmartStart.InclusionIsSafe | src/CC_NetworkManagement.c:797-953 | in every run bootstrapping starts only before a result and Smart Start never with S0; a DSK is stored only after a good result of its session; a failed Smart Start session makes at most two removal attempts; every report carries the status of what happened, after a failed Smart Start session Failed only if the node was removed and SecurityFailed only after two failures; no network-update flag sets off a reply |
| SmartStart.RunSafe | src/CC_NetworkManagement.c:1482-1573 | every state of every run agrees with what was seen: attempts and failures so far, the result, the kind of session |
| DskOwner.StepOwnIff | src/CC_NetworkManagement.c:940-953 | a step stores a DSK that was not given in its session if and only if it is a good S2 result in a session that was given none while one is left over |
| DskOwner.StoredOwnIff | src/CC_NetworkManagement.c:940-953 | over every run, each DSK stored was given in its own session if and only if no such result comes |
| DskOwner.AddForgets | src/CC_NetworkManagement.c:521-572 | an add or a Smart Start begins without a DSK |
| DskOwner.AddLeavesDsk | src/CC_NetworkManagement.c:1035-1049 | an S2 add with a matched DSK ends idle with the DSK still marked valid |
| DskOwner.ReplacementMisfiles | src/CC_NetworkManagement.c:1383-1395 | a replacement handed to the SUC on such a machine stores the earlier DSK |
| NmMachine.StepIsLegal | src/CC_NetworkManagement.c:435-1573 | every input leaves the record in agreement with what was seen of the session, bootstrapping guarded and the update flags disabled, and the lock in its discipline if and only if it is no overtaking confirmation |
| NmMachine.Machine.constructor | src/CC_NetworkManagement.c:1782-1801 | the reset machine, valid and unlocked |
| NmMachine.Machine.ResetState | src/CC_NetworkManagement.c:1782-1801 | flags cleared, updates disabled, idle; the lock untouched |
| NmMachine.Machine.SendReply | src/CC_NetworkManagement.c:1611-1635 | reports the status; a Smart Start reply resets at once, another when confirmed |
| NmMachine.Machine.PrepareForAdd | src/CC_NetworkManagement.c:406-423 | a session opens with status Failed and the flags of its kind |
| NmMachine.Machine.SecurityResult | src/CC_NetworkManagement.c:898-986 | the outcome of bootstrapping equals the model's |
| NmMachine.Machine.StartBootstrap | src/CC_NetworkManagement.c:818-866 | the choice of S2, S0, hand-over or none equals the model's |
| NmMachine.Machine.AddDone | src/CC_NetworkManagement.c:781-867 | the end of the protocol's add equals the model's |
| NmMachine.Machine.ReplaceFinished | src/CC_NetworkManagement.c:643-709 | the end of a replacement equals the model's |
| NmMachine.Machine.Fail | src/CC_NetworkManagement.c:869-881 | unlocks and reports Failed |
| NmMachine.Machine.HandleIdle | src/CC_NetworkManagement.c:521-637 | the code's reaction equals the model's |
| NmMachine.Machine.ReplyFailed | src/CC_NetworkManagement.c:618-626 | a stop is answered with Failed |
| NmMachine.Machine.StartAdd | src/CC_NetworkManagement.c:521-637 | an add opens its session with no DSK known yet |
| NmMachine.Machine.StartReplace | src/CC_NetworkManagement.c:521-637 | a replacement opens its session and waits, or reports at once if it could not start |
| NmMachine.Machine.HandleLooking | src/CC_NetworkManagement.c:639-774 | the code's reactions while looking for a node equal the model's |
| NmMachine.Machine.HandleAdding | src/CC_NetworkManagement.c:727-762 | a node with valid information goes on, another fails the session |
| NmMachine.Machine.HandleProtocol | src/CC_NetworkManagement.c:775-881 | the code's reaction equals the model's |
| NmMachine.Machine.HandleProxyNif | src/CC_NetworkManagement.c:1396-1444 | an inclusion on behalf of another controller equals the model's |
| NmMachine.Machine.HandleHandOver | src/CC_NetworkManagement.c:882-890 | the code's reaction equals the model's |
| NmMachine.Machine.HandleSecureAdd | src/CC_NetworkManagement.c:898-1103 | the code's reaction equals the model's |
| NmMachine.Machine.TakeDsk | src/CC_NetworkManagement.c:1035-1099 | a DSK from the list, the node or the client becomes the session's |
| NmMachine.Machine.HandleAfter | src/CC_NetworkManagement.c:1105-1248 | the code's reactions after bootstrapping equal the model's |
| NmMachine.Machine.HandleDestruct | src/CC_NetworkManagement.c:1482-1526 | the code's reactions before a removal equal the model's |
| NmMachine.Machine.AttemptRemoval | src/CC_NetworkManagement.c:1496-1526 | the controller is asked to remove the node; a refusal counts as a failed removal |
| NmMachine.Machine.HandleRemoval | src/CC_NetworkManagement.c:1528-1573 | the code's reactions to the removal's answer equal the model's |
| NmMachine.Machine.RemoveFailedOk | src/CC_NetworkManagement.c:1528-1549 | a removed node is reported as Failed, the machine reset and the interview unlocked |
| NmMachine.Machine.RemoveFailedFail | src/CC_NetworkManagement.c:1550-1564 | the first failure waits for a second attempt, the second reports and resets |
| NmMachine.Machine.PostEvent | src/CC_NetworkManagement.c:435-1609 | the machine dispatches each event to its state's handler, as in the model |
| NmMachine.Machine.PostDestructEvent | src/CC_NetworkManagement.c:1482-1573 | the states of a removal dispatch as in the model |
| NmMachine.Machine.PostAfterEvent | src/CC_NetworkManagement.c:1105-1248 | the states after bootstrapping dispatch as in the model |
| NmMachine.Machine.NetworkUpdateStatus | src/CC_NetworkManagement.c:1714-1734 | a reply goes out when exactly the three update bits are set |
| NmMachine.Machine.ReplyDelivered | src/CC_NetworkManagement.c:1858-1864 | the confirmation of an earlier reply resets the machine |
| NmMachine.Machine.Dispatch | src/CC_NetworkManagement.c:435-1609 | every input reaches its handler as in the model |
| NmMachine.Machine.TakeInput | src/CC_NetworkManagement.c:435-1609 | every input keeps the machine valid, and the lock in its discipline if and only if it is no overtaking confirmation |
| Provisioning.WalkRecovers | src/CC_provisioning_list.c:202-282 | the parser sees every element of a report's section in order, except a last one without a value |
| Provisioning.VisibleIsAllButEmptyLast | src/CC_provisioning_list.c:202-282 | what the walk recovers is the whole list, or all but the last element if that has no value |
| Provisioning.SetKeepsList | src/CC_provisioning_list.c:166-366 | any frame leaves entries with well-formed elements of different kinds and different DSKs, and a parse error leaves the list unchanged |
| Provisioning.SetAllKeepsList | src/CC_provisioning_list.c:166-366 | the same over any sequence of frames |
| Provisioning.ReportIsFixpoint | src/CC_provisioning_list.c:75-151 | the report of any entry built by Sets, sent back as a Set, is accepted and leaves the whole list as it was |
| Provisioning.StoreReadsBack | src/CC_provisioning_list.c:343-365 | after a Set each element reads back as given, or as before if not mentioned or empty |
| Provisioning.ReplacedAt | src/provisioning_list.c:903-934 | an existing element is overwritten in its place |
| ProvisioningStore.ProvisioningList.constructor | src/provisioning_list.c:27-41 | an empty table |
| ProvisioningStore.ProvisioningList.DevGet | src/provisioning_list.c:738-758 | the loop finds the entry with the DSK |
| ProvisioningStore.ProvisioningList.FreeSlot | src/provisioning_list.c:689-717 | the loop finds the first free slot |
| ProvisioningStore.ProvisioningList.ParseElements | src/CC_provisioning_list.c:202-282 | the loop over the frame equals the model's parse |
| ProvisioningStore.ProvisioningList.StoreTlvs | src/CC_provisioning_list.c:343-365 | the elements are written in the code's order |
| ProvisioningStore.ProvisioningList.HandleSet | src/CC_provisioning_list.c:166-366 | the handler equals the model's Set, errors included |
| ProvisioningStore.ProvisioningList.EditEntry | src/CC_provisioning_list.c:322-365 | the entry is edited or created in the first free slot |
| ProvisioningStore.ProvisioningList.BuildReportTlvs | src/CC_provisioning_list.c:75-126 | the loop builds the report's section |
| NodeInfoClasses.SetFitsIff | src/CC_Gateway.c:303-340 | a Set stays within the parser's lists, the configuration's and the text line if and only if its payload, up to its length modulo 256, is empty or names at most 32 plain and 32 secure classes and 62 together; then it stores what it parsed |
| NodeInfoClasses.LongPayloadIsCut | src/CC_Gateway.c:310-314 | a payload longer by a multiple of 256 bytes is treated as the short one |
| NodeInfoClasses.ParsePrint | src/CC_Gateway.c:342-378 | what a Report prints a Set stores exactly, for one-byte classes not both empty, if and only if the configuration can hold them; others of less than 256 bytes overrun it |
| NodeInfoClasses.ReportIsCanonical | src/CC_Gateway.c:303-378 | after a Set that was stored and in which no two-byte class was seen, a Set of what a Get returns leaves the configuration |
| NodeInfoClasses.GetReturnsSetIff | src/CC_Gateway.c:303-478 | a Get returns the very payload of the Set if and only if it has no control mark, no complete two-byte class and at most one secure mark, written F1 00, with classes after it, and at most 32 classes before and 32 after the mark, 62 together |
| NodeInfoClasses.ExtendedLosesByte | src/CC_Gateway.c:416-446 | a two-byte class is read as its first byte alone |
| NodeInfoConfig.CmdClsParse | src/CC_Gateway.c:395-478 | the loop over the first bytes of the payload, as many as fit eight bits, fills the two buffers with the model's lists, and stops exactly where a write would be past the end |
| NodeInfoConfig.PutByte | src/CC_Gateway.c:426-446 | one class is counted; the second byte of a two-byte class is written behind it and not counted |
| NodeInfoConfig.Copy | src/CC_Gateway.c:319-333 | the loop copies a list into the configuration |
| NodeInfoConfig.Config.constructor | src/zip_router_config.h:145-161 | a configuration without extra classes |
| NodeInfoConfig.Config.SetNodeInfo | src/CC_Gateway.c:303-340 | the length is cut to eight bits and the outcome is the model's; within the buffers the configuration becomes the parsed lists, or stays if nothing is seen |
| NodeInfoConfig.Config.GetNodeInfo | src/CC_Gateway.c:342-378 | the payload of the report is the model's print of the configuration |
| NodeDb.CursorVisits | src/RD_internal.c:201-244 | the cursor visits each endpoint once, in node order and list order, up to the first stored node without endpoints |
| NodeDb.CursorVisitsAllIff | src/RD_internal.c:201-244 | it visits all endpoints if and only if none lies behind a stored node without endpoints |
| NodeDb.AddKeepsUniqueIff | src/RD_internal.c:326-366 | adding a key keeps keys unique if and only if no other holder of it is shadowed by a longer key |
| NodeDb.RunKeepsUnique | src/RD_internal.c:118-162 | over any allocations, releases and additions of keys of one length no two nodes hold the same key |
| NodeDb.AddThenLookup | src/RD_internal.c:415-434 | a key just added leads to its node |
| NodeDb.LongerKeyShadows | src/RD_internal.c:415-434 | a longer key at a lower id lets two nodes end with the same key, were keys of different lengths ever added |
| NodeDatabase.Database.constructor | src/RD_internal.c:30-34 | an empty table of 4000 nodes |
| NodeDatabase.Database.StoredAfter | src/RD_internal.c:211-220 | the loop finds the next stored node |
| NodeDatabase.Database.EpFirst | src/RD_internal.c:201-226 | the first endpoint as in the model |
| NodeDatabase.Database.EpNext | src/RD_internal.c:228-244 | the next endpoint as in the model |
| NodeDatabase.Database.EveryEndpoint | src/RD_internal.c:201-244 | a loop over the cursor terminates having seen exactly the endpoints in order |
| NodeDatabase.Database.LookupByDsk | src/RD_internal.c:415-434 | the loop finds the first node whose key begins with the bytes |
| NodeDatabase.Database.NodeAddDsk | src/RD_internal.c:326-366 | the earlier holder is cleared and the node gets the key |

## Left out

- Security 0: transmit options, the key arithmetic and the encryption layer below the statechart.
- SecureLearn.CycleDescends: Idle is the bottom of the rank and starts sessions, so nothing is said about leaving it.
- SecureLearnPair.ControllerSuccessMeansInherited: for a joiner in learn mode once; over several sessions `AgreementInEveryRun` counts instead.
- Mailbox: proxy service, ping and probe states, purging and aging of frames, broken nodes.
- MailboxMachine.Machine.StateTransition: without the proxy and ping states and without the check for node 0, which belong to the services left out above.
- MailboxMachine.Machine.WakeUpEvent: the caller has found network management and the probe engine idle.
- MailboxMachine.Machine.PostFrame: without the slot kept free for the proxy service and without the purge of a failing node's frames.
- MailboxSender.RemovesDeliveredIff: for passes whose frames the sender accepts; a refused one ends the session, which `SessionSleepDecision` covers.
- IP associations: proxy associations, aborts, and the creation of associations.
- IpAssoc.CallbackIsSound: for one chain of removals at a time; `AssertionHoldsIff` covers overlapping ones.
- IpAssocRuns.RefusedIff: for runs in which nodes are removed between requests; `RefusedWhileDueIff` covers all.
- IpAssocRuns.OverlapFailsAssertion: one run; `AssertionHoldsIff` has the condition.
- Temporary associations: creation of the virtual nodes themselves, and the assertion that stops a debug build where the model returns no association.
- Version interview: two interviews at once, which would share the record of the class asked for.
- VersionProbe.PostSettles: says what an event in step with the state leads to; one out of step is ignored and that is not restated.
- NmQueue.WakeUpServesAll: without another event between the completions; `ServedWhateverComes` allows any.
- Network-management queue: the decision whether a target is a sleeping node, and a handler that reports completion before it returns.
- NmMachine.Machine.PostEvent: the events of adding, replacing and removing after a failed inclusion; the others of the cited function are left out with the features below.
- NmMachine.Machine.Dispatch: the same events as `PostEvent`, with network updates and confirmations.
- NmMachine.Machine.TakeInput: the same events as `Dispatch`.
- DskOwner.StoredOwnIff: about the flag that marks the DSK valid, not about its sixteen bytes, of which a client may set only the first.
- Adding nodes: learn mode, set default, node removal, the layout of the status frame and the granting of keys. Every event, timeouts included, may come at any time in the model.
- Provisioning list: deletion, iteration, persistence and the name checks, which are parameters.
- Extra command classes: the writing of the configuration file, and what the code does once it has written past a buffer.
- NodeDb.LongerKeyShadows: about the table's function; its one caller adds keys of one length.
- NodeDatabase.Database.NodeAddDsk: without the assertion that the node has no other key; a key there is replaced, as the code does where assertions are off.
- Node database: persistence and the copying of names and locations to a node's first endpoint.
- Firmware update, DTLS, DHCP, mDNS, portal and the small report handlers: they would only add easy members.
