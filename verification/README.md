# Proofs about the remote agent, its phone client and the session-script SDK

Xedoc's remote agent lets browsers and iPhones follow coding sessions that run on a host. This project
models the parts of it whose guarantees span several steps, several processes or several machines, and
proves those guarantees. `dafny verify dfyconfig.toml` checks everything.

| file | what it models |
|---|---|
| `WebSocketFrames.dfy`, `WebSocketMessages.dfy`, `Handshake.dfy`, `WireBytes.dfy` | the WebSocket codec, the buffered socket reader, the handshake reader and message assembly (sections 5.2 to 5.5 of RFC 6455) |
| `JsonLines.dfy` | the JSONL reader of a host-managed child |
| `RpcClient.dfy` | nested requests over one connection, with buffered responses |
| `Accounts.dfy`, `AccountChanges.dfy`, `AccountSizes.dfy`, `AccountTexts.dfy`, `HostAuth.dfy`, `LoginSessions.dfy`, `LoginReturns.dfy`, `LoginThrottle.dfy` | the user table, which tables accepted changes lead to, its size in bytes and its JSON text; login sessions beside it in two files, each single one, and which of them can come back; login throttling |
| `HostPush.dfy`, `PushOperations.dfy`, `PushProtocol.dfy`, `PushSegments.dfy`, `PushRuns.dfy`, `PushPhone.dfy`, `PushDelivery.dfy`, `PushCouriers.dfy`, `StatusObserver.dfy` | push subscriptions: the host's store and what each operation comes to, the phone segment by segment, both together over a lossy network and runs that get through, delivery, and the status observer |
| `IdleRestart.dfy`, `DaemonOwnership.dfy` | restarting once idle, and one daemon per state directory |
| `UpdateLog.dfy` | the installer's bounded output log and its polling clients |
| `LiveTurns.dfy`, `JsonValues.dfy` | the record of live turn items, and bounded copies of JSON values |
| `ExtensionBindings.dfy` | leases of extension children |
| `SessionGuis.dfy` | browser sessions and the terminal producers behind them |
| `OrderedDicts.dfy`, `Deliveries.dfy`, `Sequences.dfy`, `Counting.dfy`, `Wrappers.dfy` | Python's ordered dictionary; the ways a byte stream can be cut into chunks; equations between sequences; sizes of sets and maps; `Option` and `Result` |

Each state-changing object of the source is a class whose methods are proved against a function or a
relation on values (`Decode`, `Perform`, `Attempted`, `After`, `Receive`, ...); the guarantees are lemmas
about those functions, over every run. Protocols between threads, processes or machines are state machines
whose steps are the source's atomic sections. Beside what can never happen stands what does: each step is
pinned to its effect, and runs are built in which a device goes live and moves (`LivesHereThenThere`), an event
reaches everybody (`DeliversToAll`), an idle broker restarts (`RestartCanFollow`) and a daemon starts and stops
(`CanServeAndStop`).

## What is assumed

- SHA-256, the user-table hash and the password digest are injective; fresh secrets, tokens, lease names and
  producer handles do not repeat. A subscription secret stands for its hash.
- `os.replace` of a synced temporary file is one atomic durable step; a write can fail before it for any
  reason, including the push store's own size limit.
- The user file is ASCII JSON as `json.dump` writes it, salts and digests having 64 digits. A session file
  of at most 256 entries stays far below the limit it is loaded under.
- What the account store keeps in every run is proved for changes to any user table; which logins can come
  back, for runs of the changes that `save_user` and `delete_user` accept, salts being new when drawn.
- The login failures are kept in memory only: what is said of them holds for one lifetime of the process.
- One host address always leads to the same host. What a host answers to `register` is arbitrary; only an
  acknowledged `unregister` means something.
- An iOS launch that cannot read the keychain leaves the app without a record, so it neither sends nor
  stores anything; it counts as the app not running.
- `recv` and `read` return any non-empty part of what is to come, up to the size asked for, and nothing only
  at the end. Exclusive or and the header's bit fields are written out arithmetically.
- A peer of the RPC client answers a request at most once, and only after it was sent. A handler may issue
  any number of requests, and may let an error escape; the request it interrupted is then abandoned.
- Restart: one serving epoch. Work becomes visible to its component before its `admit` block is left. Each
  read of the waiter is a step of its own; the grace period only decides when it moves.
- A process that dies drops its lock at once. Process ids may be reused.
- Clocks do not go back where a lemma says so. Locks make the sections they cover atomic.

## What the proofs found

- Within one lifetime of the process, an address that never logs in gets at most nineteen failed password
  checks in any 300 seconds, not twenty, and nineteen is reached (`AtMostNineteenChecks`, `NineteenReached`).
- Every accepted session was issued under a user table equal to the current one, across crashes. Once
  `save_user` or `delete_user` has returned without an error, no login made before is accepted ever again
  (`ChangeEndsLogins`); the same holds of a logout (`LogoutEndsLogin`). A change that was cut off between its
  two files does not guarantee that. A key that is not accepted can come back exactly when the session file
  still holds it, unexpired, for a user of the loadable table the file was written under, every account of
  that table is still there with the same salt and digest, and there is no administrator now unless that
  table has one (`ReturnsExactly`). So a change of role or assignments that was cut off can be undone, as in
  `WipedSessionReturns`; one that gave an account a new password, deleted one or made the first administrator
  cannot (`SavedRestorable`, `DeletedRestorable`).
- The account store writes a user file of any size but does not start from one beyond 1 MiB. Accepted changes
  alone lead there, with 128 configured workspaces and 118 accounts (`AcceptedButTooLarge`); a change keeps the
  file loadable exactly when the other accounts leave room for the changed one (`SavedFitsExactly`), and a
  deletion always does (`DeletedFits`).
- A request whose handler lets an error escape is given up even if its response already is in the buffer; with
  no escaped error and at most 64 outer requests, every response the peer sends reaches its request
  (`Request`, `AllReturned`).
- `request_shutdown` takes no lifecycle lock, so the restart waiter can open the gate again after it: exactly
  when it stands between its check of the flags and `open` (`ReopensExactly`, `AdmittedAfterShutdown`).
- The JSONL reader's outcome depends on the bytes alone, but a line over the limit by less than one read may
  or may not be consumed by its error, depending on the chunks (`UnreadSettledExactly`).
- The handshake reader tests its limit of 65536 bytes after each read of up to 4096. A marker that ends by
  byte 61441, or in a stream within the limit, is accepted however the bytes arrive; one beyond the limit
  never is; for any other the chunks decide, and both outcomes occur (`AcceptanceExactly`).
- After exactly 1000 other threads change, the observer forgets a thread and misses its end
  (`ForgottenTurn`); with fewer it announces what an unbounded memory would.
- Restarting a held turn keeps its old place in the sixteen, so it can be the next to go
  (`RestartIsNoRefresh`).

## Model

| member | source | states |
|---|---|---|
| `PushProtocol.LiveOrPendingIsRecorded` | ios/Xedoc/PushSubscription.swift:56-203 | over any run with loss, delay, duplication, reordering and crashes, a secret of a phone that is live at a host, or that a register in flight could make live, is tombstoned there or is the phone's recorded subscription for that host |
| `PushProtocol.AtMostOneLive` | remote-agent/xedoc_remote_agent/host_push.py:129-185 | two live devices of one installation, at any hosts, are the same subscription of the same host |
| `PushProtocol.SwitchLeavesNothing` | ios/Xedoc/PushSubscription.swift:56-74 | when a phone's recorded host changes, nothing of it is live anywhere and every register still in flight meets a tombstone |
| `PushProtocol.TombstonedIsDead` | remote-agent/xedoc_remote_agent/host_push.py:143-148 | a tombstoned secret is served neither by a running host nor after its restart |
| `PushProtocol.RefreshAndSwitchExclude` | ios/Xedoc/PushSubscription.swift:56-123 | while a switch revokes, no refresh is under way, and memory agrees with the keychain |
| `PushProtocol.ActCareful` | ios/Xedoc/PushSubscription.swift:136-203 | every segment gives a subscription up only on a confirmed revocation of it, registers only what the keychain already holds, and draws a secret only when it holds none |
| `PushProtocol.SendRegisterCareful` | ios/Xedoc/PushSubscription.swift:162-181 | a registration names the secret that the keychain holds by then, an old one if there was one |
| `PushSegments.SwitchWithoutSecret` | ios/Xedoc/PushSubscription.swift:63-67 | without a subscription, a switch records the chosen host if the keychain takes it, sends nothing and leaves the phone idle |
| `PushSegments.SwitchToSame` | ios/Xedoc/PushSubscription.swift:64-64 | choosing the recorded host again keeps its subscription |
| `PushSegments.SwitchAsksFirst` | ios/Xedoc/PushSubscription.swift:193-196 | with a subscription, leaving its host first sends that host a revocation of that very secret |
| `PushSegments.SwitchEndsAtChosenHost` | ios/Xedoc/PushSubscription.swift:65-67 | once revocation and keychain write have succeeded, the record is the chosen host, or the old one if the last write fails, without a subscription |
| `PushSegments.DenialKeepsHost` | ios/Xedoc/PushSubscription.swift:111-116 | denied notifications end with the host recorded and no subscription |
| `PushSegments.SwitchGivesUp` | ios/Xedoc/PushSubscription.swift:197-202 | without a confirmation, or if the keychain fails, the record is as before and the switch is over |
| `PushSegments.RefreshBegins` | ios/Xedoc/PushSubscription.swift:136-141 | with no switch and no refresh under way, a refresh asks the recorded host |
| `PushSegments.ReadyRegisters` | ios/Xedoc/PushSubscription.swift:162-179 | a host that is ready is sent the recorded secret, or a new one that the keychain holds by then |
| `PushSegments.OthersSendNothing` | ios/Xedoc/PushSubscription.swift:142-161 | any other answer sends no registration; without a service a recorded secret is revoked |
| `PushSegments.AnswerEndsRefresh` | ios/Xedoc/PushSubscription.swift:180-189 | a registration ends the refresh unless it is refused for the first time |
| `PushSegments.RefusalRevokes` | ios/Xedoc/PushSubscription.swift:184-187 | a first refusal revokes the refused secret at the same host |
| `PushSegments.RetryRegistersAnew` | ios/Xedoc/PushSubscription.swift:163-187 | then a new secret is recorded and sent to the same host, as the last attempt |
| `PushSegments.RetryUnsaved` | ios/Xedoc/PushSubscription.swift:163-171 | a new secret that the keychain does not take is not sent |
| `PushSegments.NoServiceForgets` | ios/Xedoc/PushSubscription.swift:152-157 | revoked for want of a service, the host stays recorded without a subscription |
| `PushSegments.RefreshGivesUp` | ios/Xedoc/PushSubscription.swift:193-202 | an unconfirmed revocation changes nothing and ends the refresh |
| `PushRuns.CanSubscribe` | ios/Xedoc/PushSubscription.swift:136-189 | from any world in which a phone rests at a recorded host, a run leads to a new secret live at that host with the token it sent, whenever the host accepts it |
| `PushRuns.CanSwitch` | ios/Xedoc/PushSubscription.swift:56-74 | from rest with a live subscription a run leads to rest at any chosen host, the old one holding a tombstone |
| `PushRuns.LivesHereThenThere` | ios/Xedoc/PushSubscription.swift:56-203 | from a phone at rest with nothing recorded and two hosts without a store, a run in which its device is live at the first host, and then, after a switch, at the second alone |
| `PushPhone.PushSubscription.constructor` | ios/Xedoc/PushSubscription.swift:32-46 | a launch takes the record from the keychain and is valid |
| `PushPhone.PushSubscription.Save` | ios/Xedoc/PushSubscription.swift:205-221 | keychain first, then memory; a failed write changes neither |
| `PushPhone.PushSubscription.BeginSwitch` | ios/Xedoc/PushSubscription.swift:57-59 | a second switch is turned away; the first sets the flag and waits for the refresh |
| `PushPhone.PushSubscription.ProceedSwitch` | ios/Xedoc/PushSubscription.swift:60-67 | after the refresh, the segment up to the first suspension of `revoke`, or all of the switch when there is nothing to revoke; the object stays valid and the subscription is not given up unconfirmed |
| `PushPhone.PushSubscription.Finish` | ios/Xedoc/PushSubscription.swift:65-73 | what follows a completed revocation in a switch, with the flag reset whatever happens |
| `PushPhone.PushSubscription.AskSwitch` | ios/Xedoc/PushSubscription.swift:194-196 | the revocation sent is the one noted on entry |
| `PushPhone.PushSubscription.AnswerSwitch` | ios/Xedoc/PushSubscription.swift:197-202 | only a confirmed and stored revocation lets the switch go through and gives the recorded subscription up |
| `PushPhone.PushSubscription.Ready` | ios/Xedoc/PushSubscription.swift:76-80 | a page of the recorded host starts a refresh unless a switch or another refresh is under way; any other page changes nothing |
| `PushPhone.PushSubscription.ReceivedToken` | ios/Xedoc/PushSubscription.swift:93-99 | a token during a refresh asks for another one; otherwise the last page starts one |
| `PushPhone.PushSubscription.RefreshEnded` | ios/Xedoc/PushSubscription.swift:81-87 | the repeated refresh starts exactly when a token asked for it, no switch is under way and the page still is of the recorded host |
| `PushPhone.PushSubscription.Checked` | ios/Xedoc/PushSubscription.swift:141-165 | the status answer leads to stopping, revoking or registering; a registration names what the keychain holds by then |
| `PushPhone.PushSubscription.Register` | ios/Xedoc/PushSubscription.swift:163-179 | a new secret is stored before any request names it |
| `PushPhone.PushSubscription.RegisterAnswered` | ios/Xedoc/PushSubscription.swift:180-188 | only the first refusal starts a revocation, and it keeps the recorded subscription |
| `PushPhone.PushSubscription.AskRefresh` | ios/Xedoc/PushSubscription.swift:194-196 | the revocation sent is the one noted on entry |
| `PushPhone.PushSubscription.AnswerRefresh` | ios/Xedoc/PushSubscription.swift:184-203 | only a confirmed revocation clears the record and, in the loop, registers anew |
| `HostPush.PerformKeeps` | remote-agent/xedoc_remote_agent/host_push.py:93-185 | every operation, succeeding or failing, keeps devices and tombstones disjoint, within 256 and 4096 and equal to the file, loses no tombstone and no device except into the tombstones; a failure changes nothing |
| `HostPush.AskedKeeps` | remote-agent/xedoc_remote_agent/host_push.py:129-185 | the store an operation asks for is disjoint and has at most 256 devices |
| `HostPush.AskedFlows` | remote-agent/xedoc_remote_agent/host_push.py:93-95 | devices leave only into the tombstones, and only a registration adds one |
| `HostPush.SecretKeepsOwner` | remote-agent/xedoc_remote_agent/host_push.py:143-160 | over any run, a secret live at two moments belongs to the same account and installation at both and was live all the while |
| `HostPush.OwnerStays` | remote-agent/xedoc_remote_agent/host_push.py:149-156 | no single operation hands a live secret to another account or installation |
| `HostPush.DevicesPlaced` | remote-agent/xedoc_remote_agent/host_push.py:149-160 | after any operation a live device was there before with the same installation, or is the one just registered |
| `PushOperations.RegisteredAsAsked` | remote-agent/xedoc_remote_agent/host_push.py:134-161 | an accepted registration stores the token, environment and installation it came with, for its account, session and origin; every other device stays, unchanged, exactly if it was eligible, and otherwise is a tombstone |
| `PushOperations.RegisterReplies` | remote-agent/xedoc_remote_agent/host_push.py:129-161 | a registration is accepted exactly if it is well formed, APNs is configured, its caller is logged in, the secret is no tombstone and nobody else's, there is room among 256 eligible devices and 4096 tombstones, and the write works |
| `PushOperations.RegisterRefusals` | remote-agent/xedoc_remote_agent/host_push.py:129-158 | which reply each refused registration gets |
| `PushOperations.UnregisteredExactly` | remote-agent/xedoc_remote_agent/host_push.py:163-185 | an accepted revocation takes away that device alone and adds that tombstone alone |
| `PushOperations.UnregisterReplies` | remote-agent/xedoc_remote_agent/host_push.py:163-185 | a revocation is accepted for a tombstone, and else exactly if the device is known or its caller logged in, there is room, and the write works |
| `PushOperations.PrunedExactly` | remote-agent/xedoc_remote_agent/host_push.py:291-294 | housekeeping keeps exactly the eligible devices and makes tombstones of the rest |
| `PushOperations.InvalidatedExactly` | remote-agent/xedoc_remote_agent/host_push.py:274-281 | a dead token takes its own device alone |
| `PushOperations.EligibleExactly` | remote-agent/xedoc_remote_agent/host_push.py:187-197 | a device is eligible exactly while the session it was registered from runs for its own, existing user |
| `HostPush.AcknowledgedForGood` | remote-agent/xedoc_remote_agent/host_push.py:93-113 | over any run with crashes anywhere, an acknowledged revocation is in the file and in memory ever after, its secret is never live again, and the file can be loaded |
| `HostPush.EligibleRestsOnCurrentTable` | remote-agent/xedoc_remote_agent/host_push.py:187-197 | an eligible device rests on a login issued under a user table equal to the current one, and its user is in it |
| `HostPush.HostPush.constructor` | remote-agent/xedoc_remote_agent/host_push.py:34-66 | memory is what the file holds |
| `HostPush.HostPush.Replace` | remote-agent/xedoc_remote_agent/host_push.py:101-111 | the file becomes the new store or stays |
| `HostPush.HostPush.Save` | remote-agent/xedoc_remote_agent/host_push.py:93-113 | removed devices join the tombstones; over the limit or on a failed write nothing changes |
| `HostPush.HostPush.Register` | remote-agent/xedoc_remote_agent/host_push.py:129-161 | memory, file and reply are those of the register operation, with the write going through or not |
| `HostPush.HostPush.Unregister` | remote-agent/xedoc_remote_agent/host_push.py:163-185 | memory, file and reply are those of the unregister operation |
| `HostPush.HostPush.DropIneligible` | remote-agent/xedoc_remote_agent/host_push.py:291-294 | ineligible devices become tombstones; nothing is written when all are eligible |
| `HostPush.HostPush.DropInvalid` | remote-agent/xedoc_remote_agent/host_push.py:274-281 | a device with a dead token becomes a tombstone |
| `PushDelivery.NoSendAfterRevocation` | remote-agent/xedoc_remote_agent/host_push.py:163-185 | in the log of any run, no send for a secret follows its acknowledged revocation |
| `PushDelivery.SendsAreCurrent` | remote-agent/xedoc_remote_agent/host_push.py:250-262 | every send in the log of a run was made at a step where its device record was eligible and current and its access triple held |
| `PushDelivery.SendsRestOnLogins` | remote-agent/xedoc_remote_agent/host_push.py:187-197 | beside a run of the account store, every send rests on a login issued under the user table in force at that send |
| `PushDelivery.NoSendAfterChange` | remote-agent/xedoc_remote_agent/host_push.py:250-262 | once an account change has completed, nothing is sent to a device whose login is older |
| `PushDelivery.AtMostTwoSends` | remote-agent/xedoc_remote_agent/host_push.py:247-283 | each recipient gets at most two sends for an event, the second only after a retry |
| `PushCouriers.DeliversToAll` | remote-agent/xedoc_remote_agent/host_push.py:199-283 | whenever the courier is idle the run can go on with an event sent exactly once to every eligible device, in order and with its account's present access, and to nobody else |
| `PushCouriers.SendsReachable` | remote-agent/xedoc_remote_agent/host_push.py:250-264 | every send was made to a device registered and logged in at that step, with the role and workspaces its account then had |
| `PushCouriers.PickExactly` | remote-agent/xedoc_remote_agent/host_push.py:204-229 | a recipient is noted exactly if it is reachable and may see the thread, and passed over otherwise |
| `PushCouriers.TrySends` | remote-agent/xedoc_remote_agent/host_push.py:247-283 | an attempt sends exactly if the recipient is unchanged; only a first retry is followed by another |
| `PushCouriers.InvalidGivesUp` | remote-agent/xedoc_remote_agent/host_push.py:274-281 | a dead token makes its device a tombstone and the delivery goes on; a failed write ends it |
| `PushCouriers.RevocationEnds` | remote-agent/xedoc_remote_agent/host_push.py:163-185 | a live device can revoke itself whenever there is room and the write works; it is logged and out of reach at once |
| `StatusObserver.AlertsExactly` | remote-agent/xedoc_remote_agent/host_push.py:320-347 | each event is announced as an unbounded memory would, unless as many other threads as the memory holds changed since its thread did; then as if it had been idle |
| `StatusObserver.AlertsAsPromised` | remote-agent/xedoc_remote_agent/host_push.py:334-347 | while fewer others than the memory holds have changed, needed input is announced exactly when a waiting flag comes and none was there, and a finished turn exactly when that does not hold and the thread goes from active to idle or a system error |
| `StatusObserver.AlertsOnceForgotten` | remote-agent/xedoc_remote_agent/host_push.py:330-347 | after as many others as the memory holds, only a waiting flag is announced |
| `StatusObserver.RemembersExactly` | remote-agent/xedoc_remote_agent/host_push.py:330-333 | a thread is remembered, with its last status, exactly when fewer other threads than the memory holds changed since it did |
| `StatusObserver.ForgottenTurn` | remote-agent/xedoc_remote_agent/host_push.py:332-333 | the bound is sharp: after that many other threads a finished turn goes unannounced |
| `StatusObserver.BaselineFits` | remote-agent/xedoc_remote_agent/host_push.py:311-317 | the baseline is what the observer would remember had its entries changed in that order |
| `StatusObserver.BaselineExactly` | remote-agent/xedoc_remote_agent/host_push.py:311-318 | the baseline has exactly the threads of the first 1000 listed elements, each with its last status there |
| `StatusObserver.Observer.constructor` | remote-agent/xedoc_remote_agent/host_push.py:311-318 | a connection starts from the first 1000 listed threads |
| `StatusObserver.Observer.Change` | remote-agent/xedoc_remote_agent/host_push.py:330-333 | one change is taken into the memory, and the earlier status returned |
| `StatusObserver.Observer.Announce` | remote-agent/xedoc_remote_agent/host_push.py:330-347 | one change announces the edge from the status remembered before it |
| `StatusObserver.Observer.Process` | remote-agent/xedoc_remote_agent/host_push.py:320-347 | the queued events are announced by their edges, in order |
| `HostAuth.SessionsMatchTable` | remote-agent/xedoc_remote_agent/host_auth.py:24-138 | with a crash after any file replacement and writes failing anywhere, every accepted session was issued under a table equal to the current one, and there are at most 256 |
| `HostAuth.ChangeEndsLogins` | remote-agent/xedoc_remote_agent/host_auth.py:103-117 | once an account change has gone through both files, no key issued before is in memory or in the session file ever again, whatever fails or crashes later |
| `HostAuth.LogoutEndsLogin` | remote-agent/xedoc_remote_agent/host_auth.py:199-202 | once a logout has returned without an error, its key is in neither memory nor the session file ever again |
| `LoginSessions.LoginExactly` | remote-agent/xedoc_remote_agent/host_auth.py:171-182 | a login stores its session for 604800 seconds; every other session that still runs stays as it was, except the oldest when 256 run |
| `LoginSessions.LoginOutlivesRestart` | remote-agent/xedoc_remote_agent/host_auth.py:30-38 | a login that returned outlives a restart exactly while its seven days last and its account exists |
| `LoginSessions.CloseExactly` | remote-agent/xedoc_remote_agent/host_auth.py:199-202 | a logout takes its own session and no other |
| `LoginSessions.FilesInOrder` | remote-agent/xedoc_remote_agent/host_auth.py:103-138 | an account change replaces the table and then the sessions; a login or logout the sessions alone, under the hash of the table in force |
| `LoginReturns.ReturnsExactly` | remote-agent/xedoc_remote_agent/host_auth.py:24-38 | at any moment of a run of accepted changes, a key that the running service does not accept can be accepted again, by accepted changes with new salts, exactly when the session file holds it, unexpired, for a user of the loadable table the file was written under, and that table can be brought back: its accounts are still there with the same salt and digest, and there is no administrator unless it has one |
| `LoginReturns.NeverReturns` | remote-agent/xedoc_remote_agent/host_auth.py:30-38 | without the key in the session file, unexpired and loadable, no continuation accepts it |
| `LoginReturns.NeverRestored` | remote-agent/xedoc_remote_agent/host_auth.py:32-38 | with the file's table out of reach, no continuation of accepted changes accepts the key |
| `LoginReturns.Revived` | remote-agent/xedoc_remote_agent/host_auth.py:103-117 | otherwise changes that stop after the user file, and a restart, accept it |
| `HostAuth.StaysGone` | remote-agent/xedoc_remote_agent/host_auth.py:103-138 | no single step brings back a key that memory and session file have lost |
| `HostAuth.LiveExactly` | remote-agent/xedoc_remote_agent/host_auth.py:34-38 | the sessions loaded are the unexpired ones of known users |
| `LoginSessions.LiveAsStored` | remote-agent/xedoc_remote_agent/host_auth.py:34-38 | a start takes each such session over as it was stored |
| `LoginReturns.WipedSessionReturns` | remote-agent/xedoc_remote_agent/host_auth.py:103-117 | a run of accepted changes in which a session wiped by a change that did not complete is accepted again after the undoing of the change |
| `Accounts.AdministratorRemains` | remote-agent/xedoc_remote_agent/host_auth.py:64-101 | no accepted change leaves a table that had an administrator without one, nor more than 256 users |
| `Accounts.SavedAsAsked` | remote-agent/xedoc_remote_agent/host_auth.py:64-89 | an accepted change gives the role and workspaces asked for, lets in exactly the new password (or what let in before when none was given), and touches no other account |
| `Accounts.SavedRefused` | remote-agent/xedoc_remote_agent/host_auth.py:51-88 | the refusal of a change is the first that applies of name, assignments, account limit, password and last administrator |
| `Accounts.DeletedAsAsked` | remote-agent/xedoc_remote_agent/host_auth.py:91-98 | a deletion is refused exactly for the only administrator, and takes no other account |
| `AccountChanges.StaysUnreachable` | remote-agent/xedoc_remote_agent/host_auth.py:64-101 | no accepted change makes a table reachable that was out of reach: a replaced salt does not come back, and an administrator stays once there is one |
| `AccountChanges.Approach` | remote-agent/xedoc_remote_agent/host_auth.py:64-98 | as long as the accounts keep their passwords, some accepted change leads closer to the earlier table, its administrators first |
| `AccountChanges.SavedRestorable` | remote-agent/xedoc_remote_agent/host_auth.py:68-89 | a saved account can be set back exactly when the change gave no existing account a new password and made nobody the first administrator |
| `AccountChanges.DeletedRestorable` | remote-agent/xedoc_remote_agent/host_auth.py:91-98 | a deleted account cannot be brought back |
| `AccountChanges.AcceptedValid` | remote-agent/xedoc_remote_agent/host_auth.py:52-63 | accepted changes keep every name and every list of assignments within their limits |
| `AccountSizes.SavedFitsExactly` | remote-agent/xedoc_remote_agent/host_auth.py:82-89 | an accepted change keeps the user file within the 1 MiB it can be loaded from exactly when the other accounts leave room for the changed one |
| `AccountSizes.DeletedFits` | remote-agent/xedoc_remote_agent/host_auth.py:91-98 | a deletion keeps the user file loadable |
| `AccountSizes.AcceptedButTooLarge` | remote-agent/xedoc_remote_agent/host_auth.py:103-111 | from an empty table, 118 accepted changes that assign only 128 well-formed workspace ids lead to a file the service refuses to load |
| `AccountSizes.EntryOut` | remote-agent/xedoc_remote_agent/host_auth.py:104-111 | the size of the file is the sum of its entries, in any order |
| `AccountTexts.SizeIsLength` | remote-agent/xedoc_remote_agent/host_auth.py:104-111 | the size counted for a table is the length of its JSON text, escapes and separators written out, in any order |
| `HostAuth.HostAuth.constructor` | remote-agent/xedoc_remote_agent/host_auth.py:16-38 | from a user file within 1 MiB, sessions are loaded only under the hash of the loaded table, and only running ones of known users |
| `HostAuth.HostAuth.ReplaceUsersFile` | remote-agent/xedoc_remote_agent/host_auth.py:104-114 | the user file becomes the new table or stays |
| `HostAuth.HostAuth.PersistSessions` | remote-agent/xedoc_remote_agent/host_auth.py:124-138 | the session file becomes the sessions under the hash of the table, or stays |
| `HostAuth.HostAuth.Persist` | remote-agent/xedoc_remote_agent/host_auth.py:103-117 | the table is replaced and every session ended, stopping where a write fails |
| `HostAuth.HostAuth.SaveUser` | remote-agent/xedoc_remote_agent/host_auth.py:51-89 | a refused change leaves memory and files alone; an accepted one goes as far as its writes |
| `HostAuth.HostAuth.DeleteUser` | remote-agent/xedoc_remote_agent/host_auth.py:91-98 | the same for a deletion |
| `HostAuth.HostAuth.Login` | remote-agent/xedoc_remote_agent/host_auth.py:146-183 | throttled, refused or logged in as the failure table says; only a right password touches sessions and files |
| `HostAuth.HostAuth.Open` | remote-agent/xedoc_remote_agent/host_auth.py:171-183 | dead sessions go, the oldest of 256 makes room, the new one is stored |
| `HostAuth.HostAuth.Account` | remote-agent/xedoc_remote_agent/host_auth.py:185-197 | a running session of a known user gives its name; any other is dropped from memory |
| `HostAuth.HostAuth.Logout` | remote-agent/xedoc_remote_agent/host_auth.py:199-202 | the session goes from memory, and from the file if the write goes through |
| `LoginThrottle.AtMostNineteenChecks` | remote-agent/xedoc_remote_agent/host_auth.py:154-170 | within one process lifetime, from an address that never logs in, no 300 seconds hold more than nineteen failed checks, and the table stays within 1024 |
| `LoginThrottle.NineteenReached` | remote-agent/xedoc_remote_agent/host_auth.py:154-170 | a run in which an address gets nineteen |
| `LoginThrottle.AttemptedBounded` | remote-agent/xedoc_remote_agent/host_auth.py:159-168 | one attempt keeps the failure table within 1024 addresses |
| `LoginThrottle.TurnedAwayExactly` | remote-agent/xedoc_remote_agent/host_auth.py:155-164 | an attempt is turned away exactly after ten failures in an open window, or when 1024 other addresses have one |
| `LoginThrottle.AttemptedExactly` | remote-agent/xedoc_remote_agent/host_auth.py:155-170 | what an attempt leaves for its own address and for every other |
| `LoginThrottle.CountAtMostTwo` | remote-agent/xedoc_remote_agent/host_auth.py:154-168 | a stretch of one window length meets at most two windows of ten, the earlier one after it opened |
| `IdleRestart.RestartOnlyWhenIdle` | remote-agent/xedoc_remote_agent/daemon.py:438-531 | for every interleaving, when the waiter sets the shutdown flag nothing is in flight or active in any component, and nothing can become active in that epoch |
| `IdleRestart.IdleRestarts` | remote-agent/xedoc_remote_agent/daemon.py:474-515 | with a restart wanted, nobody inside and nothing active, nine steps of the waiter end with the gate closed and the shutdown flag set |
| `IdleRestart.RestartCanFollow` | remote-agent/xedoc_remote_agent/daemon.py:474-515 | every run that has come to an idle broker with a restart wanted can go on to that restart |
| `IdleRestart.RestartHappens` | remote-agent/xedoc_remote_agent/daemon.py:411-515 | a run that restarts |
| `IdleRestart.BusyGoesOn` | remote-agent/xedoc_remote_agent/daemon.py:510-513 | a busy component, however late it is looked at, opens the gate again and polling goes on |
| `IdleRestart.InFlightGoesOn` | remote-agent/xedoc_remote_agent/daemon.py:517-519 | so does a worker inside |
| `IdleRestart.FailedLookGoesOn` | remote-agent/xedoc_remote_agent/daemon.py:484-502 | so does a look that fails, while the restart is still wanted |
| `IdleRestart.UnwantedEnds` | remote-agent/xedoc_remote_agent/daemon.py:474-509 | a restart no longer wanted ends the waiter and leaves the gate as it is |
| `IdleRestart.ReopensExactly` | remote-agent/xedoc_remote_agent/daemon.py:402-409 | after a shutdown request the gate can open again exactly when the waiter stands between its check and its opening |
| `IdleRestart.AdmittedAfterShutdown` | remote-agent/xedoc_remote_agent/daemon.py:480-488 | a run in which a worker is admitted after a complete shutdown request |
| `IdleRestart.ClosedStays` | remote-agent/xedoc_remote_agent/daemon.py:499-509 | with the flag set and the gate closed, no other step opens it |
| `IdleRestart.WorkAdmissionGate.constructor` | remote-agent/xedoc_remote_agent/work_admission.py:11-14 | the gate starts open with nobody inside |
| `IdleRestart.WorkAdmissionGate.Enter` | remote-agent/xedoc_remote_agent/work_admission.py:17-21 | admission is refused exactly while the gate is closed, and counted otherwise |
| `IdleRestart.WorkAdmissionGate.Exit` | remote-agent/xedoc_remote_agent/work_admission.py:22-26 | leaving is counted, however the block ends |
| `IdleRestart.WorkAdmissionGate.Close` | remote-agent/xedoc_remote_agent/work_admission.py:28-30 | closing keeps the count |
| `IdleRestart.WorkAdmissionGate.Open` | remote-agent/xedoc_remote_agent/work_admission.py:32-34 | opening keeps the count |
| `DaemonOwnership.AtMostOneHolder` | remote-agent/xedoc_remote_agent/daemon.py:94-158 | what the lock gives, at every moment of a run: at most one process, daemon or prober, is past it |
| `DaemonOwnership.FileNamesOwner` | remote-agent/xedoc_remote_agent/daemon.py:1024-1067 | between its claim and its release the PID file names exactly the serving daemon's pid and token |
| `DaemonOwnership.OnlyOwnerChangesFile` | remote-agent/xedoc_remote_agent/daemon.py:1060-1067 | while the process a PID file names by pid and token holds the lock, only its own unlink changes the file |
| `DaemonOwnership.CanServeAndStop` | remote-agent/xedoc_remote_agent/daemon.py:1024-1067 | however a run went, once the lock is free a waiting process can become the daemon the file names, and then stop with the file gone and the lock free |
| `DaemonOwnership.FailureReleases` | remote-agent/xedoc_remote_agent/daemon.py:1024-1067 | a start that fails, or meets a file it could not remove, leaves that file and frees the lock |
| `WebSocketFrames.DecodeEncode` | scripts/session_script_sdk.py:133-162 | one frame, masked or not, survives the wire, and decoding stops exactly at its last byte |
| `WebSocketFrames.FramesOfEncoded` | scripts/session_script_sdk.py:133-162 | any sequence of frames followed by any bytes decodes to those frames and then to what the bytes hold |
| `WebSocketFrames.HeaderParses` | scripts/session_script_sdk.py:138-155 | the header with its three length forms parses back |
| `WebSocketFrames.HeaderLayout` | scripts/session_script_sdk.py:138-144 | header bits, length form and length bytes of section 5.2 of RFC 6455 |
| `WebSocketFrames.AnyBody` | scripts/session_script_sdk.py:154-162 | what follows any header: refused beyond 128 MiB, incomplete exactly below mask and payload, and unmasked bit by bit |
| `WireBytes.MaskedBits` | scripts/session_script_sdk.py:137-137 | masking flips exactly the bits the mask has set (section 5.3 of RFC 6455) |
| `WebSocketFrames.WebSocketTransport.ReadExact` | scripts/session_script_sdk.py:164-175 | the first bytes of buffer and socket, however they arrive, or a closed connection |
| `WebSocketFrames.WebSocketTransport.ReadUntil` | scripts/session_script_sdk.py:177-187 | the outcome of the reader on values for the chunks that arrived: everything up to the first marker with the surplus kept, a closed connection without one, or too many bytes |
| `Handshake.AcceptanceExactly` | scripts/session_script_sdk.py:177-187 | every delivery of a stream is accepted exactly when its marker ends by byte 61441 or the stream is within 65536 bytes; every one is refused exactly when there is no marker or it ends beyond 65536 |
| `Handshake.AcceptedSlowly` | scripts/session_script_sdk.py:178-187 | byte by byte, a marker within the limit is accepted |
| `Handshake.RefusedAcross` | scripts/session_script_sdk.py:179-184 | in a stream beyond the limit, a marker that ends after byte 61441 is refused when a full read crosses the limit before it |
| `Handshake.ReadTells` | scripts/session_script_sdk.py:177-187 | what each outcome says of the bytes, for every delivery and any surplus in the buffer |
| `WebSocketFrames.WebSocketTransport.ReceiveHead` | scripts/session_script_sdk.py:148-153 | the header fields of the stream's head |
| `WebSocketFrames.WebSocketTransport.ReceiveBody` | scripts/session_script_sdk.py:156-161 | mask and payload off the stream, unmasked, or a closed connection |
| `WebSocketFrames.WebSocketTransport.Receive` | scripts/session_script_sdk.py:147-162 | exactly the first frame of the stream, or the error its bytes call for |
| `WebSocketFrames.WebSocketTransport.Send` | scripts/session_script_sdk.py:133-145 | the bytes written are those of one more final masked frame, or nothing over 1 MiB |
| `WebSocketMessages.MessageExactly` | scripts/session_script_sdk.py:111-131 | a call returns a message exactly when in-order fragments with pings and pongs between them end in a final one; it is their concatenation, and the pongs are the pings in order |
| `WebSocketMessages.FailureExactly` | scripts/session_script_sdk.py:111-131 | a call fails exactly at the frame that may not follow, with its reason |
| `WebSocketMessages.FragmentedTextArrives` | scripts/session_script_sdk.py:111-162 | from bytes to message: fragments, controls and masks in, exactly the text out, the bytes behind untouched |
| `WebSocketMessages.NextFrame` | scripts/session_script_sdk.py:147-162 | the stream read frame by frame is the decoded frame sequence |
| `WebSocketMessages.TakeFrame` | scripts/session_script_sdk.py:114-131 | one turn of the loop ends the call as the assembly does or leaves it in the middle of the same assembly |
| `WebSocketMessages.Pong` | scripts/session_script_sdk.py:118-120 | the pong written carries the bytes of the ping |
| `WebSocketMessages.ReceiveMessage` | scripts/session_script_sdk.py:111-131 | the loop reports what the frame sequence assembles to, writes exactly its pongs and leaves the frames behind it |
| `JsonLines.OutcomeIgnoresChunks` | scripts/session_script_sdk.py:208-223 | the outcome of a call depends on the byte stream alone, and so does what a line or a closed pipe leaves unread |
| `JsonLines.CallsFollowStream` | scripts/session_script_sdk.py:208-223 | the lines, and the error that ends them, are the same for every chunking |
| `JsonLines.UnreadSettledExactly` | scripts/session_script_sdk.py:214-222 | what the first call leaves unread is settled by the bytes exactly unless the line is over the limit by less than a chunk |
| `JsonLines.RefusedEarly` | scripts/session_script_sdk.py:214-218 | for every such line, a delivery that is refused before its newline |
| `JsonLines.RefusedLate` | scripts/session_script_sdk.py:219-222 | and one that is refused with it, and consumed |
| `JsonLines.HostChildTransport.ReceiveLine` | scripts/session_script_sdk.py:208-223 | outcome, buffer and unread chunks are those of the call on values |
| `RpcClient.SessionScriptClient.Request` | scripts/session_script_sdk.py:449-455 | if no error escapes a handler and at most 64 outer requests are open, the request gets the response the peer sent for its id, and goes without only when the peer closed before sending one; nested requests leave the outer waits as they were |
| `RpcClient.SessionScriptClient.WaitForResponse` | scripts/session_script_sdk.py:480-496 | a buffered response is returned at once; otherwise the wait ends with its own response, or only by an overflowing buffer, an error that escaped a handler, or the end of the connection with no response at hand |
| `RpcClient.SessionScriptClient.Turn` | scripts/session_script_sdk.py:481-491 | a buffered response is taken before anything is read; otherwise one message is used up, and the wait ends only for the reasons of `WaitForResponse` |
| `RpcClient.SessionScriptClient.Poll` | scripts/session_script_sdk.py:485-491 | with nothing in the buffer, one message is used up, and the wait ends only for the reasons of `WaitForResponse` |
| `RpcClient.SessionScriptClient.Place` | scripts/session_script_sdk.py:489-496 | a response goes to its request or into the buffer |
| `RpcClient.SessionScriptClient.Keep` | scripts/session_script_sdk.py:494-496 | a response is turned away only if more than 64 requests besides the one waiting were open |
| `RpcClient.SessionScriptClient.Take` | scripts/session_script_sdk.py:482-484 | a buffered response is handed out once |
| `RpcClient.SessionScriptClient.Handle` | scripts/session_script_sdk.py:524-535 | a handler may make any number of requests without disturbing the outer ones |
| `RpcClient.SessionScriptClient.Serve` | scripts/session_script_sdk.py:486-488 | a server message goes to its handler, and only an error that escapes it ends the wait |
| `RpcClient.SessionScriptClient.Unanswered` | scripts/session_script_sdk.py:482-496 | a wait with nothing in the buffer has no response to come to it but one turned away by an overflow |
| `RpcClient.SessionScriptClient.BufferFits` | scripts/session_script_sdk.py:494-495 | the buffer never holds more than the open outer requests |
| `RpcClient.SessionScriptClient.BufferedAreOpen` | scripts/session_script_sdk.py:480-496 | the buffer holds only responses of requests still open |
| `RpcClient.SessionScriptClient.AllReturned` | scripts/session_script_sdk.py:480-496 | if no error ever escaped a handler and at most 64 outer requests were open, then between requests every response the peer sent has been returned to its request, unchanged, and the buffer is empty; a request without one was unanswered when the peer closed |
| `UpdateLog.ClientHasStream` | remote-agent/xedoc_remote_agent/host_updates.py:61-82 | what a polling client holds is exactly the output stream from its start or last reset to its cursor |
| `UpdateLog.ResetExactly` | remote-agent/xedoc_remote_agent/host_updates.py:76-79 | a poll resets exactly when the cursor fell behind the retained 262144 bytes of the snapshot |
| `UpdateLog.StatusFaithful` | remote-agent/xedoc_remote_agent/host_updates.py:75-82 | a poll hands out the stream from its offset, at most 65536 bytes |
| `UpdateLog.BeyondStartsAgain` | remote-agent/xedoc_remote_agent/host_updates.py:76-82 | a cursor past the end, left over from another run of the installer, resets to the retained tail |
| `UpdateLog.StatusRefuses` | remote-agent/xedoc_remote_agent/host_updates.py:61-69 | only a negative cursor is refused; before a snapshot there is nothing to hand out |
| `UpdateLog.CatchesUp` | remote-agent/xedoc_remote_agent/host_updates.py:78-82 | repeated polling of a snapshot moves on by full chunks to its end |
| `UpdateLog.FourPollsSuffice` | remote-agent/xedoc_remote_agent/host_updates.py:78-82 | four polls reach the end from any cursor |
| `UpdateLog.UpdateWorker.Record` | remote-agent/xedoc_remote_agent/host_update_worker.py:37-40 | the retained bytes are the last 262144 of everything recorded |
| `UpdateLog.UpdateWorker.Save` | remote-agent/xedoc_remote_agent/host_update_worker.py:27-35 | a snapshot is the end of the stream and its retained tail |
| `LiveTurns.ItemsAreReplay` | remote-agent/xedoc_remote_agent/controller.py:65-101 | the items of every held turn are the replay of the log since it last started: the first 256 distinct ids in order of first announcement, each with the bounded copy of its last value |
| `LiveTurns.HoldsTheLastEntered` | remote-agent/xedoc_remote_agent/controller.py:79-82 | the turns held are the last sixteen entered, in that order |
| `LiveTurns.RestartIsNoRefresh` | remote-agent/xedoc_remote_agent/controller.py:79-82 | the oldest of sixteen turns goes with the next new one even if it has just restarted |
| `LiveTurns.AddReplays` | remote-agent/xedoc_remote_agent/controller.py:99-101 | one more announcement does to the stored items what it does to the replay |
| `LiveTurns.OverlaidExactly` | remote-agent/xedoc_remote_agent/controller.py:103-120 | a turn shows the replayed items exactly when it is held, has some, and is running or was seen to end; no other field changes |
| `LiveTurns.UnnamedStays` | remote-agent/xedoc_remote_agent/controller.py:110-112 | a turn without a string for its identifier is shown as it is |
| `LiveTurns.TurnsRecognized` | remote-agent/xedoc_remote_agent/controller.py:66-84 | a start or an end is recognized exactly in a complete notification of that kind |
| `LiveTurns.ItemsRecognized` | remote-agent/xedoc_remote_agent/controller.py:86-95 | an item is recognized exactly in a complete notification of either kind |
| `LiveTurns.LiveTurnItems.constructor` | remote-agent/xedoc_remote_agent/controller.py:61-63 | the record starts empty |
| `LiveTurns.LiveTurnItems.Observe` | remote-agent/xedoc_remote_agent/controller.py:65-101 | the record stays that of the whole log of recognized notifications |
| `LiveTurns.LiveTurnItems.Start` | remote-agent/xedoc_remote_agent/controller.py:79-82 | a start enters or resets the turn, and the oldest goes beyond sixteen |
| `LiveTurns.LiveTurnItems.Complete` | remote-agent/xedoc_remote_agent/controller.py:83-84 | only a held turn is marked as completed |
| `LiveTurns.LiveTurnItems.Announce` | remote-agent/xedoc_remote_agent/controller.py:96-101 | a held turn stores the bounded item unless it is the 257th |
| `LiveTurns.LiveTurnItems.Apply` | remote-agent/xedoc_remote_agent/controller.py:103-120 | every listed turn is overlaid and nothing else of the thread changes |
| `JsonValues.BoundedAt` | remote-agent/xedoc_remote_agent/controller.py:26-42 | along every path, the copy holds under the same keys the bounded original if the path stays within depth 8 and the first 64 members, and nothing otherwise |
| `JsonValues.BoundedFixes` | remote-agent/xedoc_remote_agent/controller.py:26-42 | bounding leaves a value as it is exactly when it keeps every limit |
| `JsonValues.BoundedTwice` | remote-agent/xedoc_remote_agent/controller.py:26-42 | bounding is idempotent at every depth |
| `JsonValues.DeepForgotten` | remote-agent/xedoc_remote_agent/controller.py:29-35 | below depth 8 only strings are left; a long string becomes an ellipsis and its last 65535 characters |
| `ExtensionBindings.ResolvesExactly` | remote-agent/xedoc_remote_agent/extension_bindings.py:37-90 | a lease resolves to a source exactly when it is what the source was last issued, not revoked or cleared, and under 3600 seconds old |
| `ExtensionBindings.HeldBounded` | remote-agent/xedoc_remote_agent/extension_bindings.py:47-58 | at most one lease a source and 1024 in all |
| `ExtensionBindings.IssuedExactly` | remote-agent/xedoc_remote_agent/extension_bindings.py:52-58 | a lease is issued exactly when fewer than 1024 other sources hold one |
| `ExtensionBindings.RefusalHarmless` | remote-agent/xedoc_remote_agent/extension_bindings.py:47-53 | a refused bind changes no live lease |
| `ExtensionBindings.ExtensionBindingRegistry.constructor` | remote-agent/xedoc_remote_agent/extension_bindings.py:29-35 | the registry starts empty |
| `ExtensionBindings.ExtensionBindingRegistry.Bind` | remote-agent/xedoc_remote_agent/extension_bindings.py:37-58 | the registry stays that of the whole call log, and the reply is the one of the reference |
| `ExtensionBindings.ExtensionBindingRegistry.Issue` | remote-agent/xedoc_remote_agent/extension_bindings.py:48-58 | expired bindings and those of the source go; then the lease is stored if fewer than 1024 are left |
| `ExtensionBindings.ExtensionBindingRegistry.Resolve` | remote-agent/xedoc_remote_agent/extension_bindings.py:60-69 | the source of an unexpired lease, or unauthorized |
| `ExtensionBindings.ExtensionBindingRegistry.Revoke` | remote-agent/xedoc_remote_agent/extension_bindings.py:71-78 | succeeds exactly for a lease that still resolves |
| `ExtensionBindings.ExtensionBindingRegistry.Clear` | remote-agent/xedoc_remote_agent/extension_bindings.py:80-84 | nothing resolves any more |
| `ExtensionBindings.ExtensionBindingRegistry.Expire` | remote-agent/xedoc_remote_agent/extension_bindings.py:86-90 | the loop leaves exactly the unexpired bindings |
| `ExtensionBindings.ExtensionBindingRegistry.DropSource` | remote-agent/xedoc_remote_agent/extension_bindings.py:49-51 | the loop leaves exactly the other sources' bindings |
| `SessionGuis.NoProducerLost` | remote-agent/xedoc_remote_agent/host_session_gui.py:90-230 | between calls every producer ever created is closed, or held for exactly one thread that still has an entry, never both |
| `SessionGuis.EntriesBounded` | remote-agent/xedoc_remote_agent/host_session_gui.py:98-118 | at most 16 entries, at most one a user and thread |
| `SessionGuis.OpenKeeps` | remote-agent/xedoc_remote_agent/host_session_gui.py:90-184 | every way an `open` can end keeps this |
| `SessionGuis.OpenGrants` | remote-agent/xedoc_remote_agent/host_session_gui.py:90-184 | a successful `open` gives its user an entry of that thread and place, and changes no other user's tokens |
| `SessionGuis.CloseTakes` | remote-agent/xedoc_remote_agent/host_session_gui.py:212-230 | a close takes exactly the matching tokens, and closes a producer exactly when nobody is left on its thread |
| `SessionGuis.CloseLeaves` | remote-agent/xedoc_remote_agent/host_session_gui.py:212-222 | a token stays exactly if its workspace, its user, or with a user given its thread, differs from the one named |
| `SessionGuis.OpenExactly` | remote-agent/xedoc_remote_agent/host_session_gui.py:90-184 | an `open` meets the limit exactly with 16 entries of others, and succeeds exactly if an entry is at hand or there is room and a producer, if one is needed, connects |
| `SessionGuis.OpenProduces` | remote-agent/xedoc_remote_agent/host_session_gui.py:109-184 | a producer is created exactly when one is needed and can be, and kept for its thread exactly when it connects |
| `SessionGuis.OpenLeaves` | remote-agent/xedoc_remote_agent/host_session_gui.py:98-118 | an `open` drops at most the entries of its own user and thread, adds at most its own, and touches no other thread's producer |
| `SessionGuis.AccessExactly` | remote-agent/xedoc_remote_agent/host_session_gui.py:200-210 | a token is good exactly for its own user, as an administrator or a member of its workspace |
| `SessionGuis.HostSessionGuis.constructor` | remote-agent/xedoc_remote_agent/host_session_gui.py:83-88 | the tables start empty |
| `SessionGuis.HostSessionGuis.Search` | remote-agent/xedoc_remote_agent/host_session_gui.py:99-108 | a connected entry is reused untouched; otherwise those of the user and thread are dropped |
| `SessionGuis.HostSessionGuis.Stop` | remote-agent/xedoc_remote_agent/host_session_gui.py:110-112 | the producer of a thread, if any, is removed and closed |
| `SessionGuis.HostSessionGuis.Drop` | remote-agent/xedoc_remote_agent/host_session_gui.py:223-230 | an entry goes, and with it the producer of its thread when nobody else is on it |
| `SessionGuis.HostSessionGuis.Open` | remote-agent/xedoc_remote_agent/host_session_gui.py:90-184 | tables, producers and result are those of `open` on values, for every answer from outside |
| `SessionGuis.HostSessionGuis.Close` | remote-agent/xedoc_remote_agent/host_session_gui.py:212-230 | the loop leaves the entries not matching, and the producers they still need |

## Left out

- Delivery (`_deliver`), the restart waiter and the PID claim are state machines rather than methods: their
  guarantees are about what other threads and processes do between their steps.
- LoginReturns.ReturnsExactly: speaks of calls of `save_user` and `delete_user`; what the web interface refuses before it
  calls them, such as a workspace that is no longer configured, is not modelled.
- HostAuth.HostAuth.constructor: a session file beyond 128 KiB is not modelled, as the store never writes one.
- `PushPhone.PushSubscription` has one method for each stretch between two suspension points, with the point
  where it waits as a field, since a Dafny method cannot be interleaved with another on the same object.
- RpcClient.SessionScriptClient.Request: the decoding of a response's `error` and `result` is not modelled; responses with an
  id of another type, or with no request of that id, do not occur.
- UpdateLog: one installer run; `pid`, exit code and the interrupted status are not modelled.
- HostPush.HostPush.constructor: the field formats of a stored file are not checked, only its two limits.
- LiveTurns.LiveTurnItems.Observe: a notification whose `method` is a list or an object, which Python would refuse to look up
  in a set, is ignored; turn records are values, as none of them is shared.
- ExtensionBindings.ExtensionBindingRegistry.Bind: the checks of the request's fields and identifiers come before any state is read
  and are not modelled.
- SessionGuis.HostSessionGuis.Open: how long starting a producer may take is not modelled, only how it ends; nor is the
  producer's own thread.
- JSON decoding and encoding, password hashing and file modes are functions without content here.
- Receive timeouts, the overflow of the observer's queue of 2048 events, and a restart waiter that outlives
  its serving epoch.
- Certificates, APNs signing, HTTP dispatch, discovery, the user interface and the release scripts.
- Transcript projection (`extension.py`), workspaces, messages, peers and the IPC server, beyond the one
  activity flag each that the restart looks at.
