# RemoteOpenPower: a verified model of the wake protocol

RemoteOpenPower lets a client ask a server to wake hosts on the server's network. This project models the part of it
that has to be right under loss, repetition and concurrency, and proves what the code promises about it:

- **The two-attempt wake protocol.** A wake operation has one id. The client submits attempt 1, submits it again after
  every reconnect, waits one minute after the first receipt and may then ask once for attempt 2 with the ticket of that
  receipt. The server's ledger decides which submission is dispatched and which is answered from its tombstone.
  `LedgerSpec`, `Ledger` and `LedgerRuns` hold the ledger; `Progress`, `WakeScreen`, `WakeSession` and `ClientActor` the
  two front ends and the connection actor; `WakeServer` authorization, cooldown and dispatch; `WakeSystem` joins client,
  messages and ledger into one system and proves the end-to-end promises, and `Recovery` follows a cached receipt back
  to the client that asked for it; `LedgerAnswers` says what each request is answered, `LedgerLimits` where the promises
  end.
- **The secure record channel** (`Channel`, `ChannelRuns`, `TamperedChannel`) and the **replay cache** in front of it
  (`ReplayCache`).
- **IPv4 route selection** for directed broadcasts (`Route`), with its 32-bit mask arithmetic.
- **Rate limiting** (`RateLimiter`), **header canonicalisation** (`Headers`) and the **request digest** (`Digest`), over
  the byte order and the stable sort of `Ordering`.

Objects that the program updates in place are classes here. Each method is proved equal to a function of the old state
(`…Spec` modules). Laws named `…Exactly` say what those functions decide in terms of the state alone, with the
program's own limits and durations, and the theorems are about runs of them: a run is a sequence of calls by anyone,
in any order, each linked to the state that the call before it left behind. `dafny verify dfyconfig.toml` checks everything.

## How the system is stated

- Time is an integer number of milliseconds. In a run it never goes backwards, and one call reads the clock once. Client
  and server share this clock for timers; the wall clock enters only as a number written into receipts.
- Operation ids, client keys, nonces and tickets are only ever compared, so they are numbers. Drawn tickets are fresh.
- The request digest is represented by the bytes that are hashed: SHA-256 is taken to be free of collisions. Strings are
  their UTF-8 bytes.
- The record encoding and the cipher under the secure channel are functions of which only this is assumed: decoding
  undoes encoding, and opening undoes sealing under the same counter (section 5.1 of the Noise Protocol Framework,
  revision 34). The stream delivers what was written, in order, in pieces of any size, and may block or fail at any
  moment; ghost counters record when it does, so that the contracts can say what it was asked.
  `TamperedChannel` drops the assumption on the stream: any bytes may arrive, and only what the peer sealed under a
  number opens under that number.
- The promises of `WakeSystem` hold under the conditions that `Enabled` spells out: every reservation completes before
  its pending lease ends, and a request is served only while the server takes its stamp as fresh, which is not more than
  a minute behind the order, the difference of the wall clocks included. Messages may otherwise be lost, delayed, repeated
  and reordered at will, the client may reconnect, tick, drop the operation at any time, and other operations may use the
  same ledger. `LedgerLimits.AbandonedReservationIsGrantedExactly` says what happens when the first condition fails.
- Receipts and online reports reach the screen of `WakeSystem` without the checks of the connection actor. The actor only
  drops such events or closes the connection (`ActorRuns.ShownEventWasReceived`), and both are steps of the system.

Findings worth knowing when reading the code:

- `canonical_headers` announces support for mixed-case names (src/protocol.rs:160-162), but it refuses them before it
  lower-cases (src/protocol.rs:143-146). The model follows the code: `Headers.MixedCaseIsRefused`.
- A fixed-window limiter keeps its plain limit in every window only for limits of at most one
  (`RateRuns.PlainLimitHoldsExactly`); the tight bound is `2 * limit - 1`.
- Availability of attempt 2 does not depend on how long a dispatch takes, but on whether another ledger operation pruned
  the index after the first lease lapsed and before the dispatch completed (`LedgerLimits.RetryAvailableExactly`).
- `complete` does not check which reservation it completes; `LedgerLimits.CompletionAnswersForItself` says when the
  receipt is stored with its own ticket.
- The digest input is injective only under one header list; across lists of different lengths a header reads like two
  host ids (`Digest.FedAlikeExactly`, `Digest.HeadersCanReadLikeHosts`). A server has one list.

## Model

| member | source | states |
|---|---|---|
| `LedgerObject.Ledger.Prune` | src/server.rs:462-472 | drops lapsed entries and every ticket whose entry is gone, is not its own or has a lapsed lease; nothing else changes |
| `LedgerObject.Ledger.HasCapacityFor` | src/server.rs:474-482 | there is room in the whole ledger and among the client's own entries |
| `LedgerObject.Ledger.BeginRequest` | src/server.rs:484-512 | the answer and the whole new state of a list or status request |
| `LedgerObject.Ledger.RenewCachedWake` | src/server.rs:641-654 | renews the retry lease and the receipt's deadline, or refuses when the tombstone would end first; the tombstone stays (spelled out in `LedgerAnswers.FirstAttemptIsRecoveredExactly`) |
| `LedgerObject.Ledger.BeginWakeAttempt1` | src/server.rs:514-570 | the answer and the whole new state for attempt 1 |
| `LedgerObject.Ledger.BeginWakeAttempt2` | src/server.rs:572-621 | the answer and the whole new state for attempt 2 |
| `LedgerObject.Ledger.Complete` | src/server.rs:623-638 | turns a reservation into a tombstone with the receipt and opens a full retry lease for attempt 1 |
| `LedgerInvariant.StepKeepsInvariant` | src/server.rs:462-638 | every operation keeps: indexed tickets own their entry, leases end with their entries, at most 4096 entries and 256 per client |
| `LedgerInvariant.TicketsFewerThanEntries` | src/server.rs:462-472 | there are never more indexed tickets than entries |
| `LedgerInvariant.LiveEntriesStay` | src/server.rs:462-638 | no operation evicts an unexpired entry or touches another key's entry; only a status reservation can be given back early |
| `LedgerInvariant.CachedOnlyMovesTheLease` | src/server.rs:641-654 | a cached answer changes nothing of the entry but its retry lease, which never moves back |
| `LedgerRuns.InvariantHolds` | src/server.rs:455-638 | the invariant holds in every state of every run |
| `LedgerRuns.ReservationsAreSeparated` | src/server.rs:514-570 | attempt 1 of a key is granted again only PENDING_LEDGER_TTL after any earlier reservation of it |
| `LedgerRuns.CompletionHoldsTheKey` | src/server.rs:623-638 | after a completion attempt 1 of the key is granted again only LEDGER_TTL later, unless attempt 2 started since |
| `LedgerRuns.Origin` | src/server.rs:514-638 | every wake entry was reserved by an attempt 1 that drew its ticket; while at attempt 1 no attempt 2 was granted since, and it was completed if it is not pending |
| `LedgerRuns.SecondAttemptNeedsItsOwnTicket` | src/server.rs:572-621 | attempt 2 is granted only for the ticket that attempt 1 of the same key drew, for an equal request, after it completed, within an open lease and with no other grant in between |
| `LedgerRuns.TicketRedeemedOnce` | src/server.rs:599-620 | over a whole run a ticket buys at most one attempt 2, whoever presents it |
| `LedgerRuns.LeaseAlong` | src/server.rs:462-472 | an open lease survives every interleaving that does not redeem its ticket |
| `LedgerRuns.RetryAvailableAfterCompletion` | src/server.rs:534-541 | completed within RETRY_TTL of its reservation, the first matching attempt 2 within RETRY_TTL of the completion is granted (also src/server.rs:599-620, src/server.rs:628-637) |
| `LedgerRuns.RetryAvailableAfterRenewal` | src/server.rs:534-541 | a cached receipt opens the lease again, even for a ticket that had left the index |
| `LedgerAnswers.RoomExactly` | src/server.rs:474-482 | after pruning there is room exactly when fewer than 4096 entries are alive and fewer than 256 of them are the client's |
| `LedgerAnswers.NewRequestIsReserved` | src/server.rs:498-511 | a list or status request with no living entry is reserved for two minutes if there is room, and otherwise told to wait; other entries are only pruned |
| `LedgerAnswers.NewWakeIsReserved` | src/server.rs:542-569 | attempt 1 with no living entry is granted the drawn ticket if there is room, with a retry lease of 90 s and a pending lease of two minutes, and otherwise told to wait |
| `LedgerAnswers.UnknownSecondAttemptIsReplayed` | src/server.rs:582-584 | attempt 2 of an operation without a living entry is never dispatched |
| `LedgerAnswers.OtherContentConflicts` | src/server.rs:486-489 | other content under a living id is a conflict for every kind of request and changes nothing (also src/server.rs:525-527, src/server.rs:585-587) |
| `LedgerAnswers.FirstAttemptIsRecoveredExactly` | src/server.rs:534-540 | a repeated, completed attempt 1 gets its receipt with a deadline one minute from now, a renewed 90 s lease and its ticket in the index if and only if the tombstone outlives that lease; otherwise Replay (also src/server.rs:641-654) |
| `LedgerAnswers.SecondAttemptIsRecoveredExactly` | src/server.rs:591-598 | the same for a repeated, completed attempt 2 under its own ticket (also src/server.rs:641-654) |
| `LedgerAnswers.ErrorsAreRepeated` | src/server.rs:648-650 | an attempt that ended in an error is answered with that error again, unchanged |
| `LedgerAnswers.RedemptionExactly` | src/server.rs:599-620 | attempt 2 of a completed attempt 1 is granted if and only if it brings the indexed ticket of that attempt, an equal request and an open lease |
| `LedgerAnswers.OldAttemptsAreReplayed` | src/server.rs:531-533 | once attempt 2 is completed, attempt 1 and foreign tickets are replays that change nothing (also src/server.rs:599-601) |
| `LedgerAnswers.CompletionExactly` | src/server.rs:623-638 | a completion keeps the answer for 15 minutes and opens a retry lease of 90 s for attempt 1 only; it changes nothing else |
| `LedgerAnswers.PendingOperationIsExclusive` | src/server.rs:484-501 | while an operation is pending every request with its id is told to wait, or is a conflict if its content differs; none starts work (also src/server.rs:525-530, src/server.rs:585-590) |
| `LedgerAnswers.AnswerIsRepeated` | src/server.rs:484-501 | for LEDGER_TTL after its completion the ledger answers a list or status request with the stored response and never has it worked on again; what the server then sends of a host list is rebuilt from the current catalog and permissions (src/server.rs:1583-1599) |
| `LedgerAnswers.SecondAttemptEndsTheFirst` | src/server.rs:531-533 | after attempt 2 began a late copy of attempt 1 is not answered from the cache, and not dispatched for PENDING_LEDGER_TTL |
| `LedgerLimits.RetryAvailableExactly` | src/server.rs:466-471 | without a recovery in between, attempt 2 is available if and only if nothing pruned the index between the lapse of the first lease and the completion (also src/server.rs:628-633) |
| `LedgerLimits.AbandonedReservationIsGrantedExactly` | src/server.rs:462-465 | a reservation whose worker neither completed nor was replaced is granted again if and only if its pending lease is over and the ledger has room (also src/server.rs:530-569) |
| `LedgerLimits.AbandonedReservationIsGrantedAgain` | src/server.rs:462-465 | a witness of the row above: two grants of one key exactly PENDING_LEDGER_TTL apart (also src/server.rs:553-569) |
| `LedgerLimits.CompletionAnswersForItself` | src/server.rs:623-638 | the receipt of a worker of either attempt is stored with an entry of its own ticket if and only if attempt 1 of the key was not reserved again since |
| `LedgerLimits.LateCompletionAnswersForAnother` | src/server.rs:623-638 | a witness of the row above: a late worker's receipt is stored with a reservation that has another ticket |
| `WakeServer.AuthorizedHosts` | src/server.rs:1920-1941 | accepts exactly one to eight different hosts that are allowed and known, and returns their catalog entries in order; otherwise the first offending host decides the error |
| `WakeServer.Dispatch` | src/server.rs:1823-1873 | one result per host, in order, with its own outcome; the sender runs for a host only while the server runs, its policy source is healthy, the host is unchanged and the client may wake it, and stops early only where one of these fails; no host is sent to twice |
| `WakeServer.ReceiptNamesTheHosts` | src/server.rs:1801-1818 | every receipt the server can build, of a completed dispatch or of a cooldown refusal in sorted order, names exactly the requested hosts (also src/server.rs:1848-1873) |
| `WakeServer.ResultsTellTheOutcomes` | src/server.rs:1848-1873 | a result accepts its host exactly if the sender delivered, and otherwise tells a bad target from a failed sender |
| `WakeServer.AcceptedHostsWereWoken` | src/server.rs:1848-1873 | the accepted hosts of a receipt are exactly those that the sender delivered to |
| `WakeServer.RefusalsAcceptNobody` | src/server.rs:1801-1818 | a receipt of the cooldown accepts no host, and gives the rate limit as the reason |
| `WakeServer.BeginWake` | src/server.rs:1741-1773 | attempt 1 with a ticket and attempt 2 without one are replays that leave the ledger as it is; a new operation is granted and reserved while there is room; the ledger decides everything else |
| `WakeServer.NewOperationIsGranted` | src/server.rs:1744-1756 | attempt 1 without a ticket, for an id with no living entry while there is room, is granted the drawn ticket and leaves a pending reservation of that request (also src/server.rs:542-569) |
| `Cooldowns.WakeCooldowns.ReserveWakeTargets` | src/server.rs:2570-2595 | the answer and the new stamps: all hosts are stamped or none |
| `Cooldowns.StampsAreHistory` | src/server.rs:2576-2594 | the stamps are exactly the reservations of the last ten seconds |
| `Cooldowns.RefusedExactlyInCooldown` | src/server.rs:2570-2595 | a reservation is refused if and only if the same client reserved one of its hosts less than ten seconds ago |
| `ProgressObject.Progress.Receive` | src/wake.rs:40-49 | the new view after a receipt |
| `ProgressObject.Progress.Observe` | src/wake.rs:51-53 | the new view after an online report, and whether it was news |
| `ProgressObject.Progress.Outcome` | src/wake.rs:55-70 | the outcome of the attempt |
| `ProgressSpec.WaitStartsAtFirstReceipt` | src/wake.rs:26-49 | after any history the local wait runs from the first receipt; duplicates never move it |
| `ProgressSpec.OnlineHostsWereAcceptedAndSeen` | src/wake.rs:40-53 | after any history every online host is accepted by the last receipt and was reported |
| `ProgressSpec.CompleteMeansEveryTarget` | src/wake.rs:55-70 | success means that every target was accepted and reported online, and is reached exactly then |
| `ProgressSpec.ViewOfHistory` | src/wake.rs:40-53 | after any history a host is accepted exactly if the last receipt accepts it, and online exactly if it was reported while accepted and every receipt since accepts it |
| `ProgressSpec.OutcomeOfHistory` | src/wake.rs:55-70 | after any history the outcome is success exactly if some host is accepted and every accepted host and every target is up, and partial exactly if all accepted hosts are up but not all targets |
| `ProgressSpec.EveryTargetUp` | src/wake.rs:55-70 | when only targets are accepted, success is that every target is accepted and up |
| `ScreenObject.WakeScreen.StartWake` | src/tui.rs:846-910 | submits attempt 1 only when connected, with one to eight targets and a catalog |
| `ScreenObject.WakeScreen.ExpireWakeRecovery` | src/tui.rs:1488-1500 | ends an unfinished operation once 13 minutes of its attempt are over |
| `ScreenObject.WakeScreen.TickWake` | src/tui.rs:1415-1486 | new state and submission of a tick |
| `ScreenObject.WakeScreen.ResumeWakeAfterReconnect` | src/tui.rs:1502-1547 | submits the attempt in progress again, with its ticket if it is the second |
| `ScreenObject.WakeScreen.OnConnected` | src/tui.rs:1249-1258 | a new connection resumes the operation |
| `ScreenObject.WakeScreen.OnReceipt` | src/tui.rs:1307-1351 | takes a receipt of the attempt in progress and no other |
| `ScreenObject.WakeScreen.OnOnline` | src/tui.rs:1352-1386 | takes an online report of the attempt in progress and no other |
| `ScreenSteps.StartExactly` | src/tui.rs:846-910 | attempt 1 is ordered if and only if the screen is connected, the actor lives and one to eight hosts of a known catalog are selected |
| `ScreenSteps.TickExactly` | src/tui.rs:1415-1500 | when a tick ends the operation, forgets it, orders attempt 2 with the held ticket, or does nothing |
| `ScreenSteps.ReconnectExactly` | src/tui.rs:1502-1547 | a reconnection repeats the order of the attempt in progress, unless the operation is finished, 13 minutes old or lacks its ticket |
| `ScreenSteps.ReceiptExactly` | src/tui.rs:1307-1351 | a receipt of the attempt in progress is taken with its ticket and ends the operation exactly if it accepts no host; any other changes nothing |
| `ScreenSteps.OnlineExactly` | src/tui.rs:1352-1386 | the first report of an accepted host is taken and ends the operation exactly if every accepted host is online now; any other changes nothing |
| `ScreenRuns.OrdersAreJustified` | src/tui.rs:846-910 | over any series of events, reconnecting by hand included, each order is justified: attempt 1 without a ticket, attempt 2 with the ticket of a receipt and only after the full local wait; all orders of an operation ask for the same, attempts never go back, and those of one attempt lie within 13 minutes (also src/tui.rs:787-838, src/tui.rs:1223-1547) |
| `ScreenRuns.UpMeansFinished` | src/tui.rs:1375-1384 | over any series of events whose receipts accept only targets: once every target of the operation on the screen is online, the operation is finished (also src/tui.rs:1346-1349) |
| `ScreenRuns.NothingAfterTheEnd` | src/tui.rs:1415-1547 | over any series of events an operation that finished or was forgotten is never unfinished on the screen again, and never ordered again |
| `WakeSystem.StepOk` | src/server.rs:514-654 | every step of client, network and server keeps the invariant that ties leases, receipts and submissions together (also src/tui.rs:1223-1547) |
| `WakeSystem.SendOk` | src/server.rs:1834-1873 | each turn of the dispatch loop keeps the invariant: the worker asks for a packet that was not asked for before |
| `WakeSystem.DispatchIsASeriesOfSends` | src/server.rs:1834-1873 | a dispatch loop that asks for some first hosts is as many steps of the worker, and logs exactly those packets |
| `WakeSystem.RunReaches` | src/server.rs:1834-1873 | any enabled further steps, those of a dispatch loop included, lead from a reachable state to a reachable one |
| `WakeSystem.MessagesTravel` | src/tui.rs:1415-1547 | every order of the screen is under way with its attempt and ticket, a completion sends its receipt, each packet is logged, and no message is taken out (also src/server.rs:1834-1897) |
| `WakeSystem.ReachableOk` | src/server.rs:1774-1897 | the invariant holds in every reachable state (also src/tui.rs:1415-1547) |
| `WakeSystem.SentAtMostOncePerAttempt` | src/server.rs:1774-1873 | in every reachable state the wake sender ran at most once for an attempt and host, so at most twice for a host, whatever the network delays among the requests that the server takes as fresh (also src/server.rs:514-638, src/server.rs:2635-2638, src/tui.rs:1415-1547) |
| `WakeSystem.FirstSubmissionIsGranted` | src/server.rs:1744-1756 | in every reachable state the first submission of the operation that is served is granted while the ledger has room (also src/server.rs:542-569) |
| `WakeSystem.ResubmissionIsCached` | src/server.rs:58-69 | a submission for the attempt that was granted last and is completed, arriving within the connect and receipt budgets, is answered with that attempt's receipt: its id, headers, ticket and results, and a deadline one minute from now; never Replay, never a new dispatch (also src/server.rs:641-654, src/tui.rs:1502-1540, src/wake.rs:36-38) |
| `WakeSystem.EarlierAttemptIsReplayed` | src/server.rs:531-533 | once attempt 2 is completed every submission of attempt 1 is answered with Replay |
| `WakeSystem.SecondAttemptIsDecidedByTheIndex` | src/server.rs:58-69 | if receipt travel, tick delay and request travel take less than 30 s together, the first request for attempt 2 finds its lease open and is granted if and only if its ticket is indexed; it is indexed if every dispatch so far completed within RETRY_TTL or the receipt relied on was recovered (also src/server.rs:599-620, src/tui.rs:1435-1475, src/wake.rs:40-49) |
| `Recovery.RecoveredReceiptIsShownIffClocksAgree` | src/server.rs:641-654 | recovery works end to end: the cached answer to a resubmission, stamped when it is sent, is shown by the client that asked, with the accepted hosts of the completion, if and only if the clocks agree, however long ago the attempt completed (also src/server.rs:1970-1986, src/client.rs:1096-1153) |
| `WakeSession.Drain` | src/main.rs:468-526 | fails exactly at a failed connection or an all-refusing receipt of the attempt; otherwise the view after one turn is that of all reports of the operation and attempt so far |
| `WakeSession.RunWakeSession` | src/main.rs:437-593 | ends in the first turn that decides: success exactly if every accepted host and every target is up and nothing broke the attempt; failure exactly for a failed connection or an all-refusing receipt, some targets refused and the rest up, no receipt within 15 s, or the wait of the second attempt over, or that of the first without a live actor; at most two orders, the second with the ticket of the last receipt after the full local wait; a session that still runs is less than 2 * (15 + 60) s plus three polling delays old, and it ends less than one further delay later |
| `WakeSession.HistoryIsOfAllEvents` | src/main.rs:468-526 | the history that decides is what all drained events report about the attempt, one after the other |
| `WakeSession.LastTicketExactly` | src/main.rs:482 | the ticket of the second order is that of the last receipt of attempt 1 |
| `ActorObject.ConnectedClient.ExpirePending` | src/client.rs:738-739 | forgets lapsed operations |
| `ActorObject.ConnectedClient.SubmitWake` | src/client.rs:744-824 | refuses malformed, excess and out-of-order orders; a sent order starts its operation anew |
| `ActorObject.ConnectedClient.SendList` | src/client.rs:830-860 | asks for the host list unless a list request is outstanding; sixteen outstanding requests close the connection |
| `ActorObject.ConnectedClient.SendStatusBatch` | src/client.rs:1284-1320 | asks for the status of one batch of hosts, or closes the connection |
| `ActorObject.ConnectedClient.HandleServerEvent` | src/client.rs:976-1218 | new state and shown events for every server event: answers to outstanding requests and operations are taken, anything unexpected closes the connection |
| `ActorObject.ConnectedClient.HandleHosts` | src/client.rs:994-1047 | takes the host list of an outstanding list request and asks for the first batch of statuses |
| `ActorObject.ConnectedClient.HandleStatuses` | src/client.rs:1048-1089 | takes the statuses of exactly the hosts that were asked for and asks for the next batch |
| `ActorObject.ConnectedClient.HandleReceipt` | src/client.rs:1090-1153 | shows the first fitting receipt, keeps the deadline of later ones |
| `ActorObject.ConnectedClient.HandleOnline` | src/client.rs:1155-1201 | shows a fitting observation of an accepted host once |
| `ActorSteps.SubmissionExactly` | src/client.rs:752-823 | which orders go out: one to eight hosts, an operation id, room for 32 operations, no earlier attempt and none whose receipt was seen; what is then known of the operation; a refused order leaves the connection alone |
| `ActorSteps.ReceiptExactly` | src/client.rs:1096-1153 | which receipts are believed, with every bound written out, and what the first and later ones change; any other closes the connection (also src/client.rs:985-990) |
| `ActorSteps.OnlineExactly` | src/client.rs:1161-1200 | which online reports are believed, with every bound written out, and that a host is shown once; any other closes the connection (also src/client.rs:985-990, src/client.rs:1220-1228) |
| `ActorSteps.ExpiryExactly` | src/client.rs:738-739 | exactly the operations whose three minutes are over are forgotten |
| `ActorSteps.ChunksKeepEveryHost` | src/client.rs:1013-1029 | the status batches are the listed hosts, in order, at most eight in each and none empty |
| `ActorSteps.HostListExactly` | src/client.rs:994-1047 | an expected host list is shown and the status of every host on it is asked for, in batches; an unexpected one closes the connection |
| `ActorSteps.StatusesExactly` | src/client.rs:1048-1089 | the expected statuses of a batch are shown and the next batch is asked for; any others close the connection |
| `ActorSteps.ErrorExactly` | src/client.rs:1202-1215 | an error that answers something outstanding is shown and answers it; any other closes the connection |
| `ActorSteps.RefreshExactly` | src/client.rs:830-862 | a refresh asks for the host list exactly when no list request is outstanding |
| `ActorRuns.ShownEventsAreWellFormed` | src/client.rs:744-824 | after any inputs each shown receipt is the first since its submission, and each shown host was accepted by it and not shown before (also src/client.rs:976-1218) |
| `ActorRuns.OnlineFollowsItsReceipt` | src/client.rs:1155-1201 | a host is shown online only after a shown receipt of the same attempt that accepts it, once, with no submission in between |
| `ActorRuns.ShownEventWasReceived` | src/client.rs:1090-1201 | the actor only filters: every shown receipt and online host is one that a server envelope carried |
| `ActorRuns.OutstandingWorkIsBounded` | src/client.rs:758-769 | after any inputs at most 32 operations, 16 requests and one list request are outstanding (also src/client.rs:830-860, src/client.rs:1292-1295) |
| `Agreement.UnrelatedTrafficKeepsTheOperation` | src/client.rs:738-824 | traffic of other operations leaves a pending operation alone until it lapses (also src/client.rs:976-1218) |
| `Agreement.ReceiptIsShownIffClocksAgree` | src/client.rs:1096-1153 | a receipt that names the requested hosts, in whatever order, passes all client checks if and only if clocks and transit stay within the skew; otherwise it closes the connection (also src/server.rs:1801-1818, src/server.rs:1885-1895) |
| `Agreement.ServerReceiptIsShown` | src/client.rs:1096-1153 | every receipt the server builds for the request, of a dispatch or of a refusal, is shown when the clocks agree (also src/server.rs:1801-1818, src/server.rs:1885-1895) |
| `Agreement.EarlyReportClosesTheConnection` | src/client.rs:1164-1173 | between a submission and its receipt an online report of the operation, of whichever attempt, closes the connection |
| `Agreement.ReportIsTakenExactly` | src/client.rs:1155-1201 | after any inputs that keep connection and operation alive, a timely report of a host that the taken receipt of its attempt accepts is taken, and shows the host if it was not shown, if and only if no submission of the operation was put on the wire since that receipt; otherwise it closes the connection |
| `Agreement.AcceptedHostIsShown` | src/client.rs:1155-1228 | an accepted host that was observed within its window is shown |
| `Framing.FirstFrameIsStable` | src/security.rs:580-599 | more bytes never change the first frame nor its refusal |
| `Framing.FrameParses` | src/security.rs:580-599 | a written frame reads back as its body, whatever follows (also src/security.rs:956-969) |
| `Framing.CutFrameWaits` | src/security.rs:580-599 | a frame cut short is neither a frame nor an error |
| `ChannelObject.SecureConnection.WriteAllDeadline` | src/security.rs:990-1016 | writes all bytes or, on failure, a proper prefix of them; no write begins at or after the deadline |
| `ChannelObject.SecureConnection.WriteRecordBounded` | src/security.rs:956-969 | the same for length prefix and body: no write of either begins at or after the one deadline |
| `ChannelObject.SecureConnection.SendPayload` | src/security.rs:513-560 | success puts exactly the next frame on the wire; while the channel is open and the stream takes all writes in time only an illegal payload, the libraries or the end of the numbers make it fail; a failure that used the cipher closes the channel; no write begins 3 s after the start |
| `ChannelObject.SecureConnection.FillBuffer` | src/security.rs:575-617 | reads until the buffer holds a whole frame or a read blocks, and stops without a frame for no other reason; the buffer never exceeds MAX_RECORD_BYTES + 4, no byte is lost, and the loop ends; the zero-room failure cannot happen |
| `ChannelObject.SecureConnection.PollPayload` | src/security.rs:570-667 | returns the first whole record if it opens, decodes and has the expected number; finds nothing only after a read that blocked in this call; closes only for a bad record, a bad length or a stream that failed |
| `ChannelSpec.ReadyFrameIsDelivered` | src/security.rs:570-667 | if the pending bytes start with the frame of the next record and no read blocks or fails while bytes are unread, the poll returns its payload and leaves the rest |
| `ChannelSpec.OnlyOwnRecordsAreDelivered` | src/security.rs:636-667 | a delivered payload has legal size and comes from a record of this version, session, direction and number |
| `ChannelRuns.DeliveredIsPrefixOfSent` | src/security.rs:513-560 | over any run the delivered payloads are a prefix of those whose send succeeded; a failed send is never delivered (also src/security.rs:636-667) |
| `ChannelRuns.PollFailsOnlyWithTheStream` | src/security.rs:570-667 | an open receiver fails only when the stream does, below 2^64 - 1 records |
| `ChannelRuns.LegalPayloadIsSent` | src/security.rs:513-560 | over any run an open sender sends every legal payload that the libraries encode, if the stream takes it in time |
| `ChannelRuns.SentPayloadIsDelivered` | src/security.rs:570-667 | over any run the next payload that was sent is delivered by the first poll that is not hindered |
| `ChannelRuns.QuietMeansAllDelivered` | src/security.rs:618-634 | when a poll finds nothing and all bytes were read, everything sent was delivered |
| `ChannelRuns.ClosedIsAbsorbing` | src/security.rs:504-516 | a closed end stays closed and neither sends nor delivers (also src/security.rs:570-573) |
| `ChannelRuns.PollsFollowTheBytes` | src/security.rs:570-667 | however the bytes are cut, the polls return a prefix of what the bytes stand for, and all of it in the end |
| `ChannelRuns.ChunkingIndependent` | src/security.rs:570-637 | two receivers of the same bytes never disagree |
| `TamperedChannel.DeliveredDespiteTampering` | src/security.rs:570-667 | whatever bytes arrive, if only genuine ciphertexts open, the delivered payloads are a prefix of those whose send succeeded, or of these and the one whose failure closed the sender |
| `ReplayObject.ReplayCache.Reserve` | src/security.rs:267-305 | the answer and the whole new cache; a full cache fails closed |
| `ReplayObject.ReplayCache.Confirm` | src/security.rs:307-319 | the answer and the whole new cache |
| `ReplayRuns.CacheStaysBounded` | src/security.rs:274-297 | at most 8192 entries, 64 per client and 4 unconfirmed per client after every call |
| `ReplayRuns.HeldAlong` | src/security.rs:273-297 | no call evicts or shortens a live entry: until it lapses the nonce is refused and can be confirmed |
| `ReplayRuns.ReservationsAreSeparated` | src/security.rs:267-319 | a nonce is accepted again only 6 s after a reservation and three minutes after a confirmation |
| `ReplayRuns.ReservationCanBeConfirmed` | src/security.rs:307-319 | whatever other clients do, a live reservation can be confirmed |
| `ReplayRuns.ConfirmationFollowsReservation` | src/security.rs:307-319 | a confirmation succeeds if and only if an earlier accepted call on that nonce has not lapsed |
| `ReplayRuns.ReservationExactly` | src/security.rs:267-305 | over any run a nonce is reserved if and only if no accepted call on it stands, and of the nonces that stand fewer than 64 are the client's, fewer than 4 of these unconfirmed, and fewer than 8192 in all |
| `RateObject.RateLimiter.Allow` | src/server.rs:234-259 | the answer and the whole new bucket map |
| `RateSpec.AllowExactly` | src/server.rs:234-259 | a call is granted if and only if the key's window is open and below the limit, or it opens one: the limit is not 0 and fewer than 2048 windows are open; other windows stay as they are |
| `RateRuns.AtMostTwiceTheLimit` | src/server.rs:234-259 | any interval one window long holds at most 2 * limit - 1 grants to a key |
| `RateRuns.BoundIsReached` | src/server.rs:245-258 | for every limit and window of at least 2 there is a run with 2 * limit - 1 grants to a key in one window |
| `RateRuns.PlainLimitHoldsExactly` | src/server.rs:234-259 | every run keeps the plain limit in every window if and only if the limit is at most one |
| `RateRuns.BucketsStayBounded` | src/server.rs:240-245 | never more than MAX_RATE_KEYS buckets |
| `MaskArithmetic.MaskTest` | src/wol.rs:75-79 | the test on leading ones and trailing zeros accepts exactly the nonzero contiguous masks |
| `MaskArithmetic.AndPrefixMask` | src/wol.rs:80-83 | masking keeps the network part of an address |
| `MaskArithmetic.OrLowBits` | src/wol.rs:87 | setting the host bits of a network gives its last address |
| `RouteSelection.ShiftedOnes` | src/wol.rs:123 | the recomputed shift never overflows and gives the prefix mask back |
| `RouteSelection.EligibleExactly` | src/wol.rs:65-72 | which interfaces count, by the four octets of their address |
| `RouteSelection.FinalTests` | src/wol.rs:124-128 | the closing tests refuse exactly the targets without a usable directed broadcast |
| `RouteSelection.SelectIpv4Route` | src/wol.rs:61-138 | the one-pass accumulator meets the specification: longest prefix, one interface index, least alias address, usable subnet (section 5.1 of RFC 4632, section 7 of RFC 922) |
| `RouteSelection.SelectionIsUnique` | src/wol.rs:61-138 | the specification determines the outcome, the kind of failure included |
| `RouteSelection.PermutationInvariant` | src/wol.rs:61-138 | the outcome is the same for every order of the inventory |
| `RouteSelection.OnlyInterfaceIsSelected` | src/wol.rs:123-137 | the only eligible interface whose subnet of at least four addresses holds the target is selected, unless the target is its first or last address or the last one is 255.255.255.255 |
| `RouteSelection.SelectedRouteShape` | src/wol.rs:123-137 | a route has a prefix of at most 30 bits and network < target < broadcast = last address of the network; no eligible interface shares a smaller subnet with the target, and the route has the lowest address of its own (also src/wol.rs:84-105) |
| `Headers.CanonicalHeaders` | src/protocol.rs:135-165 | the walk over the sorted list decides exactly the declared conditions and returns the sorted list |
| `Headers.AcceptedExactly` | src/protocol.rs:135-165 | which lists are accepted and which error the others get, with the limits of 32 headers and 4096 bytes written out |
| `Headers.NameExactly` | src/protocol.rs:167-181 | a name has 1 to 32 lower-case letters, digits and inner hyphens |
| `Headers.ValueExactly` | src/protocol.rs:183-189 | a value has 1 to 256 printable characters and no space at either end |
| `Headers.ReservedExactly` | src/protocol.rs:147-149 | the reserved names are those that start with "rop-" or "x-rop-" (also src/config.rs:1216-1221) |
| `Headers.LowercaseKeepsNames` | src/protocol.rs:146-147 | lower-casing never changes a name that passed the check (also src/protocol.rs:167-181) |
| `Headers.MixedCaseIsRefused` | src/protocol.rs:143-147 | a list with an upper-case letter in a name is refused, not lower-cased |
| `Headers.CanonicalForgetsOrder` | src/protocol.rs:135-165 | the answer, the kind of error included, does not depend on the order of the headers |
| `Headers.CanonicalIsAnIncreasingPermutation` | src/protocol.rs:160-164 | an accepted list keeps every header, in strictly increasing order of names |
| `Headers.CanonicalIsIdempotent` | src/protocol.rs:135-165 | a second pass changes nothing |
| `Headers.FixedPointsExactly` | src/protocol.rs:135-165 | which lists a peer must send as they are, exactly (also src/protocol.rs:341-349) |
| `Headers.ConfigAndProtocolAgree` | src/config.rs:1192-1223 | the two separately written header checks accept the same headers (also src/protocol.rs:167-189) |
| `Headers.ValidateConfigHeaders` | src/config.rs:610-628 | a header map passes the configuration if and only if it is a fixed point of the canonical form |
| `Digest.RequestDigestContext` | src/server.rs:2537-2568 | what the hasher has been fed when it is finalized |
| `Digest.SmallInput` | src/server.rs:2537-2568 | the bytes for one header and one host, written out |
| `Digest.FedAlikeExactly` | src/server.rs:2537-2568 | two contents are fed alike exactly when tag, catalog version and nonce are equal and headers and hosts form one field list |
| `Digest.DigestInputIsInjective` | src/server.rs:2537-2568 | under equally many headers the input tells any two contents apart |
| `Digest.HeadersCanReadLikeHosts` | src/server.rs:2557-2563 | with different numbers of headers two contents can be fed alike |
| `Digest.WakeDigestIsTheTargetSet` | src/server.rs:1732-1740 | two accepted wake requests have one digest exactly when catalog version, nonce and set of targets agree (also src/server.rs:2537-2563) |

## Left out

- Handshake, key agreement, SHA-256 and record encoding: libraries, replaced by the assumptions above.
- Sockets, listener, DNS, adapter enumeration, ping and TCP probes: arrival, delay and chunking are inputs; an observed
  online host is a step of the environment.
- Screens other than the wake state machine, keys, forms, messages; permissions, files and the loading of settings.
- Locks and threads: each operation under a lock is one step, and its clock reading is taken at that step. The program
  reads the clock just before it takes the lock, so two threads can apply readings in the other order.
- Reload of the access policy, shutdown and the validation of envelopes: their only trace is a dispatch that stops early
  (`WakeServer.Dispatch`) and a worker that never completes.
- The contents of host lists and statuses, and the idle timeout of a connection.
- Delivery of every online report: no such claim holds, because a report of attempt 1 that arrives after attempt 2 was
  submitted closes the connection. `Agreement.ReportIsTakenExactly` says which reports are taken.
- IPv6 sending, monitor threads, connection permits, logging and the checks of single fields: little state of their own.
- Overflow of the platform's clock and of `usize` sums of at most 32 header lengths.
- LedgerAnswers.AnswerIsRepeated: is about the ledger; that a cached host list is rebuilt from the current catalog before
  it is sent is not modelled.
