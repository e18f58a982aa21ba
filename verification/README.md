# Verification of the Digipology room log and its small parsers

This project models the parts of the repository whose correctness is hardest to see from
one function: the room log protocol of the worker (`apps/worker`), the repair of truncated
model output (`packages/ai`), the CSV reader of the catalog benchmark (`scripts`) and the
fixed-window rate limiter. `dafny verify dfyconfig.toml` checks all of it.

## What is modelled

**The room.** `RoomObject.RoomDO` is the durable object. The SQLite tables and the `room`
row are one field, `store`; a transaction works on copies and replaces the field at its end,
so where the source throws inside `transactionSync` nothing has changed. Each method is one
committed transaction with the messages sent right behind it: `Join`, `StartIfNeeded`,
`Sequence`, `Alarm`, `RegisterTimer`, `CancelTimer`, `AttestCheckpoint`, `SaveSnapshot`,
`End`, `Connect`, `Authenticate`, `Hello`, `ActionFrame`, `Disconnect`. Everything the room
ever sequenced is the ghost `history`; `StoreOk` says how every table is a view of it, and
every method keeps it. `RoomRun.Run` runs any list of events in any order, at any times
(the clock may go backwards), so the invariant holds in every reachable state, and
`Progress` says what holds between any two moments of a run. `RoomWitnesses` has runs, from
the creation of a room through its public methods, into the states in which it does not do
what is promised. `RoomEffects` says column by column, with the source's own numbers, what
the transactions change, and who is meant by host, seated, awaited and claimed: the functions
the contracts name are tied to it, so that none of them is its own only definition. In the
same way `Kernel.Play`, which runs the kernel from the front, says what a replay computes.

A hello is two steps, as in the source: `Authenticate` up to the point where the handler
first waits, `Hello` from the check of the room to the answer. Between the two the socket
already counts as authenticated, receives broadcasts and may send actions. An action or a
timer that gets in before the start makes `Hello` expire the room, as the code does.

Each socket is a first-in first-out channel; `sent` holds everything ever sent on it, so a
prefix of it is what has been delivered so far. What a channel brings is stated of the
channel alone, and of two clients: one that skips an action it already has, and one that
takes it for a gap and reconnects, as the web client does.

A request id is any text. The texts that consist of `system:` and an action id are what the
room stores as request id of a system action, in the same unique column, so they are their
own case of `RequestId`.

**The kernel** is a record of functions: a deterministic total step, a state hash, the
script flag, the roster seeding and what a saved state says about its table. A rejected
action still advances the sequence. Nothing else is assumed of it, except that the seats of
a saved state have distinct names, and that the hash has no collisions where a lemma says so.

`ACTION_RETENTION` and `CHECKPOINT_INTERVAL` (500 and 200 in packages/protocol/src/http.ts,
lines 10-11) are the symbolic `Limits`, with 2 <= interval < retention.

**The parsers.** `Extract` follows the two scanners of `packages/ai/src/extract.ts` loop by
loop; `Json` is a pushdown reader that stands for `JSON.parse`, so that "the text was cut
here" is one of its states, and `JsonParses` proves that it accepts exactly the texts of the
grammar of RFC 8259 (sections 2 and 4 to 7), each as its value. `Csv` follows `csvRows`
against the records of RFC 4180, section 2. `RateLimiter` has the limiter over both of its
stores.

## Results that differ from what is promised

- An unscripted room can lose its base. The alarm's transaction fires every due timer, with
  no bound. `BaseKeptIff` gives the exact condition: a transaction keeps a base if and only
  if the new log still reaches back to the old base. Beyond that a room with a checkpoint
  rolls the alarm back, and one without a checkpoint commits. `BaseOfRun` is about whole
  runs: while every alarm fires at most retention - interval + 1 timers a room keeps its
  base whatever else happens, and a base once lost never comes back. `AlarmOutrunsTheWindow`
  runs a new room into it; the next client to say hello gets no answer.
- A request, a join or an alarm of a started room can throw, and an alarm that does throws
  again while the row in its way is stored. The client's request ids and the stored ids of
  system actions share one unique column. `RequestThrowsIff` and `SystemThrowsIff` say
  exactly when: short of the last safe integer and of a lost checkpoint, if and only if a
  stored system action has the name the request takes, or a stored request the name of the
  new system action. `RequestNamedLikeTheStart` and `RequestNamedLikeATimer` are the runs.
- `docs/adr/0006-scripted-checkpoint-attestation.md`, lines 17 and 24, calls a divergent
  sequence permanently unconfirmable. The code accepts an attestation of the sequence just
  below the retention floor but first deletes the candidates below the floor.
  `MarkEscapesIff` is exact for every reachable room: a sequence once found divergent can be
  confirmed if and only if it is that sequence and above the checkpoint, and
  `ConfirmationMeans` adds that only a player who is connected alone confirms it.
  `EscapedMarkIsConfirmed` continues every such room that has not ended into a confirmation,
  and `DivergentIsConfirmed` is a run of a new room.
- An empty room need not expire (docs/playing.md, line 51), and the heartbeat of a connected
  one can go stale. `RoomLiveness` states both over whole runs. `HeartbeatOfRun`: the alarm
  always comes before the heartbeat is stale if and only if no event strands it, and
  `WhoStrandsHeartbeat` says which can: a ring that throws, or a registration, cancellation,
  claim or starting hello an interval or more after the last heartbeat. `ExpiryOfRun`: the
  alarm of an empty room that was ever connected is always set for its expiry if and only if
  nothing sets it anew at or after that time (`WhoStrandsExpiry`: a registration, cancellation
  or claim); while alarms are punctual it expires (`EmptyRoomExpires`). A room to which nobody ever connected never expires (`NobodyCame`),
  because its empty time moves with the clock (`RingExpiresIff`). The runs are
  `HeartbeatGoesStale`, `RequestNamedLikeATimer`, `ExpiryIsLost` and `NobodyEverComes`.
- The expiring counter store does not always count like the memory store. `StoresAgreeIff`
  is the exact condition, for any run at any times: since the key's newest window began, no
  request of any key came at or after its end. Times that do not decrease satisfy it
  (`ExpiringRefinesMemory`); `BackwardClockDiffers` is a run that does not.
- The budgets of `csvRows` come out as 65 cells in a row and 10000 terminated rows: a last
  row without a line end is not counted (`QuotedRoundTrip`, `RenderReads`).

## Model

| member | source | states |
|---|---|---|
| Kernel.FoldPlays | apps/worker/src/room-core.ts:330-337 | a replay runs the kernel over every action in order, keeps the release and ends at the last sequence |
| Kernel.PlayConcat | apps/worker/src/room-core.ts:330-337 | playing a log in two parts is playing it whole |
| RoomCoreModel.AssertState | apps/worker/src/room-core.ts:525-557 | accepts exactly the windows that are bounded, contiguous, end at the last sequence and have unique action and request ids |
| RoomCoreModel.RoomCore.Sequence | apps/worker/src/room-core.ts:104-138 | answers a retained request with its entry, else appends the next entry; the window stays acceptable |
| RoomCoreModel.RoomCore.SequenceSystem | apps/worker/src/room-core.ts:141-170 | the same keyed by the lifecycle cause |
| RoomCoreModel.PushedOk | apps/worker/src/room-core.ts:119-131 | sequencing an entry whose ids are not retained keeps every condition of an acceptable window |
| RoomCoreModel.WindowSlides | apps/worker/src/room-core.ts:128-131 | the window after sequencing is the window of the longer history |
| RoomCoreModel.ResumeIsHistory | apps/worker/src/room-core.ts:172-194 | a resume is exactly the missing end of the whole history, a resync exactly when it is no longer retained |
| RoomCoreModel.ReplayCheckpoint | apps/worker/src/room-core.ts:322-339 | succeeds exactly on a contiguous tail, with the state the kernel reaches by playing that tail action by action |
| RoomCoreModel.ReplayFromAnyBase | apps/worker/src/room-core.ts:432-437 | from any connecting base that is the fold at its sequence, the replay is the fold of the whole history |
| RoomCoreModel.ContiguousActionsAfter | apps/worker/src/room-core.ts:498-519 | returns the stored log behind a base exactly when it is complete up to the last sequence |
| RoomCoreModel.RoomBootstrap | apps/worker/src/room-core.ts:452-496 | picks the initial snapshot while it connects, else the stored log or the connecting checkpoint |
| ActionLog.LoadIsWindow | apps/worker/src/index.ts:1336-1343 | whatever was trimmed, the loaded window is the window of the history and is accepted |
| ActionLog.PersistKeeps | apps/worker/src/index.ts:1112-1136 | inserting and trimming the next entry fails exactly if its stored request id is taken, and else leaves the rows an end of the history that covers the window |
| ActionLog.KeyTakenIff | apps/worker/src/index.ts:1112-1123 | the next entry meets a uniqueness constraint if and only if a stored system action has the name of its request id, or it is a system action that a stored request id names |
| ActionLog.InsertFailsIff | apps/worker/src/index.ts:1112-1123 | an insert fails exactly on a row with the sequence, the action id or the stored request id of the new one |
| ActionLog.InsertKeepsOrder | apps/worker/src/index.ts:1336-1343 | an inserted row takes its place in the order of the sequences; no other row is lost or moved |
| ActionLog.DeleteConfirmed | apps/worker/src/index.ts:569-572 | what a confirmation deletes leaves exactly the entries behind checkpoint minus retention |
| ActionLog.MissedEverywhere | apps/worker/src/index.ts:893-911 | a request missing from the permanent table is nowhere in the history, so not in the window |
| RoomInvariants.NotYetSequenced | apps/worker/src/room-core.ts:141-153 | a cause that has not happened has no entry in the whole history |
| RoomInvariants.RecoveredByRoster | apps/worker/src/room-core.ts:397-409 | the first action of a resumed room recovers each seated saved identity once |
| RoomInvariants.RecoveredByJoin | apps/worker/src/index.ts:275-296 | a join recovers the claimed saved identity and no other |
| RoomInvariants.AdvanceKeepsLag | apps/worker/src/index.ts:1061-1084 | after a committed transaction the checkpoint lags less than an interval; when it throws and when a base is lost, exactly |
| RoomInvariants.AppendsFitIff | apps/worker/src/index.ts:1064-1079 | for any limits: m actions fit behind every log that obeys the lag rule if and only if m + interval - 1 <= retention; else some log makes the transaction throw |
| RoomInvariants.AdvanceBoundIsTight | apps/worker/src/index.ts:1064-1079 | retention - interval + 1 actions never throw behind a log that obeys the lag rule, and for one more there is a log where they do |
| RoomSteps.TwoActionJoinNeedsIntervalBelowRetention | apps/worker/src/room-core.ts:40-42 | the load-time check holds if and only if the two entries of a join throw behind no log that obeys the lag rule |
| Seating.NextResumedSeatId | apps/worker/src/room-core.ts:382-394 | the first saved seat nobody has, else the least free generated one, found within one step past the reserved seats; continues the batch order |
| Seating.ResumedRosterFromSave | apps/worker/src/room-core.ts:356-379 | the batch roster is what joining one at a time gives |
| Seating.SeatsDistinct | apps/worker/src/room-core.ts:356-394 | no seat is given twice |
| Seating.SavedSeatIff | apps/worker/src/room-core.ts:348-353 | whose seat a saved seat is: the pending player of the save, else the seated one if still a player |
| Seating.WaitingIff | apps/worker/src/room-core.ts:404-405 | a table waits exactly while a saved seat kept for somebody is not taken |
| Consensus.NobodyConfirmsAlone | apps/worker/src/room-core.ts:292-301 | unless one player has been connected alone for the grace period, a confirmation has two different connected attesters |
| Consensus.ConfirmsIff | apps/worker/src/room-core.ts:286-300 | a connected player's attestation is confirmed if and only if the candidate is unmarked and of its hash, and another connected player attested it or nobody else was connected for five minutes |
| Consensus.AnswersIff | apps/worker/src/room-core.ts:270-302 | when an attestation is divergent, conflicted, repeated or recorded, and what each leaves in the tables |
| Consensus.OtherStays | apps/worker/src/index.ts:516-588 | an attestation leaves every other sequence alone, but for those below the floor and those a confirmation passes |
| Consensus.TwelveInAMinute | apps/worker/src/index.ts:1423-1446 | whatever others attempt, a player's attempt within a minute of the one that opened the window is let through exactly if fewer than twelve came before it; a later one always |
| Consensus.AttestKeepsBallots | apps/worker/src/index.ts:516-588 | every live candidate stays above the checkpoint and matches its sequence, release and hash |
| Consensus.MarkHolds | apps/worker/src/room-core.ts:286-290 | a marked sequence not below the floor is never confirmed and stays marked |
| Consensus.OneCorrectAttesterSuffices | apps/worker/src/room-core.ts:230-252 | with injective hashes one correct hash makes the candidate the true state |
| Liveness.DeferredOnceThenFires | apps/worker/src/room-liveness.ts:32-48 | a deferred timer fires at any attempt after the grace period |
| Liveness.RingExpiresIff | apps/worker/src/room-liveness.ts:50-67 | a ring ends an empty room exactly if it was ever connected and the time since is up; the alarm of one that never was is set anew each time |
| Liveness.FreshMeans | apps/worker/src/quickplay.ts:2-3 | the alarm comes before the heartbeat is stale exactly if the heartbeat cannot be stale while no alarm is overdue |
| RoomLiveness.HeartbeatOfRun | apps/worker/src/index.ts:609-754 | through any run whose clock does not go back, a connected room's alarm always comes before its heartbeat is stale if and only if no event strands it |
| RoomLiveness.WhoStrandsHeartbeat | apps/worker/src/index.ts:416-451 | only a ring that throws, or a registration, cancellation, claim or starting hello an interval or more after the heartbeat, strands it |
| RoomLiveness.NeverStale | apps/worker/src/index.ts:737-753 | so while alarms are punctual and nothing strands it, no event of a run ever meets a connected room with a stale heartbeat |
| RoomLiveness.ExpiryOfRun | apps/worker/src/index.ts:1205-1251 | through any run, the alarm of an empty room that was ever connected is always at its expiry if and only if nothing sets it anew at or after that time |
| RoomLiveness.WhoStrandsExpiry | apps/worker/src/index.ts:416-451 | only a registration, cancellation or claim at or after the expiry time strands an empty room |
| RoomLiveness.EmptyRoomExpires | apps/worker/src/index.ts:732-744 | while alarms are punctual, the first event of an empty room at or after its expiry time is the ring that ends it |
| RoomLiveness.NobodyCame | apps/worker/src/room-liveness.ts:60 | through any run in which nobody connects, no ring ever ends the room |
| Liveness.SelectDue | apps/worker/src/index.ts:672-678 | exactly the due rows, ordered by due time and id |
| Liveness.EarliestScheduled | apps/worker/src/index.ts:1244-1247 | the earliest scheduled due time, if there is one |
| Delivery.BroadcastSync | apps/worker/src/message-handler.ts:73-79 | broadcasting the next entry keeps every prefix of a channel faithful and its end the newest state |
| Delivery.NextActionSteps | apps/worker/src/message-handler.ts:73-79 | a client that receives the next action holds what the kernel makes of its state |
| Delivery.OldNewsSync | apps/worker/src/message-handler.ts:77-78 | the reply to a repeated request changes no client that skips what it has |
| Delivery.BootstrapSync | apps/worker/src/room-core.ts:205-220 | a true base followed by the log behind it puts a channel in sync |
| Delivery.ResumeSync | apps/worker/src/room-core.ts:183-193 | a resume puts a client that held a true state in sync |
| Delivery.AppliedIsHistory | apps/worker/src/message-handler.ts:73-107 | at every moment of delivery a client that skips stale actions has applied exactly the log from its base to where it is |
| Delivery.ChannelCarriesTheLog | apps/worker/src/message-handler.ts:73-107 | whoever listens: at every moment the channel has brought exactly the log from its base to where it is, each entry once and in order, besides stale replies |
| Delivery.StrictClientIff | apps/web/src/state/kernelStore.ts:235-242 | the web client, to which a stale action is a gap, follows the log exactly until the first stale reply |
| Delivery.SameSequenceSameState | apps/worker/src/message-handler.ts:73-107 | two clients at one sequence hold the same state |
| RoomTables.BootstrapIsHistory | apps/worker/src/index.ts:792-843 | each way of asking for a bootstrap gives a base and the whole log behind it while there is a base; never the unavailable error |
| RoomTables.HeardMeans | apps/worker/src/index.ts:1138-1143 | a broadcast reaches every socket that said hello, in order, and no other |
| RoomTables.OneHonestVoterSuffices | apps/worker/src/index.ts:538-553 | a confirmation that counts one honest voter stores the state the history folds to |
| RoomTables.RequestsForever | apps/worker/src/index.ts:893-931 | a request keeps its one entry through every longer history |
| RoomTables.SystemPersistsIff | apps/worker/src/index.ts:1112-1136 | a transaction of system actions meets the unique column exactly if a client's request, still stored when that entry is inserted, has its name |
| RoomSteps.ReplayIffConnects | apps/worker/src/room-core.ts:322-339 | mechanical replay over the window succeeds exactly from a base that connects |
| RoomSteps.JoinKeepsPause | apps/worker/src/index.ts:275-307 | every join keeps the pause flag exact; only a claim ends the pause |
| RoomSteps.AlarmKeepsSystem | apps/worker/src/index.ts:679-716 | the alarm's entries account for every timer that fired and for nothing else |
| RoomStore.RequestKeeps | apps/worker/src/index.ts:907-936 | one more request keeps the whole invariant |
| RoomStore.StartKeepsStore | apps/worker/src/index.ts:969-1024 | the start makes the first entry and keeps the whole invariant |
| RoomStore.JoinKeepsStore | apps/worker/src/index.ts:240-313 | a join of a running room keeps the whole invariant |
| RoomStore.AlarmKeepsStore | apps/worker/src/index.ts:667-724 | an alarm keeps the whole invariant, whatever fires or is deferred |
| RoomStore.AttestKeepsStore | apps/worker/src/index.ts:516-588 | an attestation keeps the whole invariant, whatever it decides |
| RoomStore.ConfirmationMeans | apps/worker/src/index.ts:516-588 | confirmed sequences go up, attesters voted for the confirmed hash, a divergent sequence is confirmed only just below the floor and by one player alone, one honest voter makes it true |
| RoomStore.MarkEscapesIff | apps/worker/src/index.ts:493-525 | in every reachable room a divergent sequence can still be confirmed by its players, with the presence it remembers, if and only if it is just below the retention floor and above the checkpoint |
| RoomStore.VouchedConfirmation | apps/worker/src/index.ts:538-567 | while every confirmation counts an attester who only ever voted for the true hash there, every confirmed checkpoint is the true state |
| RoomEffects.VouchedIff | apps/worker/src/index.ts:538-567 | what it means that a confirmation counted an honest attester: every vote of it at the sequence was for the hash of what the kernel reaches there |
| RoomStore.MechanicalReplay | apps/worker/src/index.ts:352-364 | replaying an unscripted room's window gives the newest state exactly while the room has a base |
| RoomStore.BootstrapIsReply | apps/worker/src/index.ts:792-843 | the three branches of hello answer with what the room owes |
| RoomStore.GreetingOk | apps/worker/src/message-handler.ts:81-107 | after any answer to hello the socket is in order, and in sync if it was welcomed |
| RoomObject.CreateRoom | apps/worker/src/index.ts:177-201 | a room is created once and for 1 to 64 players; a new one is joinable, has nobody, nothing and no alarm, and satisfies the invariant |
| RoomObject.CreateRoomFromSave | apps/worker/src/index.ts:203-232 | the same from a save whose hash is its own and whose release is the room's, as sequence-zero base |
| RoomObject.RoomDO.LoadCore | apps/worker/src/index.ts:1336-1343 | after any run the rebuilt core holds the window of the history |
| RoomObject.RoomDO.Append | apps/worker/src/index.ts:1112-1123 | a new system action is never a duplicate; it is persisted behind the log unless its stored request id is taken or the sequences are used up |
| RoomObject.RoomDO.AdvanceCheckpoint | apps/worker/src/index.ts:1061-1084 | keeps, moves to the state the kernel reaches over the whole history, or throws, exactly as the lag says |
| RoomObject.RoomDO.SequenceRequest | apps/worker/src/index.ts:905-936 | once the request table missed, the core never reports a duplicate; the insert fails exactly on a taken stored id or beyond the last sequence |
| RoomObject.RoomDO.Sequence | apps/worker/src/index.ts:893-945 | a known request returns its first entry and changes nothing; a new one is the next entry; else nothing changed |
| RoomObject.RoomDO.ActionFrame | apps/worker/src/message-handler.ts:73-79 | new actions are broadcast to all, known ones answered to the one socket; all clients stay in sync |
| RoomObject.RoomDO.EarlyFrame | apps/worker/src/message-handler.ts:50-55 | before hello any other frame is only an error |
| RoomObject.RoomDO.Broadcast | apps/worker/src/index.ts:1138-1143 | every socket that said hello has exactly the new actions appended, in order; every other is left as it was; all stay in sync |
| RoomObject.RoomDO.ExpireLegacyRoom | apps/worker/src/index.ts:1086-1098 | a room that sequenced something before it started is expired |
| RoomObject.RoomDO.StartIfNeeded | apps/worker/src/index.ts:950-1026 | starts once, with the start action as first entry and the pause and timers of a resumed table; throws only where no initial snapshot can be had |
| RoomObject.RoomDO.RescheduleAlarm | apps/worker/src/index.ts:1232-1251 | a connected room always has an alarm, unless its last ring threw, and it comes no later than any scheduled timer of an unpaused one |
| RoomObject.RoomDO.Join | apps/worker/src/index.ts:234-331 | who is let in, in which seat, with which entries, and that a join of a running room fails exactly if its entries cannot be committed or the id is taken; ends the pause with the last awaited claim |
| RoomObject.RoomDO.RegisterTimer | apps/worker/src/index.ts:416-432 | the first registration wins and no other row is touched; in a pause the delay counts from the pause's beginning, to be shifted at its end |
| RoomObject.RoomDO.CancelTimer | apps/worker/src/index.ts:439-451 | a scheduled timer's row changes in its status alone, every other row not at all; a known timer does not fire after this |
| RoomObject.RoomDO.FireDue | apps/worker/src/index.ts:679-715 | the loop fires or defers every due timer once, in order, none a duplicate; it throws exactly if one of its entries cannot be persisted |
| RoomObject.RoomDO.Alarm | apps/worker/src/index.ts:661-754 | a due timer not deferred before is put off to 350 ms from now exactly if an action came in the 350 ms before, any other due one has fired and is in the history, the rest is untouched; all or none, none exactly when the entries cannot be committed; expiry and heartbeat; every client stays in sync |
| RoomObject.RoomDO.End | apps/worker/src/index.ts:383-394 | ends once and tells every socket |
| RoomObject.RoomDO.CheckWindow | apps/worker/src/index.ts:493-503 | exactly the sequences of the cadence that are in the window and above the checkpoint are looked at, and how the others are answered |
| RoomObject.RoomDO.AttestCheckpoint | apps/worker/src/index.ts:471-607 | only a bootstrapped player of a scripted room, within the rate, with a hash-verified snapshot counts; the tables move by the consensus decision, whose conditions ConfirmsIff and AnswersIff give; each earlier answer changes exactly what it should |
| RoomObject.RoomDO.SaveSnapshot | apps/worker/src/index.ts:343-381 | an unscripted room saves the newest state exactly while it has a base; a scripted one its current checkpoint or the host's verified snapshot; stale exactly without either of the newest sequence |
| RoomObject.RoomDO.Connect | apps/worker/src/index.ts:609-641 | a new socket is unauthenticated and stops the expiry clock |
| RoomObject.RoomDO.Authenticate | apps/worker/src/message-handler.ts:81-95 | hello first, hello once, and only with a player's token |
| RoomObject.RoomDO.Answer | apps/worker/src/index.ts:792-855 | the computed answer is what the room owes |
| RoomObject.RoomDO.Hello | apps/worker/src/index.ts:766-873 | starts the room, answers with a base and the whole log or the log behind the named sequence, and seats the client |
| RoomObject.RoomDO.NextHost | apps/worker/src/room-core.ts:422-429 | the oldest connected player in join order, else the current host |
| RoomObject.RoomDO.Disconnect | apps/worker/src/index.ts:1170-1226 | host, presence and expiry clock after a socket is gone |
| RoomEffects.GreetedLogIs | apps/worker/src/message-handler.ts:81-107 | after a hello, what is known of the client: it starts with nothing, or with the state the kernel reached at the sequence it names, if that is what it holds |
| RoomEffects.SeatedIff | apps/worker/src/index.ts:1378-1384 | who counts as connected in the consensus: whoever has a socket whose hello was answered with a base or a resume |
| RoomEffects.TogetherIff | apps/worker/src/index.ts:1386-1392 | the time two different players were last seated together |
| RoomEffects.GreetedIff | apps/worker/src/index.ts:857-863 | a hello seats its socket exactly if a base or a resume was among the answers |
| RoomEffects.FirstActionIs | apps/worker/src/room-core.ts:397-409 | the first action of a resumed room names every player with the seat and whom it was kept for, and says that seats stay pending exactly if the save had pending ones or somebody is awaited |
| RoomEffects.StartArms | apps/worker/src/index.ts:1016-1023 | a start arms the save's timers with the save's delays, the first of an id wins and rows that were there stay |
| RoomEffects.BaseOfStart | apps/worker/src/index.ts:960-991 | from which snapshot a room starts and when it cannot |
| RoomEffects.StartChanges | apps/worker/src/index.ts:1003-1015 | what a start writes; the pause begins with it exactly if a resumed table waits for somebody |
| RoomEffects.ClaimsIff | apps/worker/src/index.ts:274-277 | whose seat a joining player claims, and that only a paused table has claims |
| RoomEffects.JoinChanges | apps/worker/src/index.ts:298-308 | a join ends the pause exactly if nobody is awaited any more, and then moves every scheduled timer by the length of the pause |
| RoomEffects.AlarmSequences | apps/worker/src/index.ts:679-716 | one entry per timer that fires, in the order of due time and id |
| RoomEffects.HostIs | apps/worker/src/index.ts:1191-1204 | the host changes exactly when the last socket of the host is gone and somebody is connected, to the first of those in join order |
| RoomRun.Run | apps/worker/src/index.ts:172-1251 | every run of events keeps the invariant; between any two of its moments history, players, timers' lives, pause, end, confirmations and base only progress; what each event does to the timers, the alarm and the heartbeat; who has not said hello was sent nothing of the log |
| RoomRun.RetryFindsTheSameEntry | apps/worker/src/index.ts:895-904 | a request has one sequence and body for good, also after the window slid past it |
| RoomRun.SystemActionOnce | apps/worker/src/room-core.ts:141-170 | a system action occurs at most once in the whole history |
| RoomRun.FireIffFired | apps/worker/src/index.ts:701-714 | a timer's fire action is in the history exactly if the timer fired |
| RoomRun.TimerFateIsFinal | apps/worker/src/index.ts:439-451 | a canceled timer never fires, a fired one never again; a deferred one is not deferred again and in an unpaused room keeps its due time |
| RoomRun.CanceledByItsEvent | apps/worker/src/index.ts:439-451 | in any run a row turns canceled only by the cancellation of its own id, turns fired only by an alarm, and is not scheduled after its cancellation |
| RoomRun.PausedTimerKeepsItsDelay | apps/worker/src/index.ts:298-307 | of any run: what is left of a scheduled timer during the pause is left at its end, whatever happened in between, if and only if its own cancellation did not |
| RoomRun.ResumedTimerRestartsItsDelay | apps/worker/src/room-core.ts:413-419 | a saved timer with delay d is due exactly d after the last awaited player is back, if and only if no other row with its id was registered before the start and its cancellation did not come in between |
| RoomRun.PausedDelayRunsFromTheResume | apps/worker/src/index.ts:298-307 | a timer registered by an event of a run with delay d while paused is due exactly d after the pause ends, or canceled exactly if its cancellation came in between |
| RoomRun.StartIsFirst | apps/worker/src/index.ts:990-1008 | the start action is the first entry of a started room and of no other |
| RoomRun.SavedSeatsRecovered | apps/worker/src/index.ts:275-307 | every saved identity is recovered exactly once if its seat is taken, and awaited otherwise |
| RoomRun.ArrivalsAreLogged | apps/worker/src/index.ts:269-297 | whoever comes to a started room is in its log for good, naming the seat, by exactly one claim or by exactly one join and one assignment, never both |
| RoomRun.ConfirmedOnce | apps/worker/src/index.ts:560-567 | at most one snapshot is ever confirmed for a sequence |
| RoomRun.ScriptedCoverage | apps/worker/src/index.ts:559-586 | a scripted room stores exactly the entries from checkpoint minus retention on and always has a base |
| RoomRun.BootstrapEqualsHistory | apps/worker/src/index.ts:792-843 | the kernel, played over a late client's base and tail, reaches the state it reaches over the whole history, in scripted rooms while every confirmation counted an honest attester; no answer exactly without a base |
| RoomRun.SeatedClientConverges | apps/worker/src/message-handler.ts:73-107 | for every seated client, at every moment of delivery, the channel has brought exactly the history to where it is; the client that skips stale replies holds the state the kernel reaches there, the strict one until the first of them |
| RoomRun.BaseKeptIff | apps/worker/src/index.ts:1061-1084 | when exactly a transaction of an unscripted room commits and keeps a base |
| RoomRun.SmallTransactionsCommit | apps/worker/src/index.ts:277-313 | while no request of the log is named like a system action, no join, claim or small alarm of a started room throws short of the last safe integer |
| RoomRun.BaseOfRun | apps/worker/src/index.ts:1061-1084 | through any run whose alarms each fire at most retention - interval + 1 timers the room keeps a base, whatever else happens; a base once lost never comes back |
| RoomRun.BasedIsAnswered | apps/worker/src/index.ts:792-843 | a started room answers a late client exactly while it has a base |
| RoomRun.RequestThrowsIff | apps/worker/src/index.ts:905-936 | a new request of a started room throws exactly at the last safe integer or if its id is the stored name of a system action |
| RoomRun.SystemThrowsIff | apps/worker/src/index.ts:1061-1136 | a transaction of system actions throws exactly beyond the last safe integer, if a stored request has the name of one of them, or if the log does not reach back to a checkpoint |
| RoomWitnesses.AlarmOutrunsTheWindow | apps/worker/src/index.ts:667-724 | three timers due at once in a new room outrun a window of three, and the next hello gets no answer |
| RoomWitnesses.RequestNamedLikeTheStart | apps/worker/src/index.ts:905-936 | a request named like the stored start action throws |
| RoomWitnesses.RequestNamedLikeATimer | apps/worker/src/index.ts:701-754 | a request named like a timer's fire action is accepted; then the alarm throws each time it rings and the heartbeat of the connected room is never written again |
| RoomWitnesses.HeartbeatGoesStale | apps/worker/src/index.ts:416-432 | two registrations leave a connected room whose alarm comes after its heartbeat is stale |
| RoomWitnesses.ExpiryIsLost | apps/worker/src/index.ts:416-432 | a registration at the expiry time leaves an empty room without an alarm |
| RoomWitnesses.NobodyEverComes | apps/worker/src/index.ts:416-432 | a room with a timer to which nobody connects does not expire, at whatever times its alarm rings |
| RoomWitnesses.EscapedMarkIsConfirmed | apps/worker/src/index.ts:471-607 | every running room with a divergent sequence just below the floor and above the checkpoint continues to its confirmation by one player |
| RoomWitnesses.DivergentIsConfirmed | apps/worker/src/index.ts:516-588 | a run of a new room in which a divergent sequence is confirmed |
| RoomWitnesses.TwoAgreeingConfirm | apps/worker/src/room-core.ts:299-300 | in any valid scripted room the second of two connected players who attest the same hash at a sequence in time confirms it, and it becomes the checkpoint |
| Extract.SalvageTruncatedJson | packages/ai/src/extract.ts:24-68 | the two loops compute the specified salvage |
| Extract.CloseText | packages/ai/src/extract.ts:49-58 | the candidate closes the open string and the open containers |
| ExtractProofs.ScanAgrees | packages/ai/src/extract.ts:35-47 | the scanner's string flag, escape flag and stack agree with the grammar at every cut |
| ExtractProofs.CandidateParses | packages/ai/src/extract.ts:49-61 | a repair attempt parses exactly where the cut is repairable, to the value read so far |
| ExtractProofs.SalvageOfCutObject | packages/ai/src/extract.ts:24-68 | for every object and every cut: an ordered structural prefix, at most one drop to the last comma, null exactly when neither works |
| ExtractProofs.FirstBalancedIsTheObject | packages/ai/src/extract.ts:92-115 | any object inside any text without an earlier brace is returned exactly |
| ExtractProofs.CutObjectIsNotBalanced | packages/ai/src/extract.ts:92-115 | of a text whose first brace begins an object, cut anywhere or not at all, something is returned exactly if the object is complete |
| Extract.FirstBalancedObject | packages/ai/src/extract.ts:92-115 | the loop computes the specified scan |
| JsonPrint.PrintParses | packages/ai/src/extract.ts:60-61 | the reader standing for the platform parser reads back everything printed |
| JsonParses.ParsesIff | packages/ai/src/extract.ts:60-61 | the reader standing for the platform parser accepts exactly the texts of the RFC 8259 grammar, each as the value it is a text of |
| Csv.CsvRows | scripts/benchmarks/merlin-catalogs.ts:20-43 | the rows returned are exactly those the source renders, behind a byte-order mark or without one |
| Csv.RenderReads | scripts/benchmarks/merlin-catalogs.ts:20-43 | every rendering of rows, with any mix of line ends and with or without a byte-order mark, reads back exactly within the budgets |
| Csv.QuotedRoundTrip | scripts/benchmarks/merlin-catalogs.ts:20-43 | quoted printing of any rows reads back, and what the budgets are |
| Csv.AcceptsRenderings | scripts/benchmarks/merlin-catalogs.ts:20-43 | a source is accepted exactly if, after at most one byte-order mark, it renders some rows within the budgets |
| RateLimiter.MemoryMeaning | apps/worker/src/rate-limiter.ts:37-42 | the memory store counts each key's hits in its newest window |
| RateLimiter.StoresAgreeIff | apps/worker/src/d1-repositories.ts:215-234 | for any run at any times the two stores return the same last count if and only if, since that key's current unbroken run of requests in its window began, no request of any key came at or after the window's end |
| RateLimiter.ExpiringRefinesMemory | apps/worker/src/d1-repositories.ts:215-234 | so for times that do not decrease both stores return the same counts |
| RateLimiter.BackwardClockDiffers | apps/worker/src/d1-repositories.ts:217 | a run with a clock that goes back in which they differ |
| RateLimiter.FixedWindowRateLimiter.Consume | apps/worker/src/rate-limiter.ts:22-31 | admits exactly the first hits of a window up to the limit |
| RateLimiter.AtMostTwiceTheLimit | apps/worker/src/rate-limiter.ts:22-31 | an interval of one window's length admits at most twice the limit per key |
| RateLimiter.TwiceTheLimitReached | apps/worker/src/rate-limiter.ts:22-31 | and that bound is reached for every limit and every window of at least two milliseconds |

## Left out

- RoomRun.BootstrapEqualsHistory: a scripted room stores what its players attest and cannot check it, so for one it is stated under the assumption that hashes are injective and that every confirmation counted an attester who only ever voted for the true hash there. The same holds of RoomRun.SeatedClientConverges.
- RoomObject.RoomDO.Hello: which client frames reach it is decided by the caller; parsing of protocol messages, pings and their answers are not modelled, and the list of players in a bootstrap is left out.
- RoomObject.RoomDO.Authenticate: checking the token and marking the socket are one step; frames of the same socket that arrive while its token is being hashed are not modelled.
- RoomObject.RoomDO.Join: the fresh player id is a parameter; two equal ids fail as the primary key does. Names, tokens, user ids, active players and presence messages are left out.
- RoomObject.CreateRoomFromSave: of loading a save only its hash and its release are checked; the shape of the state is the kernel's.
- RoomObject.RoomDO.StartIfNeeded: fetching and hash-checking the release are one parameter; the validation of a resumed roster payload is left out, and a saved timer's delay is taken in whole milliseconds.
- RoomObject.RoomDO.RegisterTimer: timer ids are numbers that stand for their text order; the injectivity of the truncated hash in the fire action's id is assumed.
- RoomObject.RoomDO.Alarm: when and how often the platform rings an alarm again that threw is not modelled; any later ring of a run may be such a retry.
- RoomObject.RoomDO.End: the host check of the route in front of it and the closing handshake of sockets are left out.
- Update in place inside a transaction: the tables of a room are one stored value that a transaction replaces; SQL statements are functions on sequences and maps in key order.
- The columns `checkpoint_snapshot` and `checkpoint_sequence` are one optional snapshot, always written together by this code.
- Rooms stored by older versions of the code and schema migrations.
- The quickplay index, play counts, cover versions and other metadata written to D1.
- Game rules, scripts, canonical JSON and the protocol packages: the kernel is abstract.
- JavaScript strings are sequences of UTF-16 code units; the texts here are sequences of characters, which is the same for the scanners' own characters.
- Duplicate object keys and the numeric value of number lexemes, which `JSON.parse` resolves after reading.
- Tokens, hashing, cookies and mail links; matchmaking; prompts, linting and model transport; the rest of the web application and the editor.
