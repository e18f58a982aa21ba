/**
 One room (apps/worker/src/index.ts): its stored tables, its sockets and its alarm.

 A method is one transaction together with the messages sent right after it. A transaction
 works on copies and replaces the stored tables at its end, so where the source throws
 nothing has changed. Times, fresh ids and fetched snapshots are parameters.
 */
module RoomObject {
  import opened Wrappers
  import opened Kernel
  import opened RoomCoreModel
  import opened ActionLog
  import opened Seating
  import opened Liveness
  import opened Delivery
  import opened RoomInvariants
  import opened Consensus
  import opened RoomTables
  import opened RoomSteps
  import opened RoomStore
  import opened RoomEffects

  datatype Sequenced = Known(action: Action) | New(action: Action) | Threw

  datatype JoinResult = RoomOver | Ineligible | RoomFull | JoinFailed | Seated(seat: SeatId)

  datatype HelloResult = Replied(messages: seq<Message>) | NoReply

  datatype AttestOutcome = Unauthorized | Rejected | RateLimited | Decided(status: Status)

  datatype SaveOutcome = SaveUnauthorized | HostOnly | NotRunning | Stale | Invalid | Saved(snapshot: Snapshot)

  class RoomDO {
    const config: Config
    var store: Store
    var sockets: map<SocketId, Socket>
    var alarm: AlarmSlot
    ghost var past: Past
    ghost var clients: map<SocketId, ClientLog>

    ghost predicate Connected(h: seq<Action>)
      reads this
    {
      SocketsOk(config.kernel, store.initial, store.started, past.truthful, h, sockets, clients)
    }

    ghost function Vitals(): Pulse
      reads this
    {
      Pulse(store.ended.Some?, |sockets|, store.lastHeartbeatAt, store.emptySinceAt,
        if store.pendingSince.None? then Soonest(store.timers) else None, alarm)
    }

    ghost predicate Valid()
      reads this
    {
      StoreOk(config, store, past) && Connected(past.history) && Remembers(Vitals())
    }

    ghost function Trail(): Trace
      reads this
    {
      Traced(config, store, past)
    }

    // -------------------------------------------------------------------------
    // Creation
    // -------------------------------------------------------------------------

    constructor Init(kernel: Kernel, limits: Limits, release: nat, capacity: nat)
      requires limits.Valid()
      ensures Valid() && config == Config(kernel, limits, release, capacity, false)
      ensures store == FreshStore(None, None) && past == NoPast() && sockets == map[] && alarm.NoAlarm?
    {
      hide StoreOk, SocketsOk;
      config := Config(kernel, limits, release, capacity, false);
      store, sockets, alarm, past, clients := FreshStore(None, None), map[], NoAlarm, NoPast(), map[];
      new;
      FreshStoreOk(config, None, None);
    }

    /** The hash-verified save becomes the sequence-zero base; the seats of a state have distinct names. */
    constructor InitFromSave(kernel: Kernel, limits: Limits, capacity: nat, saved: Snapshot)
      requires limits.Valid() && Distinct(kernel.saved(saved.state).seats)
      ensures Valid() && config == Config(kernel, limits, saved.release, capacity, true)
      ensures store == FreshStore(Some(saved.(sequence := 0)),
          Some(kernel.requiresScripts(saved.state))) && past == NoPast() && sockets == map[] && alarm.NoAlarm?
    {
      hide StoreOk, SocketsOk;
      config := Config(kernel, limits, saved.release, capacity, true);
      var initial, scripted := Some(saved.(sequence := 0)), Some(kernel.requiresScripts(saved.state));
      store, sockets, alarm, past, clients := FreshStore(initial, scripted), map[], NoAlarm, NoPast(), map[];
      new;
      FreshStoreOk(config, initial, scripted);
    }

    // -------------------------------------------------------------------------
    // The log
    // -------------------------------------------------------------------------

    /** Whatever was appended, trimmed and confirmed before, the rebuilt window is accepted. */
    method LoadCore() returns (core: RoomCore)
      requires StoreOk(config, store, past)
      ensures fresh(core) && core.Valid() && core.limits == config.limits && core.state == WindowOf(config.limits,
          past.history)
    {
      LoadIsWindow(config.limits, past.history, store.actions,
          Lo(config.limits, IsScripted(store.scripted), store.checkpoint, |past.history|));
      core := new RoomCore(config.limits, LoadWindow(config.limits, store.actions, store.lastSequence));
    }

    /**
     `sequenceSystem` with `persistSystemAction` behind it, on the rows of the open
     transaction; None where the source throws.
     */
    method Append(core: RoomCore, rows: seq<Action>, ghost h: seq<Action>, key: SystemKey,
        body: Body) returns (r: Option<(Action, seq<Action>)>)
      requires core.Valid() && core.limits == config.limits && core.state == WindowOf(config.limits, h)
      requires LogOk(config.limits, h, rows, Lo(config.limits, IsScripted(store.scripted), store.checkpoint, |h|))
      requires forall i :: 0 <= i < |h| ==> h[i].actionId != Sys(key)
      modifies core
      ensures core.Valid()
      ensures r.Some? <==>
        && |h| < MAX_SAFE_INTEGER
        && !KeyTaken(Stored(config.limits, IsScripted(store.scripted), store.checkpoint, h),
            SystemEntry(|h|, key, body))
      ensures r.Some? ==>
        && r.value.0 == SystemEntry(|h|, key, body) && core.state == WindowOf(config.limits, h + [r.value.0])
        && LogOk(config.limits, h + [r.value.0], r.value.1,
            Lo(config.limits, IsScripted(store.scripted), store.checkpoint, |h| + 1))
    {
      hide HistoryOk, KeyTaken;
      WindowInLog(config.limits, h);
      var sequenced := core.SequenceSystem(body, key);
      if sequenced.Exhausted? { return None; }
      assert core.state.lastSequence == |h| + 1;
      ExtendBySystem(h, key, body);
      WindowSlides(config.limits, h, sequenced.action);
      PersistNext(config.limits, IsScripted(store.scripted), store.checkpoint, h, rows, sequenced.action);
      var rows' := Persist(config.limits, rows, sequenced.action, !IsScripted(store.scripted));
      if rows'.None? { return None; }
      r := Some((sequenced.action, rows'.value));
    }

    /** `advanceCheckpointIfNeeded` */
    method AdvanceCheckpoint(core: RoomCore, ghost more: seq<Action>) returns (adv: Advance)
      requires StoreOk(config, store, past) && HistoryOk(past.history + more)
      requires |past.history + more| <= MAX_SAFE_INTEGER
      requires core.limits == config.limits && core.state == WindowOf(config.limits, past.history + more)
      ensures adv == AdvanceWith(config, store, past, more)
      ensures adv.To? ==>
        && store.initial.Some? && adv.snapshot.sequence == |past.history + more|
        && adv.snapshot.state == Play(config.kernel.apply, store.initial.value.state, past.history + more)
    {
      hide StoreOk, HistoryOk;
      if IsScripted(store.scripted) { return Keep; }
      AdvanceFits(config, store, past, more);
      if !CheckpointIsDue(config.limits, SequenceOf(store.checkpoint), core.state.lastSequence) { return Keep; }
      if store.checkpoint.None? && store.initial.None? { return Throws; }
      var base := if store.checkpoint.Some? then store.checkpoint.value else store.initial.value;
      if store.checkpoint.None? && !BaseConnects(base.sequence, core.state) { return Keep; }
      var next := ReplayCheckpoint(config.kernel, base, core.state.actions);
      if next.None? || next.value.sequence != core.state.lastSequence { return Throws; }
      NewestPlays(config, store, past.history + more);
      adv := To(next.value);
    }

    // -------------------------------------------------------------------------
    // Messages
    // -------------------------------------------------------------------------

    /** `broadcast`, for each action of a committed transaction. */
    method Broadcast(ghost before: seq<Action>, more: seq<Action>)
      requires Connected(before) && past.history == before + more && Numbered(past.history)
      requires store.initial.Some? ==> store.initial.value.sequence == 0
      modifies `sockets
      ensures Connected(past.history) && sockets == Heard(old(sockets), Tail(more)) && |sockets| == |old(sockets)|
      ensures sockets.Keys == old(sockets).Keys
      ensures forall s :: s in sockets && old(sockets)[s].phase.Unauthenticated? ==> sockets[s] == old(sockets)[s]
      ensures forall s :: s in sockets && !old(sockets)[s].phase.Unauthenticated? ==>
        var before, after := old(sockets)[s], sockets[s];
        && after.phase == before.phase && after.bootstrapped == before.bootstrapped
        && |after.sent| == |before.sent| + |more| && after.sent[..|before.sent|] == before.sent
        && forall i :: 0 <= i < |more| ==> after.sent[|before.sent| + i] == Ordered(more[i])
    {
      hide SocketsOk, Heard, Broadcasted, Tail;
      HeardNothing(sockets);
      NoTail();
      assert more[..0] == [] && before + [] == before && Tail(more[..0]) == [];
      for i := 0 to |more|
        invariant Connected(before + more[..i]) && sockets == Heard(old(sockets), Tail(more[..i]))
      {
        assert before + more[..i] + [more[i]] == before + more[..i + 1] == past.history[..|before| + i + 1];
        SocketsHear(config.kernel, store.initial, store.started, past.truthful, before + more[..i], more[i], sockets,
            clients);
        HeardNext(old(sockets), more, i);
        sockets := Broadcasted(sockets, Ordered(more[i]));
      }
      assert more[..|more|] == more;
      AllHeard(old(sockets), more);
    }

    method Send(socket: SocketId, message: Message)
      requires socket in sockets && Connected(past.history) && FromLog(past.history, message) && !message.Base?
      requires !message.Resumption? && (sockets[socket].phase.Unauthenticated? ==> !message.Ordered?)
      modifies `sockets
      ensures Connected(past.history) && sockets == old(sockets)[socket := Told(old(sockets)[socket], message)]
    {
      SocketTold(config.kernel, store.initial, store.started, past.truthful, past.history, sockets[socket],
          clients[socket], message);
      sockets := sockets[socket := Told(sockets[socket], message)];
    }

    // -------------------------------------------------------------------------
    // Requests
    // -------------------------------------------------------------------------

    /**
     The next entry of the log for a request the request table does not hold, with the rows
     and the checkpoint it leaves, not yet committed; None where the source throws.
     */
    method SequenceRequest(player: PlayerId, requestId: RequestId, payload: Payload)
      returns (r: Option<(Action, seq<Action>)>, adv: Advance)
      requires StoreOk(config, store, past) && requestId !in store.dedup
      ensures r.Some? <==> Persists(config, store, past, [NextRequest(past, requestId, player, payload)])
      ensures r.Some? ==>
        && r.value.0 == NextRequest(past, requestId, player, payload)
        && adv == AdvanceWith(config, store, past, [r.value.0])
        && LogOk(config.limits, past.history + [r.value.0], r.value.1,
            Lo(config.limits, IsScripted(store.scripted), store.checkpoint, |past.history| + 1))
    {
      hide StoreOk, LogOk, HistoryOk, CanPersist, KeyTaken, Stored;
      var core := LoadCore();
      ghost var a := NextRequest(past, requestId, player, payload);
      RequestFits(config, store, past, requestId, a);
      CanPersistOne(config.limits, IsScripted(store.scripted), store.checkpoint, past.history, a);
      adv := Keep;
      var sequenced := core.Sequence(requestId, player, payload);
      if sequenced.Exhausted? { return None, Keep; }
      assert core.state.lastSequence == |past.history| + 1;
      RequestPersists(config, store, past, a);
      var rows := Persist(config.limits, store.actions, sequenced.action, !IsScripted(store.scripted));
      if rows.None? { return None, Keep; }
      adv := AdvanceCheckpoint(core, [sequenced.action]);
      r := Some((sequenced.action, rows.value));
    }

    /** A known request is answered from the permanent table; a new one is the next entry of the log. */
    method Sequence(player: PlayerId, requestId: RequestId, payload: Payload, now: int) returns (r: Sequenced)
      requires StoreOk(config, store, past)
      modifies `store, `past
      ensures StoreOk(config, store, past)
      ensures r.Known? <==> requestId in old(store.dedup)
      ensures r.Known? ==> r.action == old(store.dedup)[requestId]
      ensures
        var a := NextRequest(old(past), requestId, player, payload);
        && (r.Threw? <==> requestId !in old(store.dedup) && Blocked(config, old(store), old(past), [a]))
        && (r.New? ==>
              && r.action == a && past == Extended(old(past), [a])
              && store == AfterRequest(old(store), a, store.actions, AdvanceWith(config, old(store), old(past), [a]),
                  now))
      ensures !r.New? ==> unchanged(this)
      ensures Progress(config.limits, old(Trail()), Trail())
    {
      hide StoreOk, SocketsOk, Progress;
      ProgressReflexive(config.limits, Trail());
      StoreFacts(config, store, past);
      if requestId in store.dedup { return Known(store.dedup[requestId]); }
      var sequenced, adv := SequenceRequest(player, requestId, payload);
      if sequenced.None? || adv.Throws? { return Threw; }
      var (a, rows) := sequenced.value;
      RequestKeeps(config, store, past, a, rows, now);
      RequestProgresses(config, store, past, a, rows, now);
      store := AfterRequest(store, a, rows, adv, now);
      past := Extended(past, [a]);
      r := New(a);
    }

    /** Sends what a sequenced request calls for. */
    method Deliver(socket: SocketId, r: Sequenced, ghost before: seq<Action>)
      requires socket in sockets && !sockets[socket].phase.Unauthenticated?
      requires Connected(before) && Numbered(past.history)
      requires store.initial.Some? ==> store.initial.value.sequence == 0
      requires r.Known? || r.Threw? ==> past.history == before
      requires r.Known? ==> FromLog(past.history, Ordered(r.action))
      requires r.New? ==> past.history == before + [r.action]
      modifies `sockets
      ensures Connected(past.history) && |sockets| == |old(sockets)|
      ensures sockets == match r
        case Known(a) => old(sockets)[socket := Told(old(sockets)[socket], Ordered(a))]
        case New(a) => Heard(old(sockets), [Ordered(a)])
        case Threw => old(sockets)
    {
      match r
      case Known(a) => Send(socket, Ordered(a));
      case New(a) =>
        assert Tail([a]) == [Ordered(a)];
        Broadcast(before, [a]);
      case Threw =>
    }

    /**
     One action frame of an authenticated socket: a new action is broadcast, the action of a
     repeated request is answered to the one socket.
     */
    method ActionFrame(socket: SocketId, requestId: RequestId, payload: Payload, now: int) returns (r: Sequenced)
      requires Valid() && socket in sockets && !sockets[socket].phase.Unauthenticated?
      modifies `store, `past, `sockets
      ensures Progress(config.limits, old(Trail()), Trail())
      ensures Unmoved(old(Vitals()), Vitals())
      ensures Valid() && store.timers == old(store.timers)
      ensures r.Known? <==> requestId in old(store.dedup)
      ensures
        var a := NextRequest(old(past), requestId, old(sockets)[socket].phase.player, payload);
        match r
        case Known(known) =>
          && known == old(store.dedup)[requestId] && store == old(store) && past == old(past)
          && sockets == old(sockets)[socket := Told(old(sockets)[socket], Ordered(known))]
        case New(new') =>
          && new' == a && past == Extended(old(past), [a])
          && store == AfterRequest(old(store), a, store.actions, AdvanceWith(config, old(store), old(past), [a]), now)
          && !Blocked(config, old(store), old(past), [a]) && sockets == Heard(old(sockets), [Ordered(a)])
        case Threw => Blocked(config, old(store), old(past), [a]) && unchanged(this)
    {
      hide StoreOk, SocketsOk, Blocked, AdvanceWith;
      ghost var before := past.history;
      r := Sequence(sockets[socket].phase.player, requestId, payload, now);
      StoreFacts(config, store, past);
      if r.Known? { KnownIsFromLog(config, store, past, requestId); }
      Deliver(socket, r, before);
    }

    /** Before hello, any other frame is an error. */
    method EarlyFrame(socket: SocketId)
      requires Valid() && socket in sockets
      modifies `sockets
      ensures Unmoved(old(Vitals()), Vitals())
      ensures Valid() && sockets == old(sockets)[socket := Told(old(sockets)[socket], ProtocolError(MalformedMessage))]
    {
      Send(socket, ProtocolError(MalformedMessage));
    }

    // -------------------------------------------------------------------------
    // Start
    // -------------------------------------------------------------------------

    /** A room that sequenced something before it started never starts. */
    method ExpireLegacyRoom()
      requires Valid()
      modifies `store
      ensures Progress(config.limits, old(Trail()), Trail())
      ensures Valid()
      ensures store ==
        if old(store.ended).None? && !old(store.started) && old(past.history) != [] then
          old(store).(ended := Some(Expired), joinable := false)
        else old(store)
    {
      hide Soonest, StoreOk, SocketsOk, Progress;
      ProgressReflexive(config.limits, Trail());
      StoreFacts(config, store, past);
      if store.ended.None? && !store.started && store.lastSequence != 0 {
        TouchKeeps(config, store, past, store.(ended := Some(Expired), joinable := false));
        store := store.(ended := Some(Expired), joinable := false);
      }
    }

    method ArmTimers(arms: seq<(TimerId, nat)>, now: int) returns (timers: map<TimerId, Timer>)
      ensures timers == ArmAll(store.timers, arms, now)
    {
      timers := store.timers;
      assert arms[..0] == [];
      for i := 0 to |arms|
        invariant timers == ArmAll(store.timers, arms[..i], now)
      {
        ArmNext(store.timers, arms, i, now);
        timers := Register(timers, arms[i].0, now + arms[i].1);
      }
      assert arms[..|arms|] == arms;
    }

    /** The body of the first action: for a resumed table with its whole roster. */
    method FirstBody(initial: Snapshot) returns (body: Body)
      requires config.resumed ==> Distinct(config.kernel.saved(initial.state).seats)
      ensures body == StartBody(config.kernel, config.resumed, initial, store.players)
    {
      if !config.resumed { return Started; }
      var t := config.kernel.saved(initial.state);
      var roster := ResumedRosterFromSave(t, Ids(store.players));
      RosterSeatsInOrder(t, Ids(store.players));
      body := Resumed(roster, t.pending.Some? || Waiting(t, RosterSeats(roster)));
    }

    /** `startIfNeeded` */
    method StartIfNeeded(fetched: Fetched, now: int) returns (threw: bool)
      requires Valid()
      modifies `store, `past, `alarm
      ensures Progress(config.limits, old(Trail()), Trail())
      ensures store.ended.Some? || Unmoved(old(Vitals()), Vitals()) || Reset(old(Vitals()), now, Vitals())
      ensures Valid()
      ensures store == Opened(config, old(store), old(past), fetched, now)
      ensures past == Extended(old(past), Opening(config, old(store), old(past), fetched, now))
      ensures threw <==> store.ended.None? && !store.started
      ensures threw ==> StartingFrom(config, old(store), fetched).None?
    {
      hide StoreOk, SocketsOk, Progress, StartEntry, Opening, AfterStart, StartingFrom;
      OpeningFacts(config, store, past, fetched, now);
      ProgressReflexive(config.limits, Trail());
      ExtendedByNothing(past);
      if store.started || store.ended.Some? { return false; }
      StoreFacts(config, store, past);
      if store.lastSequence != 0 {
        ExpireLegacyRoom();
        return false;
      }
      var from := StartingFrom(config, store, fetched);
      if from.None? { return true; }
      StartingOk(config, store, past, fetched);
      Start(from.value.0, from.value.1, now);
      threw := false;
    }

    method Start(initial: Snapshot, scripted: bool, now: int)
      requires Valid() && !store.started && store.ended.None? && past.history == [] && initial.sequence == 0
      requires initial.release == config.release
      requires config.resumed ==>
        store.initial == Some(initial) && scripted == config.kernel.requiresScripts(initial.state)
      modifies `store, `past, `alarm
      ensures Progress(config.limits, old(Trail()), Trail())
      ensures Unmoved(old(Vitals()), Vitals()) || Reset(old(Vitals()), now, Vitals())
      ensures Valid()
      ensures past == Extended(old(past), [StartEntry(config, old(store), initial)])
      ensures store == AfterStart(config, old(store), initial, scripted, [StartEntry(config, old(store), initial)],
          ArmAll(old(store.timers), ArmsFor(config, initial), now), now)
    {
      hide StoreOk, SocketsOk, Progress, StartEntry, ArmAll, Waiting, Seats;
      StoreFacts(config, store, past);
      var timers := ArmTimers(ArmsFor(config, initial), now);
      var rows := FirstRows(initial);
      CommitStart(initial, scripted, rows, timers, now);
      if ArmsFor(config, initial) != [] { RescheduleAlarm(now); }
    }

    method CommitStart(initial: Snapshot, scripted: bool, rows: seq<Action>, timers: map<TimerId, Timer>, now: int)
      requires Valid() && !store.started && past.history == [] && initial.sequence == 0
      requires initial.release == config.release
      requires config.resumed ==>
        store.initial == Some(initial) && scripted == config.kernel.requiresScripts(initial.state)
      requires rows == [StartEntry(config, store, initial)]
      requires timers == ArmAll(store.timers, ArmsFor(config, initial), now)
      modifies `store, `past
      ensures Progress(config.limits, old(Trail()), Trail())
      ensures Unmoved(old(Vitals()), Vitals())
      ensures StoreOk(config, store, past) && Connected(past.history)
      ensures ArmsFor(config, initial) == [] ==> Remembers(Vitals())
      ensures past == Extended(old(past), rows) && store == AfterStart(config, old(store), initial, scripted, rows,
          timers, now)
    {
      hide Soonest, StoreOk, SocketsOk, ArmAll, Progress, StartEntry, AfterStart, AlarmFor;
      ArmNothing(store.timers, ArmsFor(config, initial), now);
      StoreFacts(config, store, past);
      StartKeepsStore(config, store, past, initial, scripted, ArmsFor(config, initial), now);
      StartProgresses(config, store, past, initial, scripted, rows, ArmsFor(config, initial), now);
      assert past.history + rows == rows;
      SocketsLater(config.kernel, store.initial, past.truthful, past.history, sockets, clients, Some(initial), true,
          rows);
      StartTouches(config, store, initial, scripted, rows, timers, now);
      store := AfterStart(config, store, initial, scripted, rows, timers, now);
      past := Extended(past, rows);
    }

    /** The start action, sequenced and persisted in an empty log. */
    method FirstRows(initial: Snapshot) returns (rows: seq<Action>)
      requires StoreOk(config, store, past) && past.history == [] && !store.started
      requires config.resumed ==> Distinct(config.kernel.saved(initial.state).seats)
      ensures rows == [StartEntry(config, store, initial)]
    {
      var body := FirstBody(initial);
      var core := LoadCore();
      var r := Append(core, store.actions, past.history, StartKey(config.resumed), body);
      assert Stored(config.limits, IsScripted(store.scripted), store.checkpoint, []) == [];
      assert [] + [r.value.0] == [r.value.0];
      rows := r.value.1;
    }

    /** `rescheduleAlarm`: one alarm for liveness and for the earliest timer of a room in play. */
    method RescheduleAlarm(now: int)
      modifies `alarm
      ensures alarm == AlarmFor(Vitals(), now) && Vitals() == old(Vitals()).(alarm := alarm)
      ensures !alarm.Retrying?
      ensures store.ended.None? && |sockets| > 0 ==>
        && alarm.AlarmAt?
        && (Vitals().soonest.Some? ==> alarm.at <= Vitals().soonest.value)
    {
      hide Soonest;
      if store.ended.Some? {
        alarm := NoAlarm;
        return;
      }
      var livenessAt := PlanRoom(now, |sockets|, store.lastHeartbeatAt, store.emptySinceAt).nextAlarmAt;
      var timer := EarliestScheduled(store.timers);
      var next := NextAlarm(livenessAt, if store.pendingSince.None? then timer else None, |sockets|);
      alarm := if next.None? then NoAlarm else AlarmAt(next.value);
    }

    // -------------------------------------------------------------------------
    // Join
    // -------------------------------------------------------------------------

    method SeatForJoin() returns (seat: SeatId)
      requires StoreOk(config, store, past)
      ensures NextSeat(config, store, seat)
    {
      if config.resumed {
        seat := NextResumedSeatId(config.kernel.saved(store.initial.value.state).seats, Seats(store.players));
      } else {
        seat := Generated(|store.players| + 1);
      }
    }

    /** The join's log entries, sequenced and persisted but not committed; None where the source throws. */
    method SequenceJoin(row: PlayerRow) returns (r: Option<(seq<Action>, seq<Action>)>, adv: Advance)
      requires StoreOk(config, store, past) && store.started && row.id !in Ids(store.players)
      ensures
        var more := JoinActions(|past.history|, row, Claims(config, store, row.seat));
        && (r.Some? <==> Persists(config, store, past, more))
        && (r.Some? ==>
              && r.value.0 == more && adv == AdvanceWith(config, store, past, more)
              && LogOk(config.limits, past.history + more, r.value.1,
                  Lo(config.limits, IsScripted(store.scripted), store.checkpoint, |past.history + more|)))
    {
      hide StoreOk, LogOk, HistoryOk, CanPersist, KeyTaken, Stored, WindowOf, AdvanceWith;
      var core := LoadCore();
      adv := Keep;
      ghost var h := past.history;
      var claimed := Claims(config, store, row.seat);
      JoinLogs(config, store, past, row);
      if claimed.Some? {
        ghost var claimEntry := SystemEntry(|h|, SeatClaim(row.id), Claimed(row.id, row.seat, claimed.value));
        CanPersistOne(config.limits, IsScripted(store.scripted), store.checkpoint, h, claimEntry);
        var claim := Append(core, store.actions, h, SeatClaim(row.id), Claimed(row.id, row.seat, claimed.value));
        if claim.None? { return None, Keep; }
        adv := AdvanceCheckpoint(core, [claim.value.0]);
        return Some(([claim.value.0], claim.value.1)), adv;
      }
      ghost var joinEntry := SystemEntry(|h|, PlayerJoined(row.id), Joined(row.id));
      ghost var seatEntry := SystemEntry(|h| + 1, SeatAssign(row.id), Assigned(row.id, row.seat));
      CanPersistOne(config.limits, IsScripted(store.scripted), store.checkpoint, h, joinEntry);
      CanPersistNext(config.limits, IsScripted(store.scripted), store.checkpoint, h, [joinEntry], seatEntry);
      assert [joinEntry] + [seatEntry] == [joinEntry, seatEntry];
      var joined := Append(core, store.actions, h, PlayerJoined(row.id), Joined(row.id));
      if joined.None? { return None, Keep; }
      ghost var one := h + [joinEntry];
      var seated := Append(core, joined.value.1, one, SeatAssign(row.id), Assigned(row.id, row.seat));
      if seated.None? { return None, Keep; }
      assert one + [seatEntry] == h + [joinEntry, seatEntry];
      adv := AdvanceCheckpoint(core, [joined.value.0, seated.value.0]);
      return Some(([joined.value.0, seated.value.0], seated.value.1)), adv;
    }

    /**
     A player joins: before the start only a row, afterwards with a claim of a saved seat or a
     join and a seat assignment. A claim of the last waited-for seat ends the pause.
     */
    method Join(playerId: PlayerId, requireQuickplay: bool, now: int) returns (r: JoinResult)
      requires Valid()
      modifies `store, `past, `sockets, `alarm
      ensures Progress(config.limits, old(Trail()), Trail())
      ensures Unmoved(old(Vitals()), Vitals()) || Reset(old(Vitals()), now, Vitals())
      ensures Valid()
      ensures r.RoomOver? <==> old(store.ended).Some?
      ensures r.Ineligible? <==> old(store.ended).None? && requireQuickplay && !old(store.joinable)
      ensures r.RoomFull? <==>
        old(store.ended).None? && !(requireQuickplay && !old(store.joinable)) && |old(store.players)| >= config.capacity
      ensures r.JoinFailed? && playerId !in Ids(old(store.players)) ==>
        old(store.started) && exists seat ::
          && NextSeat(config, old(store), seat)
          && Blocked(config, old(store), old(past),
              JoinActions(|old(past.history)|, PlayerRow(playerId, seat), Claims(config, old(store), seat)))
      ensures r.Seated? ==>
        && |old(store.players)| < config.capacity && playerId !in Ids(old(store.players))
        && NextSeat(config, old(store), r.seat)
      ensures r.Seated? && old(store.started) ==>
        !Blocked(config, old(store), old(past),
          JoinActions(|old(past.history)|, PlayerRow(playerId, r.seat), Claims(config, old(store), r.seat)))
      ensures r.Seated? && !old(store.started) ==>
        store == Admitted(old(store), PlayerRow(playerId, r.seat)) && past == old(past) && sockets == old(sockets)
      ensures r.Seated? && old(store.started) ==>
        var row := PlayerRow(playerId, r.seat);
        var more := JoinActions(|old(past.history)|, row, Claims(config, old(store), r.seat));
        && past == Extended(old(past), more)
        && store == AfterJoin(config, old(store), row, |past.history|, store.actions,
            AdvanceWith(config, old(store), old(past), more), now)
        && sockets == Heard(old(sockets), Tail(more))
      ensures !r.Seated? ==> unchanged(this)
      ensures SameStatus(old(store.timers), store.timers)
    {
      hide StoreOk, SocketsOk, Progress, JoinActions, CanPersist, AdvanceWith;
      ProgressReflexive(config.limits, Trail());
      if store.ended.Some? { return RoomOver; }
      if requireQuickplay && !store.joinable { return Ineligible; }
      if |store.players| >= config.capacity { return RoomFull; }
      var seat := SeatForJoin();
      if playerId in Ids(store.players) { return JoinFailed; }
      var row := PlayerRow(playerId, seat);
      if !store.started {
        EarlyJoinKeepsStore(config, store, past, row);
        store := Admitted(store, row);
        return Seated(seat);
      }
      var sequenced, adv := SequenceJoin(row);
      if sequenced.None? || adv.Throws? { return JoinFailed; }
      var (more, rows) := sequenced.value;
      CommitJoin(row, more, rows, adv, now);
      r := Seated(seat);
    }

    method CommitJoin(row: PlayerRow, more: seq<Action>, rows: seq<Action>, adv: Advance, now: int)
      requires Valid() && store.started && |store.players| < config.capacity && row.id !in Ids(store.players)
      requires NextSeat(config, store, row.seat)
      requires more == JoinActions(|past.history|, row, Claims(config, store, row.seat))
      requires adv == AdvanceWith(config, store, past, more) && !adv.Throws?
      requires LogOk(config.limits, past.history + more, rows,
          Lo(config.limits, IsScripted(store.scripted), store.checkpoint, |past.history + more|))
      modifies `store, `past, `sockets, `alarm
      ensures Progress(config.limits, old(Trail()), Trail())
      ensures Unmoved(old(Vitals()), Vitals()) || Reset(old(Vitals()), now, Vitals())
      ensures Valid()
      ensures past == Extended(old(past), more)
      ensures store == AfterJoin(config, old(store), row, |past.history|, rows, adv, now)
      ensures sockets == Heard(old(sockets), Tail(more)) && SameStatus(old(store.timers), store.timers)
    {
      hide AlarmFor, Soonest, StoreOk, SocketsOk, Progress, JoinActions, Claims, Pause, Unpaused, NextSeat;
      hide HistoryOk, LogOk, SameStatus, AfterJoin, Heard, Tail;
      LogFacts(config.limits, past.history + more, rows,
          Lo(config.limits, IsScripted(store.scripted), store.checkpoint, |past.history + more|));
      ghost var before := past.history;
      JoinKeepsStore(config, store, past, row, rows, now);
      JoinTouches(config, store, past, row, |past.history + more|, rows, adv, now);
      JoinProgresses(config, store, past, row, more, rows, now);
      StoreFacts(config, store, past);
      var claims := Claims(config, store, row.seat).Some?;
      store := AfterJoin(config, store, row, store.lastSequence + |more|, rows, adv, now);
      past := Extended(past, more);
      Broadcast(before, more);
      if claims { RescheduleAlarm(now); }
    }

    // -------------------------------------------------------------------------
    // Timers
    // -------------------------------------------------------------------------

    /** The first registration of a timer wins; during the pause its delay counts from the pause's end. */
    method RegisterTimer(t: TimerId, dueAt: int, now: int) returns (accepted: bool)
      requires Valid()
      modifies `store, `alarm
      ensures Progress(config.limits, old(Trail()), Trail())
      ensures Valid()
      ensures accepted <==> 0 <= dueAt <= MAX_SAFE_INTEGER
      ensures if accepted then Reset(old(Vitals()), now, Vitals()) else Unmoved(old(Vitals()), Vitals())
      ensures store ==
        if accepted then old(store).(timers := Register(old(store.timers), t,
            RegisteredDue(old(store.pendingSince), now, dueAt))) else old(store)
      ensures SameStatus(old(store.timers), store.timers)
      ensures accepted ==> store.timers.Keys == old(store.timers).Keys + {t}
      ensures forall u :: u in old(store.timers) ==> store.timers[u] == old(store.timers)[u]
      ensures accepted && t !in old(store.timers) ==>
        store.timers[t] == Timer(
          if old(store.pendingSince).None? then dueAt
          else if dueAt <= now then old(store.pendingSince).value
          else old(store.pendingSince).value + (dueAt - now), Scheduled, false)
    {
      hide StoreOk, SocketsOk, Progress, Register, RegisteredDue, AlarmFor, Soonest;
      ProgressReflexive(config.limits, Trail());
      if dueAt < 0 || dueAt > MAX_SAFE_INTEGER { return false; }
      var timers := Register(store.timers, t, RegisteredDue(store.pendingSince, now, dueAt));
      RegistrationKeepsStore(config, store, past, t, RegisteredDue(store.pendingSince, now, dueAt));
      RegisteredTimer(store.timers, t, store.pendingSince, now, dueAt);
      store := store.(timers := timers);
      RescheduleAlarm(now);
      accepted := true;
    }

    /** A known timer will not fire after this, whoever canceled it first. */
    method CancelTimer(t: TimerId, now: int) returns (known: bool)
      requires Valid()
      modifies `store, `alarm
      ensures Progress(config.limits, old(Trail()), Trail())
      ensures Valid()
      ensures known <==> t in old(store.timers)
      ensures if known then Reset(old(Vitals()), now, Vitals()) else Unmoved(old(Vitals()), Vitals())
      ensures store == old(store).(timers := Cancel(old(store.timers), t))
      ensures store.timers.Keys == old(store.timers).Keys
      ensures forall u :: u in store.timers && u != t ==> store.timers[u] == old(store.timers)[u]
      ensures known ==>
        var before := old(store.timers)[t];
        store.timers[t] == if before.status.Scheduled? then before.(status := Canceled) else before
    {
      hide StoreOk, SocketsOk, Progress, Cancel, AlarmFor, Soonest;
      var timers := Cancel(store.timers, t);
      CancellationKeepsStore(config, store, past, t);
      CanceledTimer(store.timers, t);
      store := store.(timers := timers);
      known := t in store.timers;
      if known { RescheduleAlarm(now); }
    }

    /** The loop of the alarm over the due rows; None where sequencing throws. */
    method FireDue(due: seq<TimerId>, now: int) returns (r: Option<(seq<Action>, seq<Action>, map<TimerId, Timer>)>,
        adv: Advance)
      requires StoreOk(config, store, past) && DueInOrder(store, due, now)
      ensures
        var more := AlarmLog(store, past, due, now);
        var h := past.history + more;
        && (r.Some? <==> Persists(config, store, past, more))
        && (r.Some? ==>
              && r.value.0 == more && r.value.2 == TimersAfterAlarm(store.timers, now, store.lastActionAt)
              && LogOk(config.limits, h, r.value.1,
                  Lo(config.limits, IsScripted(store.scripted), store.checkpoint, |h|))
              && (more != [] ==> adv == AdvanceWith(config, store, past, more)))
    {
      hide StoreOk, LogOk, HistoryOk, FireLog, Fires, AlarmedUpTo, InOrder, TimersAfterAlarm, WindowOk, WindowOf;
      hide ActsNumbered, AdvanceWith, CanPersist, KeyTaken, Stored;
      var core := LoadCore();
      ghost var h := past.history;
      var last := store.lastActionAt;
      var more: seq<Action> := [];
      var rows, timers := store.actions, store.timers;
      adv := Keep;
      FireStarts(config, store, past, due, now);
      for i := 0 to |due|
        invariant fresh(core) && core.Valid() && core.limits == config.limits && core.state == WindowOf(config.limits,
            h + more)
        invariant more == FireLog(|h|, Fires(store.timers, due[..i], now, last))
        invariant timers == AlarmedUpTo(store.timers, due[..i], now, last) && Persists(config, store, past, more)
        invariant LogOk(config.limits, h + more, rows,
            Lo(config.limits, IsScripted(store.scripted), store.checkpoint, |h + more|))
      {
        var t := due[i];
        AlarmNext(store.timers, due, i, now, last);
        FiresNext(store.timers, due, i, now, last);
        var plan := PlanTimer(now, timers[t], last);
        if plan.Defer? {
          timers := timers[t := timers[t].(dueAt := plan.nextAttemptAt, deferredOnce := true)];
          continue;
        }
        FireFresh(config, store, past, due, i, now);
        ghost var fired := Fires(store.timers, due[..i], now, last);
        FireLogNext(|h|, fired, t);
        ghost var before := h + more;
        ghost var a := SystemEntry(|before|, TimerFire(t), Fired(t));
        CanPersistNext(config.limits, IsScripted(store.scripted), store.checkpoint, h, more, a);
        var result := Append(core, rows, before, TimerFire(t), Fired(t));
        if result.None? {
          if Persists(config, store, past, AlarmLog(store, past, due, now)) {
            AlarmPrefixPersists(config, store, past, due, i + 1, now);
          }
          return None, Keep;
        }
        assert h + (more + [a]) == before + [a];
        more, rows := more + [result.value.0], result.value.1;
        timers := timers[t := timers[t].(status := HasFired)];
      }
      assert due[..|due|] == due;
      AlarmedAll(store.timers, due, now, last);
      LogFacts(config.limits, h + more, rows,
          Lo(config.limits, IsScripted(store.scripted), store.checkpoint, |h + more|));
      if more != [] { adv := AdvanceCheckpoint(core, more); }
      r := Some((more, rows, timers));
    }

    /** The timer transaction of the alarm: all due rows or none. */
    method AlarmTransaction(now: int) returns (threw: bool, due: seq<TimerId>)
      requires Valid() && store.ended.None? && store.pendingSince.None?
      modifies `store, `past, `sockets
      ensures Progress(config.limits, old(Trail()), Trail())
      ensures Unmoved(old(Vitals()), Vitals())
      ensures StoreOk(config, store, past) && Connected(past.history)
      ensures DueInOrder(old(store), due, now) && sockets.Keys == old(sockets).Keys && store.ended.None?
      ensures
        var more := AlarmLog(old(store), old(past), due, now);
        && (threw <==> more != [] && Blocked(config, old(store), old(past), more))
        && (threw ==> unchanged(this))
        && (!threw ==>
              && past == Extended(old(past), more) && sockets == Heard(old(sockets), Tail(more))
              && store == AfterAlarmed(old(store), more, store.actions,
                  AdvanceWith(config, old(store), old(past), more), now)
              && store.timers == TimersAfterAlarm(old(store.timers), now, old(store.lastActionAt)))
    {
      hide StoreOk, SocketsOk, AlarmLog, TimersAfterAlarm, InOrder;
      due := SelectDue(store.timers, now);
      StoreFacts(config, store, past);
      var fired, adv := FireDue(due, now);
      if fired.None? { return true, due; }
      var (more, rows, timers) := fired.value;
      if more != [] && adv.Throws? { return true, due; }
      CommitAlarm(due, more, rows, adv, now);
      threw := false;
    }

    method CommitAlarm(due: seq<TimerId>, more: seq<Action>, rows: seq<Action>, adv: Advance, now: int)
      requires Valid() && store.pendingSince.None? && DueInOrder(store, due, now)
      requires more == AlarmLog(store, past, due, now)
      requires more != [] ==>
        && adv == AdvanceWith(config, store, past, more) && !adv.Throws?
        && LogOk(config.limits, past.history + more, rows,
            Lo(config.limits, IsScripted(store.scripted), store.checkpoint, |past.history + more|))
      modifies `store, `past, `sockets
      ensures Progress(config.limits, old(Trail()), Trail())
      ensures Unmoved(old(Vitals()), Vitals())
      ensures StoreOk(config, store, past) && Connected(past.history) && sockets.Keys == old(sockets).Keys
      ensures past == Extended(old(past), more) && sockets == Heard(old(sockets), Tail(more))
      ensures store == AfterAlarmed(old(store), more, if more == [] then old(store.actions) else rows, adv, now)
    {
      hide StoreOk, SocketsOk, AlarmLog, TimersAfterAlarm, InOrder, LogOk;
      ghost var before := past.history;
      StoreFacts(config, store, past);
      AlarmKeepsStore(config, store, past, due, more, rows, now);
      AlarmProgresses(config, store, past, more, rows, now);
      store := AfterAlarmed(store, more, rows, adv, now);
      past := Extended(past, more);
      Broadcast(before, more);
    }

    /**
     The alarm: due timers of a connected, unpaused room fire or are deferred; an empty room
     expires at its time; then the next alarm is set.
     */
    method Alarm(now: int) returns (threw: bool, due: seq<TimerId>)
      requires Valid()
      modifies `store, `past, `sockets, `alarm
      ensures Progress(config.limits, old(Trail()), Trail())
      ensures old(store.ended).None? ==> Rings(old(Vitals()), now, threw, Vitals())
      ensures Valid()
      ensures
        var playing := old(store.ended).None? && old(sockets) != map[] && old(store.pendingSince).None?;
        var more := if playing then AlarmLog(old(store), old(past), due, now) else [];
        && (playing ==> DueInOrder(old(store), due, now))
        && (threw <==> more != [] && Blocked(config, old(store), old(past), more))
        && (threw ==> unchanged(`store, `past, `sockets) && alarm.Retrying?)
        && (!threw ==> past == Extended(old(past), more))
        && (!threw && playing ==>
              && sockets == Heard(old(sockets), Tail(more))
              && store == AfterLiveness(AfterAlarmed(old(store), more, store.actions,
                  AdvanceWith(config, old(store), old(past), more), now), |old(sockets)|, now))
        && (!playing && old(store.ended).None? ==>
              store == AfterLiveness(old(store), |old(sockets)|, now) && sockets == old(sockets))
        && (!threw && store.ended.None? ==> alarm == AlarmFor(Vitals(), now))
      ensures old(store.ended).Some? ==> unchanged(`store, `past, `sockets) && alarm.NoAlarm?
      ensures store.timers.Keys == old(store.timers).Keys
      ensures threw || old(sockets) == map[] || old(store.pendingSince).Some? ==> store.timers == old(store.timers)
      ensures !threw && old(store.ended).None? && old(sockets) != map[] && old(store.pendingSince).None? ==>
        forall t :: t in store.timers ==>
          var before, last := old(store.timers)[t], old(store.lastActionAt);
          if !before.status.Scheduled? || before.dueAt > now then store.timers[t] == before
          else if !before.deferredOnce && last.Some? && last.value <= now < last.value + 350 then
            store.timers[t] == Timer(now + 350, Scheduled, true)
          else store.timers[t].status.HasFired? && InLog(past.history, TimerFire(t))
    {
      hide Soonest, Remembers, PlanRoom, AlarmFor, StoreOk, SocketsOk, AlarmLog, AfterAlarmed, Heard, AdvanceWith;
      hide DueInOrder, Blocked, Progress, TimersAfterAlarm, AfterLiveness;
      threw, due := false, [];
      ghost var vitals := Vitals();
      RemembersStill(vitals, vitals);
      RingClears(vitals);
      ExtendedByNothing(past);
      ProgressReflexive(config.limits, Trail());
      if store.ended.Some? {
        alarm := NoAlarm;
        return;
      }
      if sockets != map[] && store.pendingSince.None? {
        threw, due := AlarmTransaction(now);
        RemembersStill(vitals, Vitals());
        if threw {
          alarm := Retrying;
          return;
        }
        AlarmedTimers(config, old(store), store, past, now);
      }
      assert |sockets| == |sockets.Keys|;
      ghost var between, pulse := Trail(), Vitals();
      KeepAlive(now);
      RingGoesOn(vitals, pulse, now, Vitals());
      ProgressTransitive(config.limits, old(Trail()), between, Trail());
    }

    /** The liveness half of the alarm: expiry of an empty room, heartbeat of another, next alarm. */
    method KeepAlive(now: int)
      requires StoreOk(config, store, past) && Connected(past.history) && store.ended.None?
      requires Remembers(Vitals().(soonest := None))
      modifies `store, `sockets, `alarm
      ensures Progress(config.limits, old(Trail()), Trail())
      ensures Valid()
      ensures Rings(old(Vitals()), now, false, Vitals())
      ensures store == AfterLiveness(old(store), |old(sockets)|, now) && sockets == old(sockets)
      ensures store.timers == old(store.timers) && store.actions == old(store.actions)
    {
      hide Soonest, StoreOk, SocketsOk, Progress;
      ProgressReflexive(config.limits, Trail());
      var plan := PlanRoom(now, |sockets|, store.lastHeartbeatAt, store.emptySinceAt);
      if plan.expiryDue {
        Expire();
      } else {
        Pump(plan.heartbeatDue, now);
      }
    }

    /** An empty room that expires tells nobody. */
    method Expire()
      requires StoreOk(config, store, past) && Connected(past.history) && store.ended.None? && |sockets| == 0
      modifies `store, `sockets, `alarm
      ensures Progress(config.limits, old(Trail()), Trail())
      ensures StoreOk(config, store, past) && Connected(past.history)
      ensures store == old(store).(ended := Some(Expired), joinable := false)
      ensures sockets == old(sockets) && alarm.NoAlarm?
    {
      hide StoreOk, SocketsOk, Progress;
      assert |sockets| == |sockets.Keys| == 0;
      var ended := End(Expired);
      alarm := NoAlarm;
    }

    method Pump(due: bool, now: int)
      requires StoreOk(config, store, past) && Connected(past.history) && store.ended.None?
      modifies `store, `alarm
      ensures Progress(config.limits, old(Trail()), Trail())
      ensures StoreOk(config, store, past) && Connected(past.history) && alarm == AlarmFor(Vitals(), now)
      ensures store == old(store).(lastHeartbeatAt := if due then Some(now) else old(store).lastHeartbeatAt)
    {
      hide StoreOk, SocketsOk, Progress, Soonest;
      ProgressReflexive(config.limits, Trail());
      if due {
        TouchKeeps(config, store, past, store.(lastHeartbeatAt := Some(now)));
        store := store.(lastHeartbeatAt := Some(now));
      }
      RescheduleAlarm(now);
    }

    // -------------------------------------------------------------------------
    // The end
    // -------------------------------------------------------------------------

    /** Every socket is told, authenticated or not. */
    method End(reason: EndReason) returns (ok: bool)
      requires StoreOk(config, store, past) && Connected(past.history)
      modifies `store, `sockets
      ensures Progress(config.limits, old(Trail()), Trail())
      ensures StoreOk(config, store, past) && Connected(past.history) && store.ended.Some?
      ensures ok <==> old(store.ended).None?
      ensures ok ==> store == old(store).(ended := Some(reason), joinable := false)
      ensures ok ==> sockets == map s | s in old(sockets) :: Told(old(sockets)[s], RoomEnded(reason))
      ensures !ok ==> unchanged(this)
    {
      hide StoreOk, FromLog, InSync, Progress;
      ProgressReflexive(config.limits, Trail());
      if store.ended.Some? { return false; }
      TouchKeeps(config, store, past, store.(ended := Some(reason), joinable := false));
      forall s | s in sockets
        ensures SocketOk(config.kernel, store.initial, store.started, past.truthful, past.history,
            Told(sockets[s], RoomEnded(reason)), clients[s])
      {
        SocketTold(config.kernel, store.initial, store.started, past.truthful, past.history, sockets[s], clients[s],
            RoomEnded(reason));
      }
      store := store.(ended := Some(reason), joinable := false);
      sockets := map s | s in sockets :: Told(sockets[s], RoomEnded(reason));
      ok := true;
    }

    // -------------------------------------------------------------------------
    // Attestation
    // -------------------------------------------------------------------------

    /** Whether an attestation is in time; otherwise how it is answered. */
    method CheckWindow(sequence: int) returns (r: Option<AttestOutcome>)
      requires StoreOk(config, store, past)
      ensures r ==
        if !InAttestationWindow(config, past, sequence) then Some(Rejected)
        else if !AttestationDue(config, store, past, sequence) then Some(Decided(Repeated))
        else None
    {
      hide StoreOk, HistoryOk;
      StoreFacts(config, store, past);
      var core := LoadCore();
      WindowConnects(config, store, past);
      if sequence <= 0 || sequence > MAX_SAFE_INTEGER || sequence % config.limits.interval != 0 {
        return Some(Rejected);
      }
      if !BaseConnects(sequence, core.state) { return Some(Rejected); }
      if store.checkpoint.Some? && sequence <= store.checkpoint.value.sequence { return Some(Decided(Repeated)); }
      r := None;
    }

    /**
     A connected player of a scripted room attests the state at a sequence. Only a sequence of
     the cadence, inside the window and above the checkpoint, is looked at; looking is limited
     per player, and only a matching hash-verified snapshot is let count.
     */
    method AttestCheckpoint(player: Option<PlayerId>, sequence: int, stateHash: Hash, dto: SnapshotDto,
        now: int) returns (r: AttestOutcome)
      requires Valid()
      modifies `store, `past
      ensures Progress(config.limits, old(Trail()), Trail())
      ensures Unmoved(old(Vitals()), Vitals())
      ensures past.history == old(past.history) && store.timers == old(store.timers)
      ensures Valid()
      ensures
        var connected := BootstrappedPlayers(sockets);
        var may := player.Some? && IsScripted(old(store.scripted)) && player.value in connected;
        var seen := if may && |connected| >= 2 then Some(now) else old(store.lastMultiBootstrapAt);
        var before := old(store).(lastMultiBootstrapAt := seen);
        if player.None? then store == before && past == old(past) && r.Unauthorized?
        else if !may || !InAttestationWindow(config, old(past), sequence) then
          store == before && past == old(past) && r.Rejected?
        else if !AttestationDue(config, old(store), old(past), sequence) then
          store == before && past == old(past) && r == Decided(Repeated)
        else
          Examined(before, old(past), player.value, sequence, stateHash, dto, Presence(connected, now, seen), r)
    {
      hide Soonest, AlarmFor, InAttestationWindow, StoreOk, SocketsOk, AttestationDue, Progress, BootstrappedPlayers;
      hide Examined;
      ProgressReflexive(config.limits, Trail());
      if player.None? { return Unauthorized; }
      if !IsScripted(store.scripted) { return Rejected; }
      var connected := BootstrappedPlayers(sockets);
      if player.value !in connected { return Rejected; }
      SeatedMeansStarted(config.kernel, store.initial, store.started, past.truthful, past.history, sockets, clients,
          player.value);
      ghost var start := Trail();
      if |connected| >= 2 {
        TouchKeeps(config, store, past, store.(lastMultiBootstrapAt := Some(now)));
        store := store.(lastMultiBootstrapAt := Some(now));
      }
      DueStays(config, old(store), store, past, sequence);
      ghost var seen := Trail();
      r := ExamineInTime(player.value, sequence, stateHash, dto,
        Presence(connected, now, store.lastMultiBootstrapAt));
      ProgressTransitive(config.limits, start, seen, Trail());
    }

    /** The attestation of a seated player of a scripted room. */
    method ExamineInTime(player: PlayerId, sequence: int, stateHash: Hash, dto: SnapshotDto, presence: Presence)
      returns (r: AttestOutcome)
      requires Valid() && IsScripted(store.scripted) && store.started
      modifies `store, `past
      ensures Progress(config.limits, old(Trail()), Trail())
      ensures Unmoved(old(Vitals()), Vitals())
      ensures past.history == old(past.history) && store.timers == old(store.timers)
      ensures Valid()
      ensures
        if !InAttestationWindow(config, old(past), sequence) then
          store == old(store) && past == old(past) && r.Rejected?
        else if !AttestationDue(config, old(store), old(past), sequence) then
          store == old(store) && past == old(past) && r == Decided(Repeated)
        else Examined(old(store), old(past), player, sequence, stateHash, dto, presence, r)
    {
      hide Soonest, AlarmFor, InAttestationWindow, StoreOk, SocketsOk, AttestationDue, Progress, Examined;
      ProgressReflexive(config.limits, Trail());
      var answer := CheckWindow(sequence);
      if answer.Some? { return answer.value; }
      DueIsPositive(config, store, past, sequence);
      r := Examine(player, sequence, stateHash, dto, presence);
    }

    /** What an attestation that is in time leaves and how it is answered. */
    ghost predicate Examined(s: Store, p: Past, player: PlayerId, sequence: nat, stateHash: Hash, dto: SnapshotDto,
        presence: Presence, r: AttestOutcome)
      reads this
    {
      match ConsumeRate(s.rates, player, presence.now)
      case None => store == s && past == p && r.RateLimited?
      case Some(rates) =>
        var rated := s.(rates := rates);
        if !AttestationValid(config, sequence, stateHash, dto) then store == rated && past == p && r.Rejected?
        else
          var a := Attestation(sequence, stateHash, dto.snapshot, player);
          && r == Decided(Attest(s.ballots, PruneFloor(config, p), a, presence).1.status)
          && Admissible(config, rated, p, a)
          && store == AfterAttest(config, rated, PruneFloor(config, p), a, presence)
          && past == PastAttest(config, rated, p, PruneFloor(config, p), a, presence)
    }

    method Examine(player: PlayerId, sequence: nat, stateHash: Hash, dto: SnapshotDto, presence: Presence)
      returns (r: AttestOutcome)
      requires Valid() && IsScripted(store.scripted) && store.started && AttestationDue(config, store, past, sequence)
      modifies `store, `past
      ensures Progress(config.limits, old(Trail()), Trail())
      ensures Unmoved(old(Vitals()), Vitals())
      ensures past.history == old(past.history) && store.timers == old(store.timers)
      ensures Valid()
      ensures Examined(old(store), old(past), player, sequence, stateHash, dto, presence, r)
    {
      hide StoreOk, SocketsOk, Attest, AttestationDue, AttestationValid, Admissible, AfterAttest, PastAttest, Progress;
      hide ConsumeRate;
      ProgressReflexive(config.limits, Trail());
      var rates := ConsumeRate(store.rates, player, presence.now);
      if rates.None? { return RateLimited; }
      ghost var start := Trail();
      TouchKeeps(config, store, past, store.(rates := rates.value));
      store := store.(rates := rates.value);
      if !AttestationValid(config, sequence, stateHash, dto) { return Rejected; }
      ghost var rated := Trail();
      var a := Attestation(sequence, stateHash, dto.snapshot, player);
      DueStays(config, old(store), store, past, sequence);
      DueIsAdmissible(config, store, past, stateHash, dto, a);
      var status := CommitAttest(a, presence);
      ProgressTransitive(config.limits, start, rated, Trail());
      r := Decided(status);
    }

    method CommitAttest(a: Attestation, presence: Presence) returns (status: Status)
      requires Valid() && Admissible(config, store, past, a)
      modifies `store, `past
      ensures Progress(config.limits, old(Trail()), Trail())
      ensures Unmoved(old(Vitals()), Vitals())
      ensures past.history == old(past.history) && store.timers == old(store.timers)
      ensures Valid()
      ensures
        var floor := PruneFloor(config, old(past));
        && status == Attest(old(store.ballots), floor, a, presence).1.status
        && store == AfterAttest(config, old(store), floor, a, presence) && past == PastAttest(config, old(store),
            old(past), floor, a, presence)
    {
      hide AlarmFor, Soonest, AfterAttest, PastAttest, Progress, StoreOk, SocketsOk, Attest, HistoryOk;
      var core := LoadCore();
      WindowConnects(config, store, past);
      var floor := RetentionFloor(core.state);
      AttestKeepsStore(config, store, past, a, presence);
      AttestTouches(config, store, past, floor, a, presence);
      AttestProgresses(config, store, past, floor, a, presence);
      status := Attest(store.ballots, floor, a, presence).1.status;
      SocketsLessSure(config.kernel, store.initial, store.started, past.truthful,
          PastAttest(config, store, past, floor, a, presence).truthful, past.history, sockets, clients);
      past := PastAttest(config, store, past, floor, a, presence);
      store := AfterAttest(config, store, floor, a, presence);
    }

    // -------------------------------------------------------------------------
    // Saves
    // -------------------------------------------------------------------------

    /** The host of a running room. */
    predicate MaySave(player: Option<PlayerId>)
      reads this
    {
      player.Some? && store.host == player && store.started && store.ended.None?
    }

    /**
     The host saves the table. An unscripted room replays its window: it succeeds exactly
     while the room has a base, with the state of the whole log. A scripted room hands out
     its attested checkpoint or the host's own snapshot, only of the newest sequence.
     */
    method SaveSnapshot(player: Option<PlayerId>, client: Option<SnapshotDto>) returns (r: SaveOutcome)
      requires StoreOk(config, store, past)
      ensures r.SaveUnauthorized? <==> player.None?
      ensures r.HostOnly? <==> player.Some? && store.host != player
      ensures r.NotRunning? <==> player.Some? && store.host == player && (!store.started || store.ended.Some?)
      ensures r.Saved? ==>
        store.started && r.snapshot.sequence == |past.history| && r.snapshot.release == config.release
      ensures MaySave(player) && !IsScripted(store.scripted) ==>
        if CanBootstrap(config, store, past) then
          r == Saved(StateAt(config.kernel, store.initial.value, past.history, |past.history|))
        else r.Invalid?
      ensures MaySave(player) && IsScripted(store.scripted) ==>
        if store.checkpoint.Some? && store.checkpoint.value.sequence == |past.history| then
          && (r == Saved(store.checkpoint.value) <==>
                client.None? || client.value.stateHash == config.kernel.hash(store.checkpoint.value.state))
          && (r.Saved? && past.truthful ==>
                r.snapshot == StateAt(config.kernel, store.initial.value, past.history, |past.history|))
        else
          r.Saved? <==>
            && client.Some? && Verified(config.kernel, client.value) && r == Saved(client.value.snapshot)
            && client.value.snapshot.sequence == |past.history| && client.value.snapshot.release == config.release
      ensures r.Stale? <==>
        && MaySave(player) && IsScripted(store.scripted)
        && !(store.checkpoint.Some? && store.checkpoint.value.sequence == |past.history|)
        && (client.None? || client.value.snapshot.sequence != |past.history|)
    {
      if player.None? { return SaveUnauthorized; }
      if store.host != player { return HostOnly; }
      if !store.started || store.ended.Some? || store.initial.None? { return NotRunning; }
      if !IsScripted(store.scripted) {
        r := MechanicalSave();
        return;
      }
      var attested := StoredCheckpoint(store, true);
      var current := attested.Some? && attested.value.sequence == store.lastSequence;
      var candidate := if current then Some(SnapshotDto(attested.value,
          config.kernel.hash(attested.value.state))) else client;
      if candidate.None? { return Stale; }
      if candidate.value.snapshot.sequence != store.lastSequence { return Stale; }
      if !Verified(config.kernel, candidate.value) { return Invalid; }
      if candidate.value.snapshot.release != config.release { return Invalid; }
      if current && client.Some? && config.kernel.hash(attested.value.state) != client.value.stateHash {
        return Invalid;
      }
      r := Saved(candidate.value.snapshot);
    }

    method MechanicalSave() returns (r: SaveOutcome)
      requires StoreOk(config, store, past) && store.started && !IsScripted(store.scripted)
      ensures store.initial.Some?
      ensures if CanBootstrap(config, store,
          past) then r == Saved(StateAt(config.kernel, store.initial.value, past.history,
          |past.history|)) else r.Invalid?
      ensures r.Saved? ==>
        r.snapshot.state == Play(config.kernel.apply, store.initial.value.state, past.history)
      ensures r.Saved? ==> r.snapshot.sequence == |past.history| && r.snapshot.release == config.release
    {
      hide StoreOk, HistoryOk;
      StoreFacts(config, store, past);
      var core := LoadCore();
      var base := if store.checkpoint.Some? then store.checkpoint.value else store.initial.value;
      MechanicalReplay(config, store, past, base);
      var computed := ReplayCheckpoint(config.kernel, base, core.state.actions);
      if computed.None? || computed.value.sequence != store.lastSequence { return Invalid; }
      NewestPlays(config, store, past.history);
      r := Saved(computed.value);
    }

    // -------------------------------------------------------------------------
    // Sockets
    // -------------------------------------------------------------------------

    method Connect(socket: SocketId, now: int)
      requires Valid() && socket !in sockets
      modifies `store, `sockets, `alarm, `clients
      ensures Progress(config.limits, old(Trail()), Trail())
      ensures old(store.ended).None? ==> Arrives(old(Vitals()), now, Vitals())
      ensures Valid()
      ensures sockets == old(sockets)[socket := Socket(Unauthenticated, false, [])]
      ensures clients == old(clients)[socket := ClientLog(Blank, false, 0)]
      ensures store == old(store).(emptySinceAt := None, lastHeartbeatAt := Some(now))
    {
      hide Soonest, AlarmFor, PlanRoom, StoreOk, SocketsOk, Progress;
      TouchKeeps(config, store, past, store.(emptySinceAt := None, lastHeartbeatAt := Some(now)));
      SocketsCome(config.kernel, store.initial, store.started, past.truthful, past.history, sockets, clients, socket);
      store := store.(emptySinceAt := None, lastHeartbeatAt := Some(now));
      sockets := sockets[socket := Socket(Unauthenticated, false, [])];
      clients := clients[socket := ClientLog(Blank, false, 0)];
      RescheduleAlarm(now);
    }

    /**
     The hello frame up to the point where the source waits: hello is the first frame, it is
     sent once, and only the token of a player of this room is let in.
     */
    method Authenticate(socket: SocketId, player: Option<PlayerId>)
      requires Valid() && socket in sockets
      modifies `sockets
      ensures Valid() && Unmoved(old(Vitals()), Vitals())
      ensures
        var s := old(sockets)[socket];
        sockets == old(sockets)[socket :=
          if !s.phase.Unauthenticated? then Told(s, ProtocolError(MalformedMessage))
          else if player.None? then Told(s, ProtocolError(InvalidSession))
          else s.(phase := Greeting(player.value))]
    {
      hide StoreOk, InSync, FromLog;
      if !sockets[socket].phase.Unauthenticated? {
        Send(socket, ProtocolError(MalformedMessage));
        return;
      }
      if player.None? {
        Send(socket, ProtocolError(InvalidSession));
        return;
      }
      assert SocketOk(config.kernel, store.initial, store.started, past.truthful, past.history, sockets[socket],
          clients[socket]);
      sockets := sockets[socket := sockets[socket].(phase := Greeting(player.value))];
    }

    /** The answer of a started room to a hello, before it is sent; None where the source throws. */
    method Answer(lastSequence: Option<int>) returns (r: Option<seq<Message>>)
      requires StoreOk(config, store, past) && store.started
      ensures r == ReplyTo(config, store, past, lastSequence)
    {
      hide StoreOk, HistoryOk, BootstrapFrom;
      StoreFacts(config, store, past);
      var core := LoadCore();
      if lastSequence.Some? {
        ResumeIsReply(config, store, past, lastSequence.value);
        return Some([ResumeReply(ResumeAfter(core.state, lastSequence.value))]);
      }
      BootstrapIsReply(config, store, past);
      var scripted := IsScripted(store.scripted);
      var initial := store.initial.value;
      var needsRecoveryBase := ResumeAfter(core.state, initial.sequence).ResyncRequired?;
      var checkpoint := if needsRecoveryBase then StoredCheckpoint(store, scripted) else None;
      var plan := PlanBootstrap(initial.sequence, needsRecoveryBase, scripted,
          if checkpoint.Some? then Some(checkpoint.value.sequence) else None);
      var bootstrap;
      if plan.InitialTail? {
        bootstrap := RoomBootstrap(core.state, initial, None, None);
      } else if !scripted {
        bootstrap := RoomBootstrap(core.state, initial, checkpoint, None);
      } else {
        bootstrap := RoomBootstrap(core.state, initial, checkpoint, Some(After(store.actions, plan.base)));
      }
      r := BootstrapReply(bootstrap);
    }

    /** Sends the answer to a hello and marks the socket; only a base or a resume seats the client. */
    method Greet(socket: SocketId, messages: seq<Message>, lastSequence: Option<int>, ghost held: Client, now: int)
      requires Valid() && socket in sockets && sockets[socket].phase.Greeting?
      requires
        || messages == []
        || (store.ended.Some? && messages == [RoomEnded(store.ended.value)])
        || (store.started && ReplyTo(config, store, past, lastSequence) == Some(messages))
      modifies `store, `sockets, `clients
      ensures Valid()
      ensures sockets == old(sockets)[socket := Greeted(old(sockets)[socket], messages)]
      ensures clients == old(clients)[socket := GreetedLog(config.kernel, store.initial, past.history,
        old(sockets)[socket], lastSequence, held)]
      ensures store == if Welcomes(messages) then Welcomed(old(store),
          MultiSeen(sockets, old(store.lastMultiBootstrapAt), now), now) else old(store)
      ensures Trail() == old(Trail())
      ensures ReplyTo(config, store, past, lastSequence) == ReplyTo(config, old(store), past, lastSequence)
    {
      hide Soonest, StoreOk, SocketOk, Welcomes, BootstrappedPlayers, Progress, GreetedLog;
      GreetingOk(config, store, past, sockets[socket], clients[socket], messages, lastSequence, held);
      clients := clients[socket := GreetedLog(config.kernel, store.initial, past.history, sockets[socket], lastSequence,
          held)];
      sockets := sockets[socket := Greeted(sockets[socket], messages)];
      if Welcomes(messages) {
        var multi := MultiSeen(sockets, store.lastMultiBootstrapAt, now);
        TouchKeeps(config, store, past, Welcomed(store, multi, now));
        store := Welcomed(store, multi, now);
      }
    }

    /** A started room answers a hello. */
    method AnswerHello(socket: SocketId, lastSequence: Option<int>, ghost held: Client,
        now: int) returns (r: HelloResult)
      requires Valid() && socket in sockets && sockets[socket].phase.Greeting? && store.started
      modifies `store, `sockets, `clients
      ensures Valid() && Trail() == old(Trail())
      ensures clients == old(clients)[socket := GreetedLog(config.kernel, store.initial, past.history,
        old(sockets)[socket], lastSequence, held)]
      ensures
        match ReplyTo(config, store, past, lastSequence)
        case Some(messages) => r == Replied(messages)
        case None => r.NoReply?
      ensures
        var sent := if r.Replied? then r.messages else [];
        && sockets == old(sockets)[socket := Greeted(old(sockets)[socket], sent)]
        && store == if Welcomes(sent) then Welcomed(old(store),
            MultiSeen(sockets, old(store.lastMultiBootstrapAt), now), now) else old(store)
    {
      hide StoreOk, SocketsOk, ReplyTo, Greeted, MultiSeen, GreetedLog;
      var messages := Answer(lastSequence);
      Greet(socket, if messages.None? then [] else messages.value, lastSequence, held, now);
      r := if messages.None? then NoReply else Replied(messages.value);
    }

    /**
     The rest of hello, one atomic step: the room starts if it has not, and the client gets a
     base with the whole log behind it, or the log behind the sequence it names. `held` is
     what the client holds if it names one.
     */
    method Hello(socket: SocketId, lastSequence: Option<int>, fetched: Fetched, ghost held: Client,
        now: int) returns (r: HelloResult)
      requires Valid() && socket in sockets && sockets[socket].phase.Greeting?
      modifies `store, `past, `sockets, `alarm, `clients
      ensures Progress(config.limits, old(Trail()), Trail())
      ensures store.ended.Some? || Greets(old(Vitals()), now, Vitals())
      ensures Valid()
      ensures past == Extended(old(past), Opening(config, old(store), old(past), fetched, now))
      ensures
        var ready := Opened(config, old(store), old(past), fetched, now);
        store == if r.Replied? && Welcomes(r.messages) then
          Welcomed(ready, MultiSeen(sockets, old(store.lastMultiBootstrapAt), now), now) else ready
      ensures
        if store.ended.Some? then r == Replied([RoomEnded(store.ended.value)])
        else if !store.started then r.NoReply? && StartingFrom(config, old(store), fetched).None?
        else match ReplyTo(config, store, past, lastSequence)
          case Some(messages) => r == Replied(messages)
          case None => r.NoReply?
      ensures sockets == old(sockets)[socket := Greeted(old(sockets)[socket], if r.Replied? then r.messages else [])]
      ensures SameStatus(old(store.timers), store.timers)
      ensures clients == old(clients)[socket := GreetedLog(config.kernel, store.initial, past.history,
        old(sockets)[socket], lastSequence, held)]
    {
      hide AlarmFor, StoreOk, SocketsOk, ReplyTo, Greeted, Progress, MultiSeen, Opened, Opening, Soonest;
      hide SameStatus, GreetedLog;
      OpeningFacts(config, store, past, fetched, now);
      OpeningKeepsStatus(config, store, past, fetched, now);
      ghost var start := Trail();
      ExpireLegacyRoom();
      ghost var checked := Trail();
      ExtendedByNothing(past);
      if store.ended.Some? {
        Greet(socket, [RoomEnded(store.ended.value)], lastSequence, held, now);
        return Replied([RoomEnded(store.ended.value)]);
      }
      var threw := StartIfNeeded(fetched, now);
      ProgressTransitive(config.limits, start, checked, Trail());
      if threw {
        Greet(socket, [], lastSequence, held, now);
        return NoReply;
      }
      ghost var ready := Vitals();
      assert socket in sockets.Keys && |sockets| == |sockets.Keys|;
      r := AnswerHello(socket, lastSequence, held, now);
      AlarmIgnores(ready, Vitals(), now);
    }

    // -------------------------------------------------------------------------
    // Departure
    // -------------------------------------------------------------------------

    /** `nextHost`: the oldest connected player in join order, else whoever is host. */
    method NextHost(connected: set<PlayerId>, current: Option<PlayerId>) returns (host: Option<PlayerId>)
      ensures host == if FirstConnected(store.players, connected).Some? then FirstConnected(store.players,
          connected) else current
    {
      for i := 0 to |store.players|
        invariant FirstConnected(store.players, connected) == FirstConnected(store.players[i..], connected)
      {
        if store.players[i].id in connected { return Some(store.players[i].id); }
        assert store.players[i..][1..] == store.players[i + 1..];
      }
      host := current;
    }

    method HostOnceGone(phase: Phase, left: set<PlayerId>) returns (host: Option<PlayerId>)
      ensures host == HostAfter(store, phase, left)
    {
      host := store.host;
      if !phase.Unauthenticated? && phase.player !in left && store.host == Some(phase.player) {
        host := NextHost(left, store.host);
      }
    }

    /**
     A socket closes. The host's seat passes to the oldest connected player once none of the
     host's sockets is left; a room that becomes empty starts its expiry clock.
     */
    method Disconnect(socket: SocketId, now: int)
      requires Valid() && socket in sockets
      modifies `store, `sockets, `alarm, `clients
      ensures Progress(config.limits, old(Trail()), Trail())
      ensures old(store.ended).None? ==> Leaves(old(Vitals()), now, Vitals())
      ensures Valid() && sockets == old(sockets) - {socket} && clients == old(clients) - {socket}
      ensures old(store.ended).Some? ==> store == old(store)
      ensures old(store.ended).None? ==>
        var host := HostAfter(old(store), old(sockets)[socket].phase, Authenticated(sockets));
        store == Departed(old(store), host, sockets == map[],
            MultiSeen(old(sockets), old(store.lastMultiBootstrapAt), now), now)
    {
      hide AlarmFor, Soonest, StoreOk, SocketsOk, Authenticated, BootstrappedPlayers, HostAfter, Departed;
      hide Progress, MultiSeen;
      ProgressReflexive(config.limits, Trail());
      var phase, multi := sockets[socket].phase, MultiSeen(sockets, store.lastMultiBootstrapAt, now);
      OneFewer(sockets, socket);
      SocketsLeave(config.kernel, store.initial, store.started, past.truthful, past.history, sockets, clients, socket);
      sockets, clients := sockets - {socket}, clients - {socket};
      if store.ended.Some? { return; }
      Depart(phase, multi, now);
    }

    /** The room once a socket in that phase is gone. */
    method Depart(phase: Phase, multi: Option<int>, now: int)
      requires StoreOk(config, store, past) && Connected(past.history) && store.ended.None?
      modifies `store, `alarm
      ensures Progress(config.limits, old(Trail()), Trail())
      ensures Valid()
      ensures Vitals() == Pulse(false, |sockets|, Some(now),
          if sockets == map[] then Some(old(store.emptySinceAt).GetOr(now)) else None,
          Vitals().soonest, AlarmFor(Vitals(), now))
      ensures store == Departed(old(store), HostAfter(old(store), phase, Authenticated(sockets)), sockets == map[],
          multi, now)
    {
      hide Soonest, StoreOk, SocketsOk, Authenticated, HostAfter, Progress;
      assert |sockets| == |sockets.Keys|;
      var left := Authenticated(sockets);
      var host := HostOnceGone(phase, left);
      DepartureKeeps(config, store, past, phase, left, sockets == map[], multi, now);
      store := Departed(store, host, sockets == map[], multi, now);
      RescheduleAlarm(now);
    }
  }

  const MAX_ROOM_CAPACITY: nat := 64

  /** `init`: a room is created once, for 1 to 64 players. */
  method CreateRoom(existing: Option<RoomDO>, kernel: Kernel, limits: Limits, release: nat, capacity: int)
    returns (created: Option<RoomDO>)
    requires limits.Valid()
    ensures created.Some? <==> existing.None? && 1 <= capacity <= 64
    ensures created.Some? ==>
      && fresh(created.value) && created.value.Valid()
      && created.value.sockets == map[] && created.value.past == NoPast() && created.value.alarm.NoAlarm?
      && created.value.config == Config(kernel, limits, release, capacity, false)
      && created.value.store == FreshStore(None, None) && NothingYet(created.value.store)
  {
    if existing.Some? || capacity < 1 || capacity > MAX_ROOM_CAPACITY { return None; }
    var room := new RoomDO.Init(kernel, limits, release, capacity);
    created := Some(room);
  }

  /** `initFromSave`: also the hash of the save must be its own, and its release the room's. */
  method CreateRoomFromSave(existing: Option<RoomDO>, kernel: Kernel, limits: Limits, release: nat, capacity: int,
      saved: SnapshotDto)
    returns (created: Option<RoomDO>)
    requires limits.Valid() && Distinct(kernel.saved(saved.snapshot.state).seats)
    ensures created.Some? <==>
      && existing.None? && 1 <= capacity <= 64
      && Verified(kernel, saved) && saved.snapshot.release == release
    ensures created.Some? ==>
      && fresh(created.value) && created.value.Valid()
      && created.value.sockets == map[] && created.value.past == NoPast() && created.value.alarm.NoAlarm?
      && created.value.config == Config(kernel, limits, release, capacity, true)
      && created.value.store == FreshStore(Some(saved.snapshot.(sequence := 0)),
          Some(kernel.requiresScripts(saved.snapshot.state)))
      && NothingYet(created.value.store)
      && created.value.store.initial == Some(saved.snapshot.(sequence := 0))
      && created.value.store.scripted == Some(kernel.requiresScripts(saved.snapshot.state))
  {
    if existing.Some? || capacity < 1 || capacity > MAX_ROOM_CAPACITY || !Verified(kernel, saved) { return None; }
    if saved.snapshot.release != release { return None; }
    var room := new RoomDO.InitFromSave(kernel, limits, capacity, saved.snapshot);
    created := Some(room);
  }
}
