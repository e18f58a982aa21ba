/**
 Whole runs of one room: any finite sequence of events, in any order, at any times, keeps
 the invariant; and what that means between any two moments of a run.
 */
module RoomRun {
  import opened Wrappers
  import opened Kernel
  import opened RoomCoreModel
  import opened ActionLog
  import opened Seating
  import opened Liveness
  import opened Delivery
  import opened RoomInvariants
  import opened Consensus
  import opened RoomTables
  import opened RoomSteps
  import opened RoomStore
  import opened RoomObject

  /** One thing that happens to a room; an event that names an impossible socket is skipped. */
  datatype Event =
    | PlayerJoins(player: PlayerId, requireQuickplay: bool)
    | SocketOpens(socket: SocketId)
    | TokenArrives(socket: SocketId, known: Option<PlayerId>)
    | HelloRuns(socket: SocketId, lastSequence: Option<int>, fetched: Fetched, held: Client)
    | ActionArrives(socket: SocketId, requestId: RequestId, payload: Payload)
    | AlarmRings
    | TimerRegistered(timer: TimerId, dueAt: int)
    | TimerCanceled(timer: TimerId)
    | Attested(attester: Option<PlayerId>, sequence: int, stateHash: Hash, dto: SnapshotDto)
    | RoomEnds(reason: EndReason)
    | SocketCloses(socket: SocketId)

  /** What one event does to the pulse of a room. */
  predicate Beat(a: Pulse, event: Event, now: int, b: Pulse) {
    if a.ended then b.ended
    else
      match event
      case SocketOpens(_) => Unmoved(a, b) || Arrives(a, now, b)
      case SocketCloses(_) => Unmoved(a, b) || Leaves(a, now, b)
      case AlarmRings => Rings(a, now, b.alarm.Retrying?, b)
      case HelloRuns(_, _, _, _) => Unmoved(a, b) || (a.connections > 0 && (b.ended || Greets(a, now, b)))
      case RoomEnds(_) => b.ended
      case PlayerJoins(_, _) => Unmoved(a, b) || Reset(a, now, b)
      case TimerRegistered(_, _) => Unmoved(a, b) || Reset(a, now, b)
      case TimerCanceled(_) => Unmoved(a, b) || Reset(a, now, b)
      case _ => Unmoved(a, b)
  }

  /** What one event does to the timer rows: only its cancellation cancels one, and only an alarm fires one. */
  predicate TimerStep(before: map<TimerId, Timer>, pendingSince: Option<int>, event: Event, now: int,
      after: map<TimerId, Timer>) {
    match event
    case TimerCanceled(t) =>
      && after.Keys == before.Keys
      && (forall u :: u in after && u != t ==> after[u] == before[u])
      && (t in after ==>
            after[t] == if before[t].status.Scheduled? then before[t].(status := Canceled) else before[t])
    case TimerRegistered(t, dueAt) =>
      && SameStatus(before, after)
      && (forall u :: u in before ==> after[u] == before[u])
      && (t !in before && 0 <= dueAt <= MAX_SAFE_INTEGER ==>
            t in after && after[t] == Timer(RegisteredDue(pendingSince, now, dueAt), Scheduled, false))
    case AlarmRings =>
      && after.Keys == before.Keys
      && forall t :: t in after && before[t].status != after[t].status ==>
        before[t].status.Scheduled? && after[t].status.HasFired?
    case _ => SameStatus(before, after)
  }

  /** One event, between two moments of a room: only an alarm appends more than two actions. */
  ghost predicate Happens(limits: Limits, a: Trace, p: Pulse, event: Event, now: int, b: Trace, q: Pulse) {
    && Progress(limits, a, b)
    && (!event.AlarmRings? ==> |b.history| <= |a.history| + 2)
    && TimerStep(a.timers, a.pendingSince, event, now, b.timers)
    && Remembers(q) && Beat(p, event, now, q)
  }

  method Step(room: RoomDO, event: Event, now: int)
    requires room.Valid()
    modifies room
    ensures room.Valid()
    ensures Happens(room.config.limits, old(room.Trail()), old(room.Vitals()), event, now, room.Trail(), room.Vitals())
  {
    hide StoreOk, SocketsOk, Progress, AfterJoin, RoomDO.Examined, SameStatus, AdvanceWith, Claims, Heard, Blocked;
    hide BootstrappedPlayers, Soonest, AlarmFor, InAttestationWindow, AttestationDue, Beat, TimerStep;
    match event
    case AlarmRings => StepClock(room, event, now);
    case TimerRegistered(_, _) => StepClock(room, event, now);
    case TimerCanceled(_) => StepClock(room, event, now);
    case PlayerJoins(_, _) => StepRoom(room, event, now);
    case Attested(_, _, _, _) => StepRoom(room, event, now);
    case RoomEnds(_) => StepRoom(room, event, now);
    case _ => StepSocket(room, event, now);
  }

  method StepRoom(room: RoomDO, event: Event, now: int)
    requires room.Valid() && (event.PlayerJoins? || event.Attested? || event.RoomEnds?)
    modifies room
    ensures room.Valid()
    ensures Happens(room.config.limits, old(room.Trail()), old(room.Vitals()), event, now, room.Trail(), room.Vitals())
  {
    hide StoreOk, SocketsOk, Progress, AfterJoin, RoomDO.Examined, SameStatus, AdvanceWith, Claims, Heard, Blocked;
    hide BootstrappedPlayers, Soonest, AlarmFor, InAttestationWindow, AttestationDue;
    ProgressReflexive(room.config.limits, room.Trail());
    SameStatusReflexive(room.store.timers);
    match event
    case PlayerJoins(player, requireQuickplay) =>
      var r := room.Join(player, requireQuickplay, now);
    case Attested(attester, sequence, stateHash, dto) =>
      var r := room.AttestCheckpoint(attester, sequence, stateHash, dto, now);
    case RoomEnds(reason) =>
      var ok := room.End(reason);
  }

  method StepSocket(room: RoomDO, event: Event, now: int)
    requires room.Valid()
    requires
      || event.SocketOpens? || event.TokenArrives? || event.HelloRuns? || event.ActionArrives?
      || event.SocketCloses?
    modifies room
    ensures room.Valid()
    ensures Happens(room.config.limits, old(room.Trail()), old(room.Vitals()), event, now, room.Trail(), room.Vitals())
  {
    hide StoreOk, SocketsOk, Progress, AfterRequest, Opened, SameStatus, AdvanceWith, Heard, Blocked, ReplyTo, Greeted;
    hide StartEntry, Authenticated, HostAfter, MultiSeen, Soonest, AlarmFor;
    ProgressReflexive(room.config.limits, room.Trail());
    SameStatusReflexive(room.store.timers);
    match event
    case SocketOpens(socket) =>
      if socket !in room.sockets { room.Connect(socket, now); }
    case TokenArrives(socket, known) =>
      if socket in room.sockets { room.Authenticate(socket, known); }
    case HelloRuns(socket, lastSequence, fetched, held) =>
      if socket in room.sockets && room.sockets[socket].phase.Greeting? {
        assert |room.sockets| == |room.sockets.Keys|;
        OpeningFacts(room.config, room.store, room.past, fetched, now);
        var r := room.Hello(socket, lastSequence, fetched, held, now);
      }
    case ActionArrives(socket, requestId, payload) =>
      if socket in room.sockets {
        if room.sockets[socket].phase.Unauthenticated? {
          room.EarlyFrame(socket);
        } else {
          var r := room.ActionFrame(socket, requestId, payload, now);
        }
      }
    case SocketCloses(socket) =>
      if socket in room.sockets { room.Disconnect(socket, now); }
  }

  method StepClock(room: RoomDO, event: Event, now: int)
    requires room.Valid() && (event.AlarmRings? || event.TimerRegistered? || event.TimerCanceled?)
    modifies room
    ensures room.Valid()
    ensures Happens(room.config.limits, old(room.Trail()), old(room.Vitals()), event, now, room.Trail(), room.Vitals())
  {
    hide StoreOk, SocketsOk, Progress, AfterAlarmed, AfterLiveness, AdvanceWith, DueInOrder, AlarmLog, Heard, Blocked;
    hide Soonest, AlarmFor, SameStatus, PlanRoom;
    match event
    case AlarmRings =>
      var threw, due := room.Alarm(now);
    case TimerRegistered(timer, dueAt) =>
      var r := room.RegisterTimer(timer, dueAt, now);
    case TimerCanceled(timer) =>
      var r := room.CancelTimer(timer, now);
  }

  /** The traces of a run, one before each event and one at the end. */
  ghost predicate IsRun(limits: Limits, events: seq<(Event, int)>, trail: seq<Trace>) {
    && |trail| == |events| + 1
    && (forall i, j :: 0 <= i <= j < |trail| ==> Progress(limits, trail[i], trail[j]))
    && (forall i :: 0 <= i < |events| && !events[i].0.AlarmRings? ==>
          |trail[i + 1].history| <= |trail[i].history| + 2)
    && (forall i :: 0 <= i < |events| ==>
          TimerStep(trail[i].timers, trail[i].pendingSince, events[i].0, events[i].1, trail[i + 1].timers))
  }

  /** The pulses of a run, taken at the same moments. */
  predicate IsPulsed(events: seq<(Event, int)>, pulses: seq<Pulse>) {
    && |pulses| == |events| + 1
    && (forall i :: 0 <= i < |pulses| ==> Remembers(pulses[i]))
    && (forall i :: 0 <= i < |events| ==> Beat(pulses[i], events[i].0, events[i].1, pulses[i + 1]))
  }

  /** The clock is not assumed to go forward. */
  method Run(room: RoomDO, events: seq<(Event, int)>) returns (ghost trail: seq<Trace>, ghost pulses: seq<Pulse>)
    requires room.Valid()
    modifies room
    ensures room.Valid() && IsRun(room.config.limits, events, trail)
    ensures trail[0] == old(room.Trail()) && trail[|events|] == room.Trail()
    ensures IsPulsed(events, pulses)
    ensures pulses[0] == old(room.Vitals()) && pulses[|events|] == room.Vitals()
    ensures forall s :: s in room.sockets && room.sockets[s].phase.Unauthenticated? ==>
      ToldNothing(room.sockets[s].sent)
  {
    hide StoreOk, SocketsOk, Progress, Remembers, Beat, Soonest, TimerStep;
    trail, pulses := [room.Trail()], [room.Vitals()];
    ProgressReflexive(room.config.limits, room.Trail());
    assert events[..0] == [];
    for i := 0 to |events|
      invariant room.Valid() && IsRun(room.config.limits, events[..i], trail)
      invariant trail[0] == old(room.Trail()) && trail[i] == room.Trail()
      invariant IsPulsed(events[..i], pulses)
      invariant pulses[0] == old(room.Vitals()) && pulses[i] == room.Vitals()
    {
      Step(room, events[i].0, events[i].1);
      RunOn(room.config.limits, events[..i], trail, events[i], room.Trail());
      assert events[..i] + [events[i]] == events[..i + 1];
      trail, pulses := trail + [room.Trail()], pulses + [room.Vitals()];
    }
    assert events[..|events|] == events;
    StrangersHearNothing(room.config.kernel, room.store.initial, room.store.started, room.past.truthful,
        room.past.history, room.sockets, room.clients);
  }

  /** Nothing of the log was ever sent. */
  predicate ToldNothing(sent: seq<Message>) {
    forall i :: 0 <= i < |sent| ==> sent[i].ProtocolError? || sent[i].RoomEnded? || sent[i].ResyncRequired?
  }

  /** Who has not said hello was sent nothing of the log. */
  lemma {:induction false} StrangersHearNothing(k: Kernel, initial: Option<Snapshot>, started: bool, truthful: bool,
      h: seq<Action>, sockets: map<SocketId, Socket>, clients: map<SocketId, ClientLog>)
    requires SocketsOk(k, initial, started, truthful, h, sockets, clients)
    ensures forall s :: s in sockets && sockets[s].phase.Unauthenticated? ==> ToldNothing(sockets[s].sent)
  {
    forall s | s in sockets && sockets[s].phase.Unauthenticated? ensures ToldNothing(sockets[s].sent) {
      assert SocketOk(k, initial, started, truthful, h, sockets[s], clients[s]);
    }
  }

  lemma {:induction false} RunOn(limits: Limits, events: seq<(Event, int)>, trail: seq<Trace>, event: (Event, int),
      next: Trace)
    requires IsRun(limits, events, trail) && Progress(limits, trail[|events|], next)
    requires !event.0.AlarmRings? ==> |next.history| <= |trail[|events|].history| + 2
    requires TimerStep(trail[|events|].timers, trail[|events|].pendingSince, event.0, event.1, next.timers)
    ensures IsRun(limits, events + [event], trail + [next])
  {
    hide Progress, TimerStep;
    var last := trail[|events|];
    forall i | 0 <= i < |trail| ensures Progress(limits, trail[i], next) {
      ProgressTransitive(limits, trail[i], last, next);
    }
    ProgressReflexive(limits, next);
  }

  // ---------------------------------------------------------------------------
  // Between two moments of a run
  // ---------------------------------------------------------------------------

  /** A request id has one sequence and one body for good: a retry after any run is answered with the same entry. */
  lemma {:induction false} RetryFindsTheSameEntry(c: Config, s: Store, p: Past, s': Store, p': Past, q: RequestId)
    requires StoreOk(c, s, p) && StoreOk(c, s', p') && Progress(c.limits, Traced(c, s, p), Traced(c, s', p'))
    requires q in s.dedup
    ensures q in s'.dedup && s'.dedup[q] == s.dedup[q]
    ensures forall i :: 0 <= i < |p'.history| && p'.history[i].requestId == Some(q) ==> i + 1 == s.dedup[q].sequence
  {
    RequestsForever(p.history, s.dedup, p'.history, s'.dedup, q);
    forall i | 0 <= i < |p'.history| && p'.history[i].requestId == Some(q) ensures i + 1 == s.dedup[q].sequence {
      var j := s.dedup[q].sequence - 1;
      assert p'.history[j] == s.dedup[q];
      assert i < j || j < i || i == j;
    }
  }

  /** A lifecycle cause is in the whole history at most once, although only the window is searched for it. */
  lemma {:induction false} SystemActionOnce(c: Config, s: Store, p: Past, i: nat, j: nat)
    requires StoreOk(c, s, p) && i < j < |p.history| && p.history[i].actionId.Sys?
    ensures p.history[j].actionId != p.history[i].actionId
  {
  }

  /** The log says that the player took the seat of a saved identity over. */
  ghost predicate ClaimLogged(h: seq<Action>, row: PlayerRow) {
    exists i :: 0 <= i < |h| && h[i].actionId == Sys(SeatClaim(row.id)) &&
      h[i].body.Claimed? && h[i].body.player == row.id && h[i].body.seat == row.seat
  }

  /** The log says that the player joined and was given the seat. */
  ghost predicate JoinLogged(h: seq<Action>, row: PlayerRow) {
    && (exists i :: 0 <= i < |h| && h[i].actionId == Sys(PlayerJoined(row.id)) && h[i].body == Joined(row.id))
    && (exists i :: 0 <= i < |h| && h[i].actionId == Sys(SeatAssign(row.id)) && h[i].body == Assigned(row.id, row.seat))
  }

  lemma {:induction false} LoggedSeat(c: Config, s: Store, p: Past, i: nat, row: PlayerRow)
    requires StoreOk(c, s, p) && i < |p.history| && row in s.players
    ensures p.history[i].actionId == Sys(SeatClaim(row.id)) ==> ClaimLogged(p.history, row)
    ensures p.history[i].actionId == Sys(SeatAssign(row.id)) ==>
      p.history[i].body == Assigned(row.id, row.seat)
    ensures p.history[i].actionId == Sys(PlayerJoined(row.id)) ==> p.history[i].body == Joined(row.id)
  {
    var a := p.history[i];
    if a.actionId.Sys? {
      assert Justified(a, s.started, c.resumed, s.players, s.timers);
      if a.actionId == Sys(SeatClaim(row.id)) || a.actionId == Sys(SeatAssign(row.id)) {
        OneSeatEach(s.players, row, PlayerRow(row.id, a.body.seat));
      }
    }
  }

  lemma {:induction false} OneSeatEach(players: seq<PlayerRow>, a: PlayerRow, b: PlayerRow)
    requires Distinct(Ids(players)) && a in players && b in players && a.id == b.id
    ensures a == b
  {
    var i :| 0 <= i < |players| && players[i] == a;
    var j :| 0 <= j < |players| && players[j] == b;
    assert Ids(players)[i] == Ids(players)[j];
  }

  /**
   Whoever comes to a started room is in its log for good, naming the seat: by exactly one
   claim, or by exactly one join and one assignment, never both.
   */
  lemma {:induction false} ArrivalsAreLogged(c: Config, s: Store, p: Past, s': Store, p': Past, i: nat)
    requires StoreOk(c, s', p') && Progress(c.limits, Traced(c, s, p), Traced(c, s', p')) && s.started
    requires |s.players| <= i < |s'.players|
    ensures
      var h, row := p'.history, s'.players[i];
      && (ClaimLogged(h, row) <==> !InLog(h, PlayerJoined(row.id)) && !InLog(h, SeatAssign(row.id)))
      && (JoinLogged(h, row) <==> !InLog(h, SeatClaim(row.id)))
      && (forall j, k :: 0 <= j < k < |h| && h[j].actionId.Sys? ==> h[j].actionId != h[k].actionId)
  {
    var h, row := p'.history, s'.players[i];
    assert SeatLogged(h, row.id);
    forall j | 0 <= j < |h| { LoggedSeat(c, s', p', j, row); }
    forall j, k | 0 <= j < k < |h| && h[j].actionId.Sys? ensures h[j].actionId != h[k].actionId {
      SystemActionOnce(c, s', p', j, k);
    }
  }

  /** A timer's fire action is in the history exactly if the timer has fired. */
  lemma {:induction false} FireIffFired(c: Config, s: Store, p: Past, t: TimerId)
    requires StoreOk(c, s, p)
    ensures InLog(p.history, TimerFire(t)) <==> t in s.timers && s.timers[t].status.HasFired?
  {
    if InLog(p.history, TimerFire(t)) {
      var i :| 0 <= i < |p.history| && p.history[i].actionId == Sys(TimerFire(t));
      assert Justified(p.history[i], s.started, c.resumed, s.players, s.timers);
    }
  }

  /**
   A canceled timer never fires, a fired one never again, and a deferred one is not deferred
   again: once the table runs unpaused, its due time stays.
   */
  lemma {:induction false} TimerFateIsFinal(c: Config, s: Store, p: Past, s': Store, p': Past, t: TimerId)
    requires StoreOk(c, s, p) && StoreOk(c, s', p') && Progress(c.limits, Traced(c, s, p), Traced(c, s', p'))
    requires t in s.timers
    ensures !s.timers[t].status.Scheduled? ==> t in s'.timers && s'.timers[t] == s.timers[t]
    ensures s.timers[t].status.Canceled? ==> !InLog(p'.history, TimerFire(t))
    ensures s.timers[t].deferredOnce ==> s'.timers[t].deferredOnce
    ensures s.started && s.pendingSince.None? && s.timers[t].deferredOnce ==> s'.timers[t].dueAt == s.timers[t].dueAt
  {
    assert Outlives(s.timers[t], s'.timers[t]);
    FireIffFired(c, s', p', t);
  }

  /** Between two moments of a run the timer's cancellation was one of the events. */
  predicate CanceledBetween(events: seq<(Event, int)>, i: nat, j: nat, t: TimerId)
    requires i <= j <= |events|
  {
    exists k :: i <= k < j && events[k].0 == TimerCanceled(t)
  }

  /**
   A row turns canceled only by its own cancellation, fired only by an alarm, and is new only
   as scheduled; and once its cancellation came it is not scheduled.
   */
  lemma {:induction false} CanceledByItsEvent(limits: Limits, events: seq<(Event, int)>, trail: seq<Trace>, i: nat,
      j: nat, t: TimerId)
    requires IsRun(limits, events, trail) && i <= j < |trail|
    ensures t in trail[j].timers && (t !in trail[i].timers || trail[i].timers[t].status.Scheduled?) ==>
      && (trail[j].timers[t].status.Canceled? ==> CanceledBetween(events, i, j, t))
      && (trail[j].timers[t].status.HasFired? ==> exists k :: i <= k < j && events[k].0.AlarmRings?)
    ensures t in trail[i].timers ==>
      && t in trail[j].timers
      && (CanceledBetween(events, i, j, t) ==> !trail[j].timers[t].status.Scheduled?)
      && (!trail[i].timers[t].status.Scheduled? ==> trail[j].timers[t] == trail[i].timers[t])
    decreases j - i
  {
    assert Progress(limits, trail[i], trail[j]);
    assert t in trail[i].timers ==> Outlives(trail[i].timers[t], trail[j].timers[t]);
    if i < j {
      CanceledByItsEvent(limits, events, trail, i, j - 1, t);
      assert Progress(limits, trail[j - 1], trail[j]);
      assert t in trail[j - 1].timers ==> Outlives(trail[j - 1].timers[t], trail[j].timers[t]);
      var (event, now) := events[j - 1];
      assert TimerStep(trail[j - 1].timers, trail[j - 1].pendingSince, event, now, trail[j].timers);
    }
  }

  lemma {:induction false} StillPaused(limits: Limits, events: seq<(Event, int)>, trail: seq<Trace>, i: nat, k: nat,
      j: nat)
    requires IsRun(limits, events, trail) && i <= k <= j < |trail|
    requires trail[i].pendingSince.Some? && trail[j].pendingSince == trail[i].pendingSince
    ensures trail[k].pendingSince == trail[i].pendingSince
  {
    assert Progress(limits, trail[i], trail[k]) && Progress(limits, trail[k], trail[j]);
  }

  /** In a pause a scheduled timer is canceled by its own cancellation, and otherwise stays as it is. */
  lemma {:induction false} PausedTimerIs(limits: Limits, events: seq<(Event, int)>, trail: seq<Trace>, i: nat, j: nat,
      t: TimerId)
    requires IsRun(limits, events, trail) && i <= j < |trail| && t in trail[i].timers
    requires trail[i].pendingSince.Some? && trail[j].pendingSince == trail[i].pendingSince
    requires trail[i].timers[t].status.Scheduled?
    ensures t in trail[j].timers
    ensures trail[j].timers[t] ==
      if CanceledBetween(events, i, j, t) then trail[i].timers[t].(status := Canceled) else trail[i].timers[t]
  {
    CanceledByItsEvent(limits, events, trail, i, j, t);
    assert Progress(limits, trail[i], trail[j]);
  }

  /**
   What is left of a scheduled timer when the table is paused is left when the pause ends,
   whatever happened in between, exactly unless its own cancellation did: of a run, moment `i`
   is any of a pause and `j` any later one of the same, in which `row` joins at `endedAt` and
   ends it.
   */
  lemma {:induction false} PausedTimerKeepsItsDelay(c: Config, events: seq<(Event, int)>, trail: seq<Trace>, i: nat,
      j: nat, s1: Store, p1: Past, t: TimerId, row: PlayerRow, endedAt: int)
    requires IsRun(c.limits, events, trail) && i <= j < |trail| && trail[j] == Traced(c, s1, p1)
    requires trail[i].pendingSince.Some? && s1.pendingSince == trail[i].pendingSince
    requires endedAt >= s1.pendingSince.value
    requires t in trail[i].timers && trail[i].timers[t].status.Scheduled?
    requires Pause(c, s1, row.seat).None?
    ensures
      var before, after := trail[i].timers[t], Unpaused(c, s1, row.seat, endedAt);
      && t in after
      && after[t] ==
        if CanceledBetween(events, i, j, t) then before.(status := Canceled)
        else before.(dueAt := endedAt + (before.dueAt - s1.pendingSince.value))
  {
    PausedTimerIs(c.limits, events, trail, i, j, t);
  }

  /**
   A timer first registered during the pause, by event `i`, with delay d is due exactly d after
   the pause's end, unless its cancellation came in between.
   */
  lemma {:induction false} PausedDelayRunsFromTheResume(c: Config, events: seq<(Event, int)>, trail: seq<Trace>, i: nat,
      j: nat, s1: Store, p1: Past, t: TimerId, delay: nat, row: PlayerRow, endedAt: int)
    requires IsRun(c.limits, events, trail) && i < j < |trail| && trail[j] == Traced(c, s1, p1)
    requires trail[i].pendingSince.Some? && s1.pendingSince == trail[i].pendingSince
    requires endedAt >= s1.pendingSince.value
    requires t !in trail[i].timers && events[i].0 == TimerRegistered(t, events[i].1 + delay)
    requires 0 <= events[i].1 + delay <= MAX_SAFE_INTEGER
    requires Pause(c, s1, row.seat).None?
    ensures
      var after := Unpaused(c, s1, row.seat, endedAt);
      && t in after
      && (if CanceledBetween(events, i + 1, j, t) then after[t].status.Canceled?
          else after[t] == Timer(endedAt + delay, Scheduled, false))
  {
    assert TimerStep(trail[i].timers, trail[i].pendingSince, events[i].0, events[i].1, trail[i + 1].timers);
    StillPaused(c.limits, events, trail, i, i + 1, j);
    PausedTimerKeepsItsDelay(c, events, trail, i + 1, j, s1, p1, t, row, endedAt);
  }

  /**
   A timer a resumed table starts with has its whole delay again after the pause, exactly
   unless a row with its id was there before the start, due at another time or not scheduled:
   the earlier row stays; or its cancellation came in between. Moment `k` of the run is right
   after the start.
   */
  lemma {:induction false} ResumedTimerRestartsItsDelay(c: Config, s: Store, p: Past, initial: Snapshot, scripted: bool,
      rows: seq<Action>, arms: seq<(TimerId, nat)>, i: nat, startedAt: int, events: seq<(Event, int)>,
      trail: seq<Trace>, k: nat, j: nat, s1: Store, p1: Past, row: PlayerRow, endedAt: int)
    requires i < |arms| && forall j :: 0 <= j < i ==> arms[j].0 != arms[i].0
    requires IsRun(c.limits, events, trail) && k <= j < |trail| && trail[j] == Traced(c, s1, p1)
    requires
      var started := AfterStart(c, s, initial, scripted, rows, ArmAll(s.timers, arms, startedAt), startedAt);
      && started.pendingSince.Some? && s1.pendingSince == started.pendingSince && endedAt >= startedAt
      && trail[k] == Traced(c, started, Extended(p, rows))
    requires Pause(c, s1, row.seat).None?
    ensures
      var (t, delay), after := arms[i], Unpaused(c, s1, row.seat, endedAt);
      var first := if t in s.timers then s.timers[t] else Timer(startedAt + delay, Scheduled, false);
      && t in after
      && after[t] == (
        if !first.status.Scheduled? then first
        else if CanceledBetween(events, k, j, t) then first.(status := Canceled)
        else first.(dueAt := endedAt + (first.dueAt - startedAt)))
      && (after[t].status.Scheduled? && after[t].dueAt == endedAt + delay <==>
            && !CanceledBetween(events, k, j, t)
            && (t !in s.timers || (s.timers[t].status.Scheduled? && s.timers[t].dueAt == startedAt + delay)))
  {
    var t, armed := arms[i].0, ArmAll(s.timers, arms, startedAt);
    if t in s.timers { ArmKeeps(s.timers, arms, startedAt); } else { ArmedFirst(s.timers, arms, startedAt, i); }
    if armed[t].status.Scheduled? {
      PausedTimerKeepsItsDelay(c, events, trail, k, j, s1, p1, t, row, endedAt);
    } else {
      assert Progress(c.limits, trail[k], trail[j]);
      assert Outlives(armed[t], s1.timers[t]);
    }
  }

  /** A started room's log begins with its start action and holds no other; an unstarted one has none. */
  lemma {:induction false} StartIsFirst(c: Config, s: Store, p: Past, i: nat)
    requires StoreOk(c, s, p) && i < |p.history|
    ensures p.history[i].actionId == Sys(StartKey(c.resumed)) <==> s.started && i == 0
  {
    if s.started && i > 0 { SystemActionOnce(c, s, p, 0, i); }
    if p.history[i].actionId == Sys(StartKey(c.resumed)) {
      assert Justified(p.history[i], s.started, c.resumed, s.players, s.timers);
    }
  }

  /**
   Every saved identity is recovered exactly once if somebody has its seat, by the roster or by
   one claim, and the table waits for the others.
   */
  lemma {:induction false} SavedSeatsRecovered(c: Config, s: Store, p: Past, seat: SeatId)
    requires StoreOk(c, s, p) && c.resumed && s.started && s.initial.Some?
    requires seat in c.kernel.saved(s.initial.value.state).seats
    requires SavedSeatPlayer(c.kernel.saved(s.initial.value.state), seat).Some?
    ensures Recoveries(p.history, seat) == if seat in Seats(s.players) then 1 else 0
    ensures seat !in Seats(s.players) ==> s.pendingSince.Some?
  {
    var t := c.kernel.saved(s.initial.value.state);
    var i :| 0 <= i < |t.seats| && t.seats[i] == seat;
    assert seat !in Seats(s.players) ==> Waiting(t, Seats(s.players));
  }

  /** At most one hash is ever confirmed for a sequence, and confirmations go up through every run. */
  lemma {:induction false} ConfirmedOnce(c: Config, s: Store, p: Past, s': Store, p': Past, i: nat, j: nat)
    requires StoreOk(c, s', p') && Progress(c.limits, Traced(c, s, p), Traced(c, s', p')) && i < |p.confirmed|
    requires j < |p'.confirmed|
    requires p.confirmed[i].sequence == p'.confirmed[j].sequence
    ensures i == j && p.confirmed[i] == p'.confirmed[j]
  {
    assert p'.confirmed[i] == p.confirmed[i];
  }

  /** The stored rows of a scripted room are exactly the entries a late client may need. */
  lemma {:induction false} ScriptedCoverage(c: Config, s: Store, p: Past)
    requires StoreOk(c, s, p) && IsScripted(s.scripted)
    ensures s.actions == p.history[FloorOf(c.limits,
        SequenceOf(s.checkpoint))..] && SequenceOf(s.checkpoint) <= |p.history|
    ensures CanBootstrap(c, s, p)
  {
  }

  // ---------------------------------------------------------------------------
  // What late and connected clients have
  // ---------------------------------------------------------------------------

  /**
   A late client of any reachable started room is given a true state and the log behind it,
   and folding the one over the other is the newest state; it gets no answer exactly if the
   room has lost its base, and never the answer that bootstrap is unavailable. Of a scripted
   room it is enough that every confirmation so far counted one honest attester.
   */
  lemma {:induction false} BootstrapEqualsHistory(c: Config, s: Store, p: Past)
    requires StoreOk(c, s, p) && s.started && s.initial.Some?
    requires IsScripted(s.scripted) ==> p.vouched && Collisionless(c.kernel)
    ensures ReplyTo(c, s, p, None).Some? <==> CanBootstrap(c, s, p)
    ensures ReplyTo(c, s, p, None).Some? ==>
      var base := BaseFor(c.limits, s.initial.value, s.checkpoint, |p.history|);
      && base.sequence <= |p.history|
      && ReplyTo(c, s, p, None) == Some([Base(base)] + Tail(p.history[base.sequence..]))
      && base == StateAt(c.kernel, s.initial.value, p.history, base.sequence)
      && Fold(c.kernel, base, p.history[base.sequence..]) == StateAt(c.kernel, s.initial.value, p.history, |p.history|)
      && base.state == Play(c.kernel.apply, s.initial.value.state, p.history[..base.sequence])
      && Play(c.kernel.apply, base.state, p.history[base.sequence..]) ==
        Play(c.kernel.apply, s.initial.value.state, p.history)
  {
    hide StoreOk, BootstrapFrom, Collisionless, Play, Fold;
    VouchedIsTruthful(c, s, p);
    BootstrapFacts(c, s, p);
    var base := BaseFor(c.limits, s.initial.value, s.checkpoint, |p.history|);
    StateAtFrom(c.kernel, s.initial.value, p.history, base.sequence, |p.history|);
    assert p.history[base.sequence..|p.history|] == p.history[base.sequence..];
    FoldPlays(c.kernel, s.initial.value, p.history[..base.sequence]);
    PlayConcat(c.kernel.apply, s.initial.value.state, p.history[..base.sequence], p.history[base.sequence..]);
    assert p.history[..base.sequence] + p.history[base.sequence..] == p.history;
  }

  /**
   Every seated client, however much of its channel has been delivered: the channel has
   brought exactly the log from its base to where it is, besides stale replies; a client that
   skips those holds the room's state there, and one that takes them for a gap is like it
   until the first of them. With everything delivered the channel is where the room is.
   */
  lemma {:induction false} SeatedClientConverges(c: Config, s: Store, p: Past, socket: Socket, log: ClientLog, j: nat)
    requires StoreOk(c, s, p) && SocketOk(c.kernel, s.initial, s.started, p.truthful, p.history, socket, log)
    requires socket.bootstrapped && log.honest && (IsScripted(s.scripted) ==> p.vouched && Collisionless(c.kernel))
    requires 1 <= j <= |socket.sent| - log.handshake
    ensures
      var messages, named := socket.sent[log.handshake..], BaseOf(log.start, []);
      var base, at := BaseOf(log.start, messages[..j]), ChannelAt(named, messages[..j]);
      var client := ReceiveAll(c.kernel, log.start, messages[..j]);
      && base <= at <= |p.history| && News(named, messages[..j]) == p.history[base..at]
      && (j == |messages| ==> at == |p.history|)
      && client == At(StateAt(c.kernel, s.initial.value, p.history, at))
      && client.snapshot.state == Play(c.kernel.apply, s.initial.value.state, p.history[..at])
      && Applied(c.kernel, log.start, messages[..j]) == p.history[base..at]
      && ((forall i :: 0 <= i < j ==> !Delivery.Stale(named, messages, i)) ==>
            ReceiveAllStrictly(c.kernel, log.start, messages[..j]) == client)
  {
    hide StoreOk, FromLog, Collisionless;
    StoreFacts(c, s, p);
    VouchedIsTruthful(c, s, p);
    var messages := socket.sent[log.handshake..];
    assert forall i :: 0 <= i < |messages| ==> messages[i] == socket.sent[log.handshake + i];
    ChannelCarriesTheLog(c.kernel, s.initial.value, p.history, log.start, messages, j);
    NewsIsApplied(c.kernel, s.initial.value, p.history, log.start, messages, j);
    StrictClientIff(c.kernel, s.initial.value, p.history, log.start, messages, j);
    assert Faithful(c.kernel, s.initial.value, p.history, ReceiveAll(c.kernel, log.start, messages[..j]));
    FoldPlays(c.kernel, s.initial.value, p.history[..ReceiveAll(c.kernel, log.start, messages[..j]).snapshot.sequence]);
  }

  lemma {:induction false} VouchedIsTruthful(c: Config, s: Store, p: Past)
    requires StoreOk(c, s, p)
    ensures !IsScripted(s.scripted) || (p.vouched && Collisionless(c.kernel)) ==> p.truthful
  {
  }

  // ---------------------------------------------------------------------------
  // When an unscripted room keeps a base
  // ---------------------------------------------------------------------------

  /** The base after a committed transaction that appended `more`. */
  ghost predicate KeepsBase(c: Config, s: Store, p: Past, more: seq<Action>) {
    var adv := AdvanceWith(c, s, p, more);
    !adv.Throws? && HasBase(c.limits, IsScripted(s.scripted), Checkpointed(s.checkpoint, adv), |p.history| + |more|)
  }

  /**
   From a room with a base, a transaction commits and keeps a base exactly while the new log
   still reaches back to the old one; in a scripted room always. Requests, joins and a start
   always fit; an alarm fits while it fires at most retention - interval + 1 timers.
   */
  lemma {:induction false} BaseKeptIff(c: Config, s: Store, p: Past, more: seq<Action>)
    requires StoreOk(c, s, p) && s.started && CanBootstrap(c, s, p) && more != [] && Numbered(p.history + more)
    ensures KeepsBase(c, s, p, more) <==>
      IsScripted(s.scripted) || |p.history| + |more| - SequenceOf(s.checkpoint) <= c.limits.retention
    ensures |more| <= Slack(c.limits) ==> KeepsBase(c, s, p, more)
    ensures |more| <= 2 ==> KeepsBase(c, s, p, more)
    // without a checkpoint the base is lost silently, with one the transaction is rolled back
    ensures !KeepsBase(c, s, p, more) ==> (AdvanceWith(c, s, p, more).Throws? <==> s.checkpoint.Some?)
  {
    if !IsScripted(s.scripted) {
      AdvanceKeepsLag(c.kernel, c.limits, s.initial.value, s.checkpoint, p.history, more);
    }
  }

  /**
   Through any run, a room whose alarms each fire no more timers than the slack keeps a base,
   whatever else happens; and a base once lost does not come back.
   */
  lemma {:induction false} BaseOfRun(limits: Limits, events: seq<(Event, int)>, trail: seq<Trace>)
    requires limits.Valid() && IsRun(limits, events, trail)
    ensures trail[0].based && (forall i :: 0 <= i < |events| && events[i].0.AlarmRings? ==>
                                 |trail[i + 1].history| - |trail[i].history| <= Slack(limits)) ==>
      forall j :: 0 <= j < |trail| ==> trail[j].based
    ensures forall i, j :: 0 <= i <= j < |trail| && !trail[i].based ==> !trail[j].based
  {
    forall i, j | 0 <= i <= j < |trail| && !trail[i].based ensures !trail[j].based {
      assert Progress(limits, trail[i], trail[j]);
    }
    if trail[0].based && (forall i :: 0 <= i < |events| && events[i].0.AlarmRings? ==>
                            |trail[i + 1].history| - |trail[i].history| <= Slack(limits))
    {
      for j := 0 to |trail|
        invariant forall i :: 0 <= i < j ==> trail[i].based
      {
        if j > 0 {
          assert Progress(limits, trail[j - 1], trail[j]);
          assert |trail[j].history| - |trail[j - 1].history| <= Slack(limits);
        }
      }
    }
  }

  /** So a late client of such a room is always answered, from the moment it has started. */
  lemma {:induction false} BasedIsAnswered(c: Config, s: Store, p: Past)
    requires StoreOk(c, s, p) && s.started
    ensures Traced(c, s, p).based <==> ReplyTo(c, s, p, None).Some?
  {
    hide BootstrapFrom;
    StoreFacts(c, s, p);
    BootstrapFacts(c, s, p);
  }

  // ---------------------------------------------------------------------------
  // When a transaction throws
  // ---------------------------------------------------------------------------

  /** A row still stored is a client's whose request id is `system:` with this action id. */
  ghost predicate NamedByClient(h: seq<Action>, lo: nat, id: ActionId) {
    exists j :: lo <= j < |h| && h[j].requestId == Some(SystemName(id))
  }

  /** A row still stored is that of this system action. */
  ghost predicate NamesSystem(h: seq<Action>, lo: nat, q: RequestId) {
    exists j :: lo <= j < |h| && h[j].requestId.None? && q == SystemName(h[j].actionId)
  }

  /**
   A new request of a started room throws exactly at the last safe integer, or if its id is
   `system:` with the action id of a system action whose row is still stored.
   */
  lemma {:induction false} RequestThrowsIff(c: Config, s: Store, p: Past, q: RequestId, player: PlayerId,
      payload: Payload)
    requires StoreOk(c, s, p) && s.started && q !in s.dedup
    ensures Blocked(c, s, p, [NextRequest(p, q, player, payload)]) <==>
      || |p.history| == MAX_SAFE_INTEGER
      || NamesSystem(p.history, Lo(c.limits, IsScripted(s.scripted), s.checkpoint, |p.history|), q)
  {
    hide KeyTaken, HistoryOk;
    var a := NextRequest(p, q, player, payload);
    RequestFits(c, s, p, q, a);
    CanPersistOne(c.limits, IsScripted(s.scripted), s.checkpoint, p.history, a);
    SmallAdvances(c, s, p, [a]);
    KeyTakenIff(p.history, Lo(c.limits, IsScripted(s.scripted), s.checkpoint, |p.history|), a);
  }

  /**
   A join, a claim or an alarm of a started room throws exactly beyond the last safe integer,
   if a client's request still stored at that moment has the name of one of its actions, or if
   a checkpoint exists and the new log does not reach back to it.
   */
  lemma {:induction false} SystemThrowsIff(c: Config, s: Store, p: Past, more: seq<Action>)
    requires StoreOk(c, s, p) && s.started && more != [] && HistoryOk(p.history + more)
    requires forall i :: 0 <= i < |more| ==> more[i].requestId.None?
    ensures Blocked(c, s, p, more) <==>
      || |p.history| + |more| > MAX_SAFE_INTEGER
      || (exists i :: 0 <= i < |more| &&
            NamedByClient(p.history, Lo(c.limits, IsScripted(s.scripted), s.checkpoint, |p.history| + i),
              more[i].actionId))
      || (!IsScripted(s.scripted) && s.checkpoint.Some?
            && |p.history| + |more| - SequenceOf(s.checkpoint) > c.limits.retention)
  {
    hide HistoryOk, CanPersist;
    var scripted := IsScripted(s.scripted);
    if |p.history| + |more| <= MAX_SAFE_INTEGER {
      SystemPersistsIff(c.limits, scripted, s.checkpoint, p.history, more);
    } else {
      TooLong(c.limits, scripted, s.checkpoint, p.history, more);
    }
  }

  lemma {:induction false} TooLong(limits: Limits, scripted: bool, checkpoint: Option<Snapshot>, h: seq<Action>,
      more: seq<Action>)
    requires more != [] && |h| + |more| > MAX_SAFE_INTEGER
    ensures !CanPersist(limits, scripted, checkpoint, h, more)
  {
  }

  lemma {:induction false} SmallAdvances(c: Config, s: Store, p: Past, more: seq<Action>)
    requires StoreOk(c, s, p) && s.started && 0 < |more| <= Slack(c.limits) && Numbered(p.history + more)
    ensures !AdvanceWith(c, s, p, more).Throws?
  {
    if CanBootstrap(c, s, p) { BaseKeptIff(c, s, p, more); }
  }

  /**
   So while no request of the log has the name of a system action, no request, join or claim
   of a started room throws short of the last safe integer, and no alarm that fires at most
   as many timers as the slack.
   */
  lemma {:induction false} SmallTransactionsCommit(c: Config, s: Store, p: Past, more: seq<Action>)
    requires StoreOk(c, s, p) && s.started && 0 < |more| <= Slack(c.limits) && HistoryOk(p.history + more)
    requires forall i :: 0 <= i < |more| ==> more[i].requestId.None?
    requires forall j :: 0 <= j < |p.history| ==> p.history[j].requestId.None? || p.history[j].requestId.value.Text?
    ensures Blocked(c, s, p, more) <==> |p.history| + |more| > MAX_SAFE_INTEGER
    ensures 2 <= Slack(c.limits)
  {
    SystemThrowsIff(c, s, p, more);
    SmallAdvances(c, s, p, more);
  }
}
