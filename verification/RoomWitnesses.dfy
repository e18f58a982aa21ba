/**
 Runs from the creation of a room, through its public entry points, into the states in which
 it does not do what is promised of it.
 */
module RoomWitnesses {
  import opened Wrappers
  import opened Kernel
  import opened RoomCoreModel
  import opened ActionLog
  import opened Seating
  import opened Liveness
  import opened Delivery
  import opened RoomInvariants
  import opened Consensus
  import opened RoomTables
  import opened RoomSteps
  import opened RoomStore
  import opened RoomObject
  import opened RoomRun

  // ---------------------------------------------------------------------------
  // A room with its first client
  // ---------------------------------------------------------------------------

  /** A room that has just started: its first player is seated on socket 0, its log is the start action. */
  ghost predicate JustStarted(room: RoomDO, base: Snapshot)
    reads room
  {
    var s := room.store;
    && room.Valid() && room.config.release == 0 && !room.config.resumed
    && s.started && s.ended.None? && s.pendingSince.None? && s.initial == Some(base) && s.checkpoint.None?
    && s.scripted == Some(room.config.kernel.requiresScripts(base.state))
    && s.timers == map[] && s.dedup == map[] && s.lastActionAt == Some(0) && s.lastMultiBootstrapAt.None?
    && s.lastHeartbeatAt == Some(0) && s.emptySinceAt.None? && 1 in Ids(s.players)
    && |room.past.history| == 1 && room.past.history[0].requestId.None?
    && room.past.history[0].actionId == Sys(GameStart) && room.past.marks == {}
    && s.ballots == Ballots(map[], map[]) && s.rates == map[]
    && room.sockets.Keys == {0} && room.sockets[0].phase == Answered(1) && room.sockets[0].bootstrapped
  }

  method FirstHello(kernel: Kernel, limits: Limits, players: set<PlayerId>) returns (room: RoomDO)
    requires limits.Valid() && (players == {1} || players == {1, 2})
    ensures fresh(room) && room.Valid() && room.config == Config(kernel, limits, 0, 8, false)
    ensures room.past == NoPast() && room.sockets == map[0 := Socket(Greeting(1), false, [])]
    ensures 1 in Ids(room.store.players)
    ensures room.store == FreshStore(None, None).(players := room.store.players, host := room.store.host,
        lastHeartbeatAt := Some(0))
  {
    hide StoreOk, SocketsOk, Progress, Blocked;
    var created := CreateRoom(None, kernel, limits, 0, 8);
    room := created.value;
    var joined := room.Join(1, false, 0);
    if 2 in players { joined := room.Join(2, false, 0); }
    assert Ids(room.store.players)[0] == 1;
    room.Connect(0, 0);
    room.Authenticate(0, Some(1));
  }

  method OpenRoom(kernel: Kernel, limits: Limits, base: Snapshot, players: set<PlayerId>) returns (room: RoomDO)
    requires limits.Valid() && base.release == 0 && base.sequence == 0 && (players == {1} || players == {1, 2})
    ensures fresh(room) && JustStarted(room, base) && room.config == Config(kernel, limits, 0, 8, false)
  {
    hide StoreOk, SocketsOk, Progress, StartEntry;
    room := FirstHello(kernel, limits, players);
    ghost var s, p := room.store, room.past;
    var reply := room.Hello(0, None, Builtin(base), Blank, 0);
    StartEntryIs(room.config, s, base);
    assert p.history == [] && room.past.history == [StartEntry(room.config, s, base)];
    assert reply.messages[0] == Base(base);
    assert BootstrappedPlayers(room.sockets) == {1};
    assert room.sockets[0].phase == Answered(1) && room.sockets[0].bootstrapped;
  }

  /** The first registration of a timer in an unpaused room, at time 0. */
  method AddTimer(room: RoomDO, t: TimerId, dueAt: nat)
    requires room.Valid() && room.store.pendingSince.None? && t !in room.store.timers && dueAt <= MAX_SAFE_INTEGER
    modifies room`store, room`alarm
    ensures room.Valid()
    ensures room.store ==
      old(room.store).(timers := old(room.store.timers)[t := Timer(dueAt, Scheduled, false)])
  {
    hide StoreOk, SocketsOk, Progress, AlarmFor, Soonest, SameStatus;
    var ok := room.RegisterTimer(t, dueAt, 0);
  }

  lemma {:induction false} StartEntryIs(c: Config, s: Store, base: Snapshot)
    requires !c.resumed
    ensures StartEntry(c, s, base).requestId.None? && StartEntry(c, s, base).actionId == Sys(GameStart)
  {
  }

  // ---------------------------------------------------------------------------
  // Liveness
  // ---------------------------------------------------------------------------

  const FAR: int := 10_000_000

  /**
   Two timers registered within an interval of each other leave a connected room whose next
   alarm comes 20 seconds after its heartbeat has gone stale.
   */
  method HeartbeatGoesStale(kernel: Kernel, limits: Limits, base: Snapshot) returns (room: RoomDO)
    requires limits.Valid() && base.release == 0 && base.sequence == 0
    ensures room.Valid() && room.store.ended.None? && room.sockets != map[] && room.store.lastHeartbeatAt == Some(0)
    ensures room.alarm == AlarmAt(80_000) && 80_000 == ROOM_HEARTBEAT_STALE_MS + 20_000
  {
    hide StoreOk, SocketsOk, Progress;
    room := OpenRoom(kernel, limits, base, {1});
    var ok := room.RegisterTimer(7, FAR, 25_000);
    ok := room.RegisterTimer(8, FAR, 50_000);
    assert |room.sockets.Keys| == 1;
  }

  /** A timer registered in an empty room at its expiry time deletes the alarm: the room stays for good. */
  method ExpiryIsLost(kernel: Kernel, limits: Limits, base: Snapshot) returns (room: RoomDO)
    requires limits.Valid() && base.release == 0 && base.sequence == 0
    ensures room.Valid() && room.store.ended.None? && room.sockets == map[] && room.store.emptySinceAt == Some(0)
    ensures room.alarm.NoAlarm?
  {
    hide StoreOk, SocketsOk, Progress;
    room := OpenRoom(kernel, limits, base, {1});
    room.Disconnect(0, 0);
    var ok := room.RegisterTimer(7, FAR, EMPTY_ROOM_TTL_MS);
  }

  /**
   A room nobody ever connects to, in which one timer was registered: at whatever times its
   alarm rings, it is set anew and the room does not expire.
   */
  method NobodyEverComes(kernel: Kernel, limits: Limits, release: nat, rings: seq<int>) returns (room: RoomDO)
    requires limits.Valid()
    ensures room.Valid() && room.store.ended.None? && room.sockets == map[] && room.store.emptySinceAt.None?
    ensures room.alarm == AlarmAt((if rings == [] then 0 else rings[|rings| - 1]) + EMPTY_ROOM_TTL_MS)
  {
    hide StoreOk, SocketsOk, Progress, Soonest;
    room := OnlyATimer(kernel, limits, release);
    for i := 0 to |rings|
      invariant fresh(room) && room.Valid() && room.store.ended.None? && room.sockets == map[]
      invariant room.store.emptySinceAt.None? && room.store.lastHeartbeatAt.None?
      invariant room.alarm == AlarmAt((if i == 0 then 0 else rings[i - 1]) + EMPTY_ROOM_TTL_MS)
    {
      var threw, due := room.Alarm(rings[i]);
    }
  }

  method OnlyATimer(kernel: Kernel, limits: Limits, release: nat) returns (room: RoomDO)
    requires limits.Valid()
    ensures fresh(room) && room.Valid() && room.store.ended.None? && room.sockets == map[]
    ensures room.store.emptySinceAt.None? && room.store.lastHeartbeatAt.None?
    ensures room.alarm == AlarmAt(EMPTY_ROOM_TTL_MS)
  {
    hide StoreOk, SocketsOk, Progress, Soonest;
    var created := CreateRoom(None, kernel, limits, release, 8);
    room := created.value;
    var joined := room.Join(1, false, 0);
    var ok := room.RegisterTimer(7, FAR, 0);
  }

  // ---------------------------------------------------------------------------
  // Request ids named like system actions
  // ---------------------------------------------------------------------------

  /** A request named like the start action, whose row is stored, throws. */
  method RequestNamedLikeTheStart(kernel: Kernel, limits: Limits, base: Snapshot, payload: Payload)
    returns (room: RoomDO, r: Sequenced)
    requires limits.Valid() && base.release == 0 && base.sequence == 0
    ensures room.Valid() && room.store.started && room.store.ended.None? && r.Threw? && |room.past.history| == 1
  {
    hide StoreOk, SocketsOk, Progress, HistoryOk, Blocked;
    room := OpenRoom(kernel, limits, base, {1});
    var q := SystemName(Sys(GameStart));
    RequestThrowsIff(room.config, room.store, room.past, q, 1, payload);
    r := room.ActionFrame(0, q, payload, 0);
  }

  lemma {:induction false} OnlyOneDue(timers: map<TimerId, Timer>, due: seq<TimerId>, now: int, t: TimerId)
    requires InOrder(timers, due) && timers.Keys == {t} && Due(timers, t, now)
    requires forall u :: u in due <==> Due(timers, u, now)
    ensures due == [t]
  {
    var d := set u | u in due;
    assert d == {t} by {
      forall u ensures u in d <==> u in {t} {
        assert u in due <==> Due(timers, u, now);
      }
    }
    DistinctLength(due, d);
    assert due[0] in due;
  }

  /** The one due timer of a room is stopped by a request that has its name. */
  lemma {:induction false} NamedTimerThrows(c: Config, s: Store, p: Past, due: seq<TimerId>, now: int)
    requires StoreOk(c, s, p) && s.started && DueInOrder(s, due, now) && s.timers.Keys == {0}
    requires FiresNow(s.timers, 0, now, s.lastActionAt) && |p.history| == 2
    requires c.limits.Valid() && (IsScripted(s.scripted) ==> s.checkpoint.None?)
    requires p.history[1].requestId == Some(SystemName(Sys(TimerFire(0))))
    ensures AlarmLog(s, p, due, now) != [] && Blocked(c, s, p, AlarmLog(s, p, due, now))
  {
    hide StoreOk, HistoryOk, Blocked;
    OnlyOneDue(s.timers, due, now, 0);
    assert due[..0] == [] && due[..1] == due;
    FiresNext(s.timers, due, 0, now, s.lastActionAt);
    AlarmLogContinues(c, s, p, due, 1, now);
    var more := AlarmLog(s, p, due, now);
    assert more == [SystemEntry(2, TimerFire(0), Fired(0))];
    assert NamedByClient(p.history, Lo(c.limits, IsScripted(s.scripted), s.checkpoint, |p.history| + 0),
        more[0].actionId);
    SystemThrowsIff(c, s, p, more);
  }

  /** A started room with one timer and one request, which is named like the timer's fire action. */
  method NameTheTimer(kernel: Kernel, limits: Limits, base: Snapshot, payload: Payload) returns (room: RoomDO)
    requires limits.Valid() && base.release == 0 && base.sequence == 0
    ensures fresh(room) && room.Valid() && room.config.limits == limits && room.sockets != map[]
    ensures
      var s, h := room.store, room.past.history;
      && s.started && s.ended.None? && s.pendingSince.None? && (IsScripted(s.scripted) ==> s.checkpoint.None?)
      && s.timers == map[0 := Timer(100, Scheduled, false)] && s.lastActionAt == Some(0)
      && s.lastHeartbeatAt == Some(0)
      && |h| == 2 && h[1].requestId == Some(SystemName(Sys(TimerFire(0))))
  {
    hide StoreOk, SocketsOk, Progress, HistoryOk, Blocked, AlarmFor, Soonest;
    room := OpenRoom(kernel, limits, base, {1});
    AddTimer(room, 0, 100);
    var q := SystemName(Sys(TimerFire(0)));
    RequestThrowsIff(room.config, room.store, room.past, q, 1, payload);
    var r := room.ActionFrame(0, q, payload, 0);
  }

  /**
   A request named like a timer's fire action is accepted, and then the alarm throws each time
   it rings; the room stays connected and its heartbeat is never written again.
   */
  method RequestNamedLikeATimer(kernel: Kernel, limits: Limits, base: Snapshot, payload: Payload, rings: seq<int>)
    returns (room: RoomDO)
    requires limits.Valid() && base.release == 0 && base.sequence == 0
    requires forall i :: 0 <= i < |rings| ==> rings[i] >= TIMER_CANCEL_GRACE_MS
    ensures room.Valid() && room.store.ended.None? && room.sockets != map[] && |room.past.history| == 2
    ensures room.store.timers == map[0 := Timer(100, Scheduled, false)] && room.store.lastHeartbeatAt == Some(0)
    ensures rings != [] ==> room.alarm.Retrying?
  {
    hide StoreOk, SocketsOk, Progress, HistoryOk, Blocked, AlarmLog, DueInOrder, Soonest;
    room := NameTheTimer(kernel, limits, base, payload);
    ghost var s, p := room.store, room.past;
    for i := 0 to |rings|
      invariant fresh(room) && room.Valid() && room.store == s && room.past == p && room.sockets != map[]
      invariant room.config.limits == limits && (i > 0 ==> room.alarm.Retrying?)
    {
      var threw, due := room.Alarm(rings[i]);
      NamedTimerThrows(room.config, s, p, due, rings[i]);
    }
  }

  // ---------------------------------------------------------------------------
  // The base of an unscripted room
  // ---------------------------------------------------------------------------

  lemma {:induction false} ThreeFire(timers: map<TimerId, Timer>, due: seq<TimerId>, now: int,
      lastActionAt: Option<int>)
    requires InOrder(timers, due) && timers.Keys == {0, 1, 2} && forall t :: t in due <==> Due(timers, t, now)
    requires forall t :: t in timers ==> FiresNow(timers, t, now, lastActionAt)
    ensures |Fires(timers, due, now, lastActionAt)| == 3
  {
    var d := set t | t in due;
    assert d == {0, 1, 2} by {
      forall t ensures t in d <==> t in {0, 1, 2} {
        assert t in due <==> Due(timers, t, now);
        if t in timers { assert FiresNow(timers, t, now, lastActionAt); }
      }
    }
    DistinctLength(due, d);
    AllFire(timers, due, now, lastActionAt);
  }

  lemma {:induction false} DistinctLength(due: seq<TimerId>, d: set<TimerId>)
    requires (forall i, j :: 0 <= i < j < |due| ==> due[i] != due[j]) && d == set t | t in due
    ensures |d| == |due|
  {
    if due != [] {
      var n := |due| - 1;
      var before := set t | t in due[..n];
      DistinctLength(due[..n], before);
      assert due == due[..n] + [due[n]];
      assert d == before + {due[n]};
    }
  }

  lemma {:induction false} AllFire(timers: map<TimerId, Timer>, due: seq<TimerId>, now: int, lastActionAt: Option<int>)
    requires forall i :: 0 <= i < |due| ==> FiresNow(timers, due[i], now, lastActionAt)
    ensures |Fires(timers, due, now, lastActionAt)| == |due|
  {
    if due != [] { AllFire(timers, due[..|due| - 1], now, lastActionAt); }
  }

  lemma {:induction false} OverflowLosesBase(c: Config, s: Store, p: Past, due: seq<TimerId>, now: int)
    requires StoreOk(c, s, p) && s.started && s.initial.Some? && s.checkpoint.None? && s.scripted == Some(false)
    requires c.limits == Limits(3, 2) && |p.history| == 1 && p.history[0].requestId.None?
    requires DueInOrder(s, due, now) && s.timers.Keys == {0, 1, 2}
    requires forall t :: t in s.timers ==> FiresNow(s.timers, t, now, s.lastActionAt)
    ensures
      var more := AlarmLog(s, p, due, now);
      |more| == 3 && !Blocked(c, s, p, more) && AdvanceWith(c, s, p, more).Keep?
  {
    hide StoreOk, HistoryOk, Blocked;
    ThreeFire(s.timers, due, now, s.lastActionAt);
    assert due[..|due|] == due;
    AlarmLogContinues(c, s, p, due, |due|, now);
    SystemThrowsIff(c, s, p, AlarmLog(s, p, due, now));
  }

  /**
   The alarm's transaction has no bound on how many timers it fires. With a window of three
   entries and an interval of two: three timers come due together in a new unscripted room,
   and a client that arrives afterwards gets no answer.
   */
  method AlarmOutrunsTheWindow(kernel: Kernel, base: Snapshot) returns (room: RoomDO, late: HelloResult)
    requires base.release == 0 && base.sequence == 0 && !kernel.requiresScripts(base.state)
    ensures room.Valid() && room.store.started && room.store.ended.None? && !room.Trail().based && late.NoReply?
  {
    hide StoreOk, SocketsOk, Progress, Blocked, AlarmLog, DueInOrder, AdvanceWith, Opening, AfterStart;
    hide Greeted;
    room := ThreeTimersDue(kernel, base);
    ghost var s, p := room.store, room.past;
    var threw, due := room.Alarm(1000);
    OverflowLosesBase(room.config, s, p, due, 1000);
    room.Connect(1, 1000);
    room.Authenticate(1, Some(1));
    ghost var s1, p1 := room.store, room.past;
    assert s1.started && s1.ended.None? && s1.checkpoint.None? && |p1.history| == 4;
    OpeningFacts(room.config, s1, p1, Unknown, 1000);
    late := room.Hello(1, None, Unknown, Blank, 1000);
  }

  method ThreeTimersDue(kernel: Kernel, base: Snapshot) returns (room: RoomDO)
    requires base.release == 0 && base.sequence == 0 && !kernel.requiresScripts(base.state)
    ensures fresh(room) && room.Valid() && room.config == Config(kernel, Limits(3, 2), 0, 8, false)
    ensures room.sockets.Keys == {0} && |room.past.history| == 1 && room.past.history[0].requestId.None?
    ensures
      var s := room.store;
      && s.started && s.ended.None? && s.pendingSince.None? && s.initial.Some? && s.checkpoint.None?
      && s.scripted == Some(false) && s.timers.Keys == {0, 1, 2} && s.lastActionAt == Some(0)
      && forall t :: t in s.timers ==> s.timers[t] == Timer(0, Scheduled, false)
  {
    hide StoreOk, SocketsOk, Progress, AlarmFor, Soonest;
    room := OpenRoom(kernel, Limits(3, 2), base, {1});
    AddTimer(room, 0, 0);
    AddTimer(room, 1, 0);
    AddTimer(room, 2, 0);
  }

  // ---------------------------------------------------------------------------
  // Every divergent sequence that can escape
  // ---------------------------------------------------------------------------

  /** Everybody leaves. */
  method Empty(room: RoomDO, now: int)
    requires room.Valid() && room.store.ended.None?
    modifies room
    ensures room.Valid() && room.sockets == map[] && room.past == old(room.past)
    ensures room.store == old(room.store).(host := room.store.host, emptySinceAt := room.store.emptySinceAt,
        lastHeartbeatAt := room.store.lastHeartbeatAt, lastMultiBootstrapAt := room.store.lastMultiBootstrapAt)
  {
    hide StoreOk, SocketsOk, Progress, HostAfter, MultiSeen, Authenticated, Remembers, AlarmFor, Soonest;
    while room.sockets != map[]
      invariant room.Valid() && room.past == old(room.past)
      invariant room.store == old(room.store).(host := room.store.host, emptySinceAt := room.store.emptySinceAt,
          lastHeartbeatAt := room.store.lastHeartbeatAt, lastMultiBootstrapAt := room.store.lastMultiBootstrapAt)
      decreases room.sockets.Keys
    {
      assert room.sockets.Keys != {};
      var socket :| socket in room.sockets.Keys;
      room.Disconnect(socket, now);
    }
  }

  lemma {:induction false} OneIsLeft(sockets: map<SocketId, Socket>, player: PlayerId)
    requires sockets.Keys == {0} && sockets[0].phase == Answered(player) && sockets[0].bootstrapped
    ensures BootstrappedPlayers(sockets) == {player}
  {
    assert sockets[0].phase.player in BootstrappedPlayers(sockets);
  }

  lemma {:induction false} ScriptedAnswers(c: Config, s: Store, p: Past)
    requires StoreOk(c, s, p) && s.started && IsScripted(s.scripted)
    ensures ReplyTo(c, s, p, None).Some? && Welcomes(ReplyTo(c, s, p, None).value)
  {
    hide BootstrapFrom;
    StoreFacts(c, s, p);
    BootstrapFacts(c, s, p);
    assert ReplyTo(c, s, p, None).value[0].Base?;
  }

  /** One player opens a socket and shows a token. */
  method Return(room: RoomDO, player: PlayerId, now: int)
    requires room.Valid() && room.store.ended.None? && room.sockets == map[]
    modifies room
    ensures room.Valid() && room.sockets == map[0 := Socket(Greeting(player), false, [])] && room.past == old(room.past)
    ensures room.store == old(room.store).(emptySinceAt := None, lastHeartbeatAt := Some(now))
  {
    hide StoreOk, SocketsOk, Progress, Remembers, AlarmFor, Soonest;
    room.Connect(0, now);
    room.Authenticate(0, Some(player));
  }

  /** One player comes to a scripted room that runs and in which nobody is. */
  method ComeBack(room: RoomDO, player: PlayerId, now: int)
    requires room.Valid() && room.store.ended.None? && room.store.started && IsScripted(room.store.scripted)
    requires room.sockets == map[]
    modifies room
    ensures room.Valid() && BootstrappedPlayers(room.sockets) == {player} && room.past == old(room.past)
    ensures room.store == old(room.store).(emptySinceAt := None, lastHeartbeatAt := Some(now),
        lastMultiBootstrapAt := room.store.lastMultiBootstrapAt)
  {
    hide StoreOk, SocketsOk, Progress, Remembers, AlarmFor, Soonest, ReplyTo, Welcomes, MultiSeen, BootstrappedPlayers;
    Return(room, player, now);
    OpeningFacts(room.config, room.store, room.past, Unknown, now);
    ExtendedByNothing(room.past);
    ScriptedAnswers(room.config, room.store, room.past);
    ghost var s := room.store;
    var reply := room.Hello(0, None, Unknown, Blank, now);
    SameReply(room.config, s, room.store, room.past);
    OneIsLeft(room.sockets, player);
  }

  /** An answer depends on no liveness column. */
  lemma {:induction false} SameReply(c: Config, s: Store, s': Store, p: Past)
    requires s'.initial == s.initial && s'.checkpoint == s.checkpoint && s'.scripted == s.scripted
    ensures ReplyTo(c, s', p, None) == ReplyTo(c, s, p, None)
  {
  }

  /**
   In every room that runs, a divergent sequence just below the floor and above the checkpoint
   is confirmed once the others leave, one player comes back alone, and the grace period passes.
   */
  method EscapedMarkIsConfirmed(room: RoomDO, m: nat, player: PlayerId, state: State, now: int)
    returns (r: AttestOutcome, later: int)
    requires room.Valid() && room.store.ended.None? && IsScripted(room.store.scripted) && m in room.past.marks
    requires SequenceOf(room.store.checkpoint) < m && m == FloorOf(room.config.limits, |room.past.history|)
    requires player in Ids(room.store.players)
    modifies room
    ensures room.Valid() && r == Decided(Confirmed) && m in room.past.marks
    ensures room.store.checkpoint == Some(Snapshot(room.config.release, m, state))
  {
    hide StoreOk, SocketsOk, Progress, Remembers, AlarmFor, Soonest, Attest, BootstrappedPlayers, RequiredAttesters;
    MarkedIsStarted(room.config, room.store, room.past, m);
    Empty(room, now);
    ComeBack(room, player, now);
    later := room.store.lastMultiBootstrapAt.GetOr(now) + SOLO_GRACE_MS;
    if player in room.store.rates && later < room.store.rates[player].windowStartedAt + ATTESTATION_RATE_WINDOW_MS {
      later := room.store.rates[player].windowStartedAt + ATTESTATION_RATE_WINDOW_MS;
    }
    var a := TestimonyOf(room.config, m, state, player);
    ghost var presence := Presence({player}, later, room.store.lastMultiBootstrapAt);
    AloneConfirms(room.config, room.store, room.past, a, presence);
    assert |{player}| == 1;
    r := room.AttestCheckpoint(Some(player), m, a.stateHash, SnapshotDto(a.snapshot, a.stateHash), later);
  }

  // ---------------------------------------------------------------------------
  // Two players agree
  // ---------------------------------------------------------------------------

  lemma {:induction false} FirstOfTwo(b: Ballots, floor: nat, a: Attestation, presence: Presence, other: PlayerId)
    requires a.sequence >= floor && a.sequence !in b.candidates && b.attesters.Keys <= b.candidates.Keys
    requires {a.player, other} <= presence.connected && other != a.player
    ensures
      var (after, d) := Attest(b, floor, a, presence);
      && d.status.Recorded? && a.sequence in after.candidates && a.player in after.AttestersOf(a.sequence)
      && after.candidates[a.sequence] == Candidate(a.stateHash, a.snapshot, false)
  {
    ConfirmsIff(None, a, presence);
    AnswersIff(b, floor, a, presence);
  }

  lemma {:induction false} SecondOfTwo(b: Ballots, floor: nat, a: Attestation, presence: Presence, other: PlayerId)
    requires a.sequence >= floor && a.sequence in b.candidates && other in b.AttestersOf(a.sequence)
    requires !b.candidates[a.sequence].conflicted && b.candidates[a.sequence].stateHash == a.stateHash
    requires {a.player, other} <= presence.connected && other != a.player
    ensures
      var d := Attest(b, floor, a, presence).1;
      d.status.Confirmed? && d.candidate == b.candidates[a.sequence]
  {
    var pruned := PruneBelow(b, floor);
    assert Existing(pruned, a.sequence) == Some((b.candidates[a.sequence], b.AttestersOf(a.sequence)));
    ConfirmsIff(Existing(pruned, a.sequence), a, presence);
  }

  /**
   In every room, two different connected players who attest the same state of a due sequence
   that nobody attested before confirm it, at any times at which both are within their rate.
   */
  method TwoAgreeingConfirm(room: RoomDO, m: nat, one: PlayerId, other: PlayerId, state: State, now: int, later: int)
    returns (first: AttestOutcome, second: AttestOutcome)
    requires room.Valid() && IsScripted(room.store.scripted) && one != other
    requires {one, other} <= BootstrappedPlayers(room.sockets)
    requires AttestationDue(room.config, room.store, room.past, m) && m >= PruneFloor(room.config, room.past)
    requires m !in room.store.ballots.candidates
    requires ConsumeRate(room.store.rates, one, now).Some? && ConsumeRate(room.store.rates, other, later).Some?
    modifies room
    ensures room.Valid() && first == Decided(Recorded) && second == Decided(Confirmed)
    ensures room.store.checkpoint == Some(Snapshot(room.config.release, m, state)) && room.store.attested
  {
    hide StoreOk, SocketsOk, Progress, Remembers, AlarmFor, Soonest, Attest, BootstrappedPlayers;
    hide RequiredAttesters;
    var hash := room.config.kernel.hash(state);
    var dto := SnapshotDto(Snapshot(room.config.release, m, state), hash);
    StoreIsBalloted(room.config, room.store, room.past);
    ghost var connected, floor := BootstrappedPlayers(room.sockets), PruneFloor(room.config, room.past);
    assert |connected| >= 2 by { TwoInside(connected, one, other); }
    DueIsPositive(room.config, room.store, room.past, m);
    ghost var s, a := room.store, Attestation(m, hash, dto.snapshot, one);
    FirstOfTwo(s.ballots, floor, a, Presence(connected, now, Some(now)), other);
    RatesApart(s.rates, one, now, other, later);
    first := room.AttestCheckpoint(Some(one), m, hash, dto, now);
    DueStays(room.config, s, room.store, room.past, m);
    ghost var b := Attestation(m, hash, dto.snapshot, other);
    SecondOfTwo(room.store.ballots, floor, b, Presence(connected, later, Some(later)), one);
    second := room.AttestCheckpoint(Some(other), m, hash, dto, later);
  }

  lemma {:induction false} TwoInside(s: set<PlayerId>, one: PlayerId, other: PlayerId)
    requires {one, other} <= s && one != other
    ensures |s| >= 2
  {
    assert s == {one, other} + (s - {one, other});
  }

  /** The rate of one player is nothing to another. */
  lemma {:induction false} RatesApart(rates: map<PlayerId, Rate>, one: PlayerId, now: int, other: PlayerId, later: int)
    requires one != other && ConsumeRate(rates, one, now).Some?
    ensures ConsumeRate(ConsumeRate(rates, one, now).value, other, later).Some? <==>
      ConsumeRate(rates, other, later).Some?
  {
  }

  // ---------------------------------------------------------------------------
  // A divergent sequence that is confirmed
  // ---------------------------------------------------------------------------

  /** A scripted room with a window of three entries whose two players are both seated. */
  ghost predicate Paired(room: RoomDO)
    reads room
  {
    var s := room.store;
    && room.Valid() && room.config.limits == Limits(3, 2) && room.config.release == 0
    && s.started && s.ended.None? && s.scripted == Some(true) && s.checkpoint.None? && 1 in Ids(s.players)
    && room.sockets.Keys == {0, 1}
    && room.sockets[0].phase == Answered(1) && room.sockets[0].bootstrapped
    && room.sockets[1].phase == Answered(2) && room.sockets[1].bootstrapped
  }

  method OpenForTwo(kernel: Kernel, base: Snapshot) returns (room: RoomDO)
    requires base.release == 0 && base.sequence == 0 && kernel.requiresScripts(base.state)
    ensures fresh(room) && Paired(room) && room.config.kernel == kernel && |room.past.history| == 1
    ensures room.store.dedup == map[] && room.store.ballots == Ballots(map[], map[]) && room.store.rates == map[]
  {
    hide StoreOk, SocketsOk, Progress, AfterStart, Opening;
    room := OpenRoom(kernel, Limits(3, 2), base, {1, 2});
    room.Connect(1, 0);
    room.Authenticate(1, Some(2));
    ghost var s := room.store;
    OpeningFacts(room.config, s, room.past, Unknown, 0);
    var reply := room.Hello(1, None, Unknown, Blank, 0);
    assert reply.messages[0].Base?;
  }

  predicate ShorterThan(dedup: map<RequestId, Action>, n: nat) {
    forall q :: q in dedup ==> q.Text? && |q.text| < n
  }

  /** Player 1 makes a request nobody made before. */
  method Ask(room: RoomDO, n: nat, payload: Payload)
    requires Paired(room) && ShorterThan(room.store.dedup, n) && |room.past.history| < MAX_SAFE_INTEGER
    modifies room
    ensures Paired(room) && ShorterThan(room.store.dedup, n + 1) && room.past.marks == old(room.past.marks)
    ensures |room.past.history| == |old(room.past.history)| + 1 && room.store.ballots == old(room.store.ballots)
    ensures room.store.rates == old(room.store.rates)
  {
    hide StoreOk, SocketsOk, Progress, Blocked;
    var q := Text(seq(n, _ => 'r'));
    RequestThrowsIff(room.config, room.store, room.past, q, 1, payload);
    var r := room.ActionFrame(0, q, payload, 0);
  }

  function Dto(k: Kernel, state: State): SnapshotDto {
    SnapshotDto(Snapshot(0, 2, state), k.hash(state))
  }

  function Attesting(k: Kernel, state: State, player: PlayerId): Attestation {
    Attestation(2, k.hash(state), Dto(k, state).snapshot, player)
  }

  lemma {:induction false} FirstIsRecorded(k: Kernel, a: State, presence: Presence)
    requires presence.connected == {1, 2}
    ensures Attest(Ballots(map[], map[]), 1, Attesting(k, a, 1), presence).1.status.Recorded?
    ensures Attest(Ballots(map[], map[]), 1, Attesting(k, a, 1), presence).0 ==
      Ballots(map[2 := Candidate(k.hash(a), Dto(k, a).snapshot, false)], map[2 := {1}])
  {
    hide PruneBelow;
    assert {1} * {1, 2} == {1};
    assert PruneBelow(Ballots(map[], map[]), 1) == Ballots(map[], map[]) by { NothingToPrune(); }
  }

  lemma {:induction false} NothingToPrune()
    ensures PruneBelow(Ballots(map[], map[]), 1) == Ballots(map[], map[])
  {
  }

  lemma {:induction false} SecondDiverges(k: Kernel, b: State, ballots: Ballots, presence: Presence)
    requires 2 in ballots.candidates && ballots.candidates[2].stateHash != k.hash(b)
    ensures Attest(ballots, 1, Attesting(k, b, 2), presence).1.status.Divergent?
  {
  }

  /** The two players attest different states of sequence 2. */
  method Diverge(room: RoomDO, a: State, b: State) returns (r: AttestOutcome)
    requires Paired(room) && |room.past.history| == 2 && room.config.kernel.hash(a) != room.config.kernel.hash(b)
    requires room.store.ballots == Ballots(map[], map[]) && room.store.rates == map[]
    modifies room
    ensures Paired(room) && |room.past.history| == 2 && room.store.dedup == old(room.store.dedup)
    ensures r == Decided(Divergent) && 2 in room.past.marks
  {
    hide StoreOk, SocketsOk, Progress, Attest, BootstrappedPlayers;
    var k := room.config.kernel;
    BothAreIn(room.sockets);
    FirstIsRecorded(k, a, Presence({1, 2}, 0, Some(0)));
    r := room.AttestCheckpoint(Some(1), 2, k.hash(a), Dto(k, a), 0);
    SecondDiverges(k, b, room.store.ballots, Presence({1, 2}, 0, Some(0)));
    r := room.AttestCheckpoint(Some(2), 2, k.hash(b), Dto(k, b), 0);
  }

  /**
   Two players attest different states of sequence 2, which makes it divergent. Three more
   actions put it just below the floor; then one of the players leaves, and after the grace
   period the other one confirms it alone.
   */
  method DivergentIsConfirmed(kernel: Kernel, base: Snapshot, a: State, b: State, payload: Payload)
    returns (room: RoomDO, first: AttestOutcome, second: AttestOutcome)
    requires base.release == 0 && base.sequence == 0 && kernel.requiresScripts(base.state)
    requires kernel.hash(a) != kernel.hash(b)
    ensures room.Valid() && first == Decided(Divergent) && 2 in room.past.marks
    ensures second == Decided(Confirmed) && room.store.checkpoint == Some(Snapshot(0, 2, a))
  {
    hide StoreOk, SocketsOk, Progress, ShorterThan;
    room := OpenForTwo(kernel, base);
    NoneShorter();
    Ask(room, 0, payload);
    first := Diverge(room, a, b);
    for i := 1 to 4
      invariant fresh(room) && Paired(room) && room.config.kernel == kernel && ShorterThan(room.store.dedup, i)
      invariant |room.past.history| == i + 1 && 2 in room.past.marks
    {
      Ask(room, i, payload);
    }
    var later;
    second, later := EscapedMarkIsConfirmed(room, 2, 1, a, 0);
  }

  lemma {:induction false} BothAreIn(sockets: map<SocketId, Socket>)
    requires sockets.Keys == {0, 1} && sockets[0].phase == Answered(1) && sockets[0].bootstrapped
    requires sockets[1].phase == Answered(2) && sockets[1].bootstrapped
    ensures BootstrappedPlayers(sockets) == {1, 2}
  {
    assert sockets[0].phase.player in BootstrappedPlayers(sockets);
    assert sockets[1].phase.player in BootstrappedPlayers(sockets);
  }

  lemma {:induction false} NoneShorter()
    ensures ShorterThan(map[], 0)
  {
  }
}
