/**
 What the transactions of a room append and change, as functions of what was there before,
 and why each part of the invariant survives.
 */
module RoomSteps {
  import opened Wrappers
  import opened Kernel
  import opened RoomCoreModel
  import opened ActionLog
  import opened Seating
  import opened Liveness
  import opened RoomInvariants
  import opened RoomTables

  function SystemEntry(n: nat, key: SystemKey, body: Body): Action {
    Action(n + 1, Sys(key), None, System, body)
  }

  /** One more entry of a log of `n` entries, under a key the log does not hold yet. */
  lemma {:induction false} ExtendBySystem(h: seq<Action>, key: SystemKey, body: Body)
    requires HistoryOk(h) && forall i :: 0 <= i < |h| ==> h[i].actionId != Sys(key)
    ensures HistoryOk(h + [SystemEntry(|h|, key, body)])
  {
    ExtendHistory(h, SystemEntry(|h|, key, body));
  }

  lemma {:induction false} BehindWindow(h: seq<Action>, from: nat, n: nat)
    requires Numbered(h) && n < from < |h|
    ensures After(h[from..], n) == h[from..] && !Consecutive(h[from..], n)
  {
    AfterSlice(h, from, |h|, n);
    assert h[from..|h|] == h[from..] && h[from..][0] == h[from];
  }

  /** Mechanical replay over the window succeeds exactly from a base that connects to it. */
  lemma {:induction false} ReplayIffConnects(limits: Limits, h: seq<Action>, n: nat)
    requires limits.Valid() && HistoryOk(h) && |h| <= MAX_SAFE_INTEGER && n <= |h|
    ensures BaseConnects(n, WindowOf(limits, h)) <==> FloorOf(limits, |h|) <= n
    ensures Consecutive(After(WindowOf(limits, h).actions, n), n) <==> FloorOf(limits, |h|) <= n
  {
    WindowOfOk(limits, h);
    var from := FloorOf(limits, |h|);
    if from <= n {
      AfterSuffix(h, from, n);
      StoredTail(h, n);
    } else {
      BehindWindow(h, from, n);
    }
  }

  // ---------------------------------------------------------------------------
  // Start
  // ---------------------------------------------------------------------------

  /** The armed timers of a resumed table: the first writer of a row wins. */
  function ArmAll(timers: map<TimerId, Timer>, arms: seq<(TimerId, nat)>, now: int): map<TimerId, Timer> {
    if arms == [] then timers
    else
      var (t, delay) := arms[|arms| - 1];
      Register(ArmAll(timers, arms[..|arms| - 1], now), t, now + delay)
  }

  lemma {:induction false} ArmKeeps(timers: map<TimerId, Timer>, arms: seq<(TimerId, nat)>, now: int)
    ensures forall t :: t in timers ==> t in ArmAll(timers, arms, now) && ArmAll(timers, arms, now)[t] == timers[t]
    ensures forall t :: t in ArmAll(timers, arms, now) && t !in timers ==>
      ArmAll(timers, arms, now)[t].status.Scheduled?
    decreases |arms|
  {
    if arms != [] { ArmKeeps(timers, arms[..|arms| - 1], now); }
  }

  /** The first arming of a timer without a row decides its due time. */
  lemma {:induction false} ArmedFirst(timers: map<TimerId, Timer>, arms: seq<(TimerId, nat)>, now: int, i: nat)
    requires i < |arms| && arms[i].0 !in timers && forall j :: 0 <= j < i ==> arms[j].0 != arms[i].0
    ensures
      var after := ArmAll(timers, arms, now);
      arms[i].0 in after && after[arms[i].0] == Timer(now + arms[i].1, Scheduled, false)
    decreases |arms|
  {
    var n := |arms| - 1;
    if i < n {
      ArmedFirst(timers, arms[..n], now, i);
    } else {
      NotArmed(timers, arms[..n], now, arms[i].0);
    }
  }

  lemma {:induction false} NotArmed(timers: map<TimerId, Timer>, arms: seq<(TimerId, nat)>, now: int, t: TimerId)
    requires t !in timers && forall j :: 0 <= j < |arms| ==> arms[j].0 != t
    ensures t !in ArmAll(timers, arms, now)
    decreases |arms|
  {
    if arms != [] { NotArmed(timers, arms[..|arms| - 1], now, t); }
  }

  lemma {:induction false} ArmNothing(timers: map<TimerId, Timer>, arms: seq<(TimerId, nat)>, now: int)
    ensures arms == [] ==> ArmAll(timers, arms, now) == timers
  {
  }

  lemma {:induction false} ArmingEvolves(timers: map<TimerId, Timer>, arms: seq<(TimerId, nat)>, now: int)
    ensures Evolves(timers, ArmAll(timers, arms, now))
  {
    ArmKeeps(timers, arms, now);
  }

  lemma {:induction false} ArmNext(timers: map<TimerId, Timer>, arms: seq<(TimerId, nat)>, i: nat, now: int)
    requires i < |arms|
    ensures ArmAll(timers, arms[..i + 1], now) == Register(ArmAll(timers, arms[..i], now), arms[i].0, now + arms[i].1)
  {
    assert arms[..i + 1][..i] == arms[..i];
  }

  /** The first action of a room that starts. */
  function StartBody(k: Kernel, resumed: bool, initial: Snapshot, players: seq<PlayerRow>): Body {
    if !resumed then Started
    else
      var t := k.saved(initial.state);
      Resumed(RosterFor(t, Ids(players)), t.pending.Some? || Waiting(t, SeatsInOrder(t.seats, |players|)))
  }

  function RosterSeats(roster: seq<RosterEntry>): (r: seq<SeatId>)
    ensures |r| == |roster|
  {
    seq(|roster|, i requires 0 <= i < |roster| => roster[i].seat)
  }

  lemma {:induction false} RosterSeatsInOrder(t: SavedTable, live: seq<PlayerId>)
    ensures RosterSeats(RosterFor(t, live)) == SeatsInOrder(t.seats, |live|)
  {
  }

  /** The start action is the first of the log, and recovers the seats of everybody who is there. */
  lemma {:induction false} StartKeeps(k: Kernel, resumed: bool, initial: Snapshot, players: seq<PlayerRow>,
      timers: map<TimerId, Timer>, timers': map<TimerId, Timer>,
      capacity: nat, host: Option<PlayerId>, pendingSince: Option<int>)
    requires SystemOk([], false, resumed, players, timers)
    requires SeatPart(k, capacity, resumed, Some(initial), players, host)
    requires resumed ==> Distinct(k.saved(initial.state).seats)
    requires forall t :: t in timers ==> t in timers' && timers'[t] == timers[t]
    requires forall t :: t in timers' && t !in timers ==> timers'[t].status.Scheduled?
    requires pendingSince.Some? <==> resumed && Waiting(k.saved(initial.state), Seats(players))
    ensures
      var a := SystemEntry(0, StartKey(resumed), StartBody(k, resumed, initial, players));
      && SystemOk([a], true, resumed, players, timers')
      && PausePart(k, resumed, true, Some(initial), players, pendingSince, [a])
  {
    var a := SystemEntry(0, StartKey(resumed), StartBody(k, resumed, initial, players));
    assert [] + [a] == [a];
    NoSeats([], [a]);
    SystemExtends([], [a], resumed, false, players, timers, true, players, timers');
    if resumed { RecoveredByRoster(k.saved(initial.state), a, players); }
  }

  // ---------------------------------------------------------------------------
  // Join
  // ---------------------------------------------------------------------------

  /** What a join appends: a claim of the previous player's seat, or a join with an assignment. */
  function JoinActions(n: nat, row: PlayerRow, claimed: Option<PlayerId>): seq<Action> {
    if claimed.Some? then [SystemEntry(n, SeatClaim(row.id), Claimed(row.id, row.seat, claimed.value))]
    else [SystemEntry(n, PlayerJoined(row.id), Joined(row.id)),
        SystemEntry(n + 1, SeatAssign(row.id), Assigned(row.id, row.seat))]
  }

  /** The load-time check is exactly what lets every two-action join commit. */
  lemma {:induction false} TwoActionJoinNeedsIntervalBelowRetention(k: Kernel, limits: Limits, initial: Snapshot)
    requires limits.interval >= 1
    ensures limits.interval < limits.retention <==>
      forall cp: Snapshot, h: seq<Action>, row: PlayerRow ::
        0 < cp.sequence <= |h| && LagOk(limits, Some(cp), |h|) && HistoryOk(h + JoinActions(|h|, row, None)) ==>
          !Advanced(k, limits, false, Some(initial), Some(cp), h + JoinActions(|h|, row, None)).Throws?
  {
    AppendsFitIff(k, limits, initial, 2);
    if limits.interval >= limits.retention {
      var cp, h, row := Snapshot(0, 1, initial.state), FiresOnly(limits.interval), PlayerRow(0, Generated(1));
      var more := JoinActions(|h|, row, None);
      ExtendHistory(h, more[0]);
      ExtendHistory(h + [more[0]], more[1]);
      assert h + [more[0]] + [more[1]] == h + more;
      assert Advanced(k, limits, false, Some(initial), Some(cp), h + more).Throws?;
    }
  }

  lemma {:induction false} JoinKeepsHistory(h: seq<Action>, row: PlayerRow, claimed: Option<PlayerId>, started: bool,
      resumed: bool, players: seq<PlayerRow>, timers: map<TimerId, Timer>)
    requires HistoryOk(h) && SystemOk(h, started, resumed, players, timers) && row.id !in Ids(players)
    ensures HistoryOk(h + JoinActions(|h|, row, claimed))
    ensures forall i :: 0 <= i < |h| ==>
      && h[i].actionId != Sys(SeatClaim(row.id)) && h[i].actionId != Sys(PlayerJoined(row.id))
      && h[i].actionId != Sys(SeatAssign(row.id))
  {
    NotYetSequenced(h, SeatClaim(row.id), started, resumed, players, timers);
    NotYetSequenced(h, PlayerJoined(row.id), started, resumed, players, timers);
    NotYetSequenced(h, SeatAssign(row.id), started, resumed, players, timers);
    var more := JoinActions(|h|, row, claimed);
    ExtendBySystem(h, more[0].actionId.key, more[0].body);
    if claimed.None? {
      ExtendBySystem(h + [more[0]], SeatAssign(row.id), more[1].body);
      assert h + [more[0]] + [more[1]] == h + more;
    }
  }

  lemma {:induction false} JoinIsNew(h: seq<Action>, row: PlayerRow, claimed: Option<PlayerId>)
    requires !InLog(h, SeatClaim(row.id)) && !InLog(h, PlayerJoined(row.id)) && !InLog(h, SeatAssign(row.id))
    ensures NewSeats(h, JoinActions(|h|, row, claimed))
  {
  }

  lemma {:induction false} JoinIsLogged(h: seq<Action>, row: PlayerRow, claimed: Option<PlayerId>)
    ensures SeatLogged(h + JoinActions(|h|, row, claimed), row.id)
  {
    var more := JoinActions(|h|, row, claimed);
    assert (h + more)[|h|] == more[0];
    assert claimed.None? ==> (h + more)[|h| + 1] == more[1];
  }

  lemma {:induction false} JoinKeepsSystem(h: seq<Action>, row: PlayerRow, claimed: Option<PlayerId>, resumed: bool,
      players: seq<PlayerRow>,
      timers: map<TimerId, Timer>, timers': map<TimerId, Timer>)
    requires SystemOk(h, true, resumed, players, timers) && row.id !in Ids(players)
    requires timers'.Keys == timers.Keys && forall t :: t in timers ==> timers'[t].status == timers[t].status
    ensures SystemOk(h + JoinActions(|h|, row, claimed), true, resumed, players + [row], timers')
  {
    var more := JoinActions(|h|, row, claimed);
    SeatsAppend(players, row);
    assert Ids(players + [row])[|players|] == row.id && (players + [row])[|players|] == row;
    NotYetSequenced(h, SeatClaim(row.id), true, resumed, players, timers);
    NotYetSequenced(h, PlayerJoined(row.id), true, resumed, players, timers);
    NotYetSequenced(h, SeatAssign(row.id), true, resumed, players, timers);
    JoinIsNew(h, row, claimed);
    SystemExtends(h, more, resumed, true, players, timers, true, players + [row], timers');
  }

  /** Joining before the start changes no log. */
  lemma {:induction false} EarlyJoinKeepsSystem(h: seq<Action>, row: PlayerRow, resumed: bool, players: seq<PlayerRow>,
      timers: map<TimerId, Timer>)
    requires SystemOk(h, false, resumed, players, timers)
    ensures SystemOk(h, false, resumed, players + [row], timers)
  {
    assert h + [] == h;
    NoSeats(h, []);
    SystemExtends(h, [], resumed, false, players, timers, false, players + [row], timers);
  }

  lemma {:induction false} JoinKeepsSeats(k: Kernel, capacity: nat, resumed: bool, initial: Option<Snapshot>,
      players: seq<PlayerRow>, host: Option<PlayerId>, row: PlayerRow)
    requires SeatPart(k, capacity, resumed, initial, players, host) && |players| < capacity && row.id !in Ids(players)
    requires resumed && initial.Some? ==>
      Seats(players) + [row.seat] == SeatsInOrder(k.saved(initial.value.state).seats, |players| + 1)
    requires !resumed ==> row.seat == Generated(|players| + 1)
    ensures SeatPart(k, capacity, resumed, initial, players + [row], if host.None? then Some(row.id) else host)
  {
    SeatsAppend(players, row);
    if host.Some? { IdsPrefix(players, players + [row], host.value); }
    assert Ids(players + [row])[|players|] == row.id;
  }

  /** Whom the joining player replaces: only while the table is paused. */
  function ClaimedFrom(k: Kernel, resumed: bool, initial: Option<Snapshot>, pendingSince: Option<int>,
      seat: SeatId): Option<PlayerId> {
    if resumed && initial.Some? && pendingSince.Some? then SavedSeatPlayer(k.saved(initial.value.state), seat) else None
  }

  /** Whether the pause outlasts a join. */
  function PauseAfter(k: Kernel, initial: Option<Snapshot>, pendingSince: Option<int>,
      seats: seq<SeatId>): Option<int> {
    if pendingSince.Some? && initial.Some? && !Waiting(k.saved(initial.value.state), seats) then None else pendingSince
  }

  lemma {:induction false} WaitingAppend(t: SavedTable, taken: seq<SeatId>, seat: SeatId)
    ensures Waiting(t, taken + [seat]) ==> Waiting(t, taken)
    ensures Waiting(t, taken) && !(seat in t.seats && SavedSeatPlayer(t, seat).Some?) ==> Waiting(t, taken + [seat])
    ensures !Waiting(t, taken) && seat !in taken ==> !(seat in t.seats && SavedSeatPlayer(t, seat).Some?)
  {
    if Waiting(t, taken + [seat]) {
      var i :| 0 <= i < |t.seats| && t.seats[i] !in taken + [seat] && SavedSeatPlayer(t, t.seats[i]).Some?;
      assert t.seats[i] !in taken;
    }
    if Waiting(t, taken) {
      var i :| 0 <= i < |t.seats| && t.seats[i] !in taken && SavedSeatPlayer(t, t.seats[i]).Some?;
      if t.seats[i] != seat { assert t.seats[i] !in taken + [seat]; }
    }
  }

  /**
   Every join of a started room keeps the pause flag exact and each saved identity recovered
   at most once; only a claim can end the pause.
   */
  lemma {:induction false} JoinKeepsPause(k: Kernel, resumed: bool, initial: Option<Snapshot>, players: seq<PlayerRow>,
      pendingSince: Option<int>, h: seq<Action>, row: PlayerRow)
    requires PausePart(k, resumed, true, initial, players, pendingSince, h) && initial.Some?
    requires row.seat !in Seats(players)
    ensures
      var claimed := ClaimedFrom(k, resumed, initial, pendingSince, row.seat);
      var after := PauseAfter(k, initial, pendingSince, Seats(players + [row]));
      && PausePart(k, resumed, true, initial, players + [row], after, h + JoinActions(|h|, row, claimed))
      && (after != pendingSince ==> claimed.Some?)
  {
    if resumed {
      var t := k.saved(initial.value.state);
      var claimed := ClaimedFrom(k, resumed, initial, pendingSince, row.seat);
      SeatsAppend(players, row);
      WaitingAppend(t, Seats(players), row.seat);
      RecoveredByJoin(t, h, JoinActions(|h|, row, claimed), players, row);
    }
  }

  // ---------------------------------------------------------------------------
  // Alarm
  // ---------------------------------------------------------------------------

  /** The timers of a list that fire now rather than being deferred. */
  function Fires(timers: map<TimerId, Timer>, due: seq<TimerId>, now: int, lastActionAt: Option<int>): seq<TimerId> {
    if due == [] then []
    else
      var before, t := Fires(timers, due[..|due| - 1], now, lastActionAt), due[|due| - 1];
      if FiresNow(timers, t, now, lastActionAt) then before + [t] else before
  }

  function FireLog(n: nat, fired: seq<TimerId>): (r: seq<Action>)
    ensures |r| == |fired|
  {
    seq(|fired|, i requires 0 <= i < |fired| => SystemEntry(n + i, TimerFire(fired[i]), Fired(fired[i])))
  }

  lemma {:induction false} FiresNext(timers: map<TimerId, Timer>, due: seq<TimerId>, i: nat, now: int,
      lastActionAt: Option<int>)
    requires i < |due|
    ensures Fires(timers, due[..i + 1], now, lastActionAt) ==
      if FiresNow(timers, due[i], now, lastActionAt) then Fires(timers, due[..i], now,
          lastActionAt) + [due[i]] else Fires(timers, due[..i], now, lastActionAt)
  {
    assert due[..i + 1][..i] == due[..i];
  }

  lemma {:induction false} FireLogNext(n: nat, fired: seq<TimerId>, t: TimerId)
    ensures FireLog(n, fired + [t]) == FireLog(n, fired) + [SystemEntry(n + |fired|, TimerFire(t), Fired(t))]
  {
  }

  lemma {:induction false} FiresWithin(timers: map<TimerId, Timer>, due: seq<TimerId>, now: int,
      lastActionAt: Option<int>, t: TimerId)
    ensures t in Fires(timers, due, now, lastActionAt) <==> t in due && FiresNow(timers, t, now, lastActionAt)
    decreases |due|
  {
    if due != [] {
      FiresWithin(timers, due[..|due| - 1], now, lastActionAt, t);
      assert due == due[..|due| - 1] + [due[|due| - 1]];
    }
  }

  /** The alarm's entries account for every timer that fired, and for nothing else. */
  lemma {:induction false} AlarmKeepsSystem(h: seq<Action>, started: bool, resumed: bool, players: seq<PlayerRow>,
      timers: map<TimerId, Timer>,
      due: seq<TimerId>, now: int, lastActionAt: Option<int>)
    requires SystemOk(h, started, resumed, players, timers)
    requires forall t :: t in due <==> Due(timers, t, now)
    ensures SystemOk(h + FireLog(|h|, Fires(timers, due, now, lastActionAt)), started, resumed, players,
        TimersAfterAlarm(timers, now, lastActionAt))
  {
    var fired, after := Fires(timers, due, now, lastActionAt), TimersAfterAlarm(timers, now, lastActionAt);
    var more := FireLog(|h|, fired);
    forall i | 0 <= i < |more| ensures more[i].actionId.Sys? && Justified(more[i], started, resumed, players, after) {
      assert fired[i] in fired;
      FiresWithin(timers, due, now, lastActionAt, fired[i]);
    }
    forall t | t in after && after[t].status.HasFired? && !(t in timers && timers[t].status.HasFired?)
      ensures InLog(more, TimerFire(t))
    {
      FiresWithin(timers, due, now, lastActionAt, t);
      var i :| 0 <= i < |fired| && fired[i] == t;
      assert more[i].actionId == Sys(TimerFire(t));
    }
    NoSeats(h, more);
    SystemExtends(h, more, resumed, started, players, timers, started, players, after);
  }
}
