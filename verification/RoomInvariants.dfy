/**
 What holds of a room's tables in every reachable state, stated against the ghost history
 of everything the room ever sequenced, and how one more action keeps it.
 */
module RoomInvariants {
  import opened Wrappers
  import opened Kernel
  import opened RoomCoreModel
  import opened ActionLog
  import opened Seating
  import opened Liveness
  import opened Delivery

  datatype PlayerRow = PlayerRow(id: PlayerId, seat: SeatId)

  function Seats(players: seq<PlayerRow>): (r: seq<SeatId>)
    ensures |r| == |players|
  {
    seq(|players|, i requires 0 <= i < |players| => players[i].seat)
  }

  function Ids(players: seq<PlayerRow>): (r: seq<PlayerId>)
    ensures |r| == |players|
  {
    seq(|players|, i requires 0 <= i < |players| => players[i].id)
  }

  // ---------------------------------------------------------------------------
  // System actions
  // ---------------------------------------------------------------------------

  /** The lifecycle cause of a system action has really happened, and it says what happened. */
  predicate Justified(a: Action, started: bool, resumed: bool, players: seq<PlayerRow>, timers: map<TimerId, Timer>)
    requires a.actionId.Sys?
  {
    match a.actionId.key
    case GameStart => started && !resumed && a.body == Started
    case GameResumed => started && resumed && a.body.Resumed?
    case PlayerJoined(p) => p in Ids(players) && a.body == Joined(p)
    case SeatAssign(p) => a.body.Assigned? && a.body.player == p && PlayerRow(p, a.body.seat) in players
    case SeatClaim(p) => a.body.Claimed? && a.body.player == p && PlayerRow(p, a.body.seat) in players
    case TimerFire(t) => t in timers && timers[t].status.HasFired? && a.body == Fired(t)
  }

  ghost predicate InLog(h: seq<Action>, key: SystemKey) {
    exists i :: 0 <= i < |h| && h[i].actionId == Sys(key)
  }

  /** A player who came after the start: by a claim, or by a join with an assignment. */
  ghost predicate SeatLogged(h: seq<Action>, p: PlayerId) {
    InLog(h, SeatClaim(p)) || (InLog(h, PlayerJoined(p)) && InLog(h, SeatAssign(p)))
  }

  /** Nobody came both ways. */
  ghost predicate OneWay(h: seq<Action>) {
    forall p {:trigger SeatClaim(p)} :: InLog(h, SeatClaim(p)) ==>
      !InLog(h, PlayerJoined(p)) && !InLog(h, SeatAssign(p))
  }

  lemma {:induction false} InLogLater(h: seq<Action>, later: seq<Action>, key: SystemKey)
    requires h <= later && InLog(h, key)
    ensures InLog(later, key)
  {
    var i :| 0 <= i < |h| && h[i].actionId == Sys(key);
    assert later[i] == h[i];
  }

  lemma {:induction false} InLogEither(h: seq<Action>, more: seq<Action>, key: SystemKey)
    ensures InLog(h + more, key) <==> InLog(h, key) || InLog(more, key)
  {
    if InLog(h, key) { InLogLater(h, h + more, key); }
    if InLog(more, key) {
      var i :| 0 <= i < |more| && more[i].actionId == Sys(key);
      assert (h + more)[|h| + i] == more[i];
    }
    if InLog(h + more, key) {
      var i :| 0 <= i < |h + more| && (h + more)[i].actionId == Sys(key);
      assert (h + more)[i] == if i < |h| then h[i] else more[i - |h|];
    }
  }

  lemma {:induction false} SeatLoggedLater(h: seq<Action>, later: seq<Action>, p: PlayerId)
    requires h <= later && SeatLogged(h, p)
    ensures SeatLogged(later, p)
  {
    if InLog(h, SeatClaim(p)) {
      InLogLater(h, later, SeatClaim(p));
    } else {
      InLogLater(h, later, PlayerJoined(p));
      InLogLater(h, later, SeatAssign(p));
    }
  }

  /** Entries about nobody's seat, or about somebody the log does not know yet. */
  ghost predicate NewSeats(h: seq<Action>, more: seq<Action>) {
    && OneWay(more)
    && forall p {:trigger SeatClaim(p)} ::
         InLog(more, SeatClaim(p)) || InLog(more, PlayerJoined(p)) || InLog(more, SeatAssign(p)) ==>
           !InLog(h, SeatClaim(p)) && !InLog(h, PlayerJoined(p)) && !InLog(h, SeatAssign(p))
  }

  predicate AboutASeat(key: SystemKey) {
    key.SeatClaim? || key.PlayerJoined? || key.SeatAssign?
  }

  lemma {:induction false} NoSeats(h: seq<Action>, more: seq<Action>)
    requires forall i :: 0 <= i < |more| && more[i].actionId.Sys? ==> !AboutASeat(more[i].actionId.key)
    ensures NewSeats(h, more)
  {
  }

  lemma {:induction false} OneWayLater(h: seq<Action>, more: seq<Action>)
    requires OneWay(h) && NewSeats(h, more)
    ensures OneWay(h + more)
  {
    forall p ensures InLog(h + more, SeatClaim(p)) ==>
      !InLog(h + more, PlayerJoined(p)) && !InLog(h + more, SeatAssign(p))
    {
      InLogEither(h, more, SeatClaim(p));
      InLogEither(h, more, PlayerJoined(p));
      InLogEither(h, more, SeatAssign(p));
    }
  }

  function StartKey(resumed: bool): SystemKey {
    if resumed then GameResumed else GameStart
  }

  /** Every system action of the history is justified, and every fired timer is in it. */
  ghost predicate SystemOk(h: seq<Action>, started: bool, resumed: bool, players: seq<PlayerRow>, timers: map<TimerId,
      Timer>) {
    && (forall i {:trigger h[i].actionId} :: 0 <= i < |h| && h[i].actionId.Sys? ==>
          Justified(h[i], started, resumed, players, timers))
    && (forall t {:trigger InLog(h, TimerFire(t))} :: t in timers && timers[t].status.HasFired? ==>
          InLog(h, TimerFire(t)))
    && (started ==> h != [] && h[0].actionId == Sys(StartKey(resumed)))
    && OneWay(h)
  }

  /** Later tables justify everything earlier ones did. */
  ghost predicate Grown(started: bool, players: seq<PlayerRow>, timers: map<TimerId, Timer>,
      started': bool, players': seq<PlayerRow>, timers': map<TimerId, Timer>) {
    && (started ==> started')
    && players <= players'
    && (forall t :: t in timers && timers[t].status.HasFired? ==> t in timers' && timers'[t].status.HasFired?)
  }

  lemma {:induction false} IdsPrefix(players: seq<PlayerRow>, players': seq<PlayerRow>, p: PlayerId)
    requires players <= players' && p in Ids(players)
    ensures p in Ids(players')
  {
    var i :| 0 <= i < |players| && Ids(players)[i] == p;
    assert Ids(players')[i] == p;
  }

  lemma {:induction false} JustifiedLater(a: Action, resumed: bool, started: bool, players: seq<PlayerRow>,
      timers: map<TimerId, Timer>,
      started': bool, players': seq<PlayerRow>, timers': map<TimerId, Timer>)
    requires a.actionId.Sys? && Justified(a, started, resumed, players, timers)
    requires Grown(started, players, timers, started', players', timers')
    ensures Justified(a, started', resumed, players', timers')
  {
    if a.actionId.key.PlayerJoined? { IdsPrefix(players, players', a.actionId.key.player); }
  }

  /** Appending justified actions that account for every newly fired timer. */
  lemma {:induction false} SystemExtends(h: seq<Action>, more: seq<Action>, resumed: bool, started: bool,
      players: seq<PlayerRow>, timers: map<TimerId, Timer>,
      started': bool, players': seq<PlayerRow>, timers': map<TimerId, Timer>)
    requires SystemOk(h, started, resumed, players, timers)
    requires Grown(started, players, timers, started', players', timers')
    requires forall i :: 0 <= i < |more| && more[i].actionId.Sys? ==>
      Justified(more[i], started', resumed, players', timers')
    requires forall t :: t in timers' && timers'[t].status.HasFired? ==>
      (t in timers && timers[t].status.HasFired?) || InLog(more, TimerFire(t))
    requires NewSeats(h, more)
    requires started' ==> started || (h == [] && more != [] && more[0].actionId == Sys(StartKey(resumed)))
    ensures SystemOk(h + more, started', resumed, players', timers')
  {
    var all := h + more;
    OneWayLater(h, more);
    forall i | 0 <= i < |all| && all[i].actionId.Sys? ensures Justified(all[i], started', resumed, players', timers') {
      if i < |h| {
        JustifiedLater(h[i], resumed, started, players, timers, started', players', timers');
      } else {
        assert all[i] == more[i - |h|];
      }
    }
    forall t | t in timers' && timers'[t].status.HasFired? ensures InLog(all, TimerFire(t)) {
      if t in timers && timers[t].status.HasFired? {
        assert InLog(h, TimerFire(t));
        var i :| 0 <= i < |h| && h[i].actionId == Sys(TimerFire(t));
        assert all[i].actionId == Sys(TimerFire(t));
      } else {
        var i :| 0 <= i < |more| && more[i].actionId == Sys(TimerFire(t));
        assert all[|h| + i].actionId == Sys(TimerFire(t));
      }
    }
  }

  /** A cause that has not happened yet has no action in the log, so none in the window either. */
  lemma {:induction false} NotYetSequenced(h: seq<Action>, key: SystemKey, started: bool, resumed: bool,
      players: seq<PlayerRow>, timers: map<TimerId, Timer>)
    requires SystemOk(h, started, resumed, players, timers)
    requires match key
      case GameStart => !started
      case GameResumed => !started
      case PlayerJoined(p) => p !in Ids(players)
      case SeatAssign(p) => p !in Ids(players)
      case SeatClaim(p) => p !in Ids(players)
      case TimerFire(t) => t in timers ==> !timers[t].status.HasFired?
    ensures forall i :: 0 <= i < |h| ==> h[i].actionId != Sys(key)
  {
    forall i | 0 <= i < |h| ensures h[i].actionId != Sys(key) {
      if h[i].actionId.Sys? {
        assert Justified(h[i], started, resumed, players, timers);
        if (key.SeatAssign? || key.SeatClaim?) && h[i].actionId == Sys(key) {
          RowHasId(players, PlayerRow(key.player, h[i].body.seat));
        }
      }
    }
  }

  lemma {:induction false} RowHasId(players: seq<PlayerRow>, row: PlayerRow)
    ensures row in players ==> row.id in Ids(players)
  {
    if row in players {
      var i :| 0 <= i < |players| && players[i] == row;
      assert Ids(players)[i] == row.id;
    }
  }

  // ---------------------------------------------------------------------------
  // Recovered seats
  // ---------------------------------------------------------------------------

  function InRoster(roster: seq<RosterEntry>, seat: SeatId): nat {
    if roster == [] then 0
    else InRoster(roster[..|roster| - 1], seat) + if roster[|roster| - 1].seat == seat then 1 else 0
  }

  function RecoveredBy(a: Action, seat: SeatId): nat {
    match a.body
    case Claimed(_, s, _) => if s == seat then 1 else 0
    case Resumed(roster, _) => InRoster(roster, seat)
    case _ => 0
  }

  /** How often the history hands a saved seat to somebody. */
  function Recoveries(h: seq<Action>, seat: SeatId): nat {
    if h == [] then 0 else Recoveries(h[..|h| - 1], seat) + RecoveredBy(h[|h| - 1], seat)
  }

  /** Every saved identity's seat has been handed over exactly once if somebody sits there, else never. */
  ghost predicate RecoveredOk(t: SavedTable, h: seq<Action>, players: seq<PlayerRow>) {
    forall seat :: seat in t.seats && SavedSeatPlayer(t, seat).Some? ==>
      Recoveries(h, seat) == if seat in Seats(players) then 1 else 0
  }

  lemma {:induction false} RecoveriesExtend(h: seq<Action>, more: seq<Action>, seat: SeatId)
    ensures Recoveries(h + more, seat) == Recoveries(h, seat) + Recoveries(more, seat)
    decreases |more|
  {
    if more == [] {
      assert h + more == h;
    } else {
      RecoveriesExtend(h, more[..|more| - 1], seat);
      assert (h + more)[..|h + more| - 1] == h + more[..|more| - 1];
    }
  }

  lemma {:induction false} NoRecovery(more: seq<Action>, seat: SeatId)
    requires forall i :: 0 <= i < |more| ==> RecoveredBy(more[i], seat) == 0
    ensures Recoveries(more, seat) == 0
    decreases |more|
  {
    if more != [] { NoRecovery(more[..|more| - 1], seat); }
  }

  lemma {:induction false} RecoveredUnchanged(t: SavedTable, h: seq<Action>, more: seq<Action>, players: seq<PlayerRow>)
    requires RecoveredOk(t, h, players)
    requires forall i :: 0 <= i < |more| ==> !more[i].body.Claimed? && !more[i].body.Resumed?
    ensures RecoveredOk(t, h + more, players)
  {
    forall seat | seat in t.seats && SavedSeatPlayer(t, seat).Some?
      ensures Recoveries(h + more, seat) == if seat in Seats(players) then 1 else 0
    {
      RecoveriesExtend(h, more, seat);
      NoRecovery(more, seat);
    }
  }

  lemma {:induction false} SeatsAppend(players: seq<PlayerRow>, row: PlayerRow)
    ensures Seats(players + [row]) == Seats(players) + [row.seat]
    ensures Ids(players + [row]) == Ids(players) + [row.id]
  {
  }

  lemma {:induction false} OneRecovery(more: seq<Action>, seat: SeatId)
    requires |more| == 1
    ensures Recoveries(more, seat) == RecoveredBy(more[0], seat)
  {
    assert more[..0] == [];
  }

  /** A join that claims a saved seat, or takes one that carries no identity. */
  lemma {:induction false} RecoveredByJoin(t: SavedTable, h: seq<Action>, more: seq<Action>, players: seq<PlayerRow>,
      row: PlayerRow)
    requires RecoveredOk(t, h, players) && row.seat !in Seats(players)
    requires (row.seat in t.seats && SavedSeatPlayer(t, row.seat).Some?) ==>
      |more| == 1 && more[0].body.Claimed? && more[0].body.seat == row.seat
    requires !(row.seat in t.seats && SavedSeatPlayer(t, row.seat).Some?) ==>
      forall i :: 0 <= i < |more| ==>
        !more[i].body.Resumed? && (more[i].body.Claimed? ==> more[i].body.seat == row.seat)
    ensures RecoveredOk(t, h + more, players + [row])
  {
    forall seat | seat in t.seats && SavedSeatPlayer(t, seat).Some?
      ensures Recoveries(h + more, seat) == if seat in Seats(players + [row]) then 1 else 0
    {
      SeatTaken(players, row, seat);
      RecoveriesExtend(h, more, seat);
      RecoveredNow(more, row.seat, row.seat in t.seats && SavedSeatPlayer(t, row.seat).Some?, seat);
    }
  }

  /** What the entries of a join recover: the seat of a claim, otherwise nothing. */
  lemma {:induction false} RecoveredNow(more: seq<Action>, taken: SeatId, claims: bool, seat: SeatId)
    requires claims ==> |more| == 1 && more[0].body.Claimed? && more[0].body.seat == taken
    requires !claims ==>
      seat != taken &&
      forall i :: 0 <= i < |more| ==>
        !more[i].body.Resumed? && (more[i].body.Claimed? ==> more[i].body.seat == taken)
    ensures Recoveries(more, seat) == if claims && seat == taken then 1 else 0
  {
    if claims { OneRecovery(more, seat); } else { NoRecovery(more, seat); }
  }

  lemma {:induction false} SeatTaken(players: seq<PlayerRow>, row: PlayerRow, seat: SeatId)
    ensures seat in Seats(players + [row]) <==> seat in Seats(players) || seat == row.seat
  {
    SeatsAppend(players, row);
  }

  lemma {:induction false} RosterCounts(roster: seq<RosterEntry>, seats: seq<SeatId>, seat: SeatId)
    requires |roster| == |seats| && Distinct(seats) && forall i :: 0 <= i < |roster| ==> roster[i].seat == seats[i]
    ensures InRoster(roster, seat) == if seat in seats then 1 else 0
    decreases |roster|
  {
    if roster != [] {
      var n := |roster| - 1;
      RosterCounts(roster[..n], seats[..n], seat);
      assert seats == seats[..n] + [seats[n]];
    }
  }

  /** The first action of a resumed room recovers exactly the seats of its roster. */
  lemma {:induction false} RecoveredByRoster(t: SavedTable, a: Action, players: seq<PlayerRow>)
    requires Distinct(t.seats) && Seats(players) == SeatsInOrder(t.seats, |players|)
    requires a.body.Resumed? && a.body.roster == RosterFor(t, Ids(players))
    ensures RecoveredOk(t, [a], players)
  {
    SeatsDistinct(t.seats, |players|);
    assert [a][..0] == [];
    forall seat | seat in t.seats && SavedSeatPlayer(t, seat).Some?
      ensures Recoveries([a], seat) == if seat in Seats(players) then 1 else 0
    {
      RosterCounts(a.body.roster, Seats(players), seat);
    }
  }

  // ---------------------------------------------------------------------------
  // Checkpoints
  // ---------------------------------------------------------------------------

  datatype Advance = Keep | To(snapshot: Snapshot) | Throws

  function SequenceOf(checkpoint: Option<Snapshot>): nat {
    if checkpoint.Some? then checkpoint.value.sequence else 0
  }

  /** What `advanceCheckpointIfNeeded` does, in terms of the whole history. */
  ghost function Advanced(k: Kernel, limits: Limits, scripted: bool, initial: Option<Snapshot>,
      checkpoint: Option<Snapshot>, h: seq<Action>): Advance {
    if scripted || |h| - SequenceOf(checkpoint) < limits.interval then Keep
    else if initial.None? then Throws
    else if |h| - SequenceOf(checkpoint) <= limits.retention then To(StateAt(k, initial.value, h, |h|))
    else if checkpoint.None? then Keep
    else Throws
  }

  /**
   The lag rule of an unscripted room. A room without a checkpoint whose log has outgrown
   the window can no longer build one.
   */
  predicate LagOk(limits: Limits, checkpoint: Option<Snapshot>, n: nat) {
    || n - SequenceOf(checkpoint) < limits.interval
    || (checkpoint.None? && n > limits.retention)
  }

  /** A base that a late client can be given. */
  predicate HasBase(limits: Limits, scripted: bool, checkpoint: Option<Snapshot>, n: nat) {
    scripted || checkpoint.Some? || n <= limits.retention
  }

  ghost predicate TrueBase(k: Kernel, initial: Option<Snapshot>, checkpoint: Option<Snapshot>, h: seq<Action>) {
    checkpoint.Some? ==>
      initial.Some? && checkpoint.value.sequence <= |h| && checkpoint.value == StateAt(k, initial.value, h,
          checkpoint.value.sequence)
  }

  lemma {:induction false} TrueBaseLater(k: Kernel, initial: Option<Snapshot>, checkpoint: Option<Snapshot>,
      h: seq<Action>, more: seq<Action>)
    requires TrueBase(k, initial, checkpoint, h)
    ensures TrueBase(k, initial, checkpoint, h + more)
  {
    if checkpoint.Some? { StateAtPrefix(k, initial.value, h, more, checkpoint.value.sequence); }
  }

  /** How many actions may always be appended at once without losing the base. */
  function Slack(limits: Limits): int {
    limits.retention - limits.interval + 1
  }

  /**
   The lag rule after a committed transaction, and the exact room it needs: from a room
   with a base, appending m actions keeps a base if and only if the new length is still
   within retention of the old checkpoint, and it throws only beyond that.
   */
  lemma {:induction false} AdvanceKeepsLag(k: Kernel, limits: Limits, initial: Snapshot, checkpoint: Option<Snapshot>,
      h: seq<Action>, more: seq<Action>)
    requires limits.Valid() && LagOk(limits, checkpoint, |h|) && HasBase(limits, false, checkpoint, |h|)
    requires SequenceOf(checkpoint) <= |h| && more != [] && initial.sequence == 0 && Numbered(h + more)
    ensures
      var n := |h| + |more|;
      var fits := n - SequenceOf(checkpoint) <= limits.retention;
      var adv := Advanced(k, limits, false, Some(initial), checkpoint, h + more);
      && (adv.Throws? <==> !fits && checkpoint.Some?)
      && (adv.To? ==>
            && fits && LagOk(limits, Some(adv.snapshot), n) && HasBase(limits, false, Some(adv.snapshot), n)
            && adv.snapshot.sequence == n)
      && (adv.Keep? ==> LagOk(limits, checkpoint, n) && (HasBase(limits, false, checkpoint, n) <==> fits))
    // a transaction of at most as many actions as the slack always fits
    ensures |more| <= Slack(limits) ==>
      |h| + |more| - SequenceOf(checkpoint) <= limits.retention
  {
    StateAtSequence(k, initial, h + more, |h| + |more|);
  }

  /** A log of `n` timer fires. */
  function FiresOnly(n: nat): (h: seq<Action>)
    ensures |h| == n && HistoryOk(h)
  {
    var h := seq(n, i requires 0 <= i < n => Action(i + 1, Sys(TimerFire(i)), None, System, Fired(i)));
    assert forall i :: 0 <= i < n ==> h[i].actionId == Sys(TimerFire(i));
    h
  }

  /**
   For any limits, also ones the load-time check refuses: appending m actions advances or
   keeps the checkpoint of every unscripted log that obeys the lag rule, if and only if m
   and what may already lag behind fit the window together. Beyond that some log makes the
   transaction throw.
   */
  lemma {:induction false} AppendsFitIff(k: Kernel, limits: Limits, initial: Snapshot, m: nat)
    requires limits.interval >= 1 && m >= 1
    ensures m + limits.interval - 1 <= limits.retention <==>
      forall cp: Snapshot, h: seq<Action>, more: seq<Action> ::
        |more| == m && 0 < cp.sequence <= |h| && LagOk(limits, Some(cp), |h|) && HistoryOk(h + more) ==>
          !Advanced(k, limits, false, Some(initial), Some(cp), h + more).Throws?
  {
    if m + limits.interval - 1 > limits.retention {
      var cp, n := Snapshot(0, 1, initial.state), limits.interval;
      var all := FiresOnly(n + m);
      var h, more := all[..n], all[n..];
      assert h + more == all;
      assert Advanced(k, limits, false, Some(initial), Some(cp), h + more).Throws?;
    }
  }

  /** The bound of the invariant is tight: retention - interval + 1 actions always fit, and one more does not always. */
  lemma {:induction false} AdvanceBoundIsTight(k: Kernel, limits: Limits, initial: Snapshot)
    requires limits.Valid()
    ensures
      var m := Slack(limits);
      && (forall cp: Snapshot, h: seq<Action>, more: seq<Action> ::
            |more| == m && 0 < cp.sequence <= |h| && LagOk(limits, Some(cp), |h|) && HistoryOk(h + more) ==>
              !Advanced(k, limits, false, Some(initial), Some(cp), h + more).Throws?)
      && (exists cp: Snapshot, h: seq<Action>, more: seq<Action> ::
            && |more| == m + 1 && 0 < cp.sequence <= |h| && LagOk(limits, Some(cp), |h|) && HistoryOk(h + more)
            && Advanced(k, limits, false, Some(initial), Some(cp), h + more).Throws?)
  {
    var m := Slack(limits);
    AppendsFitIff(k, limits, initial, m);
    AppendsFitIff(k, limits, initial, m + 1);
  }
}
