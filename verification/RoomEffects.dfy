/**
 What the transactions of a room change, column by column and in the source's own numbers,
 and who is meant by the people a room speaks of.
 */
module RoomEffects {
  import opened Wrappers
  import opened Kernel
  import opened RoomCoreModel
  import opened ActionLog
  import opened Seating
  import opened Liveness
  import opened Delivery
  import opened RoomInvariants
  import opened Consensus
  import opened RoomTables
  import opened RoomSteps
  import opened RoomStore

  // ---------------------------------------------------------------------------
  // Who is there
  // ---------------------------------------------------------------------------

  /** Somebody's hello was answered with a base or a resume, on a socket that is still there. */
  lemma {:induction false} SeatedIff(sockets: map<SocketId, Socket>, player: PlayerId)
    ensures player in BootstrappedPlayers(sockets) <==>
      exists s :: s in sockets && sockets[s].bootstrapped && sockets[s].phase == Answered(player)
  {
  }

  /** Somebody's token was accepted, on a socket that is still there. */
  lemma {:induction false} PresentIff(sockets: map<SocketId, Socket>, player: PlayerId)
    ensures player in Authenticated(sockets) <==>
      exists s :: s in sockets && (sockets[s].phase == Greeting(player) || sockets[s].phase == Answered(player))
  {
  }

  /** The time at which two different players were last seated together. */
  lemma {:induction false} TogetherIff(sockets: map<SocketId, Socket>, last: Option<int>, now: int)
    ensures MultiSeen(sockets, last, now) ==
      if exists x, y :: x in BootstrappedPlayers(sockets) && y in BootstrappedPlayers(sockets) && x != y then Some(now)
      else last
  {
    var seated := BootstrappedPlayers(sockets);
    if |seated| >= 2 { var x, y := TwoMembers(seated); }
    if x, y :| x in seated && y in seated && x != y {
      assert seated == {x, y} + (seated - {x, y});
    }
  }

  /** After a hello its socket is seated exactly if a base or a resume was among the answers. */
  lemma {:induction false} GreetedIff(s: Socket, messages: seq<Message>)
    requires s.phase.Greeting?
    ensures
      var after := Greeted(s, messages);
      && after.phase == Answered(s.phase.player) && after.sent == s.sent + messages
      && (after.bootstrapped <==> exists m :: m in messages && (m.Base? || m.Resumption?))
  {
    if m :| m in messages && (m.Base? || m.Resumption?) {
      var i :| 0 <= i < |messages| && messages[i] == m;
    }
  }

  /**
   What a hello makes of the client behind a socket: one that asks for a bootstrap starts with
   nothing; one that names a sequence is honest exactly if it holds what the kernel reached there.
   */
  lemma {:induction false} GreetedLogIs(k: Kernel, initial: Snapshot, h: seq<Action>, s: Socket,
      lastSequence: Option<int>, held: Client)
    requires Numbered(h) && initial.sequence == 0
    ensures
      var log := GreetedLog(k, Some(initial), h, s, lastSequence, held);
      && log.handshake == |s.sent|
      && (lastSequence.None? ==> log.honest && log.start == Blank)
      && (lastSequence.Some? ==>
            && log.start == held
            && (log.honest <==>
                  && 0 <= lastSequence.value <= |h|
                  && held == At(Snapshot(initial.release, lastSequence.value,
                      Play(k.apply, initial.state, h[..lastSequence.value])))))
  {
    if lastSequence.Some? && 0 <= lastSequence.value <= |h| {
      StateAtSequence(k, initial, h, lastSequence.value);
      FoldPlays(k, initial, h[..lastSequence.value]);
    }
  }

  // ---------------------------------------------------------------------------
  // Requests
  // ---------------------------------------------------------------------------

  /** A new request makes the room unfit for quick play, dates its last action, and is remembered. */
  lemma {:induction false} RequestChanges(s: Store, a: Action, rows: seq<Action>, adv: Advance, now: int)
    requires a.requestId.Some?
    ensures AfterRequest(s, a, rows, adv, now) == s.(
      lastSequence := a.sequence, actions := rows, dedup := s.dedup[a.requestId.value := a],
      joinable := false, lastActionAt := Some(now),
      checkpoint := if adv.To? then Some(adv.snapshot) else s.checkpoint, attested := s.attested && !adv.To?)
  {
  }

  // ---------------------------------------------------------------------------
  // Start
  // ---------------------------------------------------------------------------

  /** The pause begins with the start exactly if a resumed table waits for somebody. */
  lemma {:induction false} StartChanges(c: Config, s: Store, initial: Snapshot, scripted: bool, rows: seq<Action>,
      timers: map<TimerId, Timer>, now: int)
    ensures
      var s' := AfterStart(c, s, initial, scripted, rows, timers, now);
      && s' == s.(started := true, initial := Some(initial), scripted := Some(scripted), lastSequence := 1,
          actions := rows, timers := timers, lastActionAt := Some(now), pendingSince := s'.pendingSince)
      && s'.pendingSince ==
        if c.resumed && Awaited(c.kernel.saved(initial.state), Seats(s.players)) then Some(now) else None
  {
    WaitingIff(c.kernel.saved(initial.state), Seats(s.players));
  }

  /** Where a starting room's base comes from, and when it has none. */
  lemma {:induction false} BaseOfStart(c: Config, s: Store, fetched: Fetched)
    ensures
      var from := StartingFrom(c, s, fetched);
      if c.resumed then
        && (from.Some? <==> s.initial.Some?)
        && (from.Some? ==> from.value == (s.initial.value, c.kernel.requiresScripts(s.initial.value.state)))
      else
        && (from.Some? <==>
              !fetched.Unknown? && fetched.snapshot.release == c.release && fetched.snapshot.sequence == 0)
        && (from.Some? ==>
              && from.value.1 == c.kernel.requiresScripts(fetched.snapshot.state)
              && from.value.0.sequence == 0 && from.value.0.release == c.release
              && (fetched.Builtin? ==> from.value.0.state == fetched.snapshot.state)
              && (fetched.Uploaded? ==>
                    from.value.0.state == c.kernel.seedRoster(fetched.snapshot.state, LiveRoster(s.players))))
  {
  }

  /**
   The first action: of a new room that it starts; of a resumed one each player with the seat
   and the player it was kept for, and that seats stay pending exactly if the save had pending
   ones or somebody is still awaited.
   */
  lemma {:induction false} FirstActionIs(c: Config, s: Store, p: Past, initial: Snapshot)
    requires StoreOk(c, s, p) && (c.resumed ==> s.initial == Some(initial))
    ensures
      var a := StartEntry(c, s, initial);
      && a.sequence == 1 && a.actor.System? && a.requestId.None?
      && a.actionId == Sys(if c.resumed then GameResumed else GameStart)
      && (!c.resumed ==> a.body == Started)
      && (c.resumed ==> a.body.Resumed? && ResumesWith(c.kernel.saved(initial.state), s.players, a.body))
  {
    if c.resumed {
      var t, body := c.kernel.saved(initial.state), StartEntry(c, s, initial).body;
      WaitingIff(t, Seats(s.players));
      forall i | 0 <= i < |s.players|
        ensures body.roster[i].player == s.players[i].id && body.roster[i].seat == s.players[i].seat
        ensures forall player: PlayerId ::
          body.roster[i].previous == Some(player) <==> KeptFor(t, s.players[i].seat, player)
      {
        assert Seats(s.players)[i] == s.players[i].seat && Ids(s.players)[i] == s.players[i].id;
        SavedSeatIff(t, s.players[i].seat);
      }
    }
  }

  ghost predicate ResumesWith(t: SavedTable, players: seq<PlayerRow>, body: Body)
    requires body.Resumed?
  {
    && |body.roster| == |players|
    && (forall i :: 0 <= i < |players| ==>
          && body.roster[i].player == players[i].id && body.roster[i].seat == players[i].seat
          && forall player: PlayerId ::
               body.roster[i].previous == Some(player) <==> KeptFor(t, players[i].seat, player))
    && (body.preservePending <==> t.pending.Some? || Awaited(t, Seats(players)))
  }

  /** A resumed table arms what its save had scheduled, with the delays of the save; a new room arms nothing. */
  lemma {:induction false} StartArms(c: Config, initial: Snapshot, timers: map<TimerId, Timer>, now: int, t: TimerId)
    ensures
      var arms, after := ArmsFor(c, initial), ArmAll(timers, ArmsFor(c, initial), now);
      && arms == (if c.resumed then c.kernel.saved(initial.state).timers else [])
      && (t in timers ==> t in after && after[t] == timers[t])
      && (t !in timers ==>
            && (t in after <==> exists i :: 0 <= i < |arms| && arms[i].0 == t)
            && (t in after ==>
                  exists i :: 0 <= i < |arms| && arms[i].0 == t && after[t] == Timer(now + arms[i].1, Scheduled, false)
                    && forall j :: 0 <= j < i ==> arms[j].0 != t))
  {
    ArmKeeps(timers, ArmsFor(c, initial), now);
    if t !in timers { ArmedBy(timers, ArmsFor(c, initial), now, t); }
  }

  lemma {:induction false} ArmedBy(timers: map<TimerId, Timer>, arms: seq<(TimerId, nat)>, now: int, t: TimerId)
    requires t !in timers
    ensures
      var after := ArmAll(timers, arms, now);
      && (t in after <==> exists i :: 0 <= i < |arms| && arms[i].0 == t)
      && (t in after ==>
            exists i :: 0 <= i < |arms| && arms[i].0 == t && after[t] == Timer(now + arms[i].1, Scheduled, false)
              && forall j :: 0 <= j < i ==> arms[j].0 != t)
    decreases |arms|
  {
    if forall i :: 0 <= i < |arms| ==> arms[i].0 != t {
      NotArmed(timers, arms, now, t);
    } else {
      var i := FirstArm(arms, t);
      ArmedFirst(timers, arms, now, i);
    }
  }

  lemma {:induction false} FirstArm(arms: seq<(TimerId, nat)>, t: TimerId) returns (i: nat)
    requires exists j :: 0 <= j < |arms| && arms[j].0 == t
    ensures i < |arms| && arms[i].0 == t && forall j :: 0 <= j < i ==> arms[j].0 != t
  {
    i := 0;
    while arms[i].0 != t
      invariant i < |arms| && forall j :: 0 <= j < i ==> arms[j].0 != t
      decreases |arms| - i
    {
      i := i + 1;
    }
  }

  // ---------------------------------------------------------------------------
  // Join
  // ---------------------------------------------------------------------------

  /** Before the start a join adds a row, and its player hosts a room without a host. */
  lemma {:induction false} EarlyJoinChanges(s: Store, row: PlayerRow)
    ensures Admitted(s, row) == s.(players := s.players + [row],
        host := if s.host.Some? then s.host else Some(row.id))
  {
  }

  /** Whose seat a joining player claims: nobody's unless the table is paused. */
  lemma {:induction false} ClaimsIff(c: Config, s: Store, seat: SeatId, player: PlayerId)
    ensures Claims(c, s, seat) == Some(player) <==>
      && c.resumed && s.initial.Some? && s.pendingSince.Some?
      && KeptFor(c.kernel.saved(s.initial.value.state), seat, player)
  {
    if s.initial.Some? { SavedSeatIff(c.kernel.saved(s.initial.value.state), seat); }
  }

  /** What a join sequences: a claim with the player it replaces, or a join followed by a seat assignment. */
  lemma {:induction false} JoinSequences(n: nat, row: PlayerRow, claimed: Option<PlayerId>)
    ensures
      var more := JoinActions(n, row, claimed);
      if claimed.Some? then
        more == [Action(n + 1, Sys(SeatClaim(row.id)), None, System, Claimed(row.id, row.seat, claimed.value))]
      else
        more == [Action(n + 1, Sys(PlayerJoined(row.id)), None, System, Joined(row.id)),
          Action(n + 2, Sys(SeatAssign(row.id)), None, System, Assigned(row.id, row.seat))]
  {
  }

  /**
   A join of a running room ends the pause exactly if nobody is awaited any more, and then
   moves every scheduled timer by the time the pause took, if the clock says it took any.
   */
  lemma {:induction false} JoinChanges(c: Config, s: Store, row: PlayerRow, n: nat, rows: seq<Action>, adv: Advance,
      now: int)
    requires s.initial.Some?
    ensures
      var s' := AfterJoin(c, s, row, n, rows, adv, now);
      var ends := s.pendingSince.Some? &&
        !Awaited(c.kernel.saved(s.initial.value.state), Seats(s.players) + [row.seat]);
      && s' == s.(players := s.players + [row], host := if s.host.Some? then s.host else Some(row.id),
          lastSequence := n, actions := rows, lastActionAt := Some(now),
          checkpoint := if adv.To? then Some(adv.snapshot) else s.checkpoint, attested := s.attested && !adv.To?,
          timers := s'.timers, pendingSince := if ends then None else s.pendingSince)
      && s'.timers.Keys == s.timers.Keys
      && forall t :: t in s.timers ==>
        s'.timers[t] ==
          if ends && s.timers[t].status.Scheduled? && now > s.pendingSince.value then
            s.timers[t].(dueAt := s.timers[t].dueAt + (now - s.pendingSince.value))
          else s.timers[t]
  {
    WaitingIff(c.kernel.saved(s.initial.value.state), Seats(s.players) + [row.seat]);
  }

  // ---------------------------------------------------------------------------
  // Timers
  // ---------------------------------------------------------------------------

  /** A registration adds the row of its id if there is none; during the pause its delay counts from the pause's end. */
  lemma {:induction false} RegisteredTimer(timers: map<TimerId, Timer>, t: TimerId, pendingSince: Option<int>, now: int,
      dueAt: int)
    ensures
      var after := Register(timers, t, RegisteredDue(pendingSince, now, dueAt));
      && after.Keys == timers.Keys + {t}
      && (forall u :: u in timers ==> after[u] == timers[u])
      && (t !in timers ==>
            after[t] == Timer(
              if pendingSince.None? then dueAt
              else if dueAt <= now then pendingSince.value
              else pendingSince.value + (dueAt - now), Scheduled, false))
  {
  }

  /** A cancellation changes the status of the one row, if that is scheduled. */
  lemma {:induction false} CanceledTimer(timers: map<TimerId, Timer>, t: TimerId)
    ensures
      var after := Cancel(timers, t);
      && after.Keys == timers.Keys
      && (forall u :: u in timers && u != t ==> after[u] == timers[u])
      && (t in timers ==>
            after[t] == if timers[t].status.Scheduled? then timers[t].(status := Canceled) else timers[t])
  {
  }

  /** Neither a start nor a join decides a timer. */
  lemma {:induction false} OpeningKeepsStatus(c: Config, s: Store, p: Past, fetched: Fetched, now: int)
    ensures SameStatus(s.timers, Opened(c, s, p, fetched, now).timers)
  {
    hide ArmAll;
    var from := StartingFrom(c, s, fetched);
    if from.Some? { ArmKeeps(s.timers, ArmsFor(c, from.value.0), now); }
  }

  lemma {:induction false} JoinKeepsStatus(c: Config, s: Store, row: PlayerRow, n: nat, rows: seq<Action>, adv: Advance,
      now: int)
    requires s.initial.Some?
    ensures SameStatus(s.timers, AfterJoin(c, s, row, n, rows, adv, now).timers)
  {
    hide AfterJoin, Awaited;
    JoinChanges(c, s, row, n, rows, adv, now);
  }

  /** What a join leaves alone; without a claim also pause and timers. */
  lemma {:induction false} JoinTouches(c: Config, s: Store, p: Past, row: PlayerRow, n: nat, rows: seq<Action>,
      adv: Advance, now: int)
    requires StoreOk(c, s, p) && s.started && |s.players| < c.capacity && row.id !in Ids(s.players)
    requires NextSeat(c, s, row.seat)
    ensures
      var s' := AfterJoin(c, s, row, n, rows, adv, now);
      && s'.started && s'.initial == s.initial && s'.ended == s.ended
      && s'.lastHeartbeatAt == s.lastHeartbeatAt && s'.emptySinceAt == s.emptySinceAt
      && SameStatus(s.timers, s'.timers)
      && (Claims(c, s, row.seat).None? ==> s'.pendingSince == s.pendingSince && s'.timers == s.timers)
  {
    hide StoreOk, SameStatus, Pause, Unpaused;
    StoreFacts(c, s, p);
    JoinKeepsStatus(c, s, row, n, rows, adv, now);
    JoinEndsPause(c, s, p, row, now);
  }

  // ---------------------------------------------------------------------------
  // Alarm
  // ---------------------------------------------------------------------------

  /**
   What the alarm makes of a timer: nothing unless it is due; it is put off by 350 ms once, if
   an action came in the 350 ms before; otherwise it has fired.
   */
  lemma {:induction false} AlarmedTimer(timers: map<TimerId, Timer>, now: int, last: Option<int>, t: TimerId)
    requires t in timers
    ensures
      var before, after := timers[t], TimersAfterAlarm(timers, now, last)[t];
      var due := before.status.Scheduled? && before.dueAt <= now;
      var graced := !before.deferredOnce && last.Some? && last.value <= now < last.value + 350;
      && (!due ==> after == before)
      && (due && graced ==> after == Timer(now + 350, Scheduled, true))
      && (due && !graced ==> after == Timer(before.dueAt, HasFired, before.deferredOnce))
      && (FiresNow(timers, t, now, last) <==> due && !graced)
  {
  }

  /** The same of a room, in whose history is what has fired. */
  lemma {:induction false} AlarmedTimers(c: Config, s: Store, s': Store, p: Past, now: int)
    requires StoreOk(c, s', p) && s'.timers == TimersAfterAlarm(s.timers, now, s.lastActionAt)
    ensures s'.timers.Keys == s.timers.Keys
    ensures forall t :: t in s'.timers ==>
      var before, last := s.timers[t], s.lastActionAt;
      if !before.status.Scheduled? || before.dueAt > now then s'.timers[t] == before
      else if !before.deferredOnce && last.Some? && last.value <= now < last.value + 350 then
        s'.timers[t] == Timer(now + 350, Scheduled, true)
      else s'.timers[t].status.HasFired? && InLog(p.history, TimerFire(t))
  {
    forall t | t in s.timers { AlarmedTimer(s.timers, now, s.lastActionAt, t); }
  }

  /** An alarm that sequenced something dates the last action; one that sequenced nothing changes timers only. */
  lemma {:induction false} AlarmChanges(s: Store, more: seq<Action>, rows: seq<Action>, adv: Advance, now: int)
    ensures
      var s' := AfterAlarmed(s, more, rows, adv, now);
      && s'.timers.Keys == s.timers.Keys
      && (more == [] ==> s' == s.(timers := s'.timers))
      && (more != [] ==>
            s' == s.(timers := s'.timers, lastSequence := s.lastSequence + |more|, actions := rows,
                lastActionAt := Some(now),
                checkpoint := if adv.To? then Some(adv.snapshot) else s.checkpoint, attested := s.attested && !adv.To?))
  {
    hide Logged, AfterAlarm;
    LoggedChanges(s, s.lastSequence + |more|, rows, adv, now);
  }

  lemma {:induction false} LoggedChanges(s: Store, n: nat, rows: seq<Action>, adv: Advance, now: int)
    ensures Logged(s, n, rows, adv, now) == s.(lastSequence := n, actions := rows, lastActionAt := Some(now),
      checkpoint := if adv.To? then Some(adv.snapshot) else s.checkpoint, attested := s.attested && !adv.To?)
  {
  }

  /** What the alarm sequences: one entry per timer that fires, in the order of their due times. */
  lemma {:induction false} AlarmSequences(s: Store, p: Past, due: seq<TimerId>, now: int)
    requires DueInOrder(s, due, now)
    ensures
      var more, fired := AlarmLog(s, p, due, now), Fires(s.timers, due, now, s.lastActionAt);
      && |more| == |fired|
      && (forall i :: 0 <= i < |fired| ==>
            more[i] == Action(|p.history| + i + 1, Sys(TimerFire(fired[i])), None, System, Fired(fired[i])))
      && (forall t :: t in fired <==> FiresNow(s.timers, t, now, s.lastActionAt))
      && (forall i, j :: 0 <= i < j < |fired| ==>
            && fired[i] in s.timers && fired[j] in s.timers
            && (|| s.timers[fired[i]].dueAt < s.timers[fired[j]].dueAt
                || (s.timers[fired[i]].dueAt == s.timers[fired[j]].dueAt && fired[i] < fired[j])))
  {
    forall t ensures t in Fires(s.timers, due, now, s.lastActionAt) <==> FiresNow(s.timers, t, now, s.lastActionAt) {
      FiresWithin(s.timers, due, now, s.lastActionAt, t);
      if FiresNow(s.timers, t, now, s.lastActionAt) { assert Due(s.timers, t, now); }
    }
    FiresOrdered(s.timers, due, now, s.lastActionAt);
  }

  lemma {:induction false} FiresOrdered(timers: map<TimerId, Timer>, due: seq<TimerId>, now: int, last: Option<int>)
    requires InOrder(timers, due)
    ensures InOrder(timers, Fires(timers, due, now, last))
    decreases |due|
  {
    if due != [] {
      var n := |due| - 1;
      var before := Fires(timers, due[..n], now, last);
      FiresOrdered(timers, due[..n], now, last);
      forall i | 0 <= i < |before| ensures before[i] in due[..n] {
        FiresWithin(timers, due[..n], now, last, before[i]);
      }
    }
  }

  /**
   The rest of the alarm: an empty room is over 30 minutes after it became empty, a connected
   one has its heartbeat written 30 seconds after the last.
   */
  lemma {:induction false} LivenessChanges(s: Store, connections: nat, now: int)
    ensures
      var over := connections == 0 && s.emptySinceAt.Some? && now >= s.emptySinceAt.value + 1_800_000;
      var beat := connections > 0 && (s.lastHeartbeatAt.None? || now >= s.lastHeartbeatAt.value + 30_000);
      AfterLiveness(s, connections, now) ==
        if over then s.(ended := Some(Expired), joinable := false)
        else if beat then s.(lastHeartbeatAt := Some(now))
        else s
  {
  }

  /** When the next alarm is: in 30 seconds or with the first timer, in an empty room at its expiry. */
  lemma {:induction false} AlarmIs(p: Pulse, now: int)
    requires !p.ended
    ensures p.connections > 0 && (p.soonest.None? || p.soonest.value >= now + 30_000) ==>
      AlarmFor(p, now) == AlarmAt(now + 30_000)
    ensures p.connections > 0 && p.soonest.Some? && p.soonest.value <= now + 30_000 ==>
      AlarmFor(p, now) == AlarmAt(p.soonest.value)
    ensures p.connections == 0 && p.emptySinceAt.None? ==> AlarmFor(p, now) == AlarmAt(now + 1_800_000)
    ensures p.connections == 0 && p.emptySinceAt.Some? ==>
      AlarmFor(p, now) ==
        if now < p.emptySinceAt.value + 1_800_000 then AlarmAt(p.emptySinceAt.value + 1_800_000) else NoAlarm
  {
  }

  // ---------------------------------------------------------------------------
  // Attestation
  // ---------------------------------------------------------------------------

  /** A confirmation sets the checkpoint and deletes what is no longer needed behind it; nothing else does. */
  lemma {:induction false} AttestChanges(c: Config, s: Store, floor: nat, a: Attestation, presence: Presence)
    ensures
      var s', d := AfterAttest(c, s, floor, a, presence), Attest(s.ballots, floor, a, presence).1;
      && s'.ballots == Attest(s.ballots, floor, a, presence).0
      && (d.status.Confirmed? ==>
            && s' == s.(ballots := s'.ballots, checkpoint := Some(d.candidate.snapshot), attested := true,
                actions := s'.actions)
            && s'.actions == After(s.actions,
              if a.sequence > c.limits.retention then a.sequence - c.limits.retention else 0))
      && (!d.status.Confirmed? ==> s' == s.(ballots := s'.ballots))
  {
    hide Attest;
  }

  /** What a run remembers of an attestation: the vote, the mark of a divergent sequence, the confirmed snapshot. */
  lemma {:induction false} AttestRemembers(c: Config, s: Store, p: Past, floor: nat, a: Attestation, presence: Presence)
    ensures
      var p', d := PastAttest(c, s, p, floor, a, presence), Attest(s.ballots, floor, a, presence).1;
      && p'.history == p.history && p'.votes == p.votes + {Vote(a.sequence, a.player, a.stateHash)}
      && p'.marks == (if d.status.Divergent? then p.marks + {a.sequence} else p.marks)
      && p'.confirmed == (if d.status.Confirmed? then p.confirmed + [d.candidate.snapshot] else p.confirmed)
  {
    hide Attest, AlwaysTrue, TrueBase;
  }

  /** A confirmation counts an honest attester: one whose every vote at the sequence was for the true hash. */
  lemma {:induction false} VouchedIff(c: Config, s: Store, p: Past, floor: nat, a: Attestation, presence: Presence)
    requires s.initial.Some? && a.sequence <= |p.history|
    ensures
      var p', d := PastAttest(c, s, p, floor, a, presence), Attest(s.ballots, floor, a, presence).1;
      var truth := Play(c.kernel.apply, s.initial.value.state, p.history[..a.sequence]);
      p'.vouched <==> p.vouched && (d.status.Confirmed? ==>
        exists player: PlayerId :: player in d.attesters &&
          forall vote :: vote in p'.votes && vote.player == player && vote.sequence == a.sequence ==>
            vote.stateHash == c.kernel.hash(truth))
  {
    hide Attest, TrueBase, Play;
    var p', d := PastAttest(c, s, p, floor, a, presence), Attest(s.ballots, floor, a, presence).1;
    FoldPlays(c.kernel, s.initial.value, p.history[..a.sequence]);
    var truth := Play(c.kernel.apply, s.initial.value.state, p.history[..a.sequence]);
    assert truth == StateAt(c.kernel, s.initial.value, p.history, a.sequence).state;
    forall player: PlayerId
      ensures AlwaysTrue(c, s, p, a, player) <==>
        forall vote :: vote in p'.votes && vote.player == player && vote.sequence == a.sequence ==>
          vote.stateHash == c.kernel.hash(truth)
    {
      if AlwaysTrue(c, s, p, a, player) {
        forall vote | vote in p'.votes && vote.player == player && vote.sequence == a.sequence
          ensures vote.stateHash == c.kernel.hash(truth)
        {
          assert vote == Vote(a.sequence, player, vote.stateHash);
        }
      }
    }
  }

  // ---------------------------------------------------------------------------
  // Welcome and departure
  // ---------------------------------------------------------------------------

  /** The first connected player in join order. */
  predicate OldestOf(players: seq<PlayerRow>, connected: set<PlayerId>, player: PlayerId) {
    exists i :: 0 <= i < |players| && OldestAt(players, connected, player, i)
  }

  predicate OldestAt(players: seq<PlayerRow>, connected: set<PlayerId>, player: PlayerId, i: nat)
    requires i < |players|
  {
    players[i].id == player && player in connected && forall j :: 0 <= j < i ==> players[j].id !in connected
  }

  lemma {:induction false} FirstConnectedIff(players: seq<PlayerRow>, connected: set<PlayerId>, player: PlayerId)
    ensures FirstConnected(players, connected) == Some(player) <==> OldestOf(players, connected, player)
    decreases |players|
  {
    if players != [] {
      FirstConnectedIff(players[1..], connected, player);
      if players[0].id !in connected {
        forall i | 0 <= i < |players| - 1
          ensures OldestAt(players[1..], connected, player, i) <==> OldestAt(players, connected, player, i + 1)
        {
          assert forall j :: 0 <= j < i ==> players[1..][j] == players[j + 1];
          assert forall j :: 1 <= j < i + 1 ==> players[j] == players[1..][j - 1];
        }
        if i :| 0 <= i < |players| && OldestAt(players, connected, player, i) {
          assert OldestAt(players[1..], connected, player, i - 1);
        }
      } else {
        assert OldestAt(players, connected, players[0].id, 0);
      }
    }
  }

  /**
   Who hosts once a socket is gone: whoever did, unless it was the host's last one and
   somebody in the room is connected; then the oldest of those.
   */
  lemma {:induction false} HostIs(s: Store, leaving: Phase, left: set<PlayerId>, player: PlayerId)
    ensures
      var gone := !leaving.Unauthenticated? && s.host == Some(leaving.player) && leaving.player !in left;
      HostAfter(s, leaving, left) == Some(player) <==>
        if gone && exists other: PlayerId :: OldestOf(s.players, left, other) then OldestOf(s.players, left, player)
        else s.host == Some(player)
  {
    FirstConnectedIff(s.players, left, player);
    if FirstConnected(s.players, left).Some? {
      FirstConnectedIff(s.players, left, FirstConnected(s.players, left).value);
    }
    forall other: PlayerId | OldestOf(s.players, left, other) ensures FirstConnected(s.players, left) == Some(other) {
      FirstConnectedIff(s.players, left, other);
    }
  }

  /** A welcome stops the expiry clock; a departure starts it if it leaves the room empty. Both are heartbeats. */
  lemma {:induction false} ComingAndGoing(s: Store, host: Option<PlayerId>, multi: Option<int>, now: int)
    ensures Welcomed(s, multi, now) ==
      s.(lastMultiBootstrapAt := multi, emptySinceAt := None, lastHeartbeatAt := Some(now))
    ensures Departed(s, host, false, multi, now) ==
      s.(host := host, lastMultiBootstrapAt := multi, emptySinceAt := None, lastHeartbeatAt := Some(now))
    ensures Departed(s, host, true, multi, now) ==
      s.(host := host, lastMultiBootstrapAt := multi, lastHeartbeatAt := Some(now),
        emptySinceAt := if s.emptySinceAt.Some? then s.emptySinceAt else Some(now))
  {
  }
}
