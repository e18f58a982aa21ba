/**
 Everything a room stores (the `room` row and the tables of apps/worker/src/index.ts) as
 one value, which a transaction reads and at its end replaces; and what each committed
 transaction keeps.
 */
module RoomStore {
  import opened Wrappers
  import opened Kernel
  import opened RoomCoreModel
  import opened ActionLog
  import opened Seating
  import opened Liveness
  import opened Delivery
  import opened RoomInvariants
  import opened Consensus
  import opened RoomTables
  import opened RoomSteps

  /** Where the initial snapshot of a new room comes from: built in, uploaded, or nowhere. */
  datatype Fetched = Builtin(snapshot: Snapshot) | Uploaded(snapshot: Snapshot) | Unknown

  /** What creation fixes. */
  datatype Config = Config(kernel: Kernel, limits: Limits, release: nat, capacity: nat, resumed: bool)

  datatype Store = Store(
    ended: Option<EndReason>,
    lastSequence: nat,
    started: bool,
    initial: Option<Snapshot>,
    checkpoint: Option<Snapshot>,
    attested: bool,
    scripted: Option<bool>,
    joinable: bool,
    lastHeartbeatAt: Option<int>,
    emptySinceAt: Option<int>,
    lastActionAt: Option<int>,
    lastMultiBootstrapAt: Option<int>,
    host: Option<PlayerId>,
    pendingSince: Option<int>,
    players: seq<PlayerRow>,
    actions: seq<Action>,
    dedup: map<RequestId, Action>,
    timers: map<TimerId, Timer>,
    ballots: Ballots,
    rates: map<PlayerId, Rate>)

  /** What a run leaves behind that the room itself does not remember. */
  datatype Past = Past(
    // everything the room ever sequenced
    history: seq<Action>,
    // every attested checkpoint so far was the true state
    truthful: bool,
    // every confirmation so far counted an attester who only ever voted for the true hash there
    vouched: bool,
    // every sequence ever found divergent, every vote, every confirmed checkpoint
    marks: set<nat>,
    votes: set<Vote>,
    confirmed: seq<Snapshot>)

  ghost predicate StoreOk(c: Config, s: Store, p: Past) {
    && LogPart(c.limits, IsScripted(s.scripted), s.checkpoint, p.history, s.actions, s.dedup, s.lastSequence)
    && StartPart(c.kernel, c.release, c.resumed, s.started, s.initial, s.scripted)
    && SystemOk(p.history, s.started, c.resumed, s.players, s.timers)
    && SeatPart(c.kernel, c.capacity, c.resumed, s.initial, s.players, s.host)
    && PausePart(c.kernel, c.resumed, s.started, s.initial, s.players, s.pendingSince, p.history)
    && CheckpointPart(c.kernel, c.limits, c.release, s.initial, IsScripted(s.scripted), s.checkpoint, s.attested,
        p.history, p.truthful, p.confirmed)
    && BallotPart(c.kernel, c.limits, c.release, IsScripted(s.scripted), s.checkpoint, |p.history|, s.ballots, p.marks,
        p.votes)
    && (p.vouched && Collisionless(c.kernel) ==> p.truthful)
    && (p.marks != {} ==> s.started)
  }

  lemma {:induction false} StoreFacts(c: Config, s: Store, p: Past)
    requires StoreOk(c, s, p)
    ensures Numbered(p.history) && |p.history| <= MAX_SAFE_INTEGER && s.lastSequence == |p.history|
    ensures s.initial.Some? ==> s.initial.value.sequence == 0 && s.initial.value.release == c.release
    ensures s.started || c.resumed <==> s.initial.Some?
    ensures s.pendingSince.Some? ==> s.started && c.resumed
    ensures c.resumed ==>
      && s.scripted == Some(c.kernel.requiresScripts(s.initial.value.state))
      && Distinct(c.kernel.saved(s.initial.value.state).seats)
  {
  }

  lemma {:induction false} KnownIsFromLog(c: Config, s: Store, p: Past, q: RequestId)
    requires StoreOk(c, s, p) && q in s.dedup
    ensures FromLog(p.history, Ordered(s.dedup[q]))
  {
  }

  /** Liveness columns, the end and the quickplay flag are no part of the invariant. */
  lemma {:induction false} TouchKeeps(c: Config, s: Store, p: Past, s': Store)
    requires StoreOk(c, s, p)
    requires s' == s.(ended := s'.ended, joinable := s'.joinable,
      lastHeartbeatAt := s'.lastHeartbeatAt, emptySinceAt := s'.emptySinceAt,
      lastActionAt := s'.lastActionAt, lastMultiBootstrapAt := s'.lastMultiBootstrapAt, rates := s'.rates)
    ensures StoreOk(c, s', p)
    ensures s.ended.None? || s'.ended == s.ended ==> Progress(c.limits, Traced(c, s, p), Traced(c, s', p))
  {
  }

  function FreshStore(initial: Option<Snapshot>, scripted: Option<bool>): Store {
    Store(None, 0, false, initial, None, false, scripted, true, None, None, None, None, None, None, [], [], map[],
        map[], Ballots(map[], map[]), map[])
  }

  /** Nobody is there, nothing has happened, and quick play may find the room. */
  predicate NothingYet(s: Store) {
    && s.joinable && !s.started && s.ended.None? && s.host.None? && s.pendingSince.None?
    && s.lastHeartbeatAt.None? && s.emptySinceAt.None? && s.lastActionAt.None? && s.lastMultiBootstrapAt.None?
    && s.lastSequence == 0 && s.actions == [] && s.dedup == map[] && s.players == [] && s.timers == map[]
    && s.checkpoint.None? && !s.attested && s.ballots.candidates == map[] && s.ballots.attesters == map[]
    && s.rates == map[]
  }

  function NoPast(): Past {
    Past([], true, true, {}, {}, [])
  }

  lemma {:induction false} EmptyLogOk(c: Config, scripted: bool)
    requires c.limits.Valid()
    ensures LogPart(c.limits, scripted, None, [], [], map[], 0)
    ensures SystemOk([], false, c.resumed, [], map[])
  {
    hide Lo, SystemOk, LogOk;
    EmptySystemOk(c.resumed);
    LoOfNothing(c.limits, scripted);
    EmptyRowsOk(c.limits, 0);
  }

  lemma {:induction false} LoOfNothing(limits: Limits, scripted: bool)
    ensures Lo(limits, scripted, None, 0) == 0
  {
  }

  lemma {:induction false} EmptySystemOk(resumed: bool)
    ensures SystemOk([], false, resumed, [], map[])
  {
  }

  lemma {:induction false} EmptyRowsOk(limits: Limits, lo: nat)
    requires limits.Valid() && lo == 0
    ensures LogOk(limits, [], [], lo)
  {
    var none: seq<Action> := [];
    assert none[0..] == none;
  }

  lemma {:induction false} NoCheckpointOk(c: Config, initial: Option<Snapshot>, scripted: bool)
    requires c.limits.Valid()
    ensures BallotPart(c.kernel, c.limits, c.release, scripted, None, 0, Ballots(map[], map[]), {}, {})
    ensures CheckpointPart(c.kernel, c.limits, c.release, initial, scripted, None, false, [], true, [])
  {
  }

  lemma {:induction false} FreshStoreOk(c: Config, initial: Option<Snapshot>, scripted: Option<bool>)
    requires c.limits.Valid() && StartPart(c.kernel, c.release, c.resumed, false, initial, scripted)
    ensures StoreOk(c, FreshStore(initial, scripted), NoPast())
    ensures SocketsOk(c.kernel, initial, false, true, [], map[], map[])
  {
    hide LogPart, SystemOk, BallotPart, CheckpointPart;
    EmptyLogOk(c, IsScripted(scripted));
    NoCheckpointOk(c, initial, IsScripted(scripted));
  }

  /** Whether a late client can be given a base. */
  predicate CanBootstrap(c: Config, s: Store, p: Past) {
    HasBase(c.limits, IsScripted(s.scripted), s.checkpoint, |p.history|)
  }

  function Traced(c: Config, s: Store, p: Past): Trace {
    Trace(p.history, s.players, s.timers, s.started, s.pendingSince, s.ended, p.confirmed, CanBootstrap(c, s, p))
  }

  /** Whether the rows of a transaction that sequenced `more` meet no constraint of the action table. */
  ghost predicate Persists(c: Config, s: Store, p: Past, more: seq<Action>) {
    CanPersist(c.limits, IsScripted(s.scripted), s.checkpoint, p.history, more)
  }

  ghost function AdvanceWith(c: Config, s: Store, p: Past, more: seq<Action>): Advance {
    Advanced(c.kernel, c.limits, IsScripted(s.scripted), s.initial, s.checkpoint, p.history + more)
  }

  /** `last_sequence`, the action rows and the checkpoint after a transaction that sequenced `more`. */
  function Logged(s: Store, n: nat, rows: seq<Action>, adv: Advance, now: int): Store {
    s.(lastSequence := n, actions := rows, lastActionAt := Some(now), checkpoint := Checkpointed(s.checkpoint, adv),
        attested := s.attested && !adv.To?)
  }

  /** What every transaction that appends to the log leaves of the checkpoint and the candidates. */
  lemma {:induction false} LoggedKeeps(c: Config, s: Store, p: Past, more: seq<Action>)
    requires StoreOk(c, s, p) && more != [] && !AdvanceWith(c, s, p, more).Throws? && HistoryOk(p.history + more)
    ensures
      var adv := AdvanceWith(c, s, p, more);
      var h, cp := p.history + more, Checkpointed(s.checkpoint, adv);
      && CheckpointPart(c.kernel, c.limits, c.release, s.initial, IsScripted(s.scripted), cp, s.attested && !adv.To?, h,
          p.truthful, p.confirmed)
      && BallotPart(c.kernel, c.limits, c.release, IsScripted(s.scripted), cp, |h|, s.ballots, p.marks, p.votes)
  {
    CheckpointLater(c.kernel, c.limits, c.release, s.initial, IsScripted(s.scripted), s.checkpoint, s.attested,
        p.history, p.truthful, p.confirmed, more);
    BallotsLater(c.kernel, c.limits, c.release, IsScripted(s.scripted), s.initial, s.checkpoint, p.history, more,
        s.ballots, p.marks, p.votes);
  }

  /** What they leave of the base. */
  lemma {:induction false} LoggedBase(c: Config, s: Store, p: Past, more: seq<Action>)
    requires StoreOk(c, s, p) && !AdvanceWith(c, s, p, more).Throws? && Numbered(p.history + more)
    ensures
      var cp := Checkpointed(s.checkpoint, AdvanceWith(c, s, p, more));
      var after := HasBase(c.limits, IsScripted(s.scripted), cp, |p.history + more|);
      && (after ==> CanBootstrap(c, s, p))
      && (CanBootstrap(c, s, p) && |more| <= Slack(c.limits) ==> after)
  {
    if more != [] && s.initial.Some? && CanBootstrap(c, s, p) && !IsScripted(s.scripted) {
      AdvanceKeepsLag(c.kernel, c.limits, s.initial.value, s.checkpoint, p.history, more);
    }
  }

  /** What they leave of the log, if they answer no request. */
  lemma {:induction false} SystemLogs(c: Config, s: Store, p: Past, more: seq<Action>, rows: seq<Action>)
    requires StoreOk(c, s, p) && !AdvanceWith(c, s, p, more).Throws?
    requires LogOk(c.limits, p.history + more, rows,
        Lo(c.limits, IsScripted(s.scripted), s.checkpoint, |p.history + more|))
    requires forall i :: 0 <= i < |more| ==> more[i].requestId.None?
    ensures
      var h := p.history + more;
      LogPart(c.limits, IsScripted(s.scripted), Checkpointed(s.checkpoint, AdvanceWith(c, s, p, more)), h, rows,
          s.dedup, |h|)
  {
    DedupLater(p.history, s.dedup, more);
  }

  function Extended(p: Past, more: seq<Action>): Past {
    p.(history := p.history + more)
  }

  /** A transaction that sequenced system actions, whose tables justify them. */
  lemma {:induction false} SystemKeeps(c: Config, s: Store, p: Past, more: seq<Action>, rows: seq<Action>, now: int,
      timers: map<TimerId, Timer>, pendingSince: Option<int>, players: seq<PlayerRow>, host: Option<PlayerId>)
    requires StoreOk(c, s, p) && more != [] && !AdvanceWith(c, s, p, more).Throws?
    requires LogOk(c.limits, p.history + more, rows,
        Lo(c.limits, IsScripted(s.scripted), s.checkpoint, |p.history + more|))
    requires forall i :: 0 <= i < |more| ==> more[i].requestId.None?
    requires SystemOk(p.history + more, s.started, c.resumed, players, timers)
    requires SeatPart(c.kernel, c.capacity, c.resumed, s.initial, players, host)
    requires PausePart(c.kernel, c.resumed, s.started, s.initial, players, pendingSince, p.history + more)
    ensures
      var s' := Logged(s, |p.history + more|, rows, AdvanceWith(c, s, p, more), now).(timers := timers,
          pendingSince := pendingSince, players := players, host := host);
      StoreOk(c, s', Extended(p, more))
  {
    LoggedKeeps(c, s, p, more);
    SystemLogs(c, s, p, more, rows);
  }

  /** What an unscripted room needs to advance its checkpoint over entries just appended. */
  lemma {:induction false} AdvanceFits(c: Config, s: Store, p: Past, more: seq<Action>)
    requires StoreOk(c, s, p) && !IsScripted(s.scripted) && HistoryOk(p.history + more)
    requires |p.history + more| <= MAX_SAFE_INTEGER
    ensures s.checkpoint.Some? ==> s.initial.Some?
    ensures s.initial.Some? ==>
      var h, base := p.history + more, if s.checkpoint.Some? then s.checkpoint.value else s.initial.value;
      var later := After(WindowOf(c.limits, h).actions, base.sequence);
      && (BaseConnects(base.sequence, WindowOf(c.limits, h)) <==> |h| - base.sequence <= c.limits.retention)
      && (Consecutive(later, base.sequence) <==> |h| - base.sequence <= c.limits.retention)
      && (Consecutive(later, base.sequence) ==>
            Fold(c.kernel, base, later) == StateAt(c.kernel, s.initial.value, h, |h|))
      && StateAt(c.kernel, s.initial.value, h, |h|).sequence == |h| && base.sequence == SequenceOf(s.checkpoint)
  {
    var h := p.history + more;
    if s.initial.Some? {
      var base := if s.checkpoint.Some? then s.checkpoint.value else s.initial.value;
      assert p.history[..0] == h[..0] == [];
      ReplayIffConnects(c.limits, h, base.sequence);
      TrueBaseLater(c.kernel, s.initial, s.checkpoint, p.history, more);
      StateAtSequence(c.kernel, s.initial.value, h, |h|);
      if FloorOf(c.limits, |h|) <= base.sequence { ReplayFromAnyBase(c.kernel, c.limits, s.initial.value, h, base); }
    }
  }

  /** The newest state is what the kernel makes of the initial one and the whole log. */
  lemma {:induction false} NewestPlays(c: Config, s: Store, h: seq<Action>)
    requires s.initial.Some?
    ensures StateAt(c.kernel, s.initial.value, h, |h|).state == Play(c.kernel.apply, s.initial.value.state, h)
  {
    FoldPlays(c.kernel, s.initial.value, h);
    assert h[..|h|] == h;
  }

  // ---------------------------------------------------------------------------
  // Requests
  // ---------------------------------------------------------------------------

  /** The entry a request not seen before is given. */
  function NextRequest(p: Past, requestId: RequestId, player: PlayerId, payload: Payload): Action {
    Action(|p.history| + 1, Act(|p.history| + 1), Some(requestId), Player(player), Requested(payload))
  }

  function AfterRequest(s: Store, a: Action, rows: seq<Action>, adv: Advance, now: int): Store {
    Logged(s, a.sequence, rows, adv, now).(joinable := false,
        dedup := if a.requestId.Some? then s.dedup[a.requestId.value := a] else s.dedup)
  }

  /** The next entry for a request nobody made before is in neither log nor window, and can be persisted. */
  lemma {:induction false} RequestFits(c: Config, s: Store, p: Past, q: RequestId, a: Action)
    requires StoreOk(c, s, p) && q !in s.dedup && a.sequence == |p.history| + 1 && a.actionId == Act(a.sequence)
    requires a.requestId == Some(q)
    ensures
      var window := WindowOf(c.limits, p.history);
      && (forall i :: 0 <= i < |window.actions| ==> window.actions[i].requestId != Some(q))
      && HistoryOk(p.history + [a]) && |p.history| <= MAX_SAFE_INTEGER
      && Pushed(c.limits, window, a) == WindowOf(c.limits, p.history + [a])
  {
    MissedEverywhere(c.limits, p.history, s.dedup, q);
    ExtendHistory(p.history, a);
    WindowSlides(c.limits, p.history, a);
  }

  lemma {:induction false} RequestPersists(c: Config, s: Store, p: Past, a: Action)
    requires StoreOk(c, s, p) && HistoryOk(p.history + [a]) && |p.history| < MAX_SAFE_INTEGER
    ensures
      var rows := Persist(c.limits, s.actions, a, !IsScripted(s.scripted));
      && (rows.Some? <==> Persists(c, s, p, [a]))
      && (rows.Some? ==>
            LogOk(c.limits, p.history + [a], rows.value,
              Lo(c.limits, IsScripted(s.scripted), s.checkpoint, |p.history| + 1)))
  {
    PersistNext(c.limits, IsScripted(s.scripted), s.checkpoint, p.history, s.actions, a);
    CanPersistOne(c.limits, IsScripted(s.scripted), s.checkpoint, p.history, a);
  }

  lemma {:induction false} RequestLogs(c: Config, s: Store, p: Past, a: Action, rows: seq<Action>)
    requires StoreOk(c, s, p) && a.requestId.Some? && a.requestId.value !in s.dedup && a.sequence == |p.history| + 1
    requires LogOk(c.limits, p.history + [a], rows, Lo(c.limits, IsScripted(s.scripted), s.checkpoint, |p.history| + 1))
    requires !AdvanceWith(c, s, p, [a]).Throws?
    ensures
      var h := p.history + [a];
      LogPart(c.limits, IsScripted(s.scripted), Checkpointed(s.checkpoint, AdvanceWith(c, s, p, [a])), h, rows,
          s.dedup[a.requestId.value := a], |h|)
  {
    DedupKeeps(p.history, s.dedup, a);
  }

  lemma {:induction false} RequestJustifiesNothing(c: Config, s: Store, p: Past, a: Action)
    requires StoreOk(c, s, p) && a.body.Requested? && a.actionId.Act?
    ensures SystemOk(p.history + [a], s.started, c.resumed, s.players, s.timers)
    ensures PausePart(c.kernel, c.resumed, s.started, s.initial, s.players, s.pendingSince, p.history + [a])
  {
    NoSeats(p.history, [a]);
    SystemExtends(p.history, [a], c.resumed, s.started, s.players, s.timers, s.started, s.players, s.timers);
    PauseLater(c.kernel, c.resumed, s.started, s.initial, s.players, s.pendingSince, p.history, [a]);
  }

  lemma {:induction false} RequestKeeps(c: Config, s: Store, p: Past, a: Action, rows: seq<Action>, now: int)
    requires StoreOk(c, s, p) && a.body.Requested? && a.actionId.Act? && a.requestId.Some?
    requires a.requestId.value !in s.dedup && a.sequence == |p.history| + 1
    requires LogOk(c.limits, p.history + [a], rows, Lo(c.limits, IsScripted(s.scripted), s.checkpoint, |p.history| + 1))
    requires !AdvanceWith(c, s, p, [a]).Throws?
    ensures
      var s', p' := AfterRequest(s, a, rows, AdvanceWith(c, s, p, [a]), now), Extended(p, [a]);
      StoreOk(c, s', p')
  {
    LoggedKeeps(c, s, p, [a]);
    RequestLogs(c, s, p, a, rows);
    RequestJustifiesNothing(c, s, p, a);
  }

  lemma {:induction false} RequestProgresses(c: Config, s: Store, p: Past, a: Action, rows: seq<Action>, now: int)
    requires StoreOk(c, s, p) && a.sequence == |p.history| + 1 && !AdvanceWith(c, s, p, [a]).Throws?
    ensures
      var s' := AfterRequest(s, a, rows, AdvanceWith(c, s, p, [a]), now);
      Progress(c.limits, Traced(c, s, p), Traced(c, s', Extended(p, [a])))
  {
    LoggedBase(c, s, p, [a]);
  }

  // ---------------------------------------------------------------------------
  // Start
  // ---------------------------------------------------------------------------

  function AfterStart(c: Config, s: Store, initial: Snapshot, scripted: bool, rows: seq<Action>, timers: map<TimerId,
      Timer>, now: int): Store {
    s.(started := true, initial := Some(initial), scripted := Some(scripted), lastSequence := 1, actions := rows,
        lastActionAt := Some(now), timers := timers,
       pendingSince := if c.resumed && Waiting(c.kernel.saved(initial.state),
           Seats(s.players)) then Some(now) else None)
  }

  function StartEntry(c: Config, s: Store, initial: Snapshot): Action {
    SystemEntry(0, StartKey(c.resumed), StartBody(c.kernel, c.resumed, initial, s.players))
  }

  /** The timers a start arms: those a saved table had scheduled. */
  function ArmsFor(c: Config, initial: Snapshot): seq<(TimerId, nat)> {
    if c.resumed then c.kernel.saved(initial.state).timers else []
  }

  /** The players in join order, each in the seat of the row, in nobody's place. */
  function LiveRoster(players: seq<PlayerRow>): (roster: seq<RosterEntry>)
    ensures |roster| == |players|
    ensures forall i :: 0 <= i < |players| ==>
      roster[i].player == players[i].id && roster[i].seat == players[i].seat && roster[i].previous.None?
  {
    seq(|players|, i requires 0 <= i < |players| => RosterEntry(players[i].id, players[i].seat, None))
  }

  /** The initial snapshot a starting room stores; None where the source throws. */
  function InitialFor(k: Kernel, release: nat, fetched: Fetched, players: seq<PlayerRow>): Option<Snapshot> {
    if fetched.Unknown? || fetched.snapshot.release != release || fetched.snapshot.sequence != 0 then None
    else if fetched.Builtin? then Some(fetched.snapshot)
    else Some(fetched.snapshot.(state := k.seedRoster(fetched.snapshot.state, LiveRoster(players))))
  }

  /** The base and the script flag of a room that starts now; None where the source throws. */
  function StartingFrom(c: Config, s: Store, fetched: Fetched): Option<(Snapshot, bool)> {
    if c.resumed then
      if s.initial.None? then None
      else Some((s.initial.value, c.kernel.requiresScripts(s.initial.value.state)))
    else
      match InitialFor(c.kernel, c.release, fetched, s.players)
      case None => None
      case Some(initial) => Some((initial, c.kernel.requiresScripts(fetched.snapshot.state)))
  }

  lemma {:induction false} StartingOk(c: Config, s: Store, p: Past, fetched: Fetched)
    requires StoreOk(c, s, p) && StartingFrom(c, s, fetched).Some?
    ensures
      var (initial, scripted) := StartingFrom(c, s, fetched).value;
      && initial.sequence == 0 && initial.release == c.release
      && (c.resumed ==> s.initial == Some(initial) && scripted == c.kernel.requiresScripts(initial.state))
  {
  }

  /**
   The stored tables once a hello has opened the room: started with the start action as its
   first entry, unless the room is over, runs already, is expired for what it sequenced
   before, or cannot start.
   */
  function Opened(c: Config, s: Store, p: Past, fetched: Fetched, now: int): Store {
    if s.ended.Some? || s.started then s
    else if p.history != [] then s.(ended := Some(Expired), joinable := false)
    else match StartingFrom(c, s, fetched)
      case None => s
      case Some((initial, scripted)) =>
        var timers := ArmAll(s.timers, ArmsFor(c, initial), now);
        AfterStart(c, s, initial, scripted, [StartEntry(c, s, initial)], timers, now)
  }

  /** What that appends to the log. */
  function Opening(c: Config, s: Store, p: Past, fetched: Fetched, now: int): seq<Action> {
    var after := Opened(c, s, p, fetched, now);
    if after.started && !s.started then after.actions else []
  }

  /** A room that can start. */
  predicate Starts(c: Config, s: Store, p: Past, fetched: Fetched) {
    s.ended.None? && !s.started && p.history == [] && StartingFrom(c, s, fetched).Some?
  }

  lemma {:induction false} OpeningFacts(c: Config, s: Store, p: Past, fetched: Fetched, now: int)
    ensures
      var after := Opened(c, s, p, fetched, now);
      && (after.started <==> s.started || Starts(c, s, p, fetched))
      && after.lastMultiBootstrapAt == s.lastMultiBootstrapAt
      && after.ended == (if s.ended.None? && !s.started && p.history != [] then Some(Expired) else s.ended)
      && (after.ended.Some? ==> after == if s.ended.Some? then s else s.(ended := Some(Expired), joinable := false))
    ensures Opening(c, s, p, fetched, now) ==
      if Starts(c, s, p, fetched) then [StartEntry(c, s, StartingFrom(c, s, fetched).value.0)] else []
  {
  }

  lemma {:induction false} StartLogs(c: Config, s: Store, p: Past, initial: Snapshot, scripted: bool)
    requires StoreOk(c, s, p) && !s.started && p.history == []
    ensures
      var a := StartEntry(c, s, initial);
      && LogPart(c.limits, scripted, None, [a], [a], s.dedup, 1)
      && s.checkpoint.None? && s.dedup == map[]
  {
    var a := StartEntry(c, s, initial);
    assert [] + [a] == [a] && [a][0..] == [a];
    ExtendBySystem([], StartKey(c.resumed), a.body);
  }

  lemma {:induction false} StartChecks(c: Config, s: Store, p: Past, initial: Snapshot, scripted: bool)
    requires StoreOk(c, s, p) && !s.started && p.history == [] && s.checkpoint.None?
    requires c.resumed ==> s.initial == Some(initial) && scripted == c.kernel.requiresScripts(initial.state)
    ensures
      var h := [StartEntry(c, s, initial)];
      && CheckpointPart(c.kernel, c.limits, c.release, Some(initial), scripted, None, s.attested, h, p.truthful,
          p.confirmed)
      && BallotPart(c.kernel, c.limits, c.release, scripted, None, 1, s.ballots, p.marks, p.votes)
  {
    assert s.ballots.candidates == map[];
  }

  lemma {:induction false} StartOpens(c: Config, s: Store, p: Past, initial: Snapshot, arms: seq<(TimerId, nat)>,
      now: int)
    requires StoreOk(c, s, p) && !s.started && p.history == []
    requires c.resumed ==> s.initial == Some(initial)
    ensures
      var a := StartEntry(c, s, initial);
      var pendingSince := if c.resumed && Waiting(c.kernel.saved(initial.state),
          Seats(s.players)) then Some(now) else None;
      && SystemOk([a], true, c.resumed, s.players, ArmAll(s.timers, arms, now))
      && PausePart(c.kernel, c.resumed, true, Some(initial), s.players, pendingSince, [a])
      && SeatPart(c.kernel, c.capacity, c.resumed, Some(initial), s.players, s.host)
  {
    ArmKeeps(s.timers, arms, now);
    var pendingSince := if c.resumed && Waiting(c.kernel.saved(initial.state),
        Seats(s.players)) then Some(now) else None;
    StartKeeps(c.kernel, c.resumed, initial, s.players, s.timers, ArmAll(s.timers, arms, now), c.capacity, s.host,
        pendingSince);
  }

  lemma {:induction false} StartFits(c: Config, s: Store, p: Past, a: Action, initial: Snapshot, scripted: bool,
      timers: map<TimerId, Timer>, now: int)
    requires p.history == [] && s.checkpoint.None? && (p.vouched && Collisionless(c.kernel) ==> p.truthful)
    requires StartPart(c.kernel, c.release, c.resumed, true, Some(initial), Some(scripted))
    requires LogPart(c.limits, scripted, None, [a], [a], s.dedup, 1)
    requires CheckpointPart(c.kernel, c.limits, c.release, Some(initial), scripted, None, s.attested, [a],
        p.truthful, p.confirmed)
    requires BallotPart(c.kernel, c.limits, c.release, scripted, None, 1, s.ballots, p.marks, p.votes)
    requires SystemOk([a], true, c.resumed, s.players, timers)
    requires SeatPart(c.kernel, c.capacity, c.resumed, Some(initial), s.players, s.host)
    requires PausePart(c.kernel, c.resumed, true, Some(initial), s.players,
        AfterStart(c, s, initial, scripted, [a], timers, now).pendingSince, [a])
    ensures StoreOk(c, AfterStart(c, s, initial, scripted, [a], timers, now), Extended(p, [a]))
  {
    hide LogPart, CheckpointPart, BallotPart, SystemOk, SeatPart, PausePart, Collisionless, ArmAll;
    assert p.history + [a] == [a];
  }

  /** The start: the first entry of the log, whatever joined, was registered or was rejected before. */
  lemma {:induction false} StartKeepsStore(c: Config, s: Store, p: Past, initial: Snapshot, scripted: bool,
      arms: seq<(TimerId, nat)>, now: int)
    requires StoreOk(c, s, p) && !s.started && p.history == []
    requires initial.sequence == 0 && initial.release == c.release
    requires c.resumed ==> s.initial == Some(initial) && scripted == c.kernel.requiresScripts(initial.state)
    ensures
      var a := StartEntry(c, s, initial);
      StoreOk(c, AfterStart(c, s, initial, scripted, [a], ArmAll(s.timers, arms, now), now), Extended(p, [a]))
  {
    StartLogs(c, s, p, initial, scripted);
    StartChecks(c, s, p, initial, scripted);
    StartOpens(c, s, p, initial, arms, now);
    StartFits(c, s, p, StartEntry(c, s, initial), initial, scripted, ArmAll(s.timers, arms, now), now);
  }

  /** A start touches no column that decides whether the room lives. */
  lemma {:induction false} StartTouches(c: Config, s: Store, initial: Snapshot, scripted: bool, rows: seq<Action>,
      timers: map<TimerId, Timer>, now: int)
    ensures
      var s' := AfterStart(c, s, initial, scripted, rows, timers, now);
      && s'.ended == s.ended && s'.lastHeartbeatAt == s.lastHeartbeatAt && s'.emptySinceAt == s.emptySinceAt
      && s'.timers == timers && s'.started && s'.initial == Some(initial)
  {
  }

  lemma {:induction false} StartProgresses(c: Config, s: Store, p: Past, initial: Snapshot, scripted: bool,
      rows: seq<Action>, arms: seq<(TimerId, nat)>, now: int)
    requires StoreOk(c, s, p) && !s.started && p.history == [] && |rows| == 1
    ensures
      var s' := AfterStart(c, s, initial, scripted, rows, ArmAll(s.timers, arms, now), now);
      Progress(c.limits, Traced(c, s, p), Traced(c, s', Extended(p, rows)))
  {
    ArmingEvolves(s.timers, arms, now);
  }

  // ---------------------------------------------------------------------------
  // Join
  // ---------------------------------------------------------------------------

  function Admitted(s: Store, row: PlayerRow): Store {
    s.(players := s.players + [row], host := if s.host.None? then Some(row.id) else s.host)
  }

  function Claims(c: Config, s: Store, seat: SeatId): Option<PlayerId> {
    ClaimedFrom(c.kernel, c.resumed, s.initial, s.pendingSince, seat)
  }

  function Pause(c: Config, s: Store, seat: SeatId): Option<int> {
    PauseAfter(c.kernel, s.initial, s.pendingSince, Seats(s.players) + [seat])
  }

  function Unpaused(c: Config, s: Store, seat: SeatId, now: int): map<TimerId, Timer> {
    if s.pendingSince.Some? && Pause(c, s, seat).None? then EndPause(s.timers, s.pendingSince.value, now) else s.timers
  }

  function AfterJoin(c: Config, s: Store, row: PlayerRow, n: nat, rows: seq<Action>, adv: Advance, now: int): Store {
    Logged(s, n, rows, adv, now).(
      timers := Unpaused(c, s, row.seat, now), pendingSince := Pause(c, s, row.seat),
      players := s.players + [row], host := if s.host.None? then Some(row.id) else s.host)
  }

  /** The seat a joining player is given. */
  ghost predicate NextSeat(c: Config, s: Store, seat: SeatId) {
    if c.resumed && s.initial.Some? then
      Seats(s.players) + [seat] == SeatsInOrder(c.kernel.saved(s.initial.value.state).seats, |s.players| + 1)
    else seat == Generated(|s.players| + 1)
  }

  lemma {:induction false} NextSeatFree(c: Config, s: Store, p: Past, seat: SeatId)
    requires StoreOk(c, s, p) && NextSeat(c, s, seat)
    ensures seat !in Seats(s.players)
  {
    if c.resumed {
      SeatsDistinct(c.kernel.saved(s.initial.value.state).seats, |s.players| + 1);
      assert forall i :: 0 <= i < |s.players| ==> (Seats(s.players) + [seat])[i] == Seats(s.players)[i];
      assert (Seats(s.players) + [seat])[|s.players|] == seat;
    }
  }

  lemma {:induction false} EarlyJoinKeepsStore(c: Config, s: Store, p: Past, row: PlayerRow)
    requires StoreOk(c, s, p) && !s.started && |s.players| < c.capacity && row.id !in Ids(s.players)
    requires NextSeat(c, s, row.seat)
    ensures StoreOk(c, Admitted(s, row), p) && Progress(c.limits, Traced(c, s, p), Traced(c, Admitted(s, row), p))
  {
    EarlyJoinKeepsSystem(p.history, row, c.resumed, s.players, s.timers);
    JoinKeepsSeats(c.kernel, c.capacity, c.resumed, s.initial, s.players, s.host, row);
  }

  /** The tables of people and the pause through a join of a running room; only a claim can end the pause. */
  lemma {:induction false} JoinSeats(c: Config, s: Store, p: Past, row: PlayerRow, now: int)
    requires StoreOk(c, s, p) && s.started && |s.players| < c.capacity && row.id !in Ids(s.players)
    requires NextSeat(c, s, row.seat)
    ensures
      var h := p.history + JoinActions(|p.history|, row, Claims(c, s, row.seat));
      && SystemOk(h, true, c.resumed, s.players + [row], Unpaused(c, s, row.seat, now))
      && SeatPart(c.kernel, c.capacity, c.resumed, s.initial, s.players + [row],
          if s.host.None? then Some(row.id) else s.host)
      && PausePart(c.kernel, c.resumed, true, s.initial, s.players + [row], Pause(c, s, row.seat), h)
      && (Pause(c, s, row.seat) != s.pendingSince ==> Claims(c, s, row.seat).Some?)
  {
    NextSeatFree(c, s, p, row.seat);
    SeatsAppend(s.players, row);
    JoinKeepsSystem(p.history, row, Claims(c, s, row.seat), c.resumed, s.players, s.timers,
        Unpaused(c, s, row.seat, now));
    JoinKeepsSeats(c.kernel, c.capacity, c.resumed, s.initial, s.players, s.host, row);
    JoinKeepsPause(c.kernel, c.resumed, s.initial, s.players, s.pendingSince, p.history, row);
  }

  lemma {:induction false} JoinLogs(c: Config, s: Store, p: Past, row: PlayerRow)
    requires StoreOk(c, s, p) && row.id !in Ids(s.players)
    ensures LogOk(c.limits, p.history, s.actions, Lo(c.limits, IsScripted(s.scripted), s.checkpoint, |p.history|))
    ensures HistoryOk(p.history + JoinActions(|p.history|, row, Claims(c, s, row.seat)))
    ensures forall i :: 0 <= i < |p.history| ==>
      && p.history[i].actionId != Sys(SeatClaim(row.id))
      && p.history[i].actionId != Sys(PlayerJoined(row.id)) && p.history[i].actionId != Sys(SeatAssign(row.id))
  {
    JoinKeepsHistory(p.history, row, Claims(c, s, row.seat), s.started, c.resumed, s.players, s.timers);
  }

  /** Only a claim can end the pause. */
  lemma {:induction false} JoinEndsPause(c: Config, s: Store, p: Past, row: PlayerRow, now: int)
    requires StoreOk(c, s, p) && s.started && |s.players| < c.capacity && row.id !in Ids(s.players)
    requires NextSeat(c, s, row.seat)
    ensures Claims(c, s, row.seat).None? ==>
      Pause(c, s, row.seat) == s.pendingSince && Unpaused(c, s, row.seat, now) == s.timers
  {
    JoinSeats(c, s, p, row, now);
  }

  lemma {:induction false} JoinProgresses(c: Config, s: Store, p: Past, row: PlayerRow, more: seq<Action>,
      rows: seq<Action>, now: int)
    requires StoreOk(c, s, p) && s.started && !AdvanceWith(c, s, p, more).Throws? && Numbered(p.history + more)
    requires more == JoinActions(|p.history|, row, Claims(c, s, row.seat))
    ensures
      var s' := AfterJoin(c, s, row, |p.history + more|, rows, AdvanceWith(c, s, p, more), now);
      Progress(c.limits, Traced(c, s, p), Traced(c, s', Extended(p, more)))
  {
    JoinIsLogged(p.history, row, Claims(c, s, row.seat));
    LoggedBase(c, s, p, more);
  }

  lemma {:induction false} JoinKeepsStore(c: Config, s: Store, p: Past, row: PlayerRow, rows: seq<Action>, now: int)
    requires StoreOk(c, s, p) && s.started && |s.players| < c.capacity && row.id !in Ids(s.players)
    requires NextSeat(c, s, row.seat)
    requires
      var more := JoinActions(|p.history|, row, Claims(c, s, row.seat));
      && !AdvanceWith(c, s, p, more).Throws?
      && LogOk(c.limits, p.history + more, rows, Lo(c.limits, IsScripted(s.scripted), s.checkpoint, |p.history + more|))
    ensures
      var more := JoinActions(|p.history|, row, Claims(c, s, row.seat));
      var s', p' := AfterJoin(c, s, row, |p.history + more|, rows, AdvanceWith(c, s, p, more), now), Extended(p, more);
      StoreOk(c, s', p')
  {
    var more := JoinActions(|p.history|, row, Claims(c, s, row.seat));
    JoinSeats(c, s, p, row, now);
    SystemKeeps(c, s, p, more, rows, now, Unpaused(c, s, row.seat, now), Pause(c, s, row.seat), s.players + [row],
        if s.host.None? then Some(row.id) else s.host);
  }

  // ---------------------------------------------------------------------------
  // Timers
  // ---------------------------------------------------------------------------

  /** What a registration and a cancellation leave of the timers. */
  predicate OnlyCanceled(s: Store, timers: map<TimerId, Timer>) {
    forall t :: t in s.timers ==>
      && t in timers
      && (timers[t] == s.timers[t] || timers[t] == s.timers[t].(status := Canceled))
  }

  /** Timer rows replaced by later lives of theirs, none of which fired. */
  lemma {:induction false} TimersKeepStore(c: Config, s: Store, p: Past, timers: map<TimerId, Timer>)
    requires StoreOk(c, s, p) && Evolves(s.timers, timers)
    requires forall t :: t in timers && timers[t].status.HasFired? ==> t in s.timers && s.timers[t].status.HasFired?
    ensures StoreOk(c, s.(timers := timers), p)
    ensures OnlyCanceled(s, timers) ==> Progress(c.limits, Traced(c, s, p), Traced(c, s.(timers := timers), p))
  {
    assert p.history + [] == p.history;
    NoSeats(p.history, []);
    SystemExtends(p.history, [], c.resumed, s.started, s.players, s.timers, s.started, s.players, timers);
  }

  lemma {:induction false} RegistrationKeepsStore(c: Config, s: Store, p: Past, t: TimerId, dueAt: int)
    requires StoreOk(c, s, p)
    ensures
      var s' := s.(timers := Register(s.timers, t, dueAt));
      StoreOk(c, s', p) && Progress(c.limits, Traced(c, s, p), Traced(c, s', p))
  {
    hide StoreOk, Progress;
    TimersKeepStore(c, s, p, Register(s.timers, t, dueAt));
  }

  lemma {:induction false} CancellationKeepsStore(c: Config, s: Store, p: Past, t: TimerId)
    requires StoreOk(c, s, p)
    ensures
      var s' := s.(timers := Cancel(s.timers, t));
      StoreOk(c, s', p) && Progress(c.limits, Traced(c, s, p), Traced(c, s', p))
  {
    hide StoreOk, Progress;
    TimersKeepStore(c, s, p, Cancel(s.timers, t));
  }

  /** The rows the alarm selects, in its order. */
  ghost predicate DueInOrder(s: Store, due: seq<TimerId>, now: int) {
    InOrder(s.timers, due) && forall t :: t in due <==> Due(s.timers, t, now)
  }

  /** What the alarm sequences: one entry per due timer that is not deferred. */
  function AlarmLog(s: Store, p: Past, due: seq<TimerId>, now: int): seq<Action> {
    FireLog(|p.history|, Fires(s.timers, due, now, s.lastActionAt))
  }

  /** A transaction that sequenced `more` cannot be committed. */
  ghost predicate Blocked(c: Config, s: Store, p: Past, more: seq<Action>) {
    !Persists(c, s, p, more) || AdvanceWith(c, s, p, more).Throws?
  }

  function AfterAlarmed(s: Store, more: seq<Action>, rows: seq<Action>, adv: Advance, now: int): Store {
    (if more == [] then s else Logged(s, s.lastSequence + |more|, rows, adv, now)).(timers := TimersAfterAlarm(s.timers,
        now, s.lastActionAt))
  }

  /** The alarm's transaction: each due timer fires or is deferred, the fired ones are sequenced. */
  lemma {:induction false} AlarmKeepsStore(c: Config, s: Store, p: Past, due: seq<TimerId>, more: seq<Action>,
      rows: seq<Action>, now: int)
    requires StoreOk(c, s, p) && DueInOrder(s, due, now) && more == AlarmLog(s, p, due, now)
    requires more != [] ==>
      && !AdvanceWith(c, s, p, more).Throws?
      && LogOk(c.limits, p.history + more, rows, Lo(c.limits, IsScripted(s.scripted), s.checkpoint, |p.history + more|))
    ensures StoreOk(c, AfterAlarmed(s, more, rows, AdvanceWith(c, s, p, more), now),
        Extended(p, more)) && Numbered(p.history + more)
  {
    StoreFacts(c, s, p);
    if more == [] {
      assert p.history + more == p.history;
      QuietAlarmKeepsStore(c, s, p, due, now);
    } else {
      LoudAlarmKeepsStore(c, s, p, due, rows, now);
    }
  }

  lemma {:induction false} LoudAlarmKeepsStore(c: Config, s: Store, p: Past, due: seq<TimerId>, rows: seq<Action>,
      now: int)
    requires StoreOk(c, s, p) && DueInOrder(s, due, now)
    requires
      var more := AlarmLog(s, p, due, now);
      && more != [] && !AdvanceWith(c, s, p, more).Throws?
      && LogOk(c.limits, p.history + more, rows, Lo(c.limits, IsScripted(s.scripted), s.checkpoint, |p.history + more|))
    ensures
      var more := AlarmLog(s, p, due, now);
      StoreOk(c, AfterAlarmed(s, more, rows, AdvanceWith(c, s, p, more), now), Extended(p, more))
  {
    var more := AlarmLog(s, p, due, now);
    AlarmKeepsSystem(p.history, s.started, c.resumed, s.players, s.timers, due, now, s.lastActionAt);
    PauseLater(c.kernel, c.resumed, s.started, s.initial, s.players, s.pendingSince, p.history, more);
    SystemKeeps(c, s, p, more, rows, now, TimersAfterAlarm(s.timers, now, s.lastActionAt), s.pendingSince, s.players,
        s.host);
  }

  lemma {:induction false} AlarmProgresses(c: Config, s: Store, p: Past, more: seq<Action>, rows: seq<Action>, now: int)
    requires StoreOk(c, s, p) && s.pendingSince.None? && Numbered(p.history + more)
    requires more != [] ==> !AdvanceWith(c, s, p, more).Throws?
    ensures
      var s' := AfterAlarmed(s, more, rows, AdvanceWith(c, s, p, more), now);
      Progress(c.limits, Traced(c, s, p), Traced(c, s', Extended(p, more)))
  {
    AlarmEvolves(s.timers, now, s.lastActionAt);
    if more == [] { ExtendedByNothing(p); } else { LoggedBase(c, s, p, more); }
  }

  /** The liveness half of the alarm: an empty room expires at its time, a connected one has a heartbeat. */
  function AfterLiveness(s: Store, connections: nat, now: int): Store {
    var plan := PlanRoom(now, connections, s.lastHeartbeatAt, s.emptySinceAt);
    if plan.expiryDue then s.(ended := Some(Expired), joinable := false)
    else s.(lastHeartbeatAt := if plan.heartbeatDue then Some(now) else s.lastHeartbeatAt)
  }

  lemma {:induction false} AlarmEvolves(timers: map<TimerId, Timer>, now: int, lastActionAt: Option<int>)
    ensures Evolves(timers, TimersAfterAlarm(timers, now, lastActionAt))
  {
  }

  /** The timer rows once the alarm has handled some of the due ones. */
  function AlarmedUpTo(timers: map<TimerId, Timer>, done: seq<TimerId>, now: int,
      lastActionAt: Option<int>): map<TimerId, Timer> {
    map t | t in timers :: if t in done then AfterAlarm(now, timers[t], lastActionAt) else timers[t]
  }

  lemma {:induction false} AlarmNext(timers: map<TimerId, Timer>, due: seq<TimerId>, i: nat, now: int,
      lastActionAt: Option<int>)
    requires i < |due| && InOrder(timers, due)
    ensures
      var t, before := due[i], AlarmedUpTo(timers, due[..i], now, lastActionAt);
      && t in before && before[t] == timers[t]
      && AlarmedUpTo(timers, due[..i + 1], now, lastActionAt) == before[t := AfterAlarm(now, timers[t], lastActionAt)]
  {
    assert due[..i + 1] == due[..i] + [due[i]];
    assert due[i] !in due[..i];
  }

  lemma {:induction false} AlarmedAll(timers: map<TimerId, Timer>, due: seq<TimerId>, now: int,
      lastActionAt: Option<int>)
    requires forall t :: t in due <==> Due(timers, t, now)
    ensures AlarmedUpTo(timers, due, now, lastActionAt) == TimersAfterAlarm(timers, now, lastActionAt)
  {
    forall t | t in timers ensures AlarmedUpTo(timers, due, now, lastActionAt)[t] == TimersAfterAlarm(timers, now,
        lastActionAt)[t] {
      assert t in due <==> Due(timers, t, now);
    }
  }

  lemma {:induction false} FireStarts(c: Config, s: Store, p: Past, due: seq<TimerId>, now: int)
    requires StoreOk(c, s, p)
    ensures LogOk(c.limits, p.history + [], s.actions,
        Lo(c.limits, IsScripted(s.scripted), s.checkpoint, |p.history + []|)) && p.history + [] == p.history
    ensures FireLog(|p.history|, Fires(s.timers, due[..0], now, s.lastActionAt)) == []
    ensures AlarmedUpTo(s.timers, due[..0], now, s.lastActionAt) == s.timers
    ensures Persists(c, s, p, [])
  {
    assert due[..0] == [];
  }

  /** A due timer that fires has not been sequenced, neither in the log nor earlier in this alarm. */
  lemma {:induction false} FireFresh(c: Config, s: Store, p: Past, due: seq<TimerId>, i: nat, now: int)
    requires StoreOk(c, s, p) && InOrder(s.timers, due) && i < |due| && Due(s.timers, due[i], now)
    ensures
      var all := p.history + FireLog(|p.history|, Fires(s.timers, due[..i], now, s.lastActionAt));
      forall j :: 0 <= j < |all| ==> all[j].actionId != Sys(TimerFire(due[i]))
  {
    var fired := Fires(s.timers, due[..i], now, s.lastActionAt);
    var all := p.history + FireLog(|p.history|, fired);
    NotYetSequenced(p.history, TimerFire(due[i]), s.started, c.resumed, s.players, s.timers);
    forall j | |p.history| <= j < |all| ensures all[j].actionId != Sys(TimerFire(due[i])) {
      var t := fired[j - |p.history|];
      assert t in fired;
      FiresWithin(s.timers, due[..i], now, s.lastActionAt, t);
    }
  }

  lemma {:induction false} QuietAlarmKeepsStore(c: Config, s: Store, p: Past, due: seq<TimerId>, now: int)
    requires StoreOk(c, s, p) && forall t :: t in due <==> Due(s.timers, t, now)
    requires FireLog(|p.history|, Fires(s.timers, due, now, s.lastActionAt)) == []
    ensures StoreOk(c, s.(timers := TimersAfterAlarm(s.timers, now, s.lastActionAt)), p)
  {
    var timers := TimersAfterAlarm(s.timers, now, s.lastActionAt);
    assert |Fires(s.timers, due, now, s.lastActionAt)| == 0;
    forall t | t in s.timers ensures !FiresNow(s.timers, t, now, s.lastActionAt) {
      FiresWithin(s.timers, due, now, s.lastActionAt, t);
    }
    TimersKeepStore(c, s, p, timers);
  }

  lemma {:induction false} ExtendedByNothing(p: Past)
    ensures Extended(p, []) == p
  {
    assert p.history + [] == p.history;
  }

  lemma {:induction false} FiresGrow(timers: map<TimerId, Timer>, due: seq<TimerId>, i: nat, now: int,
      lastActionAt: Option<int>)
    requires i <= |due|
    ensures Fires(timers, due[..i], now, lastActionAt) <= Fires(timers, due, now, lastActionAt)
    decreases |due| - i
  {
    if i == |due| {
      assert due[..i] == due;
    } else {
      FiresNext(timers, due, i, now, lastActionAt);
      FiresGrow(timers, due, i + 1, now, lastActionAt);
    }
  }

  /** The entries of the due timers handled so far continue the log. */
  lemma {:induction false} AlarmLogContinues(c: Config, s: Store, p: Past, due: seq<TimerId>, i: nat, now: int)
    requires StoreOk(c, s, p) && DueInOrder(s, due, now) && i <= |due|
    ensures HistoryOk(p.history + AlarmLog(s, p, due[..i], now))
    decreases i
  {
    hide StoreOk, HistoryOk;
    if i == 0 {
      FireStarts(c, s, p, due, now);
      LogFacts(c.limits, p.history + [], s.actions,
          Lo(c.limits, IsScripted(s.scripted), s.checkpoint, |p.history + []|));
    } else {
      AlarmLogContinues(c, s, p, due, i - 1, now);
      FiresNext(s.timers, due, i - 1, now, s.lastActionAt);
      var t, fired := due[i - 1], Fires(s.timers, due[..i - 1], now, s.lastActionAt);
      if FiresNow(s.timers, t, now, s.lastActionAt) {
        FireFresh(c, s, p, due, i - 1, now);
        FireLogNext(|p.history|, fired, t);
        var all := p.history + FireLog(|p.history|, fired);
        ExtendBySystem(all, TimerFire(t), Fired(t));
        assert p.history + AlarmLog(s, p, due[..i], now) == all + [SystemEntry(|all|, TimerFire(t), Fired(t))];
      }
    }
  }

  /** Whatever stops a part of the alarm's entries stops the alarm. */
  lemma {:induction false} AlarmPrefixPersists(c: Config, s: Store, p: Past, due: seq<TimerId>, i: nat, now: int)
    requires i <= |due| && Persists(c, s, p, AlarmLog(s, p, due, now))
    ensures Persists(c, s, p, AlarmLog(s, p, due[..i], now))
  {
    FiresGrow(s.timers, due, i, now, s.lastActionAt);
    var all, part := AlarmLog(s, p, due, now), AlarmLog(s, p, due[..i], now);
    assert part == all[..|part|];
    CanPersistPrefix(c.limits, IsScripted(s.scripted), s.checkpoint, p.history, all, |part|);
  }

  lemma {:induction false} LogFacts(limits: Limits, h: seq<Action>, rows: seq<Action>, lo: nat)
    requires LogOk(limits, h, rows, lo)
    ensures HistoryOk(h) && |h| <= MAX_SAFE_INTEGER
  {
  }

  // ---------------------------------------------------------------------------
  // Attestation
  // ---------------------------------------------------------------------------

  /** The floor below which the candidates are pruned before an attestation is looked at. */
  function PruneFloor(c: Config, p: Past): nat {
    FloorOf(c.limits, |p.history|) + 1
  }

  /** A sequence of the cadence, in the window. */
  predicate InAttestationWindow(c: Config, p: Past, sequence: int) {
    && c.limits.Valid() && sequence > 0 && sequence % c.limits.interval == 0
    && FloorOf(c.limits, |p.history|) <= sequence <= |p.history|
  }

  /** And above the checkpoint. */
  predicate AttestationDue(c: Config, s: Store, p: Past, sequence: int) {
    InAttestationWindow(c, p, sequence) && SequenceOf(s.checkpoint) < sequence
  }

  /** `validateCheckpointAttestationSnapshot` */
  predicate AttestationValid(c: Config, sequence: int, stateHash: Hash, dto: SnapshotDto) {
    && Verified(c.kernel, dto) && dto.stateHash == stateHash
    && dto.snapshot.release == c.release && dto.snapshot.sequence == sequence
  }

  lemma {:induction false} WindowConnects(c: Config, s: Store, p: Past)
    requires StoreOk(c, s, p)
    ensures RetentionFloor(WindowOf(c.limits, p.history)) == FloorOf(c.limits, |p.history|) + 1
    ensures c.limits.Valid() && WindowOf(c.limits, p.history).lastSequence == |p.history|
  {
    WindowOfOk(c.limits, p.history);
  }

  /** The stored tables after a decision: a confirmation moves the checkpoint and trims the log. */
  function AfterAttest(c: Config, s: Store, floor: nat, a: Attestation, presence: Presence): Store {
    var (ballots, d) := Attest(s.ballots, floor, a, presence);
    if d.status.Confirmed? then
      s.(ballots := ballots, checkpoint := Some(d.candidate.snapshot), attested := true,
          actions := After(s.actions, FloorOf(c.limits, a.sequence)))
    else s.(ballots := ballots)
  }

  ghost function PastAttest(c: Config, s: Store, p: Past, floor: nat, a: Attestation, presence: Presence): Past {
    var d := Attest(s.ballots, floor, a, presence).1;
    p.(votes := p.votes + {Vote(a.sequence, a.player, a.stateHash)},
       marks := if d.status.Divergent? then p.marks + {a.sequence} else p.marks,
       confirmed := if d.status.Confirmed? then p.confirmed + [d.candidate.snapshot] else p.confirmed,
       truthful := p.truthful
         && (d.status.Confirmed? ==> TrueBase(c.kernel, s.initial, Some(d.candidate.snapshot), p.history)),
       vouched := p.vouched && (d.status.Confirmed? ==> exists q :: q in d.attesters && AlwaysTrue(c, s, p, a, q)))
  }

  /** Every vote of a player at the sequence of `a`, this one included, named the hash of the true state. */
  ghost predicate AlwaysTrue(c: Config, s: Store, p: Past, a: Attestation, player: PlayerId) {
    && s.initial.Some? && a.sequence <= |p.history|
    && forall hash ::
      Vote(a.sequence, player, hash) in p.votes + {Vote(a.sequence, a.player, a.stateHash)} ==>
        hash == c.kernel.hash(StateAt(c.kernel, s.initial.value, p.history, a.sequence).state)
  }

  /** What the room checks before it lets an attestation count. */
  ghost predicate Admissible(c: Config, s: Store, p: Past, a: Attestation) {
    && IsScripted(s.scripted) && s.started
    && c.limits.Valid() && a.sequence % c.limits.interval == 0
    && SequenceOf(s.checkpoint) < a.sequence && FloorOf(c.limits, |p.history|) <= a.sequence <= |p.history|
    && a.snapshot.sequence == a.sequence && a.snapshot.release == c.release
    && a.stateHash == c.kernel.hash(a.snapshot.state)
  }

  /** Who is connected, and since when, is no part of what makes an attestation due. */
  lemma {:induction false} DueStays(c: Config, s: Store, s': Store, p: Past, sequence: int)
    requires s'.checkpoint == s.checkpoint
    ensures AttestationDue(c, s', p, sequence) <==> AttestationDue(c, s, p, sequence)
  {
  }

  lemma {:induction false} DueIsPositive(c: Config, s: Store, p: Past, sequence: int)
    requires AttestationDue(c, s, p, sequence)
    ensures sequence > 0
  {
  }

  lemma {:induction false} DueIsAdmissible(c: Config, s: Store, p: Past, stateHash: Hash, dto: SnapshotDto,
      a: Attestation)
    requires AttestationDue(c, s, p, a.sequence) && AttestationValid(c, a.sequence, stateHash, dto)
    requires IsScripted(s.scripted) && s.started && a.stateHash == stateHash && a.snapshot == dto.snapshot
    ensures Admissible(c, s, p, a)
  {
  }

  ghost predicate Balloted(c: Config, s: Store, p: Past) {
    BallotPart(c.kernel, c.limits, c.release, IsScripted(s.scripted), s.checkpoint, |p.history|, s.ballots, p.marks,
        p.votes)
  }

  lemma {:induction false} StoreIsBalloted(c: Config, s: Store, p: Past)
    requires StoreOk(c, s, p)
    ensures Balloted(c, s, p)
  {
  }

  lemma {:induction false} DivergentMarks(b: Ballots, floor: nat, a: Attestation, presence: Presence)
    ensures Attest(b, floor, a, presence).1.status.Divergent? ==> Marked(Attest(b, floor, a, presence).0, a.sequence)
  {
  }

  lemma {:induction false} AttestKeepsMarks(c: Config, s: Store, p: Past, a: Attestation, presence: Presence)
    requires Balloted(c, s, p) && Admissible(c, s, p, a)
    ensures
      var floor := FloorOf(c.limits, |p.history|) + 1;
      var (ballots, d) := Attest(s.ballots, floor, a, presence);
      var cp := if d.status.Confirmed? then a.sequence else SequenceOf(s.checkpoint);
      forall m :: m in p.marks || (d.status.Divergent? && m == a.sequence) ==>
        m % c.limits.interval == 0 && (m <= cp || m < floor || Marked(ballots, m))
  {
    var floor := FloorOf(c.limits, |p.history|) + 1;
    var (ballots, d) := Attest(s.ballots, floor, a, presence);
    DivergentMarks(s.ballots, floor, a, presence);
    var cp := if d.status.Confirmed? then a.sequence else SequenceOf(s.checkpoint);
    forall m | m in p.marks ensures m <= cp || m < floor || Marked(ballots, m) {
      if Marked(s.ballots, m) && m >= floor { MarkHolds(s.ballots, floor, a, presence, m); }
    }
  }

  lemma {:induction false} AttestKeepsCandidates(c: Config, s: Store, p: Past, a: Attestation, presence: Presence)
    requires Balloted(c, s, p) && Admissible(c, s, p, a)
    ensures
      var floor := FloorOf(c.limits, |p.history|) + 1;
      var s', p' := AfterAttest(c, s, floor, a, presence), PastAttest(c, s, p, floor, a, presence);
      var d := Attest(s.ballots, floor, a, presence).1;
      && BallotPart(c.kernel, c.limits, c.release, true, s'.checkpoint, |p.history|, s'.ballots, p'.marks, p'.votes)
      && CandidateOk(d.candidate, a.sequence, c.limits.interval, c.kernel, c.release)
  {
    hide Attest, BallotPart, BallotsOk, VotesOk, Marked;
    var floor := FloorOf(c.limits, |p.history|) + 1;
    var s', p' := AfterAttest(c, s, floor, a, presence), PastAttest(c, s, p, floor, a, presence);
    AttestKeepsTables(c, s, p, floor, a, presence);
    AttestKeepsMarks(c, s, p, a, presence);
    assert SequenceOf(s'.checkpoint) == if Attest(s.ballots, floor, a,
        presence).1.status.Confirmed? then a.sequence else SequenceOf(s.checkpoint);
    BallotsFit(c, s'.ballots, s'.checkpoint, |p.history|, p'.marks, p'.votes);
  }

  lemma {:induction false} BallotsFit(c: Config, ballots: Ballots, checkpoint: Option<Snapshot>, n: nat,
      marks: set<nat>, votes: set<Vote>)
    requires c.limits.Valid() && BallotsOk(ballots, SequenceOf(checkpoint), n, c.limits.interval, c.kernel, c.release)
    requires VotesOk(ballots, votes)
    requires forall m :: m in marks ==> m <= SequenceOf(checkpoint) || m <= FloorOf(c.limits, n) || Marked(ballots, m)
    requires forall m :: m in marks ==> m % c.limits.interval == 0
    ensures BallotPart(c.kernel, c.limits, c.release, true, checkpoint, n, ballots, marks, votes)
  {
  }

  lemma {:induction false} AttestKeepsTables(c: Config, s: Store, p: Past, floor: nat, a: Attestation,
      presence: Presence)
    requires Balloted(c, s, p) && Admissible(c, s, p, a)
    ensures
      var (ballots, d) := Attest(s.ballots, floor, a, presence);
      && BallotsOk(ballots, if d.status.Confirmed? then a.sequence else SequenceOf(s.checkpoint), |p.history|,
          c.limits.interval, c.kernel, c.release)
      && CandidateOk(d.candidate, a.sequence, c.limits.interval, c.kernel, c.release)
      && VotesOk(ballots, p.votes + {Vote(a.sequence, a.player, a.stateHash)})
  {
    AttestKeepsBallots(s.ballots, floor, a, presence, SequenceOf(s.checkpoint), |p.history|, c.limits.interval,
        c.kernel, c.release);
    AttestKeepsVotes(s.ballots, floor, a, presence, p.votes);
  }

  lemma {:induction false} ConfirmKeepsLog(c: Config, s: Store, p: Past, confirmed: Snapshot)
    requires StoreOk(c, s, p) && IsScripted(s.scripted) && SequenceOf(s.checkpoint) < confirmed.sequence <= |p.history|
    requires confirmed.sequence % c.limits.interval == 0 && confirmed.release == c.release
    ensures LogPart(c.limits, true, Some(confirmed), p.history, After(s.actions, FloorOf(c.limits, confirmed.sequence)),
        s.dedup, s.lastSequence)
    ensures CheckpointPart(c.kernel, c.limits, c.release, s.initial, true, Some(confirmed), true, p.history,
      p.truthful && TrueBase(c.kernel, s.initial, Some(confirmed), p.history), p.confirmed + [confirmed])
  {
    DeleteConfirmed(c.limits, p.history, s.actions, Lo(c.limits, true, s.checkpoint, |p.history|), confirmed.sequence);
  }

  /** Every attestation that is let count, whatever it decides. */
  lemma {:induction false} AttestKeepsStore(c: Config, s: Store, p: Past, a: Attestation, presence: Presence)
    requires StoreOk(c, s, p) && Admissible(c, s, p, a)
    ensures
      var floor := FloorOf(c.limits, |p.history|) + 1;
      StoreOk(c, AfterAttest(c, s, floor, a, presence), PastAttest(c, s, p, floor, a, presence))
  {
    hide Attest, BallotPart, CheckpointPart, LogPart, Collisionless, SystemOk, PausePart, SeatPart, AlwaysTrue;
    hide TrueBase;
    var floor := FloorOf(c.limits, |p.history|) + 1;
    var d := Attest(s.ballots, floor, a, presence).1;
    AttestKeepsCandidates(c, s, p, a, presence);
    VouchedConfirmation(c, s, p, a, presence);
    if d.status.Confirmed? { ConfirmKeepsLog(c, s, p, d.candidate.snapshot); }
    AttestFits(c, s, p, AfterAttest(c, s, floor, a, presence), PastAttest(c, s, p, floor, a, presence));
  }

  lemma {:induction false} AttestFits(c: Config, s: Store, p: Past, s': Store, p': Past)
    requires StoreOk(c, s, p) && IsScripted(s.scripted) && s.started
    requires s' == s.(ballots := s'.ballots, checkpoint := s'.checkpoint, attested := s'.attested,
        actions := s'.actions)
    requires p'.history == p.history && (p'.vouched && Collisionless(c.kernel) ==> p'.truthful)
    requires LogPart(c.limits, true, s'.checkpoint, p.history, s'.actions, s.dedup, s.lastSequence)
    requires CheckpointPart(c.kernel, c.limits, c.release, s.initial, true, s'.checkpoint, s'.attested, p.history,
        p'.truthful, p'.confirmed)
    requires BallotPart(c.kernel, c.limits, c.release, true, s'.checkpoint, |p.history|, s'.ballots, p'.marks, p'.votes)
    ensures StoreOk(c, s', p')
  {
    hide BallotPart, CheckpointPart, LogPart, Collisionless, SystemOk, PausePart, SeatPart;
  }

  /** While every confirmation has an honest attester, every confirmed checkpoint is a true state. */
  lemma {:induction false} VouchedConfirmation(c: Config, s: Store, p: Past, a: Attestation, presence: Presence)
    requires StoreOk(c, s, p) && Admissible(c, s, p, a)
    ensures
      var p' := PastAttest(c, s, p, FloorOf(c.limits, |p.history|) + 1, a, presence);
      p'.vouched && Collisionless(c.kernel) ==> p'.truthful
  {
    hide Attest, BallotPart, AlwaysTrue, Collisionless;
    var floor := FloorOf(c.limits, |p.history|) + 1;
    var d := Attest(s.ballots, floor, a, presence).1;
    var p' := PastAttest(c, s, p, floor, a, presence);
    if p'.vouched && Collisionless(c.kernel) && d.status.Confirmed? {
      var honest :| honest in d.attesters && AlwaysTrue(c, s, p, a, honest);
      AttestKeepsCandidates(c, s, p, a, presence);
      AttestersVoted(c, s, p, a, presence);
      HonestConfirmation(c, s, p, d, a, honest);
    }
  }

  lemma {:induction false} AttestersVoted(c: Config, s: Store, p: Past, a: Attestation, presence: Presence)
    requires Balloted(c, s, p) && Attest(s.ballots, PruneFloor(c, p), a, presence).1.status.Confirmed?
    ensures
      var d := Attest(s.ballots, PruneFloor(c, p), a, presence).1;
      forall q :: q in d.attesters ==>
        Vote(a.sequence, q, d.candidate.stateHash) in p.votes + {Vote(a.sequence, a.player, a.stateHash)}
  {
    AttestKeepsVotes(s.ballots, FloorOf(c.limits, |p.history|) + 1, a, presence, p.votes);
  }

  /** An attestation touches the candidates, the checkpoint and the rows, and no more of the log than that. */
  lemma {:induction false} AttestTouches(c: Config, s: Store, p: Past, floor: nat, a: Attestation,
      presence: Presence)
    ensures
      var s' := AfterAttest(c, s, floor, a, presence);
      s' == s.(ballots := s'.ballots, checkpoint := s'.checkpoint, attested := s'.attested, actions := s'.actions)
    ensures PastAttest(c, s, p, floor, a, presence).history == p.history
    ensures PastAttest(c, s, p, floor, a, presence).truthful ==> p.truthful
  {
    hide Attest, AlwaysTrue, TrueBase;
  }

  lemma {:induction false} AttestProgresses(c: Config, s: Store, p: Past, floor: nat, a: Attestation,
      presence: Presence)
    requires IsScripted(s.scripted)
    ensures Progress(c.limits, Traced(c, s, p), Traced(c, AfterAttest(c, s, floor, a, presence),
        PastAttest(c, s, p, floor, a, presence)))
  {
    hide Attest, AlwaysTrue, TrueBase;
  }

  /**
   What a confirmation means, in every reachable room: the confirmed sequences go up, every
   attester it counts has voted for the confirmed hash, a sequence once found divergent is
   confirmed only one below the retention floor and by one player alone, and one honest voter
   makes the checkpoint the state the history folds to.
   */
  lemma {:induction false} ConfirmationMeans(c: Config, s: Store, p: Past, a: Attestation, presence: Presence,
      honest: PlayerId)
    requires StoreOk(c, s, p) && Admissible(c, s, p, a) && s.initial.Some?
    requires Attest(s.ballots, FloorOf(c.limits, |p.history|) + 1, a, presence).1.status.Confirmed?
    ensures
      var floor := FloorOf(c.limits, |p.history|) + 1;
      var d := Attest(s.ballots, floor, a, presence).1;
      var votes := p.votes + {Vote(a.sequence, a.player, a.stateHash)};
      var truth := StateAt(c.kernel, s.initial.value, p.history, a.sequence);
      && (forall e :: e in p.confirmed ==> e.sequence < d.candidate.snapshot.sequence == a.sequence)
      && |d.attesters * presence.connected| >= RequiredAttesters(presence)
      && (forall q :: q in d.attesters ==> Vote(a.sequence, q, d.candidate.stateHash) in votes)
      && (a.sequence in p.marks ==>
            a.sequence == floor - 1 && d.attesters == {a.player} && RequiredAttesters(presence) == 1)
      && (Collisionless(c.kernel) && honest in d.attesters && AlwaysTrue(c, s, p, a, honest) ==>
            d.candidate.snapshot == truth)
  {
    hide BallotPart, AlwaysTrue, Attest;
    var floor := FloorOf(c.limits, |p.history|) + 1;
    var d := Attest(s.ballots, floor, a, presence).1;
    StoreIsBalloted(c, s, p);
    AttestKeepsCandidates(c, s, p, a, presence);
    AttestersVoted(c, s, p, a, presence);
    ConfirmedMeans(s.ballots, floor, a, presence);
    ConfirmedAreBelow(c, s, p, a.sequence);
    MarkedStays(c, s, p, a, presence);
    HonestConfirmation(c, s, p, d, a, honest);
  }

  lemma {:induction false} ConfirmedAreBelow(c: Config, s: Store, p: Past, sequence: nat)
    requires StoreOk(c, s, p) && SequenceOf(s.checkpoint) < sequence
    ensures forall e :: e in p.confirmed ==> e.sequence < sequence
  {
    forall e | e in p.confirmed ensures e.sequence < sequence {
      var i :| 0 <= i < |p.confirmed| && p.confirmed[i] == e;
      assert i < |p.confirmed| - 1 ==> e.sequence < p.confirmed[|p.confirmed| - 1].sequence;
    }
  }

  /** A confirmed mark was below the floor, where nobody is remembered: its attester was alone. */
  lemma {:induction false} MarkedStays(c: Config, s: Store, p: Past, a: Attestation, presence: Presence)
    requires StoreOk(c, s, p) && Admissible(c, s, p, a)
    ensures
      var d := Attest(s.ballots, PruneFloor(c, p), a, presence).1;
      d.status.Confirmed? && a.sequence in p.marks ==>
        && a.sequence == FloorOf(c.limits, |p.history|)
        && d.attesters == {a.player} && RequiredAttesters(presence) == 1
  {
    var floor := PruneFloor(c, p);
    if a.sequence in p.marks && a.sequence >= floor { MarkHolds(s.ballots, floor, a, presence, a.sequence); }
    if a.sequence < floor {
      MarkForgottenBelowFloor(s.ballots, floor, a, presence);
      var here := {a.player} * presence.connected;
      assert here == if a.player in presence.connected then {a.player} else {};
    }
  }

  lemma {:induction false} HonestConfirmation(c: Config, s: Store, p: Past, d: Decision, a: Attestation,
      honest: PlayerId)
    requires StoreOk(c, s, p) && s.initial.Some? && a.sequence <= |p.history| && d.status.Confirmed?
    requires CandidateOk(d.candidate, a.sequence, c.limits.interval, c.kernel, c.release)
    requires forall q :: q in d.attesters ==>
      Vote(a.sequence, q, d.candidate.stateHash) in p.votes + {Vote(a.sequence, a.player, a.stateHash)}
    ensures Collisionless(c.kernel) && honest in d.attesters && AlwaysTrue(c, s, p, a, honest) ==>
      d.candidate.snapshot == StateAt(c.kernel, s.initial.value, p.history, a.sequence)
  {
    var truth := StateAt(c.kernel, s.initial.value, p.history, a.sequence);
    StateAtSequence(c.kernel, s.initial.value, p.history, a.sequence);
    if Collisionless(c.kernel) && honest in d.attesters && AlwaysTrue(c, s, p, a, honest) {
      OneHonestVoterSuffices(c.kernel, d, truth, p.votes + {Vote(a.sequence, a.player, a.stateHash)}, honest);
    }
  }

  /** The room's players, as a set. */
  function PlayerSet(s: Store): set<PlayerId> {
    set p | p in Ids(s.players)
  }

  /**
   While some of its players are connected, and with the presence the room remembers, some
   attestation that the room lets count, by one of them, confirms a sequence.
   */
  ghost predicate Confirmable(c: Config, s: Store, p: Past, m: nat) {
    exists a: Attestation, connected: set<PlayerId>, now: int ::
      && a.sequence == m && a.player in connected && connected <= PlayerSet(s) && Admissible(c, s, p, a)
      && Attest(s.ballots, PruneFloor(c, p), a, Presence(connected, now, s.lastMultiBootstrapAt)).1.status.Confirmed?
  }

  /**
   ADR-0006 calls a divergent sequence permanently unconfirmable. It is so in every reachable
   room, except that the sequence just below the floor, if it is above the checkpoint, can
   still be confirmed: the room accepts attestations of it, and deletes its mark first.
   */
  lemma {:induction false} MarkEscapesIff(c: Config, s: Store, p: Past, m: nat)
    requires StoreOk(c, s, p) && IsScripted(s.scripted) && m in p.marks && s.players != []
    ensures Confirmable(c, s, p, m) <==> SequenceOf(s.checkpoint) < m && m == FloorOf(c.limits, |p.history|)
  {
    hide StoreOk, Attest;
    forall a: Attestation, presence: Presence | Admissible(c, s, p, a) && a.sequence == m
      ensures Attest(s.ballots, PruneFloor(c, p), a, presence).1.status.Confirmed? ==>
        m == FloorOf(c.limits, |p.history|)
    {
      MarkedStays(c, s, p, a, presence);
    }
    if SequenceOf(s.checkpoint) < m && m == FloorOf(c.limits, |p.history|) {
      var player := s.players[0].id;
      assert Ids(s.players)[0] == player;
      var now := s.lastMultiBootstrapAt.GetOr(0) + SOLO_GRACE_MS;
      MarkedIsStarted(c, s, p, m);
      var a := TestimonyOf(c, m, s.initial.value.state, player);
      AloneConfirms(c, s, p, a, Presence({player}, now, s.lastMultiBootstrapAt));
      assert a.player in {player} && {player} <= PlayerSet(s);
    }
  }

  lemma {:induction false} MarkedIsStarted(c: Config, s: Store, p: Past, m: nat)
    requires StoreOk(c, s, p) && m in p.marks
    ensures s.started && s.initial.Some? && c.limits.Valid() && m % c.limits.interval == 0
    ensures |p.history| <= MAX_SAFE_INTEGER
  {
  }

  /** A player's attestation of a state, with its own hash. */
  function TestimonyOf(c: Config, m: nat, state: State, player: PlayerId): Attestation {
    Attestation(m, c.kernel.hash(state), Snapshot(c.release, m, state), player)
  }

  /** Below the floor a player alone confirms, whatever was attested before. */
  lemma {:induction false} AloneConfirms(c: Config, s: Store, p: Past, a: Attestation, presence: Presence)
    requires a.sequence <= FloorOf(c.limits, |p.history|) && presence.connected == {a.player}
    requires presence.lastMultiBootstrapAt.Some? ==>
      presence.now - presence.lastMultiBootstrapAt.value >= SOLO_GRACE_MS
    ensures
      var d := Attest(s.ballots, PruneFloor(c, p), a, presence).1;
      d.status.Confirmed? && d.candidate.snapshot == a.snapshot
  {
    MarkForgottenBelowFloor(s.ballots, PruneFloor(c, p), a, presence);
    assert {a.player} * presence.connected == {a.player};
  }

  // ---------------------------------------------------------------------------
  // Answers to hello
  // ---------------------------------------------------------------------------

  /** `storedCheckpoint` */
  function StoredCheckpoint(s: Store, requireAttested: bool): Option<Snapshot> {
    if requireAttested && !s.attested then None else s.checkpoint
  }

  function BootstrapReply(b: Bootstrap): Option<seq<Message>> {
    match b
    case Bootstrap(base, tail) => Some([Base(base)] + Tail(tail))
    case Unavailable => Some([ProtocolError(BootstrapUnavailable)])
    case Failed => None
  }

  function ResumeReply(r: ResumeResult): Message {
    match r
    case Resume(from, actions) => Resumption(from, actions)
    case ResyncRequired => Message.ResyncRequired
    case InvalidSequence => ProtocolError(MalformedMessage)
  }

  /**
   What a started room owes a hello: without a sequence a base and the whole log behind it,
   if it has a base; with one, everything behind that sequence as far as it is retained.
   */
  ghost function ReplyTo(c: Config, s: Store, p: Past, lastSequence: Option<int>): Option<seq<Message>> {
    var n := |p.history|;
    match lastSequence
    case None =>
      if s.initial.None? || !CanBootstrap(c, s, p) || BaseFor(c.limits, s.initial.value, s.checkpoint,
          n).sequence > n then None
      else
        var base := BaseFor(c.limits, s.initial.value, s.checkpoint, n);
        Some([Base(base)] + Tail(p.history[base.sequence..]))
    case Some(m) =>
      Some([if m < 0 || m > n then ProtocolError(MalformedMessage)
            else if m < FloorOf(c.limits, n) then Message.ResyncRequired
            else Resumption(m + 1, p.history[m..])])
  }

  lemma {:induction false} ResumeIsReply(c: Config, s: Store, p: Past, n: int)
    requires StoreOk(c, s, p)
    ensures ReplyTo(c, s, p, Some(n)) == Some([ResumeReply(ResumeAfter(WindowOf(c.limits, p.history), n))])
  {
    ResumeIsHistory(c.limits, p.history, n);
  }

  lemma {:induction false} BootstrapFacts(c: Config, s: Store, p: Past)
    requires StoreOk(c, s, p) && s.initial.Some?
    ensures
      var n, initial, scripted := |p.history|, s.initial.value, IsScripted(s.scripted);
      var cp := RecoveryBase(c.limits, scripted, s.checkpoint, s.attested, n);
      var full := if scripted && n > c.limits.retention then Some(After(s.actions, SequenceOf(cp))) else None;
      var base := BaseFor(c.limits, initial, s.checkpoint, n);
      && base.sequence <= n
      && BootstrapFrom(WindowOf(c.limits, p.history), initial, cp, full) ==
        (if CanBootstrap(c, s, p) then Bootstrap(base, p.history[base.sequence..]) else Failed)
      && (p.truthful ==> base == StateAt(c.kernel, initial, p.history, base.sequence))
  {
    BootstrapIsHistory(c.kernel, c.limits, c.release, s.initial, IsScripted(s.scripted), s.checkpoint, s.attested,
        p.history, p.truthful, p.confirmed, s.actions);
  }

  lemma {:induction false} NeedsRecovery(c: Config, s: Store, p: Past)
    requires StoreOk(c, s, p)
    ensures ResumeAfter(WindowOf(c.limits, p.history), 0).ResyncRequired? <==> |p.history| > c.limits.retention
  {
    ResumeIsHistory(c.limits, p.history, 0);
  }

  /** Each way `hello` asks for a bootstrap gives what the room owes. */
  lemma {:induction false} BootstrapIsReply(c: Config, s: Store, p: Past)
    requires StoreOk(c, s, p) && s.started && s.initial.Some?
    ensures
      var w, initial, scripted := WindowOf(c.limits, p.history), s.initial.value, IsScripted(s.scripted);
      var cp := StoredCheckpoint(s, scripted);
      && (ResumeAfter(w, 0).ResyncRequired? <==> |p.history| > c.limits.retention)
      && ReplyTo(c, s, p, None) == BootstrapReply(
          if |p.history| <= c.limits.retention then BootstrapFrom(w, initial, None, None)
          else if !scripted then BootstrapFrom(w, initial, cp, None)
          else BootstrapFrom(w, initial, cp, Some(After(s.actions, SequenceOf(cp)))))
  {
    hide StoreOk, BootstrapFrom, WindowOf, ResumeAfter;
    NeedsRecovery(c, s, p);
    BootstrapFacts(c, s, p);
  }

  ghost function GreetedLog(k: Kernel, initial: Option<Snapshot>, h: seq<Action>, s: Socket, lastSequence: Option<int>,
      held: Client): ClientLog {
    if lastSequence.None? then ClientLog(Blank, true, |s.sent|)
    else ClientLog(held, initial.Some? && Faithful(k, initial.value, h,
        held) && held.snapshot.sequence == lastSequence.value, |s.sent|)
  }

  /** Whatever the answer to a hello is, its socket is in order afterwards, and in sync if it was welcomed. */
  lemma {:induction false} GreetingOk(c: Config, s: Store, p: Past, socket: Socket, log: ClientLog,
      messages: seq<Message>, lastSequence: Option<int>, held: Client)
    requires StoreOk(c, s, p) && SocketOk(c.kernel, s.initial, s.started, p.truthful, p.history, socket, log)
    requires socket.phase.Greeting?
    requires messages == [] || (s.ended.Some? && messages == [RoomEnded(s.ended.value)]) || (s.started && ReplyTo(c, s,
        p, lastSequence) == Some(messages))
    ensures SocketOk(c.kernel, s.initial, s.started, p.truthful, p.history, Greeted(socket, messages),
        GreetedLog(c.kernel, s.initial, p.history, socket, lastSequence, held))
  {
    hide StoreOk, BootstrapFrom, InSync;
    StoreFacts(c, s, p);
    if s.started && ReplyTo(c, s, p, lastSequence) == Some(messages) {
      BootstrapFacts(c, s, p);
      if lastSequence.None? {
        assert messages[0].Base?;
        SocketBootstraps(c.kernel, s.initial, p.truthful, p.history, socket, messages[0].snapshot, socket.phase.player);
      } else if messages[0].Resumption? {
        SocketResumes(c.kernel, s.initial, p.truthful, p.history, socket, held, lastSequence.value,
            socket.phase.player);
      }
    }
  }

  function Welcomed(s: Store, multi: Option<int>, now: int): Store {
    s.(lastMultiBootstrapAt := multi, emptySinceAt := None, lastHeartbeatAt := Some(now))
  }

  function Departed(s: Store, host: Option<PlayerId>, empty: bool, multi: Option<int>, now: int): Store {
    s.(host := host, lastMultiBootstrapAt := multi, lastHeartbeatAt := Some(now),
        emptySinceAt := if empty then Some(s.emptySinceAt.GetOr(now)) else None)
  }

  /** The first player in join order who is connected. */
  function FirstConnected(players: seq<PlayerRow>, connected: set<PlayerId>): Option<PlayerId> {
    if players == [] then None
    else if players[0].id in connected then Some(players[0].id)
    else FirstConnected(players[1..], connected)
  }

  /** Who is host once a socket in that phase is gone and `left` are the players still connected. */
  function HostAfter(s: Store, leaving: Phase, left: set<PlayerId>): Option<PlayerId> {
    var hostIsGone := !leaving.Unauthenticated? && leaving.player !in left && s.host == Some(leaving.player);
    if hostIsGone && FirstConnected(s.players, left).Some? then
      FirstConnected(s.players, left)
    else s.host
  }

  lemma {:induction false} FirstConnectedSits(players: seq<PlayerRow>, connected: set<PlayerId>)
    ensures FirstConnected(players, connected).Some? ==>
      FirstConnected(players, connected).value in Ids(players) && FirstConnected(players, connected).value in connected
  {
    if players != [] {
      FirstConnectedSits(players[1..], connected);
      assert Ids(players)[0] == players[0].id;
      assert forall i :: 0 <= i < |players| - 1 ==> Ids(players)[i + 1] == Ids(players[1..])[i];
    }
  }

  lemma {:induction false} DepartureKeeps(c: Config, s: Store, p: Past, leaving: Phase, left: set<PlayerId>,
      empty: bool, multi: Option<int>, now: int)
    requires StoreOk(c, s, p)
    ensures
      var s' := Departed(s, HostAfter(s, leaving, left), empty, multi, now);
      StoreOk(c, s', p) && Progress(c.limits, Traced(c, s, p), Traced(c, s', p))
  {
    FirstConnectedSits(s.players, left);
  }

  /** Replaying the window of an unscripted room gives the state of the whole log, or fails for want of a base. */
  lemma {:induction false} MechanicalReplay(c: Config, s: Store, p: Past, base: Snapshot)
    requires StoreOk(c, s, p) && !IsScripted(s.scripted) && s.initial.Some?
    requires base == if s.checkpoint.Some? then s.checkpoint.value else s.initial.value
    ensures
      var later := After(WindowOf(c.limits, p.history).actions, base.sequence);
      var newest := StateAt(c.kernel, s.initial.value, p.history, |p.history|);
      && (Consecutive(later, base.sequence) <==> CanBootstrap(c, s, p))
      && (CanBootstrap(c, s, p) ==> Fold(c.kernel, base, later) == newest)
      && newest.sequence == |p.history| && newest.release == c.release
  {
    var h := p.history;
    ReplayIffConnects(c.limits, h, base.sequence);
    StateAtSequence(c.kernel, s.initial.value, h, |h|);
    assert h[..0] == [];
    if FloorOf(c.limits, |h|) <= base.sequence { ReplayFromAnyBase(c.kernel, c.limits, s.initial.value, h, base); }
  }
}
