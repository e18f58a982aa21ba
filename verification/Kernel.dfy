/**
 The game kernel as the room sees it: opaque states, a deterministic step per ordered
 action, and folds of ordered actions. Rules, scripts and canonical JSON stay abstract.
 */
module Kernel {
  import opened Wrappers

  type State(==, !new)
  type Hash(==, !new)
  type Payload(==, !new)

  type PlayerId = nat
  type TimerId = nat

  /** `seat_<n>`, or any other seat name a saved table may carry. */
  datatype SeatId = Generated(n: nat) | Named(name: string)

  /** The lifecycle cause a system action is keyed by. */
  datatype SystemKey =
    | GameStart
    | GameResumed
    | PlayerJoined(player: PlayerId)
    | SeatAssign(player: PlayerId)
    | SeatClaim(player: PlayerId)
    | TimerFire(timer: TimerId)

  datatype ActionId = Act(sequence: nat) | Sys(key: SystemKey)

  /**
   A client's request id is any text. The text `system:` with an action id behind it is what
   the room stores as request id of a system action.
   */
  datatype RequestId = Text(text: string) | SystemName(id: ActionId)

  datatype Actor = Player(id: PlayerId) | System

  datatype RosterEntry = RosterEntry(player: PlayerId, seat: SeatId, previous: Option<PlayerId>)

  datatype Body =
    | Requested(payload: Payload)
    | Started
    | Resumed(roster: seq<RosterEntry>, preservePending: bool)
    | Joined(player: PlayerId)
    | Assigned(player: PlayerId, seat: SeatId)
    | Claimed(player: PlayerId, seat: SeatId, previous: PlayerId)
    | Fired(timer: TimerId)

  datatype Action = Action(sequence: nat, actionId: ActionId, requestId: Option<RequestId>, actor: Actor, body: Body)

  /** A hash-verified snapshot. */
  datatype Snapshot = Snapshot(release: nat, sequence: nat, state: State)

  /** A snapshot as a client sends it, not yet verified. */
  datatype SnapshotDto = SnapshotDto(snapshot: Snapshot, stateHash: Hash)

  /** What a state says about a saved table: its seats in code-unit order and who sat there. */
  datatype SavedTable = SavedTable(
    seats: seq<SeatId>,
    seated: map<SeatId, PlayerId>,
    players: set<PlayerId>,
    pending: Option<map<SeatId, PlayerId>>,
    timers: seq<(TimerId, nat)>)

  datatype Kernel = Kernel(
    apply: (State, Action) -> State,
    hash: State -> Hash,
    requiresScripts: State -> bool,
    seedRoster: (State, seq<RosterEntry>) -> State,
    saved: State -> SavedTable)

  function Apply(k: Kernel, s: Snapshot, a: Action): Snapshot {
    Snapshot(s.release, a.sequence, k.apply(s.state, a))
  }

  function Fold(k: Kernel, base: Snapshot, actions: seq<Action>): Snapshot {
    if actions == [] then base
    else Apply(k, Fold(k, base, actions[..|actions| - 1]), actions[|actions| - 1])
  }

  /** `loadSnapshot`: the declared hash is the hash of the state. */
  predicate Verified(k: Kernel, dto: SnapshotDto) {
    dto.stateHash == k.hash(dto.snapshot.state)
  }

  ghost predicate Collisionless(k: Kernel) {
    forall a, b :: k.hash(a) == k.hash(b) ==> a == b
  }

  lemma {:induction false} FoldConcat(k: Kernel, base: Snapshot, a: seq<Action>, b: seq<Action>)
    ensures Fold(k, base, a + b) == Fold(k, Fold(k, base, a), b)
    decreases |b|
  {
    if b == [] {
      assert a + b == a;
    } else {
      FoldConcat(k, base, a, b[..|b| - 1]);
      assert (a + b)[..|a + b| - 1] == a + b[..|b| - 1];
    }
  }

  lemma {:induction false} FoldAppend(k: Kernel, base: Snapshot, actions: seq<Action>, a: Action)
    ensures Fold(k, base, actions + [a]) == Apply(k, Fold(k, base, actions), a)
  {
    assert (actions + [a])[..|actions|] == actions;
  }

  /** What the kernel makes of a state, stepping it through the actions in their order. */
  function Play(apply: (State, Action) -> State, state: State, actions: seq<Action>): State {
    if actions == [] then state else Play(apply, apply(state, actions[0]), actions[1..])
  }

  lemma {:induction false} PlayConcat(apply: (State, Action) -> State, state: State, a: seq<Action>, b: seq<Action>)
    ensures Play(apply, state, a + b) == Play(apply, Play(apply, state, a), b)
    decreases |a|
  {
    if a == [] {
      assert a + b == b;
    } else {
      assert (a + b)[0] == a[0] && (a + b)[1..] == a[1..] + b;
      PlayConcat(apply, apply(state, a[0]), a[1..], b);
    }
  }

  /** A fold runs the kernel over every action, keeps the release and ends at the last sequence. */
  lemma {:induction false} FoldPlays(k: Kernel, base: Snapshot, actions: seq<Action>)
    ensures Fold(k, base, actions).state == Play(k.apply, base.state, actions)
    ensures Fold(k, base, actions).release == base.release
    ensures Fold(k, base, actions).sequence ==
      if actions == [] then base.sequence else actions[|actions| - 1].sequence
    decreases |actions|
  {
    if actions != [] {
      var n := |actions| - 1;
      var before, last := actions[..n], actions[n];
      FoldPlays(k, base, before);
      assert actions == before + [last];
      PlayLast(k.apply, base.state, before, last);
    }
  }

  lemma {:induction false} PlayLast(apply: (State, Action) -> State, state: State, before: seq<Action>, last: Action)
    ensures Play(apply, state, before + [last]) == apply(Play(apply, state, before), last)
  {
    PlayConcat(apply, state, before, [last]);
    var reached := Play(apply, state, before);
    assert Play(apply, reached, [last]) == Play(apply, apply(reached, last), []);
  }

  /** The action log numbers its entries from one. */
  predicate Numbered(h: seq<Action>) {
    forall i :: 0 <= i < |h| ==> h[i].sequence == i + 1
  }

  /** The state after the first `n` actions of a history. */
  function StateAt(k: Kernel, initial: Snapshot, h: seq<Action>, n: nat): Snapshot
    requires n <= |h|
  {
    Fold(k, initial, h[..n])
  }

  lemma {:induction false} StateAtSequence(k: Kernel, initial: Snapshot, h: seq<Action>, n: nat)
    requires Numbered(h) && n <= |h| && initial.sequence == 0
    ensures StateAt(k, initial, h, n).sequence == n && StateAt(k, initial, h, n).release == initial.release
    decreases n
  {
    if n > 0 {
      assert h[..n][..n - 1] == h[..n - 1];
      StateAtSequence(k, initial, h, n - 1);
    }
  }

  /** Replaying a stretch of the history from the state before it. */
  lemma {:induction false} StateAtFrom(k: Kernel, initial: Snapshot, h: seq<Action>, m: nat, n: nat)
    requires m <= n <= |h|
    ensures StateAt(k, initial, h, n) == Fold(k, StateAt(k, initial, h, m), h[m..n])
  {
    FoldConcat(k, initial, h[..m], h[m..n]);
    assert h[..m] + h[m..n] == h[..n];
  }

  lemma {:induction false} StateAtPrefix(k: Kernel, initial: Snapshot, h: seq<Action>, more: seq<Action>, n: nat)
    requires n <= |h|
    ensures StateAt(k, initial, h + more, n) == StateAt(k, initial, h, n)
  {
    assert (h + more)[..n] == h[..n];
  }
}
