/**
 The retained action window and the snapshot bases that connect to it
 (apps/worker/src/room-core.ts).
 */
module RoomCoreModel {
  import opened Wrappers
  import opened Kernel

  const MAX_SAFE_INTEGER: nat := 9007199254740991

  /** `ACTION_RETENTION` and `CHECKPOINT_INTERVAL`. */
  datatype Limits = Limits(retention: nat, interval: nat) {
    predicate Valid() {
      2 <= interval < retention
    }
  }

  datatype RoomCoreState = RoomCoreState(lastSequence: nat, actions: seq<Action>)

  datatype SequenceResult = Fresh(action: Action) | Duplicate(action: Action) | Exhausted

  datatype ResumeResult = Resume(fromSequence: int, actions: seq<Action>) | ResyncRequired | InvalidSequence

  datatype BootstrapPlan = InitialTail(base: nat) | CheckpointTail(base: nat) | FullLog(base: nat)

  datatype Bootstrap = Bootstrap(base: Snapshot, tail: seq<Action>) | Unavailable | Failed

  // ---------------------------------------------------------------------------
  // Windows
  // ---------------------------------------------------------------------------

  predicate UniqueIds(actions: seq<Action>) {
    UniqueUpTo(actions, |actions|)
  }

  predicate UniqueUpTo(actions: seq<Action>, n: nat)
    requires n <= |actions|
  {
    forall i, j :: 0 <= i < j < n ==>
      && actions[i].actionId != actions[j].actionId
      && (actions[i].requestId.Some? ==> actions[i].requestId != actions[j].requestId)
  }

  predicate RequestsIdentified(actions: seq<Action>) {
    forall i :: 0 <= i < |actions| && actions[i].actor.Player? ==> actions[i].requestId.Some?
  }

  /** What `assertState` accepts. */
  predicate WindowOk(limits: Limits, s: RoomCoreState) {
    && s.lastSequence <= MAX_SAFE_INTEGER
    && |s.actions| <= limits.retention
    && (forall i :: 0 <= i < |s.actions| ==> s.actions[i].sequence == s.lastSequence - |s.actions| + i + 1)
    && UniqueIds(s.actions)
    && RequestsIdentified(s.actions)
  }

  /** `assertState`: the loop accepts exactly the windows above. */
  method AssertState(limits: Limits, s: RoomCoreState) returns (ok: bool)
    ensures ok <==> WindowOk(limits, s)
  {
    if s.lastSequence > MAX_SAFE_INTEGER { return false; }
    if |s.actions| > limits.retention { return false; }
    var previous: int := s.lastSequence - |s.actions|;
    var requestIds: set<RequestId>, actionIds: set<ActionId> := {}, {};
    for i := 0 to |s.actions|
      invariant previous == s.lastSequence - |s.actions| + i
      invariant forall k :: 0 <= k < i ==> s.actions[k].sequence == s.lastSequence - |s.actions| + k + 1
      invariant forall k :: 0 <= k < i && s.actions[k].actor.Player? ==> s.actions[k].requestId.Some?
      invariant UniqueUpTo(s.actions, i)
      invariant actionIds == set k | 0 <= k < i :: s.actions[k].actionId
      invariant requestIds == set k | 0 <= k < i && s.actions[k].requestId.Some? :: s.actions[k].requestId.value
    {
      var action := s.actions[i];
      if action.sequence != previous + 1 { return false; }
      if action.actionId in actionIds { return false; }
      actionIds := actionIds + {action.actionId};
      if action.actor.Player? && action.requestId.None? { return false; }
      if action.requestId.Some? {
        if action.requestId.value in requestIds { return false; }
        requestIds := requestIds + {action.requestId.value};
      }
      previous := action.sequence;
    }
    // the loop has already ended at lastSequence
    ok := true;
  }

  /** The last `n` elements, as `slice(-n)`. */
  function LastOf(actions: seq<Action>, n: nat): seq<Action> {
    if |actions| <= n then actions else actions[|actions| - n..]
  }

  function Pushed(limits: Limits, s: RoomCoreState, a: Action): RoomCoreState {
    RoomCoreState(a.sequence, LastOf(s.actions + [a], limits.retention))
  }

  function RequestAction(s: RoomCoreState, requestId: RequestId, player: PlayerId, payload: Payload): Action {
    Action(s.lastSequence + 1, Act(s.lastSequence + 1), Some(requestId), Player(player), Requested(payload))
  }

  function SystemAction(s: RoomCoreState, key: SystemKey, body: Body): Action {
    Action(s.lastSequence + 1, Sys(key), None, System, body)
  }

  /** Client action ids carry their own sequence, so a new one is never taken. */
  predicate ActsNumbered(actions: seq<Action>) {
    forall i :: 0 <= i < |actions| && actions[i].actionId.Act? ==> actions[i].actionId.sequence == actions[i].sequence
  }

  class RoomCore {
    const limits: Limits
    var state: RoomCoreState

    ghost predicate Valid()
      reads this
    {
      limits.Valid() && WindowOk(limits, state) && ActsNumbered(state.actions)
    }

    constructor (limits: Limits, state: RoomCoreState)
      requires limits.Valid() && WindowOk(limits, state) && ActsNumbered(state.actions)
      ensures Valid() && this.limits == limits && this.state == state
    {
      this.limits, this.state := limits, state;
    }

    method Sequence(requestId: RequestId, player: PlayerId, payload: Payload) returns (r: SequenceResult)
      requires Valid()
      modifies this
      ensures Valid()
      ensures r.Duplicate? <==>
        exists i :: 0 <= i < |old(state.actions)| && old(state.actions)[i].requestId == Some(requestId)
      ensures r.Duplicate? ==> r.action in old(state.actions) && r.action.requestId == Some(requestId)
      ensures r.Exhausted? ==> old(state.lastSequence) == MAX_SAFE_INTEGER
      ensures r.Fresh? ==>
        && r.action == RequestAction(old(state), requestId, player, payload)
        && state == Pushed(limits, old(state), r.action)
      ensures !r.Fresh? ==> state == old(state)
    {
      for i := 0 to |state.actions|
        invariant forall k :: 0 <= k < i ==> state.actions[k].requestId != Some(requestId)
      {
        if state.actions[i].requestId == Some(requestId) { return Duplicate(state.actions[i]); }
      }
      if state.lastSequence >= MAX_SAFE_INTEGER { return Exhausted; }
      var action := RequestAction(state, requestId, player, payload);
      PushedOk(limits, state, action);
      state := Pushed(limits, state, action);
      r := Fresh(action);
    }

    method SequenceSystem(body: Body, key: SystemKey) returns (r: SequenceResult)
      requires Valid()
      modifies this
      ensures Valid()
      ensures r.Duplicate? <==> exists i :: 0 <= i < |old(state.actions)| && old(state.actions)[i].actionId == Sys(key)
      ensures r.Duplicate? ==> r.action in old(state.actions) && r.action.actionId == Sys(key)
      ensures r.Exhausted? ==> old(state.lastSequence) == MAX_SAFE_INTEGER
      ensures r.Fresh? ==>
        r.action == SystemAction(old(state), key, body) && state == Pushed(limits, old(state), r.action)
      ensures !r.Fresh? ==> state == old(state)
    {
      for i := 0 to |state.actions|
        invariant forall k :: 0 <= k < i ==> state.actions[k].actionId != Sys(key)
      {
        if state.actions[i].actionId == Sys(key) { return Duplicate(state.actions[i]); }
      }
      if state.lastSequence >= MAX_SAFE_INTEGER { return Exhausted; }
      var action := SystemAction(state, key, body);
      PushedOk(limits, state, action);
      state := Pushed(limits, state, action);
      r := Fresh(action);
    }
  }

  /** Sequencing one action whose ids are not retained keeps the window acceptable. */
  lemma {:induction false} PushedOk(limits: Limits, s: RoomCoreState, a: Action)
    requires limits.Valid() && WindowOk(limits, s) && ActsNumbered(s.actions) && s.lastSequence < MAX_SAFE_INTEGER
    requires a.sequence == s.lastSequence + 1 && (a.actor.Player? ==> a.requestId.Some?)
    requires a.actionId.Act? ==> a.actionId.sequence == a.sequence
    requires a.actionId.Sys? ==> forall i :: 0 <= i < |s.actions| ==> s.actions[i].actionId != a.actionId
    requires a.requestId.Some? ==> forall i :: 0 <= i < |s.actions| ==> s.actions[i].requestId != a.requestId
    ensures WindowOk(limits, Pushed(limits, s, a)) && ActsNumbered(Pushed(limits, s, a).actions)
  {
    var all := s.actions + [a];
    var from := if |all| <= limits.retention then 0 else |all| - limits.retention;
    AppendUnique(s.actions, a);
    SuffixUnique(all, from);
    SuffixNumbered(limits, all, s.lastSequence + 1, from);
  }

  lemma {:induction false} SuffixNumbered(limits: Limits, all: seq<Action>, last: nat, from: nat)
    requires from <= |all| && forall i :: 0 <= i < |all| ==> all[i].sequence == last - |all| + i + 1
    requires RequestsIdentified(all) && ActsNumbered(all)
    ensures forall i :: 0 <= i < |all| - from ==> all[from..][i].sequence == last - (|all| - from) + i + 1
    ensures RequestsIdentified(all[from..]) && ActsNumbered(all[from..])
  {
    assert forall i :: 0 <= i < |all| - from ==> all[from..][i] == all[from + i];
  }

  lemma {:induction false} AppendUnique(actions: seq<Action>, a: Action)
    requires UniqueIds(actions)
    requires forall i :: 0 <= i < |actions| ==> actions[i].actionId != a.actionId
    requires a.requestId.Some? ==> forall i :: 0 <= i < |actions| ==> actions[i].requestId != a.requestId
    ensures UniqueIds(actions + [a])
  {
  }

  lemma {:induction false} SuffixUnique(actions: seq<Action>, from: nat)
    requires UniqueIds(actions) && from <= |actions|
    ensures UniqueIds(actions[from..])
  {
    forall i, j | 0 <= i < j < |actions| - from
      ensures actions[from..][i].actionId != actions[from..][j].actionId
      ensures actions[from..][i].requestId.Some? ==> actions[from..][i].requestId != actions[from..][j].requestId
    {
      assert actions[from..][i] == actions[from + i] && actions[from..][j] == actions[from + j];
    }
  }

  function RetentionFloor(s: RoomCoreState): nat {
    if s.actions != [] then s.actions[0].sequence else s.lastSequence + 1
  }

  /** `filter(action => action.sequence > n)` */
  function After(actions: seq<Action>, n: int): seq<Action> {
    if actions == [] then []
    else
      var before, last := After(actions[..|actions| - 1], n), actions[|actions| - 1];
      if last.sequence > n then before + [last] else before
  }

  function ResumeAfter(s: RoomCoreState, lastSequence: int): ResumeResult {
    if lastSequence < 0 || lastSequence > s.lastSequence then InvalidSequence
    else if lastSequence < RetentionFloor(s) - 1 then ResyncRequired
    else Resume(lastSequence + 1, After(s.actions, lastSequence))
  }

  function PlanBootstrap(initial: nat, needsRecoveryBase: bool, scripted: bool,
      checkpoint: Option<nat>): BootstrapPlan {
    if !needsRecoveryBase then InitialTail(initial)
    else if checkpoint.Some? then CheckpointTail(checkpoint.value)
    else if scripted then FullLog(initial)
    else CheckpointTail(initial)
  }

  predicate CheckpointIsDue(limits: Limits, checkpoint: nat, lastSequence: nat) {
    lastSequence - checkpoint >= limits.interval
  }

  predicate BaseConnects(base: nat, s: RoomCoreState) {
    RetentionFloor(s) - 1 <= base <= s.lastSequence
  }

  /** `n + 1, n + 2, …` in order. */
  predicate Consecutive(actions: seq<Action>, n: nat) {
    forall i :: 0 <= i < |actions| ==> actions[i].sequence == n + i + 1
  }

  /** Replays a retained tail; None where the source throws. */
  method ReplayCheckpoint(k: Kernel, base: Snapshot, retained: seq<Action>) returns (r: Option<Snapshot>)
    ensures r.Some? <==> Consecutive(After(retained, base.sequence), base.sequence)
    ensures r.Some? ==> r.value == Fold(k, base, After(retained, base.sequence))
    ensures r.Some? ==>
      && r.value.state == Play(k.apply, base.state, After(retained, base.sequence))
      && r.value.sequence == base.sequence + |After(retained, base.sequence)| && r.value.release == base.release
  {
    hide Apply, After;
    var state, expected := base, base.sequence + 1;
    AfterNothing(base.sequence);
    assert retained[..0] == [];
    for i := 0 to |retained|
      invariant Consecutive(After(retained[..i], base.sequence), base.sequence)
      invariant state == Fold(k, base, After(retained[..i], base.sequence))
      invariant expected == base.sequence + |After(retained[..i], base.sequence)| + 1
    {
      var action := retained[i];
      ghost var later := After(retained[..i], base.sequence);
      AfterNext(retained, i, base.sequence);
      if action.sequence <= base.sequence { continue; }
      if action.sequence != expected {
        AfterPrefix(retained, i + 1, base.sequence);
        assert After(retained, base.sequence)[|later|] == action;
        return None;
      }
      FoldAppend(k, base, later, action);
      state := Apply(k, state, action);
      expected := expected + 1;
    }
    assert retained[..|retained|] == retained;
    FoldPlays(k, base, After(retained, base.sequence));
    r := Some(state);
  }

  lemma {:induction false} AfterNothing(n: int)
    ensures After([], n) == []
  {
  }

  lemma {:induction false} AfterNext(actions: seq<Action>, i: nat, n: int)
    requires i < |actions|
    ensures After(actions[..i + 1], n) ==
      if actions[i].sequence > n then After(actions[..i], n) + [actions[i]] else After(actions[..i], n)
  {
    assert actions[..i + 1][..i] == actions[..i];
  }

  lemma {:induction false} AfterPrefix(actions: seq<Action>, i: nat, n: int)
    requires i <= |actions|
    ensures After(actions[..i], n) <= After(actions, n)
    decreases |actions| - i
  {
    if i < |actions| {
      AfterNext(actions, i, n);
      AfterPrefix(actions, i + 1, n);
    } else {
      assert actions[..i] == actions;
    }
  }

  /** The stored log behind a base, complete up to the last sequence; None where the source throws. */
  method ContiguousActionsAfter(base: nat, lastSequence: nat, actions: seq<Action>) returns (r: Option<seq<Action>>)
    ensures r.Some? <==> Consecutive(After(actions, base), base) && base + |After(actions, base)| == lastSequence
    ensures r.Some? ==> r.value == After(actions, base)
  {
    var later := After(actions, base);
    var expected := base + 1;
    for i := 0 to |later|
      invariant expected == base + i + 1
      invariant forall j :: 0 <= j < i ==> later[j].sequence == base + j + 1
    {
      if later[i].sequence != expected { return None; }
      expected := expected + 1;
    }
    if expected != lastSequence + 1 { return None; }
    r := Some(later);
  }

  /** `roomBootstrapFromSnapshots`; `Failed` where it throws, `Unavailable` for the scripted error. */
  method RoomBootstrap(s: RoomCoreState, initial: Snapshot, checkpoint: Option<Snapshot>,
      fullActions: Option<seq<Action>>)
    returns (r: Bootstrap)
    ensures r == BootstrapFrom(s, initial, checkpoint, fullActions)
  {
    var initialReplay := ResumeAfter(s, initial.sequence);
    if initialReplay.Resume? { return Bootstrap(initial, initialReplay.actions); }
    if initialReplay.InvalidSequence? { return Failed; }
    if fullActions.Some? {
      var base := checkpoint.GetOr(initial);
      if base.release != initial.release { return Failed; }
      var actions := ContiguousActionsAfter(base.sequence, s.lastSequence, fullActions.value);
      if actions.None? { return Unavailable; }
      return Bootstrap(base, actions.value);
    }
    if checkpoint.None? { return Failed; }
    if checkpoint.value.release != initial.release { return Failed; }
    if checkpoint.value.sequence < RetentionFloor(s) - 1 || checkpoint.value.sequence > s.lastSequence {
      return Failed;
    }
    var replay := ResumeAfter(s, checkpoint.value.sequence);
    if !replay.Resume? { return Failed; }
    r := Bootstrap(checkpoint.value, replay.actions);
  }

  function BootstrapFrom(s: RoomCoreState, initial: Snapshot, checkpoint: Option<Snapshot>,
      fullActions: Option<seq<Action>>): Bootstrap {
    match ResumeAfter(s, initial.sequence)
    case Resume(_, actions) => Bootstrap(initial, actions)
    case InvalidSequence => Failed
    case ResyncRequired =>
      var base := checkpoint.GetOr(initial);
      if base.release != initial.release || (fullActions.None? && checkpoint.None?) then Failed
      else if fullActions.Some? then
        var later := After(fullActions.value, base.sequence);
        if Consecutive(later, base.sequence) && base.sequence + |later| == s.lastSequence then Bootstrap(base, later)
        else Unavailable
      else if BaseConnects(base.sequence, s) then Bootstrap(base, After(s.actions, base.sequence))
      else Failed
  }

  // ---------------------------------------------------------------------------
  // Windows of a history
  // ---------------------------------------------------------------------------

  /** A whole log: numbered from one, ids never reused. */
  ghost predicate HistoryOk(h: seq<Action>) {
    Numbered(h) && UniqueIds(h) && RequestsIdentified(h) && ActsNumbered(h)
  }

  function FloorOf(limits: Limits, n: nat): nat {
    if n > limits.retention then n - limits.retention else 0
  }

  /** What the room keeps in memory of a log. */
  function WindowOf(limits: Limits, h: seq<Action>): RoomCoreState {
    RoomCoreState(|h|, h[FloorOf(limits, |h|)..])
  }

  lemma {:induction false} WindowOfOk(limits: Limits, h: seq<Action>)
    requires limits.Valid() && HistoryOk(h) && |h| <= MAX_SAFE_INTEGER
    ensures WindowOk(limits, WindowOf(limits, h)) && ActsNumbered(WindowOf(limits, h).actions)
    ensures RetentionFloor(WindowOf(limits, h)) == FloorOf(limits, |h|) + 1
  {
    var from := FloorOf(limits, |h|);
    assert forall i :: 0 <= i < |h| - from ==> h[from..][i] == h[from + i];
  }

  /** Sliding the window of a log is the window of the longer log. */
  lemma {:induction false} WindowSlides(limits: Limits, h: seq<Action>, a: Action)
    requires limits.Valid() && a.sequence == |h| + 1
    ensures Pushed(limits, WindowOf(limits, h), a) == WindowOf(limits, h + [a])
  {
    var from := FloorOf(limits, |h|);
    assert h[from..] + [a] == (h + [a])[from..];
    if |h| >= limits.retention {
      assert (h + [a])[from..][|h| + 1 - from - limits.retention..] == (h + [a])[|h| + 1 - limits.retention..];
    }
  }

  /** Filtering a stretch of a numbered log by sequence is slicing it. */
  lemma {:induction false} AfterSlice(h: seq<Action>, from: nat, end: nat, n: int)
    requires Numbered(h) && from <= end <= |h|
    ensures After(h[from..end], n) == if n >= end then [] else h[if n > from then n else from..end]
    decreases end
  {
    if from < end {
      AfterSlice(h, from, end - 1, n);
      assert h[from..end][..end - 1 - from] == h[from..end - 1];
    }
  }

  lemma {:induction false} AfterSuffix(h: seq<Action>, from: nat, n: nat)
    requires Numbered(h) && from <= n <= |h|
    ensures After(h[from..], n) == h[n..]
  {
    AfterSlice(h, from, |h|, n);
    assert h[from..|h|] == h[from..] && h[n..|h|] == h[n..];
  }

  /** Resuming answers with exactly the missing end of the whole log, or says it cannot. */
  lemma {:induction false} ResumeIsHistory(limits: Limits, h: seq<Action>, n: int)
    requires limits.Valid() && HistoryOk(h) && |h| <= MAX_SAFE_INTEGER
    ensures ResumeAfter(WindowOf(limits, h), n) ==
      if n < 0 || n > |h| then InvalidSequence
      else if n < FloorOf(limits, |h|) then ResyncRequired
      else Resume(n + 1, h[n..])
  {
    WindowOfOk(limits, h);
    if FloorOf(limits, |h|) <= n <= |h| { AfterSuffix(h, FloorOf(limits, |h|), n); }
  }

  /** Replaying the window from any base that connects and is the state there gives the newest state. */
  lemma {:induction false} ReplayFromAnyBase(k: Kernel, limits: Limits, initial: Snapshot, h: seq<Action>,
      base: Snapshot)
    requires limits.Valid() && HistoryOk(h) && |h| <= MAX_SAFE_INTEGER && initial.sequence == 0
    requires BaseConnects(base.sequence, WindowOf(limits, h)) && base == StateAt(k, initial, h, base.sequence)
    ensures Consecutive(After(WindowOf(limits, h).actions, base.sequence), base.sequence)
    ensures Fold(k, base, After(WindowOf(limits, h).actions, base.sequence)) == StateAt(k, initial, h, |h|)
  {
    WindowOfOk(limits, h);
    AfterSuffix(h, FloorOf(limits, |h|), base.sequence);
    StateAtFrom(k, initial, h, base.sequence, |h|);
    assert h[base.sequence..|h|] == h[base.sequence..];
  }
}
