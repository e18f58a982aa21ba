/**
 Canonical timers and the one alarm of a room (apps/worker/src/room-liveness.ts and the
 timer statements of apps/worker/src/index.ts).
 */
module Liveness {
  import opened Wrappers
  import opened Kernel

  const TIMER_CANCEL_GRACE_MS: int := 350
  const EMPTY_ROOM_TTL_MS: int := 1_800_000
  const ROOM_HEARTBEAT_INTERVAL_MS: int := 30_000
  const ROOM_HEARTBEAT_STALE_MS: int := 2 * ROOM_HEARTBEAT_INTERVAL_MS

  /** The platform's one alarm: it is cleared when it rings, and rung again if the handler threw. */
  datatype AlarmSlot = NoAlarm | AlarmAt(at: int) | Retrying

  datatype TimerStatus = Scheduled | HasFired | Canceled

  datatype Timer = Timer(dueAt: int, status: TimerStatus, deferredOnce: bool)

  datatype TimerPlan = Skip | Wait | Defer(nextAttemptAt: int) | Fire

  datatype RoomAlarmPlan = RoomAlarmPlan(heartbeatDue: bool, expiryDue: bool, nextAlarmAt: Option<int>)

  function PlanTimer(now: int, t: Timer, lastActionAt: Option<int>): TimerPlan {
    if !t.status.Scheduled? then Skip
    else if t.dueAt > now then Wait
    else if !t.deferredOnce && lastActionAt.Some? && 0 <= now - lastActionAt.value < TIMER_CANCEL_GRACE_MS then
      Defer(now + TIMER_CANCEL_GRACE_MS)
    else Fire
  }

  function PlanRoom(now: int, connections: nat, lastHeartbeatAt: Option<int>,
      emptySinceAt: Option<int>): RoomAlarmPlan {
    if connections > 0 then
      RoomAlarmPlan(lastHeartbeatAt.None? || now - lastHeartbeatAt.value >= ROOM_HEARTBEAT_INTERVAL_MS, false,
        Some(now + ROOM_HEARTBEAT_INTERVAL_MS))
    else
      var expiryAt := emptySinceAt.GetOr(now) + EMPTY_ROOM_TTL_MS;
      RoomAlarmPlan(false, now >= expiryAt, if now >= expiryAt then None else Some(expiryAt))
  }

  function NextAlarm(livenessAt: Option<int>, earliestTimer: Option<int>, connections: nat): Option<int> {
    var timerAt := if connections > 0 then earliestTimer else None;
    if livenessAt.None? then timerAt
    else if timerAt.None? then livenessAt
    else if livenessAt.value <= timerAt.value then livenessAt else timerAt
  }

  // ---------------------------------------------------------------------------
  // The timer table
  // ---------------------------------------------------------------------------

  predicate Due(timers: map<TimerId, Timer>, t: TimerId, now: int) {
    t in timers && timers[t].status.Scheduled? && timers[t].dueAt <= now
  }

  predicate FiresNow(timers: map<TimerId, Timer>, t: TimerId, now: int, lastActionAt: Option<int>) {
    t in timers && PlanTimer(now, timers[t], lastActionAt).Fire?
  }

  /** One timer row after the alarm. */
  function AfterAlarm(now: int, t: Timer, lastActionAt: Option<int>): Timer {
    match PlanTimer(now, t, lastActionAt)
    case Fire => t.(status := HasFired)
    case Defer(at) => t.(dueAt := at, deferredOnce := true)
    case _ => t
  }

  function TimersAfterAlarm(timers: map<TimerId, Timer>, now: int, lastActionAt: Option<int>): map<TimerId, Timer> {
    map t | t in timers :: AfterAlarm(now, timers[t], lastActionAt)
  }

  /** Where a registration during the resume pause stores its due time. */
  function RegisteredDue(pendingSince: Option<int>, now: int, dueAt: int): int {
    if pendingSince.None? then dueAt else pendingSince.value + if dueAt > now then dueAt - now else 0
  }

  /** Scheduled rows move by the length of the pause; a clock that went back moves nothing. */
  function EndPause(timers: map<TimerId, Timer>, pendingSince: int, now: int): map<TimerId, Timer> {
    var shift := if now > pendingSince then now - pendingSince else 0;
    map t | t in timers ::
      if timers[t].status.Scheduled? then timers[t].(dueAt := timers[t].dueAt + shift) else timers[t]
  }

  function Cancel(timers: map<TimerId, Timer>, t: TimerId): map<TimerId, Timer> {
    if t in timers && timers[t].status.Scheduled? then timers[t := timers[t].(status := Canceled)] else timers
  }

  /** INSERT OR IGNORE: the first writer wins. */
  function Register(timers: map<TimerId, Timer>, t: TimerId, dueAt: int): map<TimerId, Timer> {
    if t in timers then timers else timers[t := Timer(dueAt, Scheduled, false)]
  }

  /** One row's possible later lives: fired and canceled are final, a deferral happens once. */
  predicate Outlives(before: Timer, after: Timer) {
    && (!before.status.Scheduled? ==> after == before)
    && (before.deferredOnce ==> after.deferredOnce)
  }

  predicate Evolves(before: map<TimerId, Timer>, after: map<TimerId, Timer>) {
    forall t :: t in before ==> t in after && Outlives(before[t], after[t])
  }

  /** Rows stay with their status, and new ones are scheduled. */
  predicate SameStatus(before: map<TimerId, Timer>, after: map<TimerId, Timer>) {
    && before.Keys <= after.Keys
    && forall t :: t in after ==>
      if t in before then after[t].status == before[t].status else after[t].status.Scheduled?
  }

  lemma {:induction false} SameStatusReflexive(timers: map<TimerId, Timer>)
    ensures SameStatus(timers, timers)
  {
  }

  /** A due timer is deferred by at most one grace period: at the second attempt it fires. */
  lemma {:induction false} DeferredOnceThenFires(now: int, t: Timer, lastActionAt: Option<int>, later: int,
      lastActionLater: Option<int>)
    requires PlanTimer(now, t, lastActionAt).Defer?
    requires later >= now + TIMER_CANCEL_GRACE_MS
    ensures PlanTimer(later, AfterAlarm(now, t, lastActionAt), lastActionLater).Fire?
  {
  }

  // ---------------------------------------------------------------------------
  // Due timers in order, and the earliest one
  // ---------------------------------------------------------------------------

  /** ORDER BY due_at, timer_id */
  predicate Before(timers: map<TimerId, Timer>, a: TimerId, b: TimerId)
    requires a in timers && b in timers
  {
    timers[a].dueAt < timers[b].dueAt || (timers[a].dueAt == timers[b].dueAt && a <= b)
  }

  predicate First(timers: map<TimerId, Timer>, s: set<TimerId>, t: TimerId)
    requires s <= timers.Keys
  {
    t in s && forall u :: u in s ==> Before(timers, t, u)
  }

  lemma {:induction false} FirstExists(timers: map<TimerId, Timer>, s: set<TimerId>) returns (t: TimerId)
    requires s != {} && s <= timers.Keys
    ensures First(timers, s, t)
    decreases s
  {
    t :| t in s;
    if s != {t} {
      assert s - {t} != {};
      var u := FirstExists(timers, s - {t});
      assert s == (s - {t}) + {t};
      if Before(timers, u, t) { t := u; }
    }
  }

  predicate InOrder(timers: map<TimerId, Timer>, due: seq<TimerId>) {
    && (forall i :: 0 <= i < |due| ==> due[i] in timers)
    && (forall i, j :: 0 <= i < j < |due| ==> due[i] != due[j] && Before(timers, due[i], due[j]))
  }

  /** The rows the alarm selects, in its order. */
  method SelectDue(timers: map<TimerId, Timer>, now: int) returns (due: seq<TimerId>)
    ensures forall t :: t in due <==> Due(timers, t, now)
    ensures InOrder(timers, due)
    ensures forall i, j :: 0 <= i < j < |due| ==>
      && due[i] in timers && due[j] in timers
      && (|| timers[due[i]].dueAt < timers[due[j]].dueAt
          || (timers[due[i]].dueAt == timers[due[j]].dueAt && due[i] < due[j]))
  {
    var left := set t | t in timers && Due(timers, t, now);
    due := [];
    while left != {}
      invariant forall t :: t in left ==> Due(timers, t, now) && t !in due
      invariant forall t :: Due(timers, t, now) <==> t in left || t in due
      invariant InOrder(timers, due)
      invariant forall i, t :: 0 <= i < |due| && t in left ==> Before(timers, due[i], t)
      decreases left
    {
      ghost var first := FirstExists(timers, left);
      var t :| t in left && First(timers, left, t);
      assert First(timers, left, t);
      assert forall u :: u in left ==> Before(timers, t, u);
      due := due + [t];
      left := left - {t};
    }
  }

  ghost predicate IsEarliest(timers: map<TimerId, Timer>, dueAt: Option<int>) {
    match dueAt
    case None => forall t :: t in timers ==> !timers[t].status.Scheduled?
    case Some(at) =>
      && (forall t :: t in timers && timers[t].status.Scheduled? ==> at <= timers[t].dueAt)
      && (exists t :: t in timers && timers[t].status.Scheduled? && at == timers[t].dueAt)
  }

  lemma {:induction false} EarliestExists(timers: map<TimerId, Timer>)
    ensures exists dueAt :: IsEarliest(timers, dueAt)
  {
    var scheduled := set t | t in timers && timers[t].status.Scheduled?;
    if scheduled == {} {
      assert forall t :: t in timers && timers[t].status.Scheduled? ==> t in scheduled;
      assert IsEarliest(timers, None);
    } else {
      var t := FirstExists(timers, scheduled);
      assert forall u :: u in timers && timers[u].status.Scheduled? ==> u in scheduled;
      assert forall u :: u in scheduled ==> Before(timers, t, u);
      assert IsEarliest(timers, Some(timers[t].dueAt));
    }
  }

  /** The earliest due time of a scheduled row. */
  ghost function Soonest(timers: map<TimerId, Timer>): (dueAt: Option<int>)
    ensures IsEarliest(timers, dueAt)
  {
    EarliestExists(timers);
    var dueAt :| IsEarliest(timers, dueAt);
    dueAt
  }

  lemma {:induction false} EarliestIsSoonest(timers: map<TimerId, Timer>, dueAt: Option<int>)
    requires IsEarliest(timers, dueAt)
    ensures dueAt == Soonest(timers)
  {
    assert IsEarliest(timers, Soonest(timers));
  }

  /** `SELECT due_at … WHERE status = 'scheduled' ORDER BY due_at LIMIT 1` */
  method EarliestScheduled(timers: map<TimerId, Timer>) returns (dueAt: Option<int>)
    ensures IsEarliest(timers, dueAt) && dueAt == Soonest(timers)
  {
    hide Soonest;
    var scheduled := set t | t in timers && timers[t].status.Scheduled?;
    if scheduled == {} {
      assert forall t :: t in timers && timers[t].status.Scheduled? ==> t in scheduled;
      EarliestIsSoonest(timers, None);
      return None;
    }
    ghost var first := FirstExists(timers, scheduled);
    var t :| t in scheduled && First(timers, scheduled, t);
    assert First(timers, scheduled, t);
    assert forall u :: u in scheduled ==> Before(timers, t, u);
    assert forall u :: u in timers && timers[u].status.Scheduled? ==> u in scheduled;
    EarliestIsSoonest(timers, Some(timers[t].dueAt));
    dueAt := Some(timers[t].dueAt);
  }

  // ---------------------------------------------------------------------------
  // The pulse of a room
  // ---------------------------------------------------------------------------

  /** What decides whether a room is kept alive; `soonest` is the first timer of a room that is not paused. */
  datatype Pulse = Pulse(
    ended: bool,
    connections: nat,
    heartbeatAt: Option<int>,
    emptySinceAt: Option<int>,
    soonest: Option<int>,
    alarm: AlarmSlot)

  /** What `rescheduleAlarm` sets. */
  function AlarmFor(p: Pulse, now: int): (r: AlarmSlot)
    ensures !r.Retrying?
  {
    if p.ended then NoAlarm
    else
      match NextAlarm(PlanRoom(now, p.connections, p.heartbeatAt, p.emptySinceAt).nextAlarmAt, p.soonest, p.connections)
      case None => NoAlarm
      case Some(at) => AlarmAt(at)
  }

  /** When a connected room's next alarm is, does not depend on its heartbeat. */
  lemma {:induction false} AlarmIgnores(p: Pulse, q: Pulse, now: int)
    requires p.ended == q.ended && p.connections == q.connections > 0 && p.soonest == q.soonest
    ensures AlarmFor(p, now) == AlarmFor(q, now)
  {
  }

  /**
   Between events: a connected room has a heartbeat and an alarm, which comes no later than
   its first timer; an empty one remembers since when exactly if anybody was ever connected.
   */
  predicate Remembers(p: Pulse) {
    p.ended ||
    if p.connections > 0 then
      && p.heartbeatAt.Some? && p.emptySinceAt.None? && !p.alarm.NoAlarm?
      && (p.alarm.AlarmAt? && p.soonest.Some? ==> p.alarm.at <= p.soonest.value)
    else (p.emptySinceAt.Some? <==> p.heartbeatAt.Some?) && !p.alarm.Retrying?
  }

  /** Nothing but the timer table changed. */
  predicate Unmoved(a: Pulse, b: Pulse) {
    b == a.(soonest := b.soonest)
  }

  /** The alarm was set anew, and nothing else changed. */
  predicate Reset(a: Pulse, now: int, b: Pulse) {
    b == a.(soonest := b.soonest, alarm := AlarmFor(b, now))
  }

  /** A socket opened. */
  predicate Arrives(a: Pulse, now: int, b: Pulse) {
    b == Pulse(false, a.connections + 1, Some(now), None, b.soonest, AlarmFor(b, now))
  }

  /** A socket closed. */
  predicate Leaves(a: Pulse, now: int, b: Pulse) {
    && a.connections > 0
    && b == Pulse(false, a.connections - 1, Some(now), if a.connections == 1 then Some(now) else None, b.soonest,
        AlarmFor(b, now))
  }

  /** A client said hello: it may have started the room, and have been seated. */
  predicate Greets(a: Pulse, now: int, b: Pulse) {
    && b == a.(heartbeatAt := b.heartbeatAt, soonest := b.soonest, alarm := b.alarm)
    && (b.heartbeatAt == a.heartbeatAt || b.heartbeatAt == Some(now))
    && (b.alarm == a.alarm || b.alarm == AlarmFor(b, now))
  }

  /** The alarm rang: it threw, or expired the room, or beat if that was due and was set anew. */
  predicate Rings(a: Pulse, now: int, threw: bool, b: Pulse) {
    var plan := PlanRoom(now, a.connections, a.heartbeatAt, a.emptySinceAt);
    if threw then a.connections > 0 && b == a.(alarm := Retrying)
    else if plan.expiryDue then b == a.(ended := true, soonest := b.soonest, alarm := NoAlarm)
    else
      b == a.(heartbeatAt := if plan.heartbeatDue then Some(now) else a.heartbeatAt, soonest := b.soonest,
              alarm := AlarmFor(b, now))
  }

  lemma {:induction false} RingGoesOn(a: Pulse, b: Pulse, now: int, c: Pulse)
    requires Unmoved(a, b) && Rings(b, now, false, c)
    ensures Rings(a, now, false, c)
  {
  }

  /** The alarm is cleared when it rings. */
  lemma {:induction false} RingClears(a: Pulse)
    requires Remembers(a)
    ensures a.ended ==> Remembers(a.(alarm := NoAlarm))
    ensures a.connections > 0 ==> Remembers(a.(alarm := Retrying))
  {
  }

  lemma {:induction false} RemembersStill(a: Pulse, b: Pulse)
    requires Remembers(a) && Unmoved(a, b)
    ensures Remembers(b.(soonest := None))
  {
  }

  /** The next alarm of a connected room comes before its heartbeat is stale. */
  predicate Fresh(p: Pulse) {
    !p.ended && p.connections > 0 ==>
      p.alarm.AlarmAt? && p.heartbeatAt.Some? && p.alarm.at < p.heartbeatAt.value + ROOM_HEARTBEAT_STALE_MS
  }

  /** The alarm of an empty room that was ever connected is set for its expiry. */
  predicate Expiring(p: Pulse) {
    !p.ended && p.connections == 0 && p.emptySinceAt.Some? ==>
      p.alarm == AlarmAt(p.emptySinceAt.value + EMPTY_ROOM_TTL_MS)
  }

  /** Until when no alarm is overdue. */
  predicate NotOverdue(p: Pulse, now: int) {
    p.alarm.AlarmAt? ==> now <= p.alarm.at
  }

  /** That is what a heartbeat needs never to be stale while no alarm is overdue. */
  lemma {:induction false} FreshMeans(p: Pulse)
    requires Remembers(p) && !p.ended && p.connections > 0
    ensures Fresh(p) <==>
      forall now :: NotOverdue(p, now) ==> now < p.heartbeatAt.value + ROOM_HEARTBEAT_STALE_MS
  {
    var stale := p.heartbeatAt.value + ROOM_HEARTBEAT_STALE_MS;
    if !Fresh(p) {
      assert NotOverdue(p, if p.alarm.AlarmAt? then p.alarm.at else stale);
    }
  }

  /**
   The ring of a connected room threw; or its alarm was set anew without a heartbeat, an
   interval or more after the last one, and no timer comes before that one is stale.
   */
  predicate HeartbeatStranded(a: Pulse, now: int, b: Pulse) {
    && !b.ended && b.connections > 0
    && (|| b.alarm.Retrying?
        || (&& Reset(a, now, b) && a.heartbeatAt.Some?
            && now >= a.heartbeatAt.value + ROOM_HEARTBEAT_INTERVAL_MS
            && !(b.soonest.Some? && b.soonest.value < a.heartbeatAt.value + ROOM_HEARTBEAT_STALE_MS)))
  }

  /** The alarm of an empty room was set anew when it should have expired. */
  predicate ExpiryStranded(a: Pulse, now: int, b: Pulse) {
    && !b.ended && b.connections == 0 && Reset(a, now, b)
    && a.emptySinceAt.Some? && now >= a.emptySinceAt.value + EMPTY_ROOM_TTL_MS
  }

  /** What may happen to a pulse in one event. */
  predicate Beats(a: Pulse, now: int, b: Pulse) {
    || a.ended || b.ended
    || Unmoved(a, b) || Reset(a, now, b) || Arrives(a, now, b) || Leaves(a, now, b)
    || (a.connections > 0 && Greets(a, now, b))
    || Rings(a, now, false, b) || Rings(a, now, true, b)
  }

  /** Every event keeps the heartbeat fresh, but for exactly those that strand it. */
  lemma {:induction false} FreshIff(a: Pulse, now: int, b: Pulse)
    requires Remembers(a) && Remembers(b) && (a.ended ==> b.ended) && Beats(a, now, b) && Fresh(a)
    requires a.heartbeatAt.Some? ==> a.heartbeatAt.value <= now
    ensures Fresh(b) <==> !HeartbeatStranded(a, now, b)
    ensures !b.ended && b.heartbeatAt.Some? ==> b.heartbeatAt.value <= now
  {
  }

  /** Every event keeps an empty room on its way to its expiry, but for exactly those that strand it. */
  lemma {:induction false} ExpiringIff(a: Pulse, now: int, b: Pulse)
    requires Remembers(a) && Remembers(b) && (a.ended ==> b.ended) && Beats(a, now, b) && Expiring(a)
    ensures Expiring(b) <==> !ExpiryStranded(a, now, b)
  {
  }

  /**
   When a ring ends an empty room: exactly if somebody was ever connected and the time since
   is up. The alarm of a room nobody was ever connected to is set anew each time.
   */
  lemma {:induction false} RingExpiresIff(a: Pulse, now: int, b: Pulse)
    requires Remembers(a) && !a.ended && a.connections == 0 && Rings(a, now, false, b)
    ensures b.ended <==> a.heartbeatAt.Some? && now >= a.emptySinceAt.value + EMPTY_ROOM_TTL_MS
    ensures a.heartbeatAt.None? ==> b.alarm == AlarmAt(now + EMPTY_ROOM_TTL_MS) && b.heartbeatAt.None?
  {
  }
}
