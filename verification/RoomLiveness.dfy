/**
 Whether a room is kept alive while somebody is connected and expires once nobody is, over
 whole runs: the pulses of a run before each event and at its end.
 */
module RoomLiveness {
  import opened Wrappers
  import opened Kernel
  import opened Liveness
  import opened RoomStore
  import opened RoomObject
  import opened RoomRun

  /** The clock does not go back, and no heartbeat is ahead of it. */
  predicate Orderly(events: seq<(Event, int)>, pulses: seq<Pulse>)
    requires |pulses| == |events| + 1
  {
    && (forall i, j :: 0 <= i <= j < |events| ==> events[i].1 <= events[j].1)
    && (events != [] && pulses[0].heartbeatAt.Some? ==> pulses[0].heartbeatAt.value <= events[0].1)
  }

  /** No event comes later than an alarm that was set for earlier. */
  predicate Punctual(events: seq<(Event, int)>, pulses: seq<Pulse>)
    requires |pulses| == |events| + 1
  {
    forall i :: 0 <= i < |events| ==> NotOverdue(pulses[i], events[i].1)
  }

  /** At the moment an alarm is set for, it rings before anything else happens. */
  predicate AlarmsFirst(events: seq<(Event, int)>, pulses: seq<Pulse>)
    requires |pulses| == |events| + 1
  {
    forall i :: 0 <= i < |events| && pulses[i].alarm.AlarmAt? && events[i].1 == pulses[i].alarm.at ==>
      events[i].0.AlarmRings?
  }

  lemma {:induction false} BeatIsBeats(a: Pulse, event: Event, now: int, b: Pulse)
    requires Beat(a, event, now, b)
    ensures (a.ended ==> b.ended) && Beats(a, now, b)
  {
  }

  // ---------------------------------------------------------------------------
  // The heartbeat of a connected room
  // ---------------------------------------------------------------------------

  /** An event after which the heartbeat of a connected room will be stale before the alarm rings. */
  predicate StrandsHeartbeat(events: seq<(Event, int)>, pulses: seq<Pulse>, i: nat)
    requires |pulses| == |events| + 1 && i < |events|
  {
    HeartbeatStranded(pulses[i], events[i].1, pulses[i + 1])
  }

  lemma {:induction false} HeartbeatUntil(events: seq<(Event, int)>, pulses: seq<Pulse>, n: nat)
    requires IsPulsed(events, pulses) && Orderly(events, pulses) && Fresh(pulses[0]) && n <= |events|
    requires forall i :: 0 <= i < n ==> !StrandsHeartbeat(events, pulses, i)
    ensures forall i :: 0 <= i <= n ==> Fresh(pulses[i])
    ensures n > 0 && !pulses[n].ended && pulses[n].heartbeatAt.Some? ==> pulses[n].heartbeatAt.value <= events[n - 1].1
  {
    hide Beat, Beats, HeartbeatStranded, Remembers, Fresh;
    if n > 0 {
      HeartbeatUntil(events, pulses, n - 1);
      assert !StrandsHeartbeat(events, pulses, n - 1);
      HeartbeatNext(events, pulses, n - 1);
    }
  }

  lemma {:induction false} HeartbeatNext(events: seq<(Event, int)>, pulses: seq<Pulse>, i: nat)
    requires IsPulsed(events, pulses) && i < |events| && Fresh(pulses[i])
    requires !pulses[i].ended && pulses[i].heartbeatAt.Some? ==> pulses[i].heartbeatAt.value <= events[i].1
    ensures Fresh(pulses[i + 1]) <==> !StrandsHeartbeat(events, pulses, i)
    ensures !pulses[i + 1].ended && pulses[i + 1].heartbeatAt.Some? ==>
      pulses[i + 1].heartbeatAt.value <= events[i].1
  {
    BeatIsBeats(pulses[i], events[i].0, events[i].1, pulses[i + 1]);
    if !pulses[i].ended { FreshIff(pulses[i], events[i].1, pulses[i + 1]); }
  }

  /**
   Through any run whose clock does not go back, the alarm of a connected room always comes
   before its heartbeat is stale, if and only if no event strands it: no ring throws, and
   nothing sets the alarm anew an interval or more after the last heartbeat with no timer due
   in time.
   */
  lemma {:induction false} HeartbeatOfRun(events: seq<(Event, int)>, pulses: seq<Pulse>)
    requires IsPulsed(events, pulses) && Orderly(events, pulses) && Fresh(pulses[0])
    ensures (forall i :: 0 <= i < |pulses| ==> Fresh(pulses[i])) <==>
      forall i :: 0 <= i < |events| ==> !StrandsHeartbeat(events, pulses, i)
  {
    hide Beat, Beats, HeartbeatStranded, Remembers, Fresh;
    if forall i :: 0 <= i < |events| ==> !StrandsHeartbeat(events, pulses, i) {
      HeartbeatUntil(events, pulses, |events|);
    }
    if i :| 0 <= i < |events| && StrandsHeartbeat(events, pulses, i) {
      var n := FirstStranding(events, pulses, i);
      HeartbeatUntil(events, pulses, n);
      HeartbeatNext(events, pulses, n);
      assert !Fresh(pulses[n + 1]);
    }
  }

  lemma {:induction false} FirstStranding(events: seq<(Event, int)>, pulses: seq<Pulse>, i: nat) returns (n: nat)
    requires |pulses| == |events| + 1 && i < |events| && StrandsHeartbeat(events, pulses, i)
    ensures n <= i && StrandsHeartbeat(events, pulses, n)
    ensures forall j :: 0 <= j < n ==> !StrandsHeartbeat(events, pulses, j)
  {
    if j :| 0 <= j < i && StrandsHeartbeat(events, pulses, j) {
      n := FirstStranding(events, pulses, j);
    } else {
      n := i;
    }
  }

  /** Only a ring that throws, a registration, a cancellation, a claim or a hello that starts the room strands one. */
  lemma {:induction false} WhoStrandsHeartbeat(events: seq<(Event, int)>, pulses: seq<Pulse>, i: nat)
    requires IsPulsed(events, pulses) && i < |events| && Fresh(pulses[i]) && StrandsHeartbeat(events, pulses, i)
    requires !pulses[i].ended && pulses[i].heartbeatAt.Some? ==> pulses[i].heartbeatAt.value <= events[i].1
    ensures
      var event, now := events[i].0, events[i].1;
      || (event.AlarmRings? && pulses[i + 1].alarm.Retrying?)
      || ((event.TimerRegistered? || event.TimerCanceled? || event.PlayerJoins? || event.HelloRuns?)
            && now >= pulses[i].heartbeatAt.value + ROOM_HEARTBEAT_INTERVAL_MS)
  {
  }

  /** So while alarms are punctual and nothing strands it, nobody ever sees a stale heartbeat of a connected room. */
  lemma {:induction false} NeverStale(events: seq<(Event, int)>, pulses: seq<Pulse>, i: nat)
    requires IsPulsed(events, pulses) && Orderly(events, pulses) && Punctual(events, pulses) && Fresh(pulses[0])
    requires forall i :: 0 <= i < |events| ==> !StrandsHeartbeat(events, pulses, i)
    requires i < |events| && !pulses[i].ended && pulses[i].connections > 0
    ensures events[i].1 < pulses[i].heartbeatAt.value + ROOM_HEARTBEAT_STALE_MS
  {
    HeartbeatUntil(events, pulses, |events|);
    FreshMeans(pulses[i]);
  }

  // ---------------------------------------------------------------------------
  // The expiry of an empty room
  // ---------------------------------------------------------------------------

  /** An event after which an empty room that should have expired has no alarm. */
  predicate StrandsExpiry(events: seq<(Event, int)>, pulses: seq<Pulse>, i: nat)
    requires |pulses| == |events| + 1 && i < |events|
  {
    ExpiryStranded(pulses[i], events[i].1, pulses[i + 1])
  }

  lemma {:induction false} ExpiryNext(events: seq<(Event, int)>, pulses: seq<Pulse>, i: nat)
    requires IsPulsed(events, pulses) && i < |events| && Expiring(pulses[i])
    ensures Expiring(pulses[i + 1]) <==> !StrandsExpiry(events, pulses, i)
  {
    BeatIsBeats(pulses[i], events[i].0, events[i].1, pulses[i + 1]);
    ExpiringIff(pulses[i], events[i].1, pulses[i + 1]);
  }

  lemma {:induction false} ExpiryUntil(events: seq<(Event, int)>, pulses: seq<Pulse>, n: nat)
    requires IsPulsed(events, pulses) && Expiring(pulses[0]) && n <= |events|
    requires forall i :: 0 <= i < n ==> !StrandsExpiry(events, pulses, i)
    ensures forall i :: 0 <= i <= n ==> Expiring(pulses[i])
  {
    if n > 0 {
      ExpiryUntil(events, pulses, n - 1);
      ExpiryNext(events, pulses, n - 1);
    }
  }

  /**
   Through any run, whatever its clock does: an empty room that was ever connected always has
   its alarm at its expiry, if and only if nothing sets the alarm anew at or after that time.
   */
  lemma {:induction false} ExpiryOfRun(events: seq<(Event, int)>, pulses: seq<Pulse>)
    requires IsPulsed(events, pulses) && Expiring(pulses[0])
    ensures (forall i :: 0 <= i < |pulses| ==> Expiring(pulses[i])) <==>
      forall i :: 0 <= i < |events| ==> !StrandsExpiry(events, pulses, i)
  {
    hide Beat, Beats, ExpiryStranded, Remembers;
    if forall i :: 0 <= i < |events| ==> !StrandsExpiry(events, pulses, i) {
      ExpiryUntil(events, pulses, |events|);
    }
    if forall i :: 0 <= i < |pulses| ==> Expiring(pulses[i]) {
      forall i | 0 <= i < |events| ensures !StrandsExpiry(events, pulses, i) {
        assert Expiring(pulses[i]) && Expiring(pulses[i + 1]);
        ExpiryNext(events, pulses, i);
      }
    }
  }

  /** Only a registration, a cancellation or a claim at or after its expiry time strands an empty room. */
  lemma {:induction false} WhoStrandsExpiry(events: seq<(Event, int)>, pulses: seq<Pulse>, i: nat)
    requires IsPulsed(events, pulses) && i < |events| && Expiring(pulses[i]) && StrandsExpiry(events, pulses, i)
    ensures
      var event, now := events[i].0, events[i].1;
      && (event.TimerRegistered? || event.TimerCanceled? || event.PlayerJoins?)
      && now >= pulses[i].emptySinceAt.value + EMPTY_ROOM_TTL_MS
  {
  }

  /** While alarms are punctual and come first, nothing strands one. */
  lemma {:induction false} PunctualAlarmsExpire(events: seq<(Event, int)>, pulses: seq<Pulse>, n: nat)
    requires IsPulsed(events, pulses) && Expiring(pulses[0]) && n <= |events|
    requires Punctual(events, pulses) && AlarmsFirst(events, pulses)
    ensures forall i :: 0 <= i <= n ==> Expiring(pulses[i])
  {
    if n > 0 {
      PunctualAlarmsExpire(events, pulses, n - 1);
      ExpiryNext(events, pulses, n - 1);
      assert NotOverdue(pulses[n - 1], events[n - 1].1);
    }
  }

  /**
   So then the first event at or after the expiry time of an empty room that was ever
   connected is the ring that expires it, at exactly that time.
   */
  lemma {:induction false} EmptyRoomExpires(events: seq<(Event, int)>, pulses: seq<Pulse>, i: nat)
    requires IsPulsed(events, pulses) && Expiring(pulses[0]) && i < |events|
    requires Punctual(events, pulses) && AlarmsFirst(events, pulses)
    requires !pulses[i].ended && pulses[i].connections == 0 && pulses[i].heartbeatAt.Some?
    requires events[i].1 >= pulses[i].emptySinceAt.value + EMPTY_ROOM_TTL_MS
    ensures events[i] == (AlarmRings, pulses[i].emptySinceAt.value + EMPTY_ROOM_TTL_MS) && pulses[i + 1].ended
  {
    PunctualAlarmsExpire(events, pulses, i);
    assert NotOverdue(pulses[i], events[i].1);
  }

  /** A room to which nobody ever connects never expires, whenever and however often its alarm rings. */
  lemma {:induction false} NobodyCame(events: seq<(Event, int)>, pulses: seq<Pulse>, n: nat)
    requires IsPulsed(events, pulses) && n <= |events|
    requires !pulses[0].ended && pulses[0].connections == 0 && pulses[0].heartbeatAt.None?
    requires forall i :: 0 <= i < n ==> !events[i].0.SocketOpens? && !events[i].0.RoomEnds?
    ensures !pulses[n].ended && pulses[n].connections == 0 && pulses[n].heartbeatAt.None?
  {
    if n > 0 {
      NobodyCame(events, pulses, n - 1);
      assert Beat(pulses[n - 1], events[n - 1].0, events[n - 1].1, pulses[n]);
    }
  }
}
