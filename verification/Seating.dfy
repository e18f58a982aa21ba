/**
 Seats of a resumed table (apps/worker/src/room-core.ts): the roster built for the first
 action of a resumed room, and the seat allocated to one joining player at a time.
 */
module Seating {
  import opened Wrappers
  import opened Kernel

  /** `Object.keys(state.seats).sort()` has no repetitions. */
  predicate Distinct<T(==)>(s: seq<T>) {
    forall i, j :: 0 <= i < j < |s| ==> s[i] != s[j]
  }

  /** Only actual saved identities make a seat recoverable. */
  function SavedSeatPlayer(t: SavedTable, seat: SeatId): Option<PlayerId> {
    if t.pending.Some? && seat in t.pending.value then Some(t.pending.value[seat])
    else if seat in t.seated && t.seated[seat] in t.players then Some(t.seated[seat])
    else None
  }

  // ---------------------------------------------------------------------------
  // The smallest unreserved generated seat
  // ---------------------------------------------------------------------------

  function GeneratedUpTo(n: nat): set<SeatId> {
    set i | 1 <= i <= n :: Generated(i)
  }

  lemma {:induction false} GeneratedCount(n: nat)
    ensures |GeneratedUpTo(n)| == n
  {
    if n > 0 {
      GeneratedCount(n - 1);
      assert GeneratedUpTo(n) == GeneratedUpTo(n - 1) + {Generated(n)};
    }
  }

  lemma {:induction false} SubsetCount<T>(a: set<T>, b: set<T>)
    requires a <= b
    ensures |a| <= |b|
  {
    assert b == a + (b - a);
  }

  /** A search that has passed n reserved seats has used up n of them. */
  lemma {:induction false} SearchBound(reserved: set<SeatId>, next: nat)
    requires next >= 1 && GeneratedUpTo(next - 1) <= reserved
    ensures next <= |reserved| + 1
  {
    GeneratedCount(next - 1);
    SubsetCount(GeneratedUpTo(next - 1), reserved);
  }

  /** The first `seat_<n>`, n >= 1, that is not reserved. */
  function LeastFree(reserved: set<SeatId>, next: nat): (n: nat)
    requires next >= 1 && GeneratedUpTo(next - 1) <= reserved
    ensures next <= n <= |reserved| + 1
    ensures Generated(n) !in reserved && GeneratedUpTo(n - 1) <= reserved
    decreases |reserved| + 1 - next
  {
    SearchBound(reserved, next);
    if Generated(next) in reserved then
      SearchBound(reserved, next + 1);
      LeastFree(reserved, next + 1)
    else next
  }

  lemma {:induction false} LeastFreeUnique(reserved: set<SeatId>, next: nat, n: nat)
    requires next >= 1 && GeneratedUpTo(next - 1) <= reserved
    requires n >= 1 && Generated(n) !in reserved && GeneratedUpTo(n - 1) <= reserved
    ensures LeastFree(reserved, next) == n
  {
    var m := LeastFree(reserved, next);
    assert Generated(m) !in GeneratedUpTo(n - 1);
    assert Generated(n) !in GeneratedUpTo(m - 1);
  }

  // ---------------------------------------------------------------------------
  // Seats in join order
  // ---------------------------------------------------------------------------

  function SetOf<T(==)>(s: seq<T>): set<T> {
    set x | x in s
  }

  /** The seats of the first n players: saved seats in order, then free generated ones. */
  function SeatsInOrder(saved: seq<SeatId>, n: nat): (r: seq<SeatId>)
    ensures |r| == n
  {
    if n == 0 then []
    else
      var before := SeatsInOrder(saved, n - 1);
      before + [if n <= |saved| then saved[n - 1] else FirstFree(saved, before)]
  }

  function FirstFree(saved: seq<SeatId>, taken: seq<SeatId>): SeatId {
    assert GeneratedUpTo(0) == {};
    Generated(LeastFree(SetOf(saved + taken), 1))
  }

  lemma {:induction false} SeatsPrefix(saved: seq<SeatId>, m: nat, n: nat)
    requires m <= n
    ensures SeatsInOrder(saved, n)[..m] == SeatsInOrder(saved, m)
    decreases n
  {
    if m < n { SeatsPrefix(saved, m, n - 1); }
  }

  lemma {:induction false} SavedFirst(saved: seq<SeatId>, n: nat)
    requires n <= |saved|
    ensures SeatsInOrder(saved, n) == saved[..n]
  {
    if n > 0 {
      SavedFirst(saved, n - 1);
      assert saved[..n] == saved[..n - 1] + [saved[n - 1]];
    }
  }

  /** No seat is given twice. */
  lemma {:induction false} SeatsDistinct(saved: seq<SeatId>, n: nat)
    requires Distinct(saved)
    ensures Distinct(SeatsInOrder(saved, n))
  {
    if n > 0 {
      SeatsDistinct(saved, n - 1);
      var before, seat := SeatsInOrder(saved, n - 1), SeatsInOrder(saved, n)[n - 1];
      if n <= |saved| {
        SavedFirst(saved, n - 1);
      } else {
        assert seat !in SetOf(saved + before);
        assert forall i :: 0 <= i < n - 1 ==> before[i] in saved + before;
      }
    }
  }

  /**
   One join: the first saved seat nobody has, else the smallest free generated one; the
   search ends within one step past the reserved seats.
   */
  method NextResumedSeatId(saved: seq<SeatId>, taken: seq<SeatId>) returns (seat: SeatId)
    ensures (exists i :: 0 <= i < |saved| && saved[i] !in taken) ==>
      exists i :: 0 <= i < |saved| && seat == saved[i] && seat !in taken && forall j :: 0 <= j < i ==> saved[j] in taken
    ensures (forall i :: 0 <= i < |saved| ==> saved[i] in taken) ==>
      seat == FirstFree(saved, taken) && seat.n <= |SetOf(saved + taken)| + 1
    ensures seat !in taken
    ensures Distinct(saved) && taken == SeatsInOrder(saved, |taken|) ==>
      taken + [seat] == SeatsInOrder(saved, |taken| + 1)
  {
    for i := 0 to |saved|
      invariant forall j :: 0 <= j < i ==> saved[j] in taken
    {
      if saved[i] !in taken {
        FirstUnassigned(saved, taken, i);
        return saved[i];
      }
    }
    var reserved := SetOf(saved + taken);
    var next := 1;
    while Generated(next) in reserved
      invariant next >= 1 && GeneratedUpTo(next - 1) <= reserved
      decreases |reserved| + 1 - next
    {
      SearchBound(reserved, next);
      next := next + 1;
      SearchBound(reserved, next);
    }
    LeastFreeUnique(reserved, 1, next);
    seat := Generated(next);
    AllAssigned(saved, taken);
    assert forall s :: s in taken ==> s in saved + taken;
  }

  /** Among the first n seats in join order are exactly the first n saved ones. */
  lemma {:induction false} SavedTaken(saved: seq<SeatId>, n: nat, j: nat)
    requires Distinct(saved) && j < |saved|
    ensures saved[j] in SeatsInOrder(saved, n) <==> j < n
  {
    if j < n {
      SeatsPrefix(saved, j + 1, n);
      SavedFirst(saved, j + 1);
      assert SeatsInOrder(saved, n)[..j + 1][j] == saved[j];
    } else {
      SavedFirst(saved, n);
    }
  }

  lemma {:induction false} FirstUnassigned(saved: seq<SeatId>, taken: seq<SeatId>, i: nat)
    requires i < |saved| && saved[i] !in taken && forall j :: 0 <= j < i ==> saved[j] in taken
    ensures Distinct(saved) && taken == SeatsInOrder(saved, |taken|) ==> |taken| == i
  {
    if Distinct(saved) && taken == SeatsInOrder(saved, |taken|) {
      SavedTaken(saved, |taken|, i);
      if i > 0 { SavedTaken(saved, |taken|, i - 1); }
    }
  }

  lemma {:induction false} AllAssigned(saved: seq<SeatId>, taken: seq<SeatId>)
    requires forall i :: 0 <= i < |saved| ==> saved[i] in taken
    ensures Distinct(saved) && taken == SeatsInOrder(saved, |taken|) ==> |taken| >= |saved|
  {
    if Distinct(saved) && taken == SeatsInOrder(saved, |taken|) && saved != [] {
      SavedTaken(saved, |taken|, |saved| - 1);
    }
  }

  // ---------------------------------------------------------------------------
  // The roster of the first action
  // ---------------------------------------------------------------------------

  function RosterFor(t: SavedTable, live: seq<PlayerId>): (r: seq<RosterEntry>)
    ensures |r| == |live|
  {
    var seats := SeatsInOrder(t.seats, |live|);
    seq(|live|, i requires 0 <= i < |live| => RosterEntry(live[i], seats[i], SavedSeatPlayer(t, seats[i])))
  }

  /** The batch algorithm gives each player the seat one-at-a-time joining would have given. */
  method ResumedRosterFromSave(t: SavedTable, live: seq<PlayerId>) returns (roster: seq<RosterEntry>)
    requires Distinct(t.seats)
    ensures roster == RosterFor(t, live)
  {
    roster := [];
    var reserved := SetOf(t.seats);
    var nextSeat := 1;
    for index := 0 to |live|
      invariant roster == RosterFor(t, live[..index])
      invariant reserved == SetOf(t.seats + SeatsInOrder(t.seats, index))
      invariant nextSeat >= 1 && GeneratedUpTo(nextSeat - 1) <= reserved
    {
      var seatId;
      if index < |t.seats| {
        seatId := t.seats[index];
        SavedReserved(t.seats, index);
      } else {
        seatId, nextSeat := TakeFree(reserved, nextSeat);
        reserved := reserved + {seatId};
        ReservedGrows(t.seats, SeatsInOrder(t.seats, index), seatId);
      }
      roster := roster + [RosterEntry(live[index], seatId, SavedSeatPlayer(t, seatId))];
      RosterGrows(t, live, index);
    }
    assert live[..|live|] == live;
  }

  /** The `do … while` search of the batch algorithm, which goes on where the last one ended. */
  method TakeFree(reserved: set<SeatId>, start: nat) returns (seat: SeatId, nextSeat: nat)
    requires start >= 1 && GeneratedUpTo(start - 1) <= reserved
    ensures nextSeat >= 2 && GeneratedUpTo(nextSeat - 1) <= reserved + {seat}
    ensures seat == Generated(LeastFree(reserved, start)) == Generated(nextSeat - 1)
    ensures GeneratedUpTo(0) <= reserved && seat == Generated(LeastFree(reserved, 1))
  {
    seat, nextSeat := Generated(start), start + 1;
    while seat in reserved
      invariant nextSeat >= 2 && seat == Generated(nextSeat - 1) && GeneratedUpTo(nextSeat - 2) <= reserved
      decreases |reserved| + 2 - nextSeat
    {
      SearchBound(reserved, nextSeat - 1);
      seat, nextSeat := Generated(nextSeat), nextSeat + 1;
      SearchBound(reserved, nextSeat - 1);
    }
    LeastFreeUnique(reserved, start, nextSeat - 1);
    LeastFreeUnique(reserved, 1, nextSeat - 1);
  }

  lemma {:induction false} SavedReserved(saved: seq<SeatId>, n: nat)
    requires n < |saved|
    ensures SetOf(saved + SeatsInOrder(saved, n + 1)) == SetOf(saved + SeatsInOrder(saved, n)) == SetOf(saved)
  {
    SavedFirst(saved, n);
    SavedFirst(saved, n + 1);
  }

  lemma {:induction false} ReservedGrows(saved: seq<SeatId>, before: seq<SeatId>, seat: SeatId)
    ensures SetOf(saved + (before + [seat])) == SetOf(saved + before) + {seat}
  {
    assert forall s :: s in saved + (before + [seat]) <==> s in saved + before || s == seat;
  }

  lemma {:induction false} RosterGrows(t: SavedTable, live: seq<PlayerId>, index: nat)
    requires index < |live|
    ensures
      var seat := SeatsInOrder(t.seats, index + 1)[index];
      RosterFor(t, live[..index + 1]) == RosterFor(t,
          live[..index]) + [RosterEntry(live[index], seat, SavedSeatPlayer(t, seat))]
  {
  }

  /** Some saved identity has nobody in its seat. */
  predicate Waiting(t: SavedTable, taken: seq<SeatId>) {
    exists i :: 0 <= i < |t.seats| && t.seats[i] !in taken && SavedSeatPlayer(t, t.seats[i]).Some?
  }

  // ---------------------------------------------------------------------------
  // Whom a saved table keeps a seat for
  // ---------------------------------------------------------------------------

  /**
   A saved table keeps a seat for a player: for the one it was already waiting for when it was
   saved, or else for the one who sat there, if that is still one of its players.
   */
  predicate KeptFor(t: SavedTable, seat: SeatId, player: PlayerId) {
    if t.pending.Some? && seat in t.pending.value then t.pending.value[seat] == player
    else seat in t.seated && t.seated[seat] == player && player in t.players
  }

  lemma {:induction false} SavedSeatIff(t: SavedTable, seat: SeatId)
    ensures forall player: PlayerId :: SavedSeatPlayer(t, seat) == Some(player) <==> KeptFor(t, seat, player)
    ensures SavedSeatPlayer(t, seat).Some? <==> exists player: PlayerId :: KeptFor(t, seat, player)
  {
    if SavedSeatPlayer(t, seat).Some? { assert KeptFor(t, seat, SavedSeatPlayer(t, seat).value); }
  }

  /** Somebody for whom a seat is kept has not got it back. */
  ghost predicate Awaited(t: SavedTable, taken: seq<SeatId>) {
    exists seat, player: PlayerId :: seat in t.seats && seat !in taken && KeptFor(t, seat, player)
  }

  lemma {:induction false} WaitingIff(t: SavedTable, taken: seq<SeatId>)
    ensures Waiting(t, taken) <==> Awaited(t, taken)
  {
    if Waiting(t, taken) {
      var i :| 0 <= i < |t.seats| && t.seats[i] !in taken && SavedSeatPlayer(t, t.seats[i]).Some?;
      SavedSeatIff(t, t.seats[i]);
    }
    if Awaited(t, taken) {
      var seat, player :| seat in t.seats && seat !in taken && KeptFor(t, seat, player);
      SavedSeatIff(t, seat);
      var i :| 0 <= i < |t.seats| && t.seats[i] == seat;
      assert SavedSeatPlayer(t, t.seats[i]).Some?;
    }
  }
}
