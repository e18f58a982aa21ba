/**
 Client-attested checkpoints: the candidate decision of `attestCheckpointCandidate`
 (apps/worker/src/room-core.ts) and the transaction of `RoomDO.attestCheckpoint` around it
 (apps/worker/src/index.ts).
 */
module Consensus {
  import opened Wrappers
  import opened Kernel

  const SOLO_GRACE_MS: int := 300_000
  const ATTESTATION_RATE_LIMIT: nat := 12
  const ATTESTATION_RATE_WINDOW_MS: int := 60_000

  /** How often a player attested since the window opened that its first attestation opened. */
  datatype Rate = Rate(windowStartedAt: int, count: nat)

  datatype Candidate = Candidate(stateHash: Hash, snapshot: Snapshot, conflicted: bool)

  datatype Attestation = Attestation(sequence: nat, stateHash: Hash, snapshot: Snapshot, player: PlayerId)

  /** The clock and presence the decision looks at. */
  datatype Presence = Presence(connected: set<PlayerId>, now: int, lastMultiBootstrapAt: Option<int>)

  datatype Status = Recorded | Repeated | Divergent | Conflicted | Confirmed

  datatype Decision = Decision(status: Status, candidate: Candidate, attesters: set<PlayerId>)

  /** The candidate and attester tables. */
  datatype Ballots = Ballots(candidates: map<nat, Candidate>, attesters: map<nat, set<PlayerId>>) {
    function AttestersOf(sequence: nat): set<PlayerId> {
      if sequence in attesters then attesters[sequence] else {}
    }
  }

  function RequiredAttesters(p: Presence): nat {
    var soloGraceElapsed := p.lastMultiBootstrapAt.None? || p.now - p.lastMultiBootstrapAt.value >= SOLO_GRACE_MS;
    if |p.connected| == 1 && soloGraceElapsed then 1 else 2
  }

  /** `consumeCheckpointAttestationRate`: None where the player is over the limit. */
  function ConsumeRate(rates: map<PlayerId, Rate>, player: PlayerId, now: int): Option<map<PlayerId, Rate>> {
    if player !in rates || now - rates[player].windowStartedAt >= ATTESTATION_RATE_WINDOW_MS then
      Some(rates[player := Rate(now, 1)])
    else if rates[player].count >= ATTESTATION_RATE_LIMIT then None
    else Some(rates[player := rates[player].(count := rates[player].count + 1)])
  }

  /** The rate rows after attempts of any players; a refused one leaves them. */
  function Rated(rates: map<PlayerId, Rate>, attempts: seq<(PlayerId, int)>): map<PlayerId, Rate> {
    if attempts == [] then rates
    else
      var before, last := Rated(rates, attempts[..|attempts| - 1]), attempts[|attempts| - 1];
      ConsumeRate(before, last.0, last.1).GetOr(before)
  }

  function AttemptsOf(attempts: seq<(PlayerId, int)>, player: PlayerId): nat {
    if attempts == [] then 0
    else AttemptsOf(attempts[..|attempts| - 1], player) + if attempts[|attempts| - 1].0 == player then 1 else 0
  }

  lemma {:induction false} RateOfWindow(rates: map<PlayerId, Rate>, attempts: seq<(PlayerId, int)>, player: PlayerId,
      start: int)
    requires player in rates && rates[player] == Rate(start, 1)
    requires forall i :: 0 <= i < |attempts| && attempts[i].0 == player ==> attempts[i].1 < start + 60_000
    ensures
      var after, n := Rated(rates, attempts), 1 + AttemptsOf(attempts, player);
      player in after && after[player] == Rate(start, if n <= 12 then n else 12)
    decreases |attempts|
  {
    if attempts != [] { RateOfWindow(rates, attempts[..|attempts| - 1], player, start); }
  }

  /**
   A player's first attempt, or the first one a minute or more after the one that opened the
   last window, is let through and opens a window. Whatever others attempt, a later one
   is let through exactly if fewer than twelve came since, or if that minute is over.
   */
  lemma {:induction false} TwelveInAMinute(rates: map<PlayerId, Rate>, player: PlayerId, start: int,
      attempts: seq<(PlayerId, int)>, now: int)
    requires player in rates ==> start >= rates[player].windowStartedAt + 60_000
    requires forall i :: 0 <= i < |attempts| && attempts[i].0 == player ==> attempts[i].1 < start + 60_000
    ensures ConsumeRate(rates, player, start).Some?
    ensures
      var after := Rated(ConsumeRate(rates, player, start).value, attempts);
      ConsumeRate(after, player, now).Some? <==> 1 + AttemptsOf(attempts, player) < 12 || now >= start + 60_000
  {
    RateOfWindow(ConsumeRate(rates, player, start).value, attempts, player, start);
  }

  /** `attestCheckpointCandidate` for a connected attester. */
  function Decide(existing: Option<(Candidate, set<PlayerId>)>, a: Attestation, p: Presence): Decision {
    var candidate := if existing.None? then Candidate(a.stateHash, a.snapshot, false) else existing.value.0;
    var before := if existing.None? then {a.player} else existing.value.1;
    if candidate.stateHash != a.stateHash then Decision(Divergent, candidate.(conflicted := true), before)
    else if candidate.conflicted then Decision(Conflicted, candidate, before)
    else
      var attesters := before + {a.player};
      if |attesters * p.connected| >= RequiredAttesters(p) then Decision(Confirmed, candidate, attesters)
      else Decision(if existing.Some? && a.player in before then Repeated else Recorded, candidate, attesters)
  }

  function PruneBelow(b: Ballots, floor: nat): Ballots {
    Ballots(
      map s | s in b.candidates && s >= floor :: b.candidates[s],
      map s | s in b.attesters && s >= floor :: b.attesters[s])
  }

  function Existing(b: Ballots, sequence: nat): Option<(Candidate, set<PlayerId>)> {
    if sequence in b.candidates then Some((b.candidates[sequence], b.AttestersOf(sequence))) else None
  }

  /** The tables once a decision is written; on conflict only the flag of a stored candidate changes. */
  function RecordIn(b: Ballots, a: Attestation, d: Decision): Ballots {
    if d.status.Conflicted? then b
    else
      var candidates := b.candidates[a.sequence :=
        if a.sequence in b.candidates then b.candidates[a.sequence].(conflicted := d.candidate.conflicted)
        else d.candidate];
      if d.status.Divergent? then Ballots(candidates, b.attesters)
      else Ballots(candidates, b.attesters[a.sequence := b.AttestersOf(a.sequence) + {a.player}])
  }

  /** The tables after one attestation, and what was decided. */
  function Attest(b: Ballots, floor: nat, a: Attestation, p: Presence): (Ballots, Decision) {
    var pruned := PruneBelow(b, floor);
    var d := Decide(Existing(pruned, a.sequence), a, p);
    var recorded := RecordIn(pruned, a, d);
    (if d.status.Confirmed? then PruneBelow(recorded, a.sequence + 1) else recorded, d)
  }

  /** What the room checked before it stored a candidate. */
  ghost predicate CandidateOk(c: Candidate, s: nat, interval: nat, k: Kernel, release: nat)
    requires interval > 0
  {
    && s % interval == 0
    && c.snapshot.sequence == s && c.snapshot.release == release
    && c.stateHash == k.hash(c.snapshot.state)
  }

  /** Where the tables stand between transactions: every live candidate is above the checkpoint. */
  ghost predicate BallotsOk(b: Ballots, checkpoint: nat, lastSequence: nat, interval: nat, k: Kernel, release: nat)
    requires interval > 0
  {
    && (forall s :: s in b.candidates ==>
          checkpoint < s <= lastSequence && CandidateOk(b.candidates[s], s, interval, k, release))
    && b.attesters.Keys <= b.candidates.Keys
  }

  /** Marked divergent and still remembered as such. */
  predicate Marked(b: Ballots, s: nat) {
    s in b.candidates && b.candidates[s].conflicted
  }

  /** A confirmation has the attesters the rule asks for, on an unmarked candidate of the attested hash. */
  lemma {:induction false} ConfirmedMeans(b: Ballots, floor: nat, a: Attestation, p: Presence)
    requires Attest(b, floor, a, p).1.status.Confirmed?
    ensures
      var d := Attest(b, floor, a, p).1;
      && !d.candidate.conflicted && d.candidate.stateHash == a.stateHash && a.player in d.attesters
      && |d.attesters * p.connected| >= RequiredAttesters(p)
  {
  }

  /**
   When an attestation of a connected player is confirmed: the candidate, if there is one, is
   unmarked and has the attested hash; and another connected player has attested it, or nobody
   else is connected and has not been for five minutes.
   */
  lemma {:induction false} ConfirmsIff(existing: Option<(Candidate, set<PlayerId>)>, a: Attestation, p: Presence)
    requires a.player in p.connected
    ensures Decide(existing, a, p).status.Confirmed? <==>
      && (existing.Some? ==> !existing.value.0.conflicted && existing.value.0.stateHash == a.stateHash)
      && (|| (existing.Some? && exists other :: other in existing.value.1 && other in p.connected && other != a.player)
          || (&& p.connected == {a.player}
              && (p.lastMultiBootstrapAt.None? || p.now - p.lastMultiBootstrapAt.value >= 300_000)))
  {
    var before := if existing.None? then {a.player} else existing.value.1;
    var here := (before + {a.player}) * p.connected;
    assert a.player in here;
    if |p.connected| == 1 {
      assert |p.connected - {a.player}| == 0;
      assert p.connected == {a.player} == here;
    }
    if |here| >= 2 {
      var x, y := TwoMembers(here);
      var other := if x == a.player then y else x;
      assert other in before && other in p.connected && other != a.player;
    }
    if other :| other in before && other in p.connected && other != a.player {
      assert {other, a.player} <= here && |{other, a.player}| == 2;
      assert here == {other, a.player} + (here - {other, a.player});
      assert {other, a.player} <= p.connected;
    }
  }

  /** How the other attestations are answered, and what each leaves in the tables. */
  lemma {:induction false} AnswersIff(b: Ballots, floor: nat, a: Attestation, p: Presence)
    requires a.sequence >= floor && b.attesters.Keys <= b.candidates.Keys
    ensures
      var (after, d) := Attest(b, floor, a, p);
      var known := a.sequence in b.candidates;
      && (d.status.Divergent? <==> known && b.candidates[a.sequence].stateHash != a.stateHash)
      && (d.status.Conflicted? <==>
            known && b.candidates[a.sequence].stateHash == a.stateHash && b.candidates[a.sequence].conflicted)
      && (d.status.Repeated? ==> known && a.player in b.AttestersOf(a.sequence))
      && (d.status.Recorded? && known ==> a.player !in b.AttestersOf(a.sequence))
      && (d.status.Divergent? ==>
            && a.sequence in after.candidates
            && after.candidates[a.sequence] == b.candidates[a.sequence].(conflicted := true)
            && after.AttestersOf(a.sequence) == b.AttestersOf(a.sequence))
      && (d.status.Recorded? || d.status.Repeated? ==>
            && a.sequence in after.candidates && !after.candidates[a.sequence].conflicted
            && after.candidates[a.sequence].stateHash == a.stateHash
            && (!known ==> after.candidates[a.sequence].snapshot == a.snapshot)
            && after.AttestersOf(a.sequence) == b.AttestersOf(a.sequence) + {a.player})
      && (d.status.Confirmed? ==>
            d.candidate.snapshot == if known then b.candidates[a.sequence].snapshot else a.snapshot)
  {
  }

  /** An attestation leaves every other sequence alone, but for what it prunes. */
  lemma {:induction false} OtherStays(b: Ballots, floor: nat, a: Attestation, p: Presence, s: nat)
    requires s != a.sequence
    ensures
      var (after, d) := Attest(b, floor, a, p);
      if s >= floor && (d.status.Confirmed? ==> s > a.sequence) then Existing(after, s) == Existing(b, s)
      else s !in after.candidates
  {
    hide Decide;
  }

  lemma {:induction false} TwoMembers<T>(s: set<T>) returns (p: T, q: T)
    requires |s| >= 2
    ensures p in s && q in s && p != q
  {
    p :| p in s;
    assert |s - {p}| == |s| - 1;
    q :| q in s - {p};
  }

  /**
   Unless one player is connected alone, and has been for the grace period, a confirmation
   has two different connected attesters, whichever of them attests last.
   */
  lemma {:induction false} NobodyConfirmsAlone(existing: Option<(Candidate, set<PlayerId>)>, a: Attestation,
      p: Presence)
    requires Decide(existing, a, p).status.Confirmed?
    requires
      || |p.connected| != 1
      || (p.lastMultiBootstrapAt.Some? && p.now < p.lastMultiBootstrapAt.value + SOLO_GRACE_MS)
    ensures
      var d := Decide(existing, a, p);
      exists x, y :: x in d.attesters && x in p.connected && y in d.attesters && y in p.connected && x != y
  {
    var x, y := TwoMembers(Decide(existing, a, p).attesters * p.connected);
  }

  lemma {:induction false} PruneKeeps(b: Ballots, floor: nat, checkpoint: nat, confirmed: nat, lastSequence: nat,
      interval: nat, k: Kernel, release: nat)
    requires interval > 0 && BallotsOk(b, checkpoint, lastSequence, interval, k, release)
    requires confirmed == checkpoint || confirmed < floor
    ensures BallotsOk(PruneBelow(b, floor), confirmed, lastSequence, interval, k, release)
  {
  }

  /** The tables stay consistent with the checkpoint through every attestation. */
  lemma {:induction false} AttestKeepsBallots(b: Ballots, floor: nat, a: Attestation, p: Presence, checkpoint: nat,
      lastSequence: nat, interval: nat, k: Kernel, release: nat)
    requires interval > 0 && BallotsOk(b, checkpoint, lastSequence, interval, k, release)
    requires checkpoint < a.sequence <= lastSequence
    requires CandidateOk(Candidate(a.stateHash, a.snapshot, false), a.sequence, interval, k, release)
    ensures
      var (after, d) := Attest(b, floor, a, p);
      && BallotsOk(after, if d.status.Confirmed? then a.sequence else checkpoint, lastSequence, interval, k, release)
      && CandidateOk(d.candidate, a.sequence, interval, k, release)
  {
    var pruned := PruneBelow(b, floor);
    PruneKeeps(b, floor, checkpoint, checkpoint, lastSequence, interval, k, release);
    var d := Attest(b, floor, a, p).1;
    var recorded := RecordIn(pruned, a, d);
    assert BallotsOk(recorded, checkpoint, lastSequence, interval, k, release);
    if d.status.Confirmed? {
      PruneKeeps(recorded, a.sequence + 1, checkpoint, a.sequence, lastSequence, interval, k, release);
    }
  }

  /** While the floor has not passed it, a divergent sequence is never confirmed and stays marked. */
  lemma {:induction false} MarkHolds(b: Ballots, floor: nat, a: Attestation, p: Presence, s: nat)
    requires Marked(b, s) && s >= floor
    ensures a.sequence == s ==> !Attest(b, floor, a, p).1.status.Confirmed?
    ensures !(Attest(b, floor, a, p).1.status.Confirmed? && a.sequence > s) ==> Marked(Attest(b, floor, a, p).0, s)
  {
  }

  /** Below the floor the tables are pruned first: an attestation there is a first one. */
  lemma {:induction false} MarkForgottenBelowFloor(b: Ballots, floor: nat, a: Attestation, p: Presence)
    requires a.sequence < floor
    ensures Attest(b, floor, a, p).1 == Decide(None, a, p)
  {
  }

  /** If any one of the attesters of a confirmed candidate attested the true state, the candidate is it. */
  lemma {:induction false} OneCorrectAttesterSuffices(k: Kernel, d: Decision, truth: Snapshot)
    requires d.status.Confirmed? && Collisionless(k)
    requires d.candidate.stateHash == k.hash(d.candidate.snapshot.state)
    requires d.candidate.snapshot.sequence == truth.sequence && d.candidate.snapshot.release == truth.release
    requires d.candidate.stateHash == k.hash(truth.state)
    ensures d.candidate.snapshot == truth
  {
  }
}
