/**
 The parts of a room's invariant, each relating some of its tables to the ghost history of
 everything the room ever sequenced, and what keeps them.
 */
module RoomTables {
  import opened Wrappers
  import opened Kernel
  import opened RoomCoreModel
  import opened ActionLog
  import opened Seating
  import opened Liveness
  import opened Delivery
  import opened RoomInvariants
  import opened Consensus

  type SocketId = nat

  /** A socket is authenticated from the moment its hello is accepted, and answered once hello has finished. */
  datatype Phase = Unauthenticated | Greeting(player: PlayerId) | Answered(player: PlayerId)

  /** The attachment of a socket, and everything ever sent on it. */
  datatype Socket = Socket(phase: Phase, bootstrapped: bool, sent: seq<Message>)

  /** What the client behind a socket held before its handshake, and where the handshake starts. */
  datatype ClientLog = ClientLog(start: Client, honest: bool, handshake: nat)

  datatype Vote = Vote(sequence: nat, player: PlayerId, stateHash: Hash)

  // ---------------------------------------------------------------------------
  // The action and request tables
  // ---------------------------------------------------------------------------

  predicate IsScripted(scripted: Option<bool>) {
    scripted == Some(true)
  }

  /** The first log entry still stored is number `Lo + 1`. */
  function Lo(limits: Limits, scripted: bool, checkpoint: Option<Snapshot>, n: nat): nat {
    FloorOf(limits, if scripted then SequenceOf(checkpoint) else n)
  }

  ghost predicate LogPart(limits: Limits, scripted: bool, checkpoint: Option<Snapshot>, h: seq<Action>,
      rows: seq<Action>, dedup: map<RequestId, Action>, lastSequence: nat) {
    && LogOk(limits, h, rows, Lo(limits, scripted, checkpoint, |h|))
    && DedupOk(h, dedup)
    && lastSequence == |h|
  }

  /** The rows a log of this length leaves stored. */
  function Stored(limits: Limits, scripted: bool, checkpoint: Option<Snapshot>, h: seq<Action>): seq<Action> {
    var lo := Lo(limits, scripted, checkpoint, |h|);
    if lo <= |h| then h[lo..] else []
  }

  /** Inserting the entries one after the other, with the trim behind each, meets no stored key and no last sequence. */
  predicate CanPersist(limits: Limits, scripted: bool, checkpoint: Option<Snapshot>, h: seq<Action>, more: seq<Action>)
    decreases |more|
  {
    more == [] ||
    var n := |more| - 1;
    && CanPersist(limits, scripted, checkpoint, h, more[..n])
    && |h| + n < MAX_SAFE_INTEGER && !KeyTaken(Stored(limits, scripted, checkpoint, h + more[..n]), more[n])
  }

  lemma {:induction false} CanPersistNext(limits: Limits, scripted: bool, checkpoint: Option<Snapshot>, h: seq<Action>,
      more: seq<Action>, a: Action)
    ensures CanPersist(limits, scripted, checkpoint, h, more + [a]) <==>
      && CanPersist(limits, scripted, checkpoint, h, more)
      && |h| + |more| < MAX_SAFE_INTEGER && !KeyTaken(Stored(limits, scripted, checkpoint, h + more), a)
  {
    assert (more + [a])[..|more|] == more;
  }

  lemma {:induction false} CanPersistOne(limits: Limits, scripted: bool, checkpoint: Option<Snapshot>, h: seq<Action>,
      a: Action)
    ensures CanPersist(limits, scripted, checkpoint, h, [a]) <==>
      |h| < MAX_SAFE_INTEGER && !KeyTaken(Stored(limits, scripted, checkpoint, h), a)
  {
    CanPersistNext(limits, scripted, checkpoint, h, [], a);
    assert [] + [a] == [a] && h + [] == h;
  }

  lemma {:induction false} CanPersistPrefix(limits: Limits, scripted: bool, checkpoint: Option<Snapshot>,
      h: seq<Action>, more: seq<Action>, n: nat)
    requires n <= |more| && CanPersist(limits, scripted, checkpoint, h, more)
    ensures CanPersist(limits, scripted, checkpoint, h, more[..n])
    decreases |more|
  {
    if n < |more| {
      var m := |more| - 1;
      CanPersistPrefix(limits, scripted, checkpoint, h, more[..m], n);
      assert more[..m][..n] == more[..n];
    } else {
      assert more[..n] == more;
    }
  }

  /** The next entry of the log, persisted: the stored rows are again what they should be. */
  lemma {:induction false} PersistNext(limits: Limits, scripted: bool, checkpoint: Option<Snapshot>, h: seq<Action>,
      rows: seq<Action>, a: Action)
    requires LogOk(limits, h, rows, Lo(limits, scripted, checkpoint, |h|)) && HistoryOk(h + [a])
    requires |h| < MAX_SAFE_INTEGER
    ensures
      var p := Persist(limits, rows, a, !scripted);
      && (p.Some? <==> !KeyTaken(Stored(limits, scripted, checkpoint, h), a))
      && (p.Some? ==> LogOk(limits, h + [a], p.value, Lo(limits, scripted, checkpoint, |h| + 1)))
  {
    PersistKeeps(limits, h, rows, Lo(limits, scripted, checkpoint, |h|), a, !scripted);
  }

  /**
   Which transactions of system actions meet a stored key: exactly those with an entry that a
   client's request id names, in a row still stored when the entry is inserted.
   */
  lemma {:induction false} SystemPersistsIff(limits: Limits, scripted: bool, checkpoint: Option<Snapshot>,
      h: seq<Action>, more: seq<Action>)
    requires limits.Valid() && HistoryOk(h + more) && |h + more| <= MAX_SAFE_INTEGER && SequenceOf(checkpoint) <= |h|
    requires forall i :: 0 <= i < |more| ==> more[i].requestId.None?
    ensures CanPersist(limits, scripted, checkpoint, h, more) <==>
      forall i, j :: 0 <= i < |more| && Lo(limits, scripted, checkpoint, |h| + i) <= j < |h| ==>
        h[j].requestId != Some(SystemName(more[i].actionId))
    decreases |more|
  {
    hide HistoryOk, KeyTaken, Stored;
    if more != [] {
      var n := |more| - 1;
      var before, a := more[..n], more[n];
      assert h + more == (h + before) + [a] && before + [a] == more;
      HistoryPrefix(h + before, a);
      SystemPersistsIff(limits, scripted, checkpoint, h, before);
      CanPersistNext(limits, scripted, checkpoint, h, before, a);
      SystemKeyTakenIff(limits, scripted, checkpoint, h, before, a);
    }
  }

  lemma {:induction false} SystemKeyTakenIff(limits: Limits, scripted: bool, checkpoint: Option<Snapshot>,
      h: seq<Action>, before: seq<Action>, a: Action)
    requires HistoryOk(h + before + [a]) && SequenceOf(checkpoint) <= |h|
    requires a.requestId.None? && forall i :: 0 <= i < |before| ==> before[i].requestId.None?
    ensures KeyTaken(Stored(limits, scripted, checkpoint, h + before), a) <==>
      exists j :: Lo(limits, scripted, checkpoint, |h| + |before|) <= j < |h| &&
        h[j].requestId == Some(SystemName(a.actionId))
  {
    hide HistoryOk, KeyTaken;
    var lo := Lo(limits, scripted, checkpoint, |h| + |before|);
    KeyTakenIff(h + before, lo, a);
    assert forall j :: 0 <= j < |h| ==> (h + before)[j] == h[j];
    assert forall j :: |h| <= j < |h| + |before| ==> (h + before)[j] == before[j - |h|];
  }

  lemma {:induction false} HistoryPrefix(h: seq<Action>, a: Action)
    requires HistoryOk(h + [a])
    ensures HistoryOk(h)
  {
    assert forall i :: 0 <= i < |h| ==> (h + [a])[i] == h[i];
  }

  lemma {:induction false} DedupLater(h: seq<Action>, dedup: map<RequestId, Action>, more: seq<Action>)
    requires DedupOk(h, dedup) && forall i :: 0 <= i < |more| ==> more[i].requestId.None?
    ensures DedupOk(h + more, dedup)
  {
  }

  // ---------------------------------------------------------------------------
  // Start
  // ---------------------------------------------------------------------------

  ghost predicate StartPart(k: Kernel, release: nat, resumed: bool, started: bool, initial: Option<Snapshot>,
      scripted: Option<bool>) {
    && (initial.Some? <==> scripted.Some?)
    && (initial.Some? ==> initial.value.sequence == 0 && initial.value.release == release)
    && (started || resumed <==> initial.Some?)
    && (resumed ==>
          scripted == Some(k.requiresScripts(initial.value.state)) && Distinct(k.saved(initial.value.state).seats))
  }

  // ---------------------------------------------------------------------------
  // Players
  // ---------------------------------------------------------------------------

  ghost predicate SeatPart(k: Kernel, capacity: nat, resumed: bool, initial: Option<Snapshot>, players: seq<PlayerRow>,
      host: Option<PlayerId>) {
    && |players| <= capacity
    && Distinct(Ids(players))
    && (resumed && initial.Some? ==> Seats(players) == SeatsInOrder(k.saved(initial.value.state).seats, |players|))
    && (!resumed ==> forall i :: 0 <= i < |players| ==> players[i].seat == Generated(i + 1))
    && (host.None? <==> players == [])
    && (host.Some? ==> host.value in Ids(players))
  }

  /** A started resumed room is paused exactly while a saved identity has nobody in its seat. */
  ghost predicate PausePart(k: Kernel, resumed: bool, started: bool, initial: Option<Snapshot>, players: seq<PlayerRow>,
      pendingSince: Option<int>, h: seq<Action>) {
    && (pendingSince.Some? ==> started && resumed)
    && (started && resumed && initial.Some? ==>
          var t := k.saved(initial.value.state);
          (pendingSince.Some? <==> Waiting(t, Seats(players))) && RecoveredOk(t, h, players))
  }

  lemma {:induction false} PauseLater(k: Kernel, resumed: bool, started: bool, initial: Option<Snapshot>,
      players: seq<PlayerRow>, pendingSince: Option<int>, h: seq<Action>, more: seq<Action>)
    requires PausePart(k, resumed, started, initial, players, pendingSince, h)
    requires forall i :: 0 <= i < |more| ==> !more[i].body.Claimed? && !more[i].body.Resumed?
    ensures PausePart(k, resumed, started, initial, players, pendingSince, h + more)
  {
    if started && resumed && initial.Some? { RecoveredUnchanged(k.saved(initial.value.state), h, more, players); }
  }

  // ---------------------------------------------------------------------------
  // Checkpoint and candidates
  // ---------------------------------------------------------------------------

  predicate Increasing(confirmed: seq<Snapshot>) {
    forall i, j :: 0 <= i < j < |confirmed| ==> confirmed[i].sequence < confirmed[j].sequence
  }

  ghost predicate CheckpointPart(k: Kernel, limits: Limits, release: nat, initial: Option<Snapshot>, scripted: bool,
      checkpoint: Option<Snapshot>, attested: bool,
      h: seq<Action>, truthful: bool, confirmed: seq<Snapshot>) {
    && limits.Valid()
    && (checkpoint.Some? ==>
          0 < checkpoint.value.sequence <= |h| && checkpoint.value.release == release && initial.Some?)
    && (truthful ==> TrueBase(k, initial, checkpoint, h))
    && (!scripted ==> truthful && !attested && confirmed == [] && LagOk(limits, checkpoint, |h|))
    && (scripted ==> (checkpoint.Some? <==> confirmed != []) && (checkpoint.Some? <==> attested))
    && (scripted && checkpoint.Some? ==>
          checkpoint.value.sequence % limits.interval == 0 && confirmed[|confirmed| - 1] == checkpoint.value)
    && Increasing(confirmed)
  }

  /** The checkpoint a committed advance leaves. */
  function Checkpointed(checkpoint: Option<Snapshot>, adv: Advance): Option<Snapshot> {
    if adv.To? then Some(adv.snapshot) else checkpoint
  }

  /** Every committed transaction that appends to the log leaves the checkpoint in order. */
  lemma {:induction false} CheckpointLater(k: Kernel, limits: Limits, release: nat, initial: Option<Snapshot>,
      scripted: bool, checkpoint: Option<Snapshot>, attested: bool,
      h: seq<Action>, truthful: bool, confirmed: seq<Snapshot>, more: seq<Action>)
    requires limits.Valid() && Numbered(h + more)
    requires initial.Some? ==> initial.value.sequence == 0 && initial.value.release == release
    requires CheckpointPart(k, limits, release, initial, scripted, checkpoint, attested, h, truthful, confirmed)
    requires more != [] && !Advanced(k, limits, scripted, initial, checkpoint, h + more).Throws?
    ensures
      var adv := Advanced(k, limits, scripted, initial, checkpoint, h + more);
      CheckpointPart(k, limits, release, initial, scripted, Checkpointed(checkpoint, adv), attested && !adv.To?,
          h + more, truthful, confirmed)
  {
    if truthful { TrueBaseLater(k, initial, checkpoint, h, more); }
    if initial.Some? { StateAtSequence(k, initial.value, h + more, |h + more|); }
  }

  /** Candidates, what was ever marked divergent, and who voted for what. */
  ghost predicate BallotPart(k: Kernel, limits: Limits, release: nat, scripted: bool, checkpoint: Option<Snapshot>,
      n: nat, ballots: Ballots, marks: set<nat>, votes: set<Vote>) {
    && limits.Valid()
    && BallotsOk(ballots, SequenceOf(checkpoint), n, limits.interval, k, release)
    && (forall s :: s in marks ==> s <= SequenceOf(checkpoint) || s <= FloorOf(limits, n) || Marked(ballots, s))
    && (forall s :: s in marks ==> s % limits.interval == 0)
    && VotesOk(ballots, votes)
    && (!scripted ==> ballots.candidates == map[])
  }

  /** Everybody listed as attester of a candidate has voted for its hash. */
  ghost predicate VotesOk(b: Ballots, votes: set<Vote>) {
    forall s, p :: s in b.candidates && p in b.AttestersOf(s) ==> Vote(s, p, b.candidates[s].stateHash) in votes
  }

  lemma {:induction false} PruneKeepsVotes(b: Ballots, floor: nat, votes: set<Vote>)
    requires VotesOk(b, votes)
    ensures VotesOk(PruneBelow(b, floor), votes)
  {
  }

  /** A decision changes no stored hash, and adds no attester but one who voted for it. */
  lemma {:induction false} RecordAdds(b: Ballots, a: Attestation, p: Presence, s: nat, q: PlayerId)
    requires b.attesters.Keys <= b.candidates.Keys
    ensures
      var d := Decide(Existing(b, a.sequence), a, p);
      var after := RecordIn(b, a, d);
      && (s in after.candidates && q in after.AttestersOf(s) ==>
            if s in b.candidates && q in b.AttestersOf(s) then
              after.candidates[s].stateHash == b.candidates[s].stateHash
            else Vote(s, q, after.candidates[s].stateHash) == Vote(a.sequence, a.player, a.stateHash))
      && (d.status.Confirmed? && q in d.attesters ==>
            if a.sequence in b.candidates && q in b.AttestersOf(a.sequence) then
              d.candidate.stateHash == b.candidates[a.sequence].stateHash
            else q == a.player && d.candidate.stateHash == a.stateHash)
  {
  }

  lemma {:induction false} RecordKeepsVotes(b: Ballots, a: Attestation, p: Presence, votes: set<Vote>)
    requires VotesOk(b, votes) && b.attesters.Keys <= b.candidates.Keys
    ensures
      var d := Decide(Existing(b, a.sequence), a, p);
      var all := votes + {Vote(a.sequence, a.player, a.stateHash)};
      && VotesOk(RecordIn(b, a, d), all)
      && (d.status.Confirmed? ==> forall q :: q in d.attesters ==> Vote(a.sequence, q, d.candidate.stateHash) in all)
  {
    hide Decide, RecordIn;
    var d := Decide(Existing(b, a.sequence), a, p);
    var all, after := votes + {Vote(a.sequence, a.player, a.stateHash)}, RecordIn(b, a, d);
    forall s, q | s in after.candidates && q in after.AttestersOf(s)
      ensures Vote(s, q, after.candidates[s].stateHash) in all
    {
      RecordAdds(b, a, p, s, q);
    }
    forall q | q in d.attesters && d.status.Confirmed? ensures Vote(a.sequence, q, d.candidate.stateHash) in all {
      RecordAdds(b, a, p, a.sequence, q);
    }
  }

  lemma {:induction false} AttestKeepsVotes(b: Ballots, floor: nat, a: Attestation, p: Presence, votes: set<Vote>)
    requires VotesOk(b, votes) && b.attesters.Keys <= b.candidates.Keys
    ensures
      var (after, d) := Attest(b, floor, a, p);
      var all := votes + {Vote(a.sequence, a.player, a.stateHash)};
      && VotesOk(after, all)
      && (d.status.Confirmed? ==> forall q :: q in d.attesters ==> Vote(a.sequence, q, d.candidate.stateHash) in all)
  {
    var pruned, d := PruneBelow(b, floor), Attest(b, floor, a, p).1;
    PruneKeepsVotes(b, floor, votes);
    RecordKeepsVotes(pruned, a, p, votes);
    PruneKeepsVotes(RecordIn(pruned, a, d), a.sequence + 1, votes + {Vote(a.sequence, a.player, a.stateHash)});
  }

  /**
   A confirmation whose attesters include one who only ever voted for the true hash at that
   sequence stores the state the history folds to.
   */
  lemma {:induction false} OneHonestVoterSuffices(k: Kernel, d: Decision, truth: Snapshot, votes: set<Vote>,
      honest: PlayerId)
    requires d.status.Confirmed? && Collisionless(k)
    requires d.candidate.stateHash == k.hash(d.candidate.snapshot.state)
    requires d.candidate.snapshot.sequence == truth.sequence && d.candidate.snapshot.release == truth.release
    requires forall q :: q in d.attesters ==> Vote(truth.sequence, q, d.candidate.stateHash) in votes
    requires honest in d.attesters
    requires forall hash :: Vote(truth.sequence, honest, hash) in votes ==> hash == k.hash(truth.state)
    ensures d.candidate.snapshot == truth
  {
    assert Vote(truth.sequence, honest, d.candidate.stateHash) in votes;
    OneCorrectAttesterSuffices(k, d, truth);
  }

  /** A longer log moves no candidate, and only an unscripted room, which has none, moves its checkpoint. */
  lemma {:induction false} BallotsLater(k: Kernel, limits: Limits, release: nat, scripted: bool,
      initial: Option<Snapshot>, checkpoint: Option<Snapshot>,
      h: seq<Action>, more: seq<Action>, ballots: Ballots, marks: set<nat>, votes: set<Vote>)
    requires BallotPart(k, limits, release, scripted, checkpoint, |h|, ballots, marks, votes)
    requires Numbered(h + more) && (initial.Some? ==> initial.value.sequence == 0) && SequenceOf(checkpoint) <= |h|
    ensures
      var adv := Advanced(k, limits, scripted, initial, checkpoint, h + more);
      BallotPart(k, limits, release, scripted, Checkpointed(checkpoint, adv), |h + more|, ballots, marks, votes)
  {
    if initial.Some? { StateAtSequence(k, initial.value, h + more, |h + more|); }
  }

  // ---------------------------------------------------------------------------
  // Bootstrap
  // ---------------------------------------------------------------------------

  function BaseFor(limits: Limits, initial: Snapshot, checkpoint: Option<Snapshot>, n: nat): Snapshot {
    if n <= limits.retention then initial else checkpoint.GetOr(initial)
  }

  /** The checkpoint `hello` looks at: none while the initial snapshot still connects. */
  function RecoveryBase(limits: Limits, scripted: bool, checkpoint: Option<Snapshot>, attested: bool,
      n: nat): Option<Snapshot> {
    if n <= limits.retention || (scripted && !attested) then None else checkpoint
  }

  /** While the log fits the window, everybody starts from the initial snapshot. */
  lemma {:induction false} InitialBootstrap(limits: Limits, h: seq<Action>, initial: Snapshot, cp: Option<Snapshot>,
      full: Option<seq<Action>>)
    requires limits.Valid() && HistoryOk(h) && |h| <= limits.retention && |h| <= MAX_SAFE_INTEGER
    requires initial.sequence == 0
    ensures BootstrapFrom(WindowOf(limits, h), initial, cp, full) == Bootstrap(initial, h[0..])
  {
    ResumeIsHistory(limits, h, 0);
  }

  lemma {:induction false} StoredTail(h: seq<Action>, n: nat)
    requires Numbered(h) && n <= |h|
    ensures After(h[n..], n) == h[n..] && Consecutive(h[n..], n)
  {
    AfterSuffix(h, n, n);
    assert forall i :: 0 <= i < |h| - n ==> h[n..][i] == h[n + i];
  }

  /** A scripted room whose rows reach back to the base's successor answers from them. */
  lemma {:induction false} ScriptedBootstrap(limits: Limits, h: seq<Action>, rows: seq<Action>, lo: nat,
      initial: Snapshot, cp: Option<Snapshot>)
    requires LogOk(limits, h, rows, lo) && |h| > limits.retention && initial.sequence == 0
    requires cp.GetOr(initial).release == initial.release && lo <= cp.GetOr(initial).sequence <= |h|
    ensures
      var base := cp.GetOr(initial);
      BootstrapFrom(WindowOf(limits, h), initial, cp, Some(After(rows, base.sequence))) == Bootstrap(base,
          h[base.sequence..])
  {
    hide UniqueIds, RequestsIdentified, ActsNumbered;
    var n := cp.GetOr(initial).sequence;
    ResumeIsHistory(limits, h, 0);
    AfterSuffix(h, lo, n);
    StoredTail(h, n);
  }

  /** An unscripted room answers from its window if its checkpoint connects, and cannot without one. */
  lemma {:induction false} MechanicalBootstrap(limits: Limits, h: seq<Action>, initial: Snapshot, cp: Option<Snapshot>)
    requires limits.Valid() && HistoryOk(h) && |h| <= MAX_SAFE_INTEGER && |h| > limits.retention
    requires initial.sequence == 0
    requires cp.Some? ==> cp.value.release == initial.release && FloorOf(limits, |h|) <= cp.value.sequence <= |h|
    ensures BootstrapFrom(WindowOf(limits, h), initial, cp, None) ==
      if cp.Some? then Bootstrap(cp.value, h[cp.value.sequence..]) else Failed
  {
    ResumeIsHistory(limits, h, 0);
    WindowOfOk(limits, h);
    if cp.Some? { AfterSuffix(h, FloorOf(limits, |h|), cp.value.sequence); }
  }

  /**
   A late client is given a base and the whole log behind it, in every reachable room that
   has a base; otherwise `hello` throws. The scripted `bootstrap_unavailable` answer is
   never given.
   */
  lemma {:induction false} BootstrapIsHistory(k: Kernel, limits: Limits, release: nat, initial: Option<Snapshot>,
      scripted: bool, checkpoint: Option<Snapshot>, attested: bool,
      h: seq<Action>, truthful: bool, confirmed: seq<Snapshot>, rows: seq<Action>)
    requires LogOk(limits, h, rows, Lo(limits, scripted, checkpoint, |h|))
    requires CheckpointPart(k, limits, release, initial, scripted, checkpoint, attested, h, truthful, confirmed)
    requires initial.Some? && initial.value.sequence == 0 && initial.value.release == release
    ensures
      var cp := RecoveryBase(limits, scripted, checkpoint, attested, |h|);
      var full := if scripted && |h| > limits.retention then Some(After(rows, SequenceOf(cp))) else None;
      var base := BaseFor(limits, initial.value, checkpoint, |h|);
      && base.sequence <= |h|
      && BootstrapFrom(WindowOf(limits, h), initial.value, cp, full) ==
        (if HasBase(limits, scripted, checkpoint, |h|) then Bootstrap(base, h[base.sequence..]) else Failed)
      && (truthful ==> base == StateAt(k, initial.value, h, base.sequence))
  {
    assert h[..0] == [];
    var cp := RecoveryBase(limits, scripted, checkpoint, attested, |h|);
    if |h| <= limits.retention {
      InitialBootstrap(limits, h, initial.value, cp, None);
    } else if scripted {
      assert cp.GetOr(initial.value).sequence == SequenceOf(cp) && cp == checkpoint;
      ScriptedBootstrap(limits, h, rows, Lo(limits, scripted, checkpoint, |h|), initial.value, cp);
    } else {
      MechanicalBootstrap(limits, h, initial.value, cp);
    }
  }

  // ---------------------------------------------------------------------------
  // Sockets
  // ---------------------------------------------------------------------------

  /** A message that tells something of the log or of a state. */
  predicate OfTheLog(m: Message) {
    m.Ordered? || m.Base? || m.Resumption?
  }

  ghost predicate SocketOk(k: Kernel, initial: Option<Snapshot>, started: bool, truthful: bool, h: seq<Action>,
      s: Socket, c: ClientLog) {
    && (s.bootstrapped ==> s.phase.Answered? && started && initial.Some? && c.handshake <= |s.sent|)
    && (forall i :: 0 <= i < |s.sent| ==> FromLog(h, s.sent[i]))
    && (s.phase.Unauthenticated? ==> forall i :: 0 <= i < |s.sent| ==> !OfTheLog(s.sent[i]))
    && (s.bootstrapped && truthful && c.honest ==> InSync(k, initial.value, h, c.start, s.sent[c.handshake..]))
  }

  ghost predicate SocketsOk(k: Kernel, initial: Option<Snapshot>, started: bool, truthful: bool, h: seq<Action>,
      sockets: map<SocketId, Socket>, clients: map<SocketId, ClientLog>) {
    && sockets.Keys == clients.Keys
    && forall s :: s in sockets ==> SocketOk(k, initial, started, truthful, h, sockets[s], clients[s])
  }

  function Told(s: Socket, m: Message): Socket {
    s.(sent := s.sent + [m])
  }

  /** `broadcast`: to every authenticated socket. */
  function Broadcasted(sockets: map<SocketId, Socket>, m: Message): map<SocketId, Socket> {
    map s | s in sockets :: if sockets[s].phase.Unauthenticated? then sockets[s] else Told(sockets[s], m)
  }

  /** Every authenticated socket told a list of messages, one after the other. */
  function Heard(sockets: map<SocketId, Socket>, messages: seq<Message>): map<SocketId, Socket> {
    map s | s in sockets ::
      if sockets[s].phase.Unauthenticated? then sockets[s] else sockets[s].(sent := sockets[s].sent + messages)
  }

  /** Whoever has not said hello is told nothing; everybody else hears exactly these actions, in order. */
  lemma {:induction false} HeardMeans(sockets: map<SocketId, Socket>, more: seq<Action>, s: SocketId)
    requires s in sockets
    ensures
      var before, after := sockets[s], Heard(sockets, Tail(more))[s];
      && (before.phase.Unauthenticated? ==> after == before)
      && (!before.phase.Unauthenticated? ==>
            && after.phase == before.phase && after.bootstrapped == before.bootstrapped
            && |after.sent| == |before.sent| + |more| && after.sent[..|before.sent|] == before.sent
            && forall i :: 0 <= i < |more| ==> after.sent[|before.sent| + i] == Ordered(more[i]))
  {
  }

  lemma {:induction false} AllHeard(sockets: map<SocketId, Socket>, more: seq<Action>)
    ensures
      var heard := Heard(sockets, Tail(more));
      && heard.Keys == sockets.Keys && |heard| == |sockets|
      && (forall s :: s in sockets && sockets[s].phase.Unauthenticated? ==> heard[s] == sockets[s])
      && forall s :: s in sockets && !sockets[s].phase.Unauthenticated? ==>
        var before, after := sockets[s], heard[s];
        && after.phase == before.phase && after.bootstrapped == before.bootstrapped
        && |after.sent| == |before.sent| + |more| && after.sent[..|before.sent|] == before.sent
        && forall i :: 0 <= i < |more| ==> after.sent[|before.sent| + i] == Ordered(more[i])
  {
    SameCount(Heard(sockets, Tail(more)), sockets);
    forall s | s in sockets { HeardMeans(sockets, more, s); }
  }

  lemma {:induction false} SameCount(a: map<SocketId, Socket>, b: map<SocketId, Socket>)
    requires a.Keys == b.Keys
    ensures |a| == |b|
  {
    assert |a| == |a.Keys| && |b| == |b.Keys|;
  }

  lemma {:induction false} HeardNext(sockets: map<SocketId, Socket>, more: seq<Action>, i: nat)
    requires i < |more|
    ensures Broadcasted(Heard(sockets, Tail(more[..i])), Ordered(more[i])) == Heard(sockets, Tail(more[..i + 1]))
  {
    assert Tail(more[..i + 1]) == Tail(more[..i]) + [Ordered(more[i])];
    forall s | s in sockets
      ensures sockets[s].sent + Tail(more[..i + 1]) == sockets[s].sent + Tail(more[..i]) + [Ordered(more[i])]
    {
    }
  }

  lemma {:induction false} HeardNothing(sockets: map<SocketId, Socket>)
    ensures Heard(sockets, []) == sockets
  {
    forall s | s in sockets ensures sockets[s].(sent := sockets[s].sent + []) == sockets[s] {
      assert sockets[s].sent + [] == sockets[s].sent;
    }
  }

  lemma {:induction false} NoTail()
    ensures Tail([]) == []
  {
  }

  lemma {:induction false} SentGrows(s: Socket, m: Message, handshake: nat)
    requires handshake <= |s.sent|
    ensures Told(s, m).sent[handshake..] == s.sent[handshake..] + [m]
  {
  }

  /** One socket through a broadcast of the next log entry. */
  lemma {:induction false} SocketHears(k: Kernel, initial: Option<Snapshot>, started: bool, truthful: bool,
      h: seq<Action>, a: Action, s: Socket, c: ClientLog)
    requires SocketOk(k, initial, started, truthful, h, s, c) && Numbered(h + [a])
    requires initial.Some? ==> initial.value.sequence == 0
    ensures SocketOk(k, initial, started, truthful, h + [a],
        if s.phase.Unauthenticated? then s else Told(s, Ordered(a)), c)
  {
    assert (h + [a])[|h|] == a;
    if s.bootstrapped {
      SentGrows(s, Ordered(a), c.handshake);
      if truthful && c.honest { BroadcastSync(k, initial.value, h, a, c.start, s.sent[c.handshake..]); }
    }
  }

  lemma {:induction false} SocketsHear(k: Kernel, initial: Option<Snapshot>, started: bool, truthful: bool,
      h: seq<Action>, a: Action,
      sockets: map<SocketId, Socket>, clients: map<SocketId, ClientLog>)
    requires SocketsOk(k, initial, started, truthful, h, sockets, clients) && Numbered(h + [a])
    requires initial.Some? ==> initial.value.sequence == 0
    ensures SocketsOk(k, initial, started, truthful, h + [a], Broadcasted(sockets, Ordered(a)), clients)
  {
    forall s | s in sockets ensures SocketOk(k, initial, started, truthful, h + [a],
        Broadcasted(sockets, Ordered(a))[s], clients[s]) {
      SocketHears(k, initial, started, truthful, h, a, sockets[s], clients[s]);
    }
  }

  /** One socket told something that is no news. */
  lemma {:induction false} SocketTold(k: Kernel, initial: Option<Snapshot>, started: bool, truthful: bool,
      h: seq<Action>, s: Socket, c: ClientLog, m: Message)
    requires SocketOk(k, initial, started, truthful, h, s, c) && FromLog(h, m) && !m.Base? && !m.Resumption?
    requires s.phase.Unauthenticated? ==> !m.Ordered?
    ensures SocketOk(k, initial, started, truthful, h, Told(s, m), c)
  {
    if s.bootstrapped {
      SentGrows(s, m, c.handshake);
      if truthful && c.honest { OldNewsSync(k, initial.value, h, m, c.start, s.sent[c.handshake..]); }
    }
  }

  /** Sockets nobody has bootstrapped do not care about the start or about new entries. */
  lemma {:induction false} SocketsLater(k: Kernel, initial: Option<Snapshot>, truthful: bool, h: seq<Action>,
      sockets: map<SocketId, Socket>, clients: map<SocketId, ClientLog>,
      initial': Option<Snapshot>, started': bool, more: seq<Action>)
    requires SocketsOk(k, initial, false, truthful, h, sockets, clients)
    ensures SocketsOk(k, initial', started', truthful, h + more, sockets, clients)
  {
    forall s | s in sockets ensures SocketOk(k, initial', started', truthful, h + more, sockets[s], clients[s]) {
      assert SocketOk(k, initial, false, truthful, h, sockets[s], clients[s]);
      forall i | 0 <= i < |sockets[s].sent| ensures FromLog(h + more, sockets[s].sent[i]) {
        assert FromLog(h, sockets[s].sent[i]);
      }
    }
  }

  /** A new socket has said and heard nothing. */
  lemma {:induction false} SocketsCome(k: Kernel, initial: Option<Snapshot>, started: bool, truthful: bool,
      h: seq<Action>, sockets: map<SocketId, Socket>, clients: map<SocketId, ClientLog>, socket: SocketId)
    requires SocketsOk(k, initial, started, truthful, h, sockets, clients)
    ensures SocketsOk(k, initial, started, truthful, h, sockets[socket := Socket(Unauthenticated, false, [])],
        clients[socket := ClientLog(Blank, false, 0)])
  {
    hide InSync, FromLog;
  }

  lemma {:induction false} SocketsLeave(k: Kernel, initial: Option<Snapshot>, started: bool, truthful: bool,
      h: seq<Action>, sockets: map<SocketId, Socket>, clients: map<SocketId, ClientLog>, socket: SocketId)
    requires SocketsOk(k, initial, started, truthful, h, sockets, clients)
    ensures SocketsOk(k, initial, started, truthful, h, sockets - {socket}, clients - {socket})
  {
  }

  lemma {:induction false} OneFewer(sockets: map<SocketId, Socket>, socket: SocketId)
    requires socket in sockets
    ensures |sockets - {socket}| == |sockets| - 1 && (sockets - {socket} == map[] <==> |sockets| == 1)
  {
    var left := sockets - {socket};
    assert left.Keys == sockets.Keys - {socket} && |left| == |left.Keys| && |sockets| == |sockets.Keys|;
    assert left == map[] <==> left.Keys == {};
  }

  /** Players whose hello has been answered with a bootstrap or a resume. */
  function BootstrappedPlayers(sockets: map<SocketId, Socket>): set<PlayerId> {
    set s | s in sockets && sockets[s].bootstrapped && sockets[s].phase.Answered? :: sockets[s].phase.player
  }

  lemma {:induction false} SeatedMeansStarted(k: Kernel, initial: Option<Snapshot>, started: bool, truthful: bool,
      h: seq<Action>, sockets: map<SocketId, Socket>, clients: map<SocketId, ClientLog>, player: PlayerId)
    requires SocketsOk(k, initial, started, truthful, h, sockets, clients) && player in BootstrappedPlayers(sockets)
    ensures started
  {
    var s :| s in sockets && sockets[s].bootstrapped && sockets[s].phase.Answered? && sockets[s].phase.player == player;
    assert SocketOk(k, initial, started, truthful, h, sockets[s], clients[s]);
  }

  /** `recordMultiBootstrapPresence` */
  function MultiSeen(sockets: map<SocketId, Socket>, last: Option<int>, now: int): Option<int> {
    if |BootstrappedPlayers(sockets)| >= 2 then Some(now) else last
  }

  function Authenticated(sockets: map<SocketId, Socket>): set<PlayerId> {
    set s | s in sockets && !sockets[s].phase.Unauthenticated? :: sockets[s].phase.player
  }

  /** Only a base or a resume seats the client behind a socket. */
  predicate Welcomes(messages: seq<Message>) {
    exists i :: 0 <= i < |messages| && (messages[i].Base? || messages[i].Resumption?)
  }

  function Greeted(s: Socket, messages: seq<Message>): Socket
    requires s.phase.Greeting?
  {
    Socket(Answered(s.phase.player), Welcomes(messages), s.sent + messages)
  }

  lemma {:induction false} SocketsLessSure(k: Kernel, initial: Option<Snapshot>, started: bool, truthful: bool,
      truthful': bool, h: seq<Action>,
      sockets: map<SocketId, Socket>, clients: map<SocketId, ClientLog>)
    requires SocketsOk(k, initial, started, truthful, h, sockets, clients) && (truthful' ==> truthful)
    ensures SocketsOk(k, initial, started, truthful', h, sockets, clients)
  {
  }

  lemma {:induction false} ReplyFromLog(h: seq<Action>, base: Snapshot, i: nat)
    requires Numbered(h) && base.sequence <= |h| && i <= |h| - base.sequence
    ensures FromLog(h, ([Base(base)] + Tail(h[base.sequence..]))[i])
  {
    if i > 0 {
      var a := h[base.sequence + i - 1];
      assert ([Base(base)] + Tail(h[base.sequence..]))[i] == Ordered(h[base.sequence..][i - 1]) == Ordered(a);
      assert a.sequence == base.sequence + i;
    }
  }

  /** A socket that is sent its handshake. */
  lemma {:induction false} SocketAnswered(k: Kernel, initial: Option<Snapshot>, truthful: bool, h: seq<Action>,
      s: Socket, c: ClientLog, player: PlayerId, reply: seq<Message>)
    requires initial.Some? && c.handshake == |s.sent|
    requires forall i :: 0 <= i < |s.sent| ==> FromLog(h, s.sent[i])
    requires forall i :: 0 <= i < |reply| ==> FromLog(h, reply[i])
    requires truthful && c.honest ==> InSync(k, initial.value, h, c.start, reply)
    ensures SocketOk(k, initial, true, truthful, h, Socket(Answered(player), true, s.sent + reply), c)
  {
    hide FromLog, InSync;
    assert (s.sent + reply)[|s.sent|..] == reply;
  }

  /** The answer to a hello puts its socket in sync. */
  lemma {:induction false} SocketBootstraps(k: Kernel, initial: Option<Snapshot>, truthful: bool, h: seq<Action>,
      s: Socket, base: Snapshot, player: PlayerId)
    requires Numbered(h) && initial.Some? && initial.value.sequence == 0 && base.sequence <= |h|
    requires truthful ==> base == StateAt(k, initial.value, h, base.sequence)
    requires forall i :: 0 <= i < |s.sent| ==> FromLog(h, s.sent[i])
    ensures
      var reply := [Base(base)] + Tail(h[base.sequence..]);
      SocketOk(k, initial, true, truthful, h, Socket(Answered(player), true, s.sent + reply),
          ClientLog(Blank, true, |s.sent|))
  {
    var reply := [Base(base)] + Tail(h[base.sequence..]);
    forall i | 0 <= i < |reply| ensures FromLog(h, reply[i]) {
      ReplyFromLog(h, base, i);
    }
    if truthful { BootstrapSync(k, initial.value, h, base, Blank); }
    SocketAnswered(k, initial, truthful, h, s, ClientLog(Blank, true, |s.sent|), player, reply);
  }

  lemma {:induction false} SocketResumes(k: Kernel, initial: Option<Snapshot>, truthful: bool, h: seq<Action>,
      s: Socket, held: Client, n: nat, player: PlayerId)
    requires Numbered(h) && initial.Some? && initial.value.sequence == 0 && n <= |h|
    requires forall i :: 0 <= i < |s.sent| ==> FromLog(h, s.sent[i])
    ensures
      var honest := Faithful(k, initial.value, h, held) && held.snapshot.sequence == n;
      SocketOk(k, initial, true, truthful, h, Socket(Answered(player), true, s.sent + [Resumption(n + 1, h[n..])]),
          ClientLog(held, honest, |s.sent|))
  {
    var reply := [Resumption(n + 1, h[n..])];
    var honest := Faithful(k, initial.value, h, held) && held.snapshot.sequence == n;
    if honest { ResumeSync(k, initial.value, h, held); }
    ResumptionFromLog(h, n);
    SocketAnswered(k, initial, truthful, h, s, ClientLog(held, honest, |s.sent|), player, reply);
  }

  lemma {:induction false} ResumptionFromLog(h: seq<Action>, n: nat)
    requires n <= |h|
    ensures FromLog(h, Resumption(n + 1, h[n..]))
  {
    assert h[n..] == h[n..n + |h[n..]|];
  }

  // ---------------------------------------------------------------------------
  // Runs
  // ---------------------------------------------------------------------------

  /** What a run may only add to; `based` says that a late client can be given a base. */
  datatype Trace = Trace(
    history: seq<Action>,
    players: seq<PlayerRow>,
    timers: map<TimerId, Timer>,
    started: bool,
    pendingSince: Option<int>,
    ended: Option<EndReason>,
    confirmed: seq<Snapshot>,
    based: bool)

  ghost predicate Progress(limits: Limits, a: Trace, b: Trace) {
    && a.history <= b.history
    && Evolves(a.timers, b.timers)
    && (a.started ==> b.started)
    && PauseProgress(a, b)
    && DeferProgress(a, b)
    && RowProgress(a, b)
    && (a.ended.Some? ==> b.ended == a.ended)
    && a.confirmed <= b.confirmed
    && BaseProgress(limits, a, b)
  }

  /** Once a room runs unpaused, a timer's due time changes by its one deferral and by nothing else. */
  ghost predicate DeferProgress(a: Trace, b: Trace) {
    a.started && a.pendingSince.None? ==>
      forall t :: t in a.timers ==>
        && t in b.timers
        && (|| b.timers[t].dueAt == a.timers[t].dueAt
            || (!a.timers[t].deferredOnce && b.timers[t].deferredOnce))
  }

  /** Players stay, and whoever joined after the start is in the log. */
  ghost predicate RowProgress(a: Trace, b: Trace) {
    && a.players <= b.players
    && (a.started ==> forall i :: |a.players| <= i < |b.players| ==> SeatLogged(b.history, b.players[i].id))
  }

  /** A lost base never comes back, and only more actions than the slack can lose one. */
  predicate BaseProgress(limits: Limits, a: Trace, b: Trace) {
    && (b.based ==> a.based)
    && (a.based && |b.history| - |a.history| <= Slack(limits) ==> b.based)
  }

  /** A started room is paused at most once, and a paused room's timers are only ever canceled. */
  ghost predicate PauseProgress(a: Trace, b: Trace) {
    && (a.started && a.pendingSince.None? ==> b.pendingSince.None?)
    && (a.pendingSince.Some? ==> b.pendingSince == a.pendingSince || (b.started && b.pendingSince.None?))
    && (a.pendingSince.Some? && b.pendingSince == a.pendingSince ==>
          forall t :: t in a.timers ==>
            && t in b.timers
            && (b.timers[t] == a.timers[t] || b.timers[t] == a.timers[t].(status := Canceled)))
  }

  /** A request keeps its one entry for good: whatever was done in between, a retry finds the same action. */
  lemma {:induction false} RequestsForever(h: seq<Action>, dedup: map<RequestId, Action>, later: seq<Action>,
      dedup': map<RequestId, Action>, q: RequestId)
    requires DedupOk(h, dedup) && DedupOk(later, dedup') && h <= later && q in dedup
    ensures q in dedup' && dedup'[q] == dedup[q]
  {
    assert later[dedup[q].sequence - 1] == dedup[q];
  }

  lemma {:induction false} ProgressReflexive(limits: Limits, a: Trace)
    ensures Progress(limits, a, a)
  {
  }

  lemma {:induction false} ProgressTransitive(limits: Limits, a: Trace, b: Trace, c: Trace)
    requires Progress(limits, a, b) && Progress(limits, b, c)
    ensures Progress(limits, a, c)
  {
    forall t | t in a.timers ensures t in c.timers && Outlives(a.timers[t], c.timers[t]) {
      assert t in b.timers && Outlives(a.timers[t], b.timers[t]) && Outlives(b.timers[t], c.timers[t]);
    }
    PauseTransitive(a, b, c);
    DeferTransitive(a, b, c);
    RowsTransitive(a, b, c);
  }

  lemma {:induction false} DeferTransitive(a: Trace, b: Trace, c: Trace)
    requires DeferProgress(a, b) && DeferProgress(b, c) && PauseProgress(a, b) && (a.started ==> b.started)
    requires Evolves(a.timers, b.timers) && Evolves(b.timers, c.timers)
    ensures DeferProgress(a, c)
  {
    if a.started && a.pendingSince.None? {
      forall t | t in a.timers
        ensures t in c.timers
        ensures c.timers[t].dueAt == a.timers[t].dueAt || (!a.timers[t].deferredOnce && c.timers[t].deferredOnce)
      {
        assert t in b.timers && Outlives(a.timers[t], b.timers[t]) && Outlives(b.timers[t], c.timers[t]);
      }
    }
  }

  lemma {:induction false} RowsTransitive(a: Trace, b: Trace, c: Trace)
    requires RowProgress(a, b) && RowProgress(b, c) && (a.started ==> b.started) && b.history <= c.history
    ensures RowProgress(a, c)
  {
    if a.started {
      forall i | |a.players| <= i < |c.players| ensures SeatLogged(c.history, c.players[i].id) {
        if i < |b.players| { SeatLoggedLater(b.history, c.history, c.players[i].id); }
      }
    }
  }

  lemma {:induction false} PauseTransitive(a: Trace, b: Trace, c: Trace)
    requires PauseProgress(a, b) && PauseProgress(b, c) && (a.started ==> b.started) && (b.started ==> c.started)
    ensures PauseProgress(a, c)
  {
    if a.pendingSince.Some? && c.pendingSince == a.pendingSince {
      assert b.pendingSince == a.pendingSince;
      forall t | t in a.timers
        ensures t in c.timers && (c.timers[t] == a.timers[t] || c.timers[t] == a.timers[t].(status := Canceled))
      {
        assert t in b.timers && t in c.timers;
      }
    }
  }
}
