/**
 The stored action table and the permanent request table of a room, as views of one whole
 log (the `actions` and `request_dedup` tables of apps/worker/src/index.ts).

 Rows are kept in primary-key order, so deleting and selecting by sequence are filters.
 */
module ActionLog {
  import opened Wrappers
  import opened Kernel
  import opened RoomCoreModel

  /** The `request_id` column: the client's own, or `system:` with the action id. */
  function StoredKey(a: Action): RequestId {
    a.requestId.GetOr(SystemName(a.actionId))
  }

  /** A row already stores what `a` would store as its request id. */
  predicate KeyTaken(rows: seq<Action>, a: Action) {
    exists i :: 0 <= i < |rows| && StoredKey(rows[i]) == StoredKey(a)
  }

  /** Another row has the sequence, the action id or the stored request id of `a`. */
  predicate Clashes(rows: seq<Action>, a: Action) {
    || KeyTaken(rows, a)
    || exists i :: 0 <= i < |rows| && (rows[i].sequence == a.sequence || rows[i].actionId == a.actionId)
  }

  function InsertOrdered(rows: seq<Action>, a: Action): seq<Action> {
    if rows == [] || rows[|rows| - 1].sequence < a.sequence then rows + [a]
    else InsertOrdered(rows[..|rows| - 1], a) + [rows[|rows| - 1]]
  }

  /** INSERT: None where a uniqueness constraint fails and the transaction throws. */
  function Insert(rows: seq<Action>, a: Action): Option<seq<Action>> {
    if Clashes(rows, a) then None else Some(InsertOrdered(rows, a))
  }

  /** `persistSystemAction` and the insert of `sequence`, with the trim behind them. */
  function Persist(limits: Limits, rows: seq<Action>, a: Action, trims: bool): Option<seq<Action>> {
    match Insert(rows, a)
    case None => None
    case Some(more) => Some(if trims then After(more, a.sequence - limits.retention) else more)
  }

  /** `loadCore`'s window over the stored rows. */
  function LoadWindow(limits: Limits, rows: seq<Action>, lastSequence: nat): RoomCoreState {
    RoomCoreState(lastSequence, After(rows, lastSequence - limits.retention))
  }

  /** The request table maps each request of the log to its one entry, and holds nothing else. */
  ghost predicate DedupOk(h: seq<Action>, dedup: map<RequestId, Action>) {
    && (forall q {:trigger dedup[q]} :: q in dedup ==>
          && 1 <= dedup[q].sequence <= |h| && h[dedup[q].sequence - 1] == dedup[q] && dedup[q].requestId == Some(q))
    && (forall i {:trigger h[i].requestId} :: 0 <= i < |h| && h[i].requestId.Some? ==>
          h[i].requestId.value in dedup && dedup[h[i].requestId.value] == h[i])
  }

  /** The stored rows are the log from entry `lo` on, at least as far back as the window. */
  ghost predicate LogOk(limits: Limits, h: seq<Action>, rows: seq<Action>, lo: nat) {
    limits.Valid() && HistoryOk(h) && |h| <= MAX_SAFE_INTEGER && lo <= FloorOf(limits, |h|) && rows == h[lo..]
  }

  /** Whatever was trimmed, the loaded window is the window of the whole log. */
  lemma {:induction false} LoadIsWindow(limits: Limits, h: seq<Action>, rows: seq<Action>, lo: nat)
    requires LogOk(limits, h, rows, lo)
    ensures LoadWindow(limits, rows, |h|) == WindowOf(limits, h)
    ensures WindowOk(limits, WindowOf(limits, h)) && ActsNumbered(WindowOf(limits, h).actions)
  {
    WindowOfOk(limits, h);
    AfterSlice(h, lo, |h|, |h| - limits.retention);
    assert h[lo..|h|] == h[lo..];
  }

  lemma {:induction false} ExtendHistory(h: seq<Action>, a: Action)
    requires HistoryOk(h) && a.sequence == |h| + 1 && (a.actor.Player? ==> a.requestId.Some?)
    requires a.actionId.Act? ==> a.actionId.sequence == a.sequence
    requires a.actionId.Sys? ==> forall i :: 0 <= i < |h| ==> h[i].actionId != a.actionId
    requires a.requestId.Some? ==> forall i :: 0 <= i < |h| ==> h[i].requestId != a.requestId
    ensures HistoryOk(h + [a])
  {
    AppendUnique(h, a);
  }

  /** An insert fails exactly on a row with the sequence, the action id or the stored request id of the new one. */
  lemma {:induction false} InsertFailsIff(rows: seq<Action>, a: Action)
    ensures Insert(rows, a).None? <==>
      exists i :: 0 <= i < |rows| &&
        (|| rows[i].sequence == a.sequence
         || rows[i].actionId == a.actionId
         || (a.requestId.Some? && rows[i].requestId == a.requestId)
         || (a.requestId.None? && rows[i].requestId == Some(SystemName(a.actionId)))
         || (rows[i].requestId.None? && a.requestId == Some(SystemName(rows[i].actionId))))
  {
    if i :| 0 <= i < |rows| && (rows[i].sequence == a.sequence || rows[i].actionId == a.actionId) {
      assert Clashes(rows, a);
    }
    if i :| 0 <= i < |rows| && StoredKey(rows[i]) == StoredKey(a) {
      assert KeyTaken(rows, a);
    }
  }

  ghost predicate Ascending(rows: seq<Action>) {
    forall i, j :: 0 <= i < j < |rows| ==> rows[i].sequence < rows[j].sequence
  }

  /** A row that is inserted takes its place in the order of the sequences, and no other row is touched. */
  lemma {:induction false} InsertKeepsOrder(rows: seq<Action>, a: Action)
    requires Ascending(rows) && Insert(rows, a).Some?
    ensures Ascending(Insert(rows, a).value) && multiset(Insert(rows, a).value) == multiset(rows) + multiset{a}
  {
    InsertFailsIff(rows, a);
    OrderedInsert(rows, a);
  }

  lemma {:induction false} OrderedInsert(rows: seq<Action>, a: Action)
    requires Ascending(rows) && forall i :: 0 <= i < |rows| ==> rows[i].sequence != a.sequence
    ensures Ascending(InsertOrdered(rows, a)) && multiset(InsertOrdered(rows, a)) == multiset(rows) + multiset{a}
    decreases |rows|
  {
    if rows != [] && rows[|rows| - 1].sequence > a.sequence {
      var before, last := rows[..|rows| - 1], rows[|rows| - 1];
      OrderedInsert(before, a);
      assert rows == before + [last];
      StillBefore(before, a, InsertOrdered(before, a), last);
      AscendingAppend(InsertOrdered(before, a), last);
    } else {
      AscendingAppend(rows, a);
    }
  }

  lemma {:induction false} AscendingAppend(rows: seq<Action>, a: Action)
    requires Ascending(rows) && forall i :: 0 <= i < |rows| ==> rows[i].sequence < a.sequence
    ensures Ascending(rows + [a])
  {
  }

  lemma {:induction false} StillBefore(before: seq<Action>, a: Action, after: seq<Action>, last: Action)
    requires multiset(after) == multiset(before) + multiset{a} && a.sequence < last.sequence
    requires forall i :: 0 <= i < |before| ==> before[i].sequence < last.sequence
    ensures forall i :: 0 <= i < |after| ==> after[i].sequence < last.sequence
  {
    forall i | 0 <= i < |after| ensures after[i].sequence < last.sequence {
      assert after[i] in multiset(after);
      assert after[i] in multiset(before) || after[i] == a;
    }
  }

  /**
   The next log entry meets a constraint if and only if a stored system action is named by the
   entry's request id, or the entry is a system action that a stored request id names.
   */
  lemma {:induction false} KeyTakenIff(h: seq<Action>, lo: nat, a: Action)
    requires HistoryOk(h + [a]) && lo <= |h|
    ensures Clashes(h[lo..], a) <==> KeyTaken(h[lo..], a)
    ensures a.requestId.Some? ==>
      (KeyTaken(h[lo..], a) <==>
         exists i :: lo <= i < |h| && h[i].requestId.None? && a.requestId.value == SystemName(h[i].actionId))
    ensures a.requestId.None? ==>
      (KeyTaken(h[lo..], a) <==> exists i :: lo <= i < |h| && h[i].requestId == Some(SystemName(a.actionId)))
  {
    var all := h + [a];
    assert all[|h|] == a;
    forall i | 0 <= i < |h| - lo
      ensures h[lo..][i] == h[lo + i] && h[lo..][i].sequence != a.sequence && h[lo..][i].actionId != a.actionId
      ensures a.requestId.Some? ==> h[lo..][i].requestId != a.requestId
    {
      assert h[lo..][i] == all[lo + i];
    }
    if i :| lo <= i < |h| && StoredKey(h[i]) == StoredKey(a) {
      assert h[lo..][i - lo] == h[i];
    }
  }

  /** Otherwise it lands at the end. */
  lemma {:induction false} InsertAppends(h: seq<Action>, lo: nat, a: Action)
    requires HistoryOk(h + [a]) && lo <= |h|
    ensures Insert(h[lo..], a) == if KeyTaken(h[lo..], a) then None else Some((h + [a])[lo..])
  {
    KeyTakenIff(h, lo, a);
    assert (h + [a])[|h|] == a;
    assert (h + [a])[lo..] == h[lo..] + [a];
    if h[lo..] != [] { assert h[lo..][|h| - lo - 1] == (h + [a])[|h| - 1]; }
  }

  lemma {:induction false} NextSequence(h: seq<Action>, a: Action)
    requires HistoryOk(h + [a])
    ensures Numbered(h + [a]) && a.sequence == |h| + 1
  {
    assert (h + [a])[|h|] == a;
  }

  /** What the trim leaves of a log of `n` entries whose rows started at `lo`. */
  function TrimmedFrom(limits: Limits, n: nat, lo: nat, trims: bool): nat {
    if trims && FloorOf(limits, n) > lo then FloorOf(limits, n) else lo
  }

  /**
   Persisting the next entry, where no stored key stands in its way, keeps the rows a suffix of
   the log that covers the window.
   */
  lemma {:induction false} PersistKeeps(limits: Limits, h: seq<Action>, rows: seq<Action>, lo: nat, a: Action,
      trims: bool)
    requires LogOk(limits, h, rows, lo) && HistoryOk(h + [a]) && |h| < MAX_SAFE_INTEGER
    ensures var next := TrimmedFrom(limits, |h| + 1, lo, trims);
      && Persist(limits, rows, a, trims) == (if KeyTaken(rows, a) then None else Some((h + [a])[next..]))
      && LogOk(limits, h + [a], (h + [a])[next..], next)
  {
    hide KeyTaken, Clashes, HistoryOk, After;
    var all := h + [a];
    InsertAppends(h, lo, a);
    NextSequence(h, a);
    AfterSlice(all, lo, |all|, a.sequence - limits.retention);
    assert all[lo..|all|] == all[lo..];
    var next := TrimmedFrom(limits, |h| + 1, lo, trims);
    assert all[next..|all|] == all[next..];
  }

  lemma {:induction false} DedupKeeps(h: seq<Action>, dedup: map<RequestId, Action>, a: Action)
    requires DedupOk(h, dedup) && a.sequence == |h| + 1
    requires a.requestId.Some? ==> a.requestId.value !in dedup
    ensures DedupOk(h + [a], if a.requestId.Some? then dedup[a.requestId.value := a] else dedup)
  {
  }

  /** A request id missing from the request table is nowhere in the log, nor in the window. */
  lemma {:induction false} MissedEverywhere(limits: Limits, h: seq<Action>, dedup: map<RequestId, Action>, q: RequestId)
    requires DedupOk(h, dedup) && q !in dedup
    ensures forall i :: 0 <= i < |h| ==> h[i].requestId != Some(q)
    ensures forall i :: 0 <= i < |WindowOf(limits, h).actions| ==> WindowOf(limits, h).actions[i].requestId != Some(q)
  {
  }

  /** An action id missing from the log is missing from the window. */
  lemma {:induction false} WindowInLog(limits: Limits, h: seq<Action>)
    ensures forall i :: 0 <= i < |WindowOf(limits, h).actions| ==>
      WindowOf(limits, h).actions[i] == h[FloorOf(limits, |h|) + i]
  {
  }

  /** Deleting the rows a confirmed checkpoint makes unnecessary. */
  lemma {:induction false} DeleteConfirmed(limits: Limits, h: seq<Action>, rows: seq<Action>, lo: nat, checkpoint: nat)
    requires LogOk(limits, h, rows, lo) && checkpoint <= |h| && lo <= FloorOf(limits, checkpoint)
    ensures After(rows, FloorOf(limits, checkpoint)) == h[FloorOf(limits, checkpoint)..]
    ensures LogOk(limits, h, h[FloorOf(limits, checkpoint)..], FloorOf(limits, checkpoint))
  {
    AfterSuffix(h, lo, FloorOf(limits, checkpoint));
  }
}
