/**
 What a client makes of the messages on one socket.

 A socket is a FIFO channel, so "everything ever sent" with every prefix of it stands for
 every way the network can delay delivery. The client applies an ordered action exactly
 when it is the next one; an action it already has (the reply to a repeated request) is
 skipped, and anything else is a gap.
 */
module Delivery {
  import opened Wrappers
  import opened Kernel

  datatype EndReason = HostEnded | Expired | Moderation

  datatype ErrorCode = BootstrapUnavailable | MalformedMessage | InvalidSession

  datatype Message =
    | Base(snapshot: Snapshot)
    | Ordered(action: Action)
    | Resumption(fromSequence: int, actions: seq<Action>)
    | ResyncRequired
    | RoomEnded(reason: EndReason)
    | ProtocolError(code: ErrorCode)

  datatype Client = Blank | At(snapshot: Snapshot) | Gap

  function Receive(k: Kernel, c: Client, m: Message): Client {
    match m
    case Base(snapshot) => At(snapshot)
    case Ordered(a) => ReceiveAction(k, c, a)
    case Resumption(from, actions) =>
      if c.At? && from == c.snapshot.sequence + 1 then ReceiveActions(k, c, actions) else Gap
    case _ => c
  }

  function ReceiveAction(k: Kernel, c: Client, a: Action): Client {
    if !c.At? then Gap
    else if a.sequence == c.snapshot.sequence + 1 then At(Apply(k, c.snapshot, a))
    else if a.sequence <= c.snapshot.sequence then c
    else Gap
  }

  function ReceiveActions(k: Kernel, c: Client, actions: seq<Action>): Client {
    if actions == [] then c
    else ReceiveAction(k, ReceiveActions(k, c, actions[..|actions| - 1]), actions[|actions| - 1])
  }

  function ReceiveAll(k: Kernel, c: Client, messages: seq<Message>): Client {
    if messages == [] then c
    else Receive(k, ReceiveAll(k, c, messages[..|messages| - 1]), messages[|messages| - 1])
  }

  /** The client holds a state the room really went through. */
  ghost predicate Faithful(k: Kernel, initial: Snapshot, h: seq<Action>, c: Client) {
    c.At? && c.snapshot.sequence <= |h| && c.snapshot == StateAt(k, initial, h, c.snapshot.sequence)
  }

  /**
   However much of the channel has been delivered, the client holds a true state, and
   with all of it delivered the newest one.
   */
  ghost predicate InSync(k: Kernel, initial: Snapshot, h: seq<Action>, start: Client, messages: seq<Message>) {
    && messages != []
    && (forall j :: 1 <= j <= |messages| ==> Faithful(k, initial, h, ReceiveAll(k, start, messages[..j])))
    && ReceiveAll(k, start, messages).At?
    && ReceiveAll(k, start, messages).snapshot.sequence == |h|
  }

  /** Whatever a message says was ordered is what the log has at that sequence. */
  ghost predicate FromLog(h: seq<Action>, m: Message) {
    && (m.Ordered? ==> 1 <= m.action.sequence <= |h| && h[m.action.sequence - 1] == m.action)
    && (m.Resumption? ==>
          && 1 <= m.fromSequence && m.fromSequence - 1 + |m.actions| <= |h|
          && m.actions == h[m.fromSequence - 1..m.fromSequence - 1 + |m.actions|])
  }

  lemma {:induction false} ReceiveNext(k: Kernel, start: Client, messages: seq<Message>, m: Message)
    ensures ReceiveAll(k, start, messages + [m]) == Receive(k, ReceiveAll(k, start, messages), m)
  {
    assert (messages + [m])[..|messages|] == messages;
  }

  /** The next action moves a client by one step of the kernel, a later one is a gap. */
  lemma {:induction false} NextActionSteps(k: Kernel, snapshot: Snapshot, a: Action)
    ensures a.sequence == snapshot.sequence + 1 ==>
      Receive(k, At(snapshot), Ordered(a)) ==
        At(Snapshot(snapshot.release, snapshot.sequence + 1, k.apply(snapshot.state, a)))
    ensures a.sequence <= snapshot.sequence ==> Receive(k, At(snapshot), Ordered(a)) == At(snapshot)
    ensures a.sequence > snapshot.sequence + 1 ==> Receive(k, At(snapshot), Ordered(a)) == Gap
  {
  }

  lemma {:induction false} FaithfulLater(k: Kernel, initial: Snapshot, h: seq<Action>, more: seq<Action>, c: Client)
    requires Faithful(k, initial, h, c)
    ensures Faithful(k, initial, h + more, c)
  {
    StateAtPrefix(k, initial, h, more, c.snapshot.sequence);
  }

  /** One more message keeps the channel in sync if it leaves the client at the newest state. */
  lemma {:induction false} ExtendSync(k: Kernel, initial: Snapshot, h: seq<Action>, more: seq<Action>, start: Client,
      messages: seq<Message>, m: Message)
    requires InSync(k, initial, h, start, messages)
    requires
      var c := Receive(k, ReceiveAll(k, start, messages), m);
      Faithful(k, initial, h + more, c) && c.snapshot.sequence == |h + more|
    ensures InSync(k, initial, h + more, start, messages + [m])
  {
    ReceiveNext(k, start, messages, m);
    var all := messages + [m];
    forall j | 1 <= j <= |all| ensures Faithful(k, initial, h + more, ReceiveAll(k, start, all[..j])) {
      if j <= |messages| {
        assert all[..j] == messages[..j];
        FaithfulLater(k, initial, h, more, ReceiveAll(k, start, messages[..j]));
      } else {
        assert all[..j] == all;
      }
    }
  }

  lemma {:induction false} NextState(k: Kernel, initial: Snapshot, h: seq<Action>, a: Action)
    requires Numbered(h + [a]) && initial.sequence == 0
    ensures StateAt(k, initial, h + [a], |h| + 1) == Apply(k, StateAt(k, initial, h, |h|), a)
    ensures StateAt(k, initial, h + [a], |h| + 1).sequence == |h| + 1
  {
    assert (h + [a])[..|h| + 1] == h + [a] && h[..|h|] == h;
    FoldAppend(k, initial, h, a);
    StateAtSequence(k, initial, h + [a], |h| + 1);
  }

  /** Broadcasting the next log entry. */
  lemma {:induction false} BroadcastSync(k: Kernel, initial: Snapshot, h: seq<Action>, a: Action, start: Client,
      messages: seq<Message>)
    requires InSync(k, initial, h, start, messages) && Numbered(h + [a]) && initial.sequence == 0
    ensures InSync(k, initial, h + [a], start, messages + [Ordered(a)])
  {
    NextState(k, initial, h, a);
    assert messages[..|messages|] == messages;
    assert (h + [a])[|h|] == a;
    ExtendSync(k, initial, h, [a], start, messages, Ordered(a));
  }

  /** A message that is no news: the entry of a repeated request, or a notice. */
  lemma {:induction false} OldNewsSync(k: Kernel, initial: Snapshot, h: seq<Action>, m: Message, start: Client,
      messages: seq<Message>)
    requires InSync(k, initial, h, start, messages)
    requires !m.Base? && !m.Resumption? && (m.Ordered? ==> m.action.sequence <= |h|)
    ensures InSync(k, initial, h, start, messages + [m])
  {
    assert messages[..|messages|] == messages && h + [] == h;
    ExtendSync(k, initial, h, [], start, messages, m);
  }

  /** The ordered messages of a stretch of the log. */
  function Tail(actions: seq<Action>): seq<Message> {
    seq(|actions|, i requires 0 <= i < |actions| => Ordered(actions[i]))
  }

  /** A base that is a true state, followed by the log behind it. */
  lemma {:induction false} BootstrapSync(k: Kernel, initial: Snapshot, h: seq<Action>, base: Snapshot, start: Client)
    requires Numbered(h) && initial.sequence == 0 && base.sequence <= |h|
    requires base == StateAt(k, initial, h, base.sequence)
    ensures InSync(k, initial, h, start, [Base(base)] + Tail(h[base.sequence..]))
    decreases |h|
  {
    hide InSync, StateAt;
    var n := base.sequence;
    if n == |h| {
      assert [Base(base)] + Tail(h[n..]) == [Base(base)];
      BaseSync(k, initial, h, base, start);
    } else {
      var before, a := h[..|h| - 1], h[|h| - 1];
      assert before + [a] == h;
      StateAtPrefix(k, initial, before, [a], n);
      BootstrapSync(k, initial, before, base, start);
      BroadcastSync(k, initial, before, a, start, [Base(base)] + Tail(before[n..]));
      assert Tail(before[n..]) + [Ordered(a)] == Tail(h[n..]);
      assert [Base(base)] + Tail(before[n..]) + [Ordered(a)] == [Base(base)] + Tail(h[n..]);
    }
  }

  lemma {:induction false} BaseSync(k: Kernel, initial: Snapshot, h: seq<Action>, base: Snapshot, start: Client)
    requires base.sequence == |h| && base == StateAt(k, initial, h, |h|)
    ensures InSync(k, initial, h, start, [Base(base)])
  {
    assert [Base(base)][..0] == [];
    assert [Base(base)][..1] == [Base(base)];
  }

  lemma {:induction false} ReceiveLog(k: Kernel, initial: Snapshot, h: seq<Action>, n: nat, m: nat)
    requires Numbered(h) && initial.sequence == 0 && n <= m <= |h|
    ensures ReceiveActions(k, At(StateAt(k, initial, h, n)), h[n..m]) == At(StateAt(k, initial, h, m))
    decreases m
  {
    if n < m {
      ReceiveLog(k, initial, h, n, m - 1);
      assert h[n..m][..m - 1 - n] == h[n..m - 1];
      assert h[..m] == h[..m - 1] + [h[m - 1]];
      FoldAppend(k, initial, h[..m - 1], h[m - 1]);
      StateAtSequence(k, initial, h, m - 1);
    }
  }

  /** Resuming from a true state. */
  lemma {:induction false} ResumeSync(k: Kernel, initial: Snapshot, h: seq<Action>, held: Client)
    requires Numbered(h) && initial.sequence == 0 && Faithful(k, initial, h, held)
    ensures
      var n := held.snapshot.sequence;
      InSync(k, initial, h, held, [Resumption(n + 1, h[n..])])
  {
    var n := held.snapshot.sequence;
    ReceiveLog(k, initial, h, n, |h|);
    StateAtSequence(k, initial, h, |h|);
    assert h[n..|h|] == h[n..];
    var messages := [Resumption(n + 1, h[n..])];
    assert messages[..0] == [] && messages[..1] == messages;
    assert held == At(StateAt(k, initial, h, n));
    assert ReceiveAll(k, held, messages) == Receive(k, held, messages[0]) == At(StateAt(k, initial, h, |h|));
  }

  // ---------------------------------------------------------------------------
  // What a client applied
  // ---------------------------------------------------------------------------

  /** The actions a client applies, in order, since the last base it was given. */
  function Applied(k: Kernel, start: Client, messages: seq<Message>): seq<Action> {
    if messages == [] then []
    else
      var before := messages[..|messages| - 1];
      AppliedAfter(ReceiveAll(k, start, before), Applied(k, start, before), messages[|messages| - 1])
  }

  lemma {:induction false} ResumedTo(k: Kernel, c: Client, h: seq<Action>, n: nat, m: nat)
    requires Numbered(h) && n <= m <= |h| && c.At? && c.snapshot.sequence == n
    ensures ReceiveActions(k, c, h[n..m]).At? && ReceiveActions(k, c, h[n..m]).snapshot.sequence == m
    decreases m
  {
    if n < m {
      ResumedTo(k, c, h, n, m - 1);
      assert h[n..m][..m - 1 - n] == h[n..m - 1];
    }
  }

  /** The sequence of the last base a client was given, or of what it held before. */
  function BaseOf(start: Client, messages: seq<Message>): nat {
    if messages == [] then if start.At? then start.snapshot.sequence else 0
    else if messages[|messages| - 1].Base? then messages[|messages| - 1].snapshot.sequence
    else BaseOf(start, messages[..|messages| - 1])
  }

  /** What was applied is the stretch of the log from the base to where the client is. */
  ghost predicate AppliedFits(h: seq<Action>, c: Client, base: nat, applied: seq<Action>) {
    if !c.At? then applied == []
    else
      && base + |applied| == c.snapshot.sequence
      && (applied == [] || (c.snapshot.sequence <= |h| && applied == h[base..c.snapshot.sequence]))
  }

  function AppliedAfter(c: Client, applied: seq<Action>, m: Message): seq<Action> {
    match m
    case Base(_) => []
    case Ordered(a) => applied + if c.At? && a.sequence == c.snapshot.sequence + 1 then [a] else []
    case Resumption(from, actions) => applied + if c.At? && from == c.snapshot.sequence + 1 then actions else []
    case _ => applied
  }

  lemma {:induction false} StretchGrows(h: seq<Action>, c: Client, base: nat, applied: seq<Action>, m: nat)
    requires AppliedFits(h, c, base, applied) && c.At? && c.snapshot.sequence <= m <= |h|
    ensures applied + h[c.snapshot.sequence..m] == h[base..m]
  {
  }

  lemma {:induction false} OrderedApplies(k: Kernel, h: seq<Action>, c: Client, base: nat, applied: seq<Action>,
      a: Action)
    requires Numbered(h) && FromLog(h, Ordered(a)) && AppliedFits(h, c, base, applied) && c.At?
    requires a.sequence == c.snapshot.sequence + 1
    ensures AppliedFits(h, At(Apply(k, c.snapshot, a)), base, applied + [a])
  {
    var n := c.snapshot.sequence;
    StretchGrows(h, c, base, applied, n + 1);
    assert h[n] == a;
    assert |h[n..n + 1]| == 1 && h[n..n + 1][0] == h[n];
    assert h[n..n + 1] == [a];
  }

  lemma {:induction false} ResumptionApplies(k: Kernel, h: seq<Action>, c: Client, base: nat, applied: seq<Action>,
      actions: seq<Action>)
    requires c.At? && Numbered(h) && FromLog(h, Resumption(c.snapshot.sequence + 1, actions))
    requires AppliedFits(h, c, base, applied)
    ensures AppliedFits(h, ReceiveActions(k, c, actions), base, applied + actions)
  {
    var n := c.snapshot.sequence;
    ResumedTo(k, c, h, n, n + |actions|);
    StretchGrows(h, c, base, applied, n + |actions|);
  }

  /** One message, from a client that has applied a stretch of the log. */
  lemma {:induction false} AppliedNext(k: Kernel, h: seq<Action>, c: Client, base: nat, applied: seq<Action>,
      m: Message)
    requires Numbered(h) && FromLog(h, m) && Receive(k, c, m).At? && AppliedFits(h, c, base, applied)
    ensures AppliedFits(h, Receive(k, c, m), if m.Base? then m.snapshot.sequence else base, AppliedAfter(c, applied, m))
  {
    assert applied + [] == applied;
    if c.At? && m.Ordered? && m.action.sequence == c.snapshot.sequence + 1 {
      OrderedApplies(k, h, c, base, applied, m.action);
    }
    if c.At? && m.Resumption? && m.fromSequence == c.snapshot.sequence + 1 {
      ResumptionApplies(k, h, c, base, applied, m.actions);
    }
  }

  /**
   Client convergence: on a channel in sync, at every moment of its delivery, the client has
   applied exactly the log from its base up to where it is, each entry once and in order.
   */
  lemma {:induction false} AppliedIsHistory(k: Kernel, initial: Snapshot, h: seq<Action>, start: Client,
      messages: seq<Message>, j: nat)
    requires InSync(k, initial, h, start, messages) && Numbered(h)
    requires forall i :: 0 <= i < |messages| ==> FromLog(h, messages[i])
    requires j <= |messages|
    ensures AppliedFits(h, ReceiveAll(k, start, messages[..j]), BaseOf(start, messages[..j]),
        Applied(k, start, messages[..j]))
  {
    hide AppliedFits, FromLog, StateAt, Receive;
    if j == 0 {
      NothingApplied(h, start);
    } else {
      AppliedIsHistory(k, initial, h, start, messages, j - 1);
      assert Faithful(k, initial, h, ReceiveAll(k, start, messages[..j]));
      var before := messages[..j - 1];
      assert messages[..j][..j - 1] == before;
      AppliedNext(k, h, ReceiveAll(k, start, before), BaseOf(start, before), Applied(k, start, before),
          messages[j - 1]);
    }
  }

  lemma {:induction false} NothingApplied(h: seq<Action>, c: Client)
    ensures AppliedFits(h, c, BaseOf(c, []), [])
  {
  }

  // ---------------------------------------------------------------------------
  // The channel alone
  // ---------------------------------------------------------------------------

  /** The newest sequence a channel has brought to somebody who named a sequence when it began. */
  function ChannelAt(named: nat, messages: seq<Message>): nat {
    if messages == [] then named
    else
      var before := ChannelAt(named, messages[..|messages| - 1]);
      match messages[|messages| - 1]
      case Base(snapshot) => snapshot.sequence
      case Ordered(a) => if a.sequence > before then a.sequence else before
      case Resumption(from, actions) => if from >= 1 then from - 1 + |actions| else before
      case _ => before
  }

  /** The reply to a repeated request: an entry the channel has already brought or passed. */
  predicate Stale(named: nat, messages: seq<Message>, i: nat)
    requires i < |messages|
  {
    messages[i].Ordered? && messages[i].action.sequence <= ChannelAt(named, messages[..i])
  }

  /** What a channel carries since its last base, stale entries aside. */
  function News(named: nat, messages: seq<Message>): seq<Action> {
    if messages == [] then []
    else
      var n := |messages| - 1;
      match messages[n]
      case Base(_) => []
      case Ordered(a) => News(named, messages[..n]) + if Stale(named, messages, n) then [] else [a]
      case Resumption(_, actions) => News(named, messages[..n]) + actions
      case _ => News(named, messages[..n])
  }

  /** One message on a channel in sync. */
  lemma {:induction false} NewsNext(k: Kernel, h: seq<Action>, c: Client, at: nat, m: Message)
    requires Numbered(h) && FromLog(h, m) && Receive(k, c, m).At? && (c.At? ==> at == c.snapshot.sequence)
    ensures m.Ordered? ==> c.At? && (m.action.sequence <= at || m.action.sequence == at + 1)
    ensures m.Ordered? ==> Receive(k, c, m).snapshot.sequence == if m.action.sequence <= at then at else at + 1
    ensures m.Resumption? ==>
      c.At? && m.fromSequence == at + 1 && Receive(k, c, m).snapshot.sequence == at + |m.actions|
  {
    if m.Resumption? && c.At? && m.fromSequence == at + 1 { ResumedTo(k, c, h, at, at + |m.actions|); }
  }

  lemma {:induction false} NewsIsApplied(k: Kernel, initial: Snapshot, h: seq<Action>, start: Client,
      messages: seq<Message>, j: nat)
    requires InSync(k, initial, h, start, messages) && Numbered(h)
    requires forall i :: 0 <= i < |messages| ==> FromLog(h, messages[i])
    requires j <= |messages|
    ensures News(BaseOf(start, []), messages[..j]) == Applied(k, start, messages[..j])
    ensures ReceiveAll(k, start, messages[..j]).At? ==>
      ReceiveAll(k, start, messages[..j]).snapshot.sequence == ChannelAt(BaseOf(start, []), messages[..j])
    ensures j > 0 ==>
      ReceiveAll(k, start, messages[..j]).At? && ReceiveAll(k, start, messages[..j]).snapshot.sequence <= |h|
  {
    if j > 0 {
      NewsIsApplied(k, initial, h, start, messages, j - 1);
      assert Faithful(k, initial, h, ReceiveAll(k, start, messages[..j]));
      assert messages[..j][..j - 1] == messages[..j - 1];
      NewsFollows(k, h, start, messages[..j]);
    }
  }

  lemma {:induction false} NewsFollows(k: Kernel, h: seq<Action>, start: Client, messages: seq<Message>)
    requires messages != [] && Numbered(h) && FromLog(h, messages[|messages| - 1]) && ReceiveAll(k, start, messages).At?
    requires
      var before := messages[..|messages| - 1];
      var c := ReceiveAll(k, start, before);
      && News(BaseOf(start, []), before) == Applied(k, start, before)
      && (c.At? ==> c.snapshot.sequence == ChannelAt(BaseOf(start, []), before))
    ensures News(BaseOf(start, []), messages) == Applied(k, start, messages)
    ensures ReceiveAll(k, start, messages).snapshot.sequence == ChannelAt(BaseOf(start, []), messages)
  {
    var before, m := messages[..|messages| - 1], messages[|messages| - 1];
    var c := ReceiveAll(k, start, before);
    if m.Ordered? || m.Resumption? { NewsNext(k, h, c, ChannelAt(BaseOf(start, []), before), m); }
  }

  /**
   Whoever listens: at every moment of its delivery the channel has brought exactly the log
   from its base to where it is, each entry once and in order, besides stale replies.
   */
  lemma {:induction false} ChannelCarriesTheLog(k: Kernel, initial: Snapshot, h: seq<Action>, start: Client,
      messages: seq<Message>, j: nat)
    requires InSync(k, initial, h, start, messages) && Numbered(h)
    requires forall i :: 0 <= i < |messages| ==> FromLog(h, messages[i])
    requires 1 <= j <= |messages|
    ensures
      var named := BaseOf(start, []);
      var base, at := BaseOf(start, messages[..j]), ChannelAt(named, messages[..j]);
      && base <= at <= |h| && News(named, messages[..j]) == h[base..at]
      && (j == |messages| ==> at == |h|)
  {
    NewsIsApplied(k, initial, h, start, messages, j);
    AppliedIsHistory(k, initial, h, start, messages, j);
    assert j == |messages| ==> messages[..j] == messages;
  }

  /** A client that takes a stale entry for a gap, as the web client does, and reconnects. */
  function ReceiveStrictly(k: Kernel, c: Client, m: Message): Client {
    if m.Ordered? && c.At? && m.action.sequence <= c.snapshot.sequence then Gap else Receive(k, c, m)
  }

  function ReceiveAllStrictly(k: Kernel, c: Client, messages: seq<Message>): Client {
    if messages == [] then c
    else ReceiveStrictly(k, ReceiveAllStrictly(k, c, messages[..|messages| - 1]), messages[|messages| - 1])
  }

  /** The strict client follows the log too, exactly until the first stale reply reaches it. */
  lemma {:induction false} StrictClientIff(k: Kernel, initial: Snapshot, h: seq<Action>, start: Client,
      messages: seq<Message>, j: nat)
    requires InSync(k, initial, h, start, messages) && Numbered(h)
    requires forall i :: 0 <= i < |messages| ==> FromLog(h, messages[i])
    requires j <= |messages|
    ensures (forall i :: 0 <= i < j ==> !Stale(BaseOf(start, []), messages, i)) <==>
      forall i :: 0 <= i <= j ==> ReceiveAllStrictly(k, start, messages[..i]) == ReceiveAll(k, start, messages[..i])
  {
    if j > 0 {
      StrictClientIff(k, initial, h, start, messages, j - 1);
      if ReceiveAllStrictly(k, start, messages[..j - 1]) == ReceiveAll(k, start, messages[..j - 1]) {
        StrictStep(k, initial, h, start, messages, j - 1);
      }
    }
  }

  lemma {:induction false} StrictStep(k: Kernel, initial: Snapshot, h: seq<Action>, start: Client,
      messages: seq<Message>, i: nat)
    requires InSync(k, initial, h, start, messages) && Numbered(h)
    requires forall i :: 0 <= i < |messages| ==> FromLog(h, messages[i])
    requires i < |messages| && ReceiveAllStrictly(k, start, messages[..i]) == ReceiveAll(k, start, messages[..i])
    ensures ReceiveAllStrictly(k, start, messages[..i + 1]) == ReceiveAll(k, start, messages[..i + 1]) <==>
      !Stale(BaseOf(start, []), messages, i)
  {
    NewsIsApplied(k, initial, h, start, messages, i);
    assert messages[..i + 1][..i] == messages[..i];
    assert Faithful(k, initial, h, ReceiveAll(k, start, messages[..i + 1]));
    NewsNext(k, h, ReceiveAll(k, start, messages[..i]), ChannelAt(BaseOf(start, []), messages[..i]), messages[i]);
  }

  /** Two clients at the same sequence hold the same state, whatever each has been sent. */
  lemma {:induction false} SameSequenceSameState(k: Kernel, initial: Snapshot, h: seq<Action>, start1: Client,
      sent1: seq<Message>, j1: nat,
      start2: Client, sent2: seq<Message>, j2: nat)
    requires InSync(k, initial, h, start1, sent1) && InSync(k, initial, h, start2, sent2)
    requires 1 <= j1 <= |sent1| && 1 <= j2 <= |sent2|
    requires ReceiveAll(k, start1, sent1[..j1]).snapshot.sequence ==
      ReceiveAll(k, start2, sent2[..j2]).snapshot.sequence
    ensures ReceiveAll(k, start1, sent1[..j1]) == ReceiveAll(k, start2, sent2[..j2])
  {
    assert Faithful(k, initial, h, ReceiveAll(k, start1, sent1[..j1]));
    assert Faithful(k, initial, h, ReceiveAll(k, start2, sent2[..j2]));
  }
}
