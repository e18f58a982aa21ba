/**
 The reader of `Json` accepts exactly the texts of the grammar of RFC 8259, each as the value
 it is a text of.
 */
module JsonParses {
  import opened Wrappers
  import opened Json
  import opened JsonGrammar

  // ---------------------------------------------------------------------------
  // What the reader accepts is in the grammar
  // ---------------------------------------------------------------------------

  ghost predicate BeforeItem(items: seq<Value>, r: string) {
    if items == [] then Spaces(r)
    else exists q :: 0 <= q < |r| && r[q] == ',' && Listed(items, r[..q]) && Spaces(r[q + 1..])
  }

  ghost predicate BeforeMember(members: seq<Member>, r: string) {
    if members == [] then Spaces(r)
    else exists q :: 0 <= q < |r| && r[q] == ',' && MembersListed(members, r[..q]) && Spaces(r[q + 1..])
  }

  ghost predicate ColonAt(members: seq<Member>, key: seq<nat>, r: string, i: nat, j: nat)
    requires i <= j <= |r|
  {
    BeforeMember(members, r[..i]) && IsString(key, r[i..j]) && Spaces(r[j..])
  }

  ghost predicate BeforeColon(members: seq<Member>, key: seq<nat>, r: string) {
    exists i, j :: 0 <= i <= j <= |r| && ColonAt(members, key, r, i, j)
  }

  ghost predicate BeforeValue(members: seq<Member>, key: seq<nat>, r: string) {
    exists p :: 0 <= p < |r| && r[p] == ':' && BeforeColon(members, key, r[..p]) && Spaces(r[p + 1..])
  }

  /** Read so far where a value is wanted, white space included. */
  ghost predicate Ahead(ctx: Ctx, t: string)
    decreases ctx
  {
    match ctx
    case Top => Spaces(t)
    case Item(items, outer) =>
      exists k :: 0 <= k < |t| && t[k] == '[' && Ahead(outer, t[..k]) && BeforeItem(items, t[k + 1..])
    case MemberOf(members, key, outer) =>
      exists k :: 0 <= k < |t| && t[k] == '{' && Ahead(outer, t[..k]) && BeforeValue(members, key, t[k + 1..])
  }

  ghost predicate KeyAhead(members: seq<Member>, ctx: Ctx, t: string) {
    exists k :: 0 <= k < |t| && t[k] == '{' && Ahead(ctx, t[..k]) && BeforeMember(members, t[k + 1..])
  }

  /** Read so far in each state of the reader. */
  ghost predicate ReadSoFar(cfg: Config, t: string) {
    match cfg
    case Want(ctx) => Ahead(ctx, t)
    case ArrayStart(ctx) => Ahead(Item([], ctx), t)
    case Key(members, first, ctx) => (first <==> members == []) && KeyAhead(members, ctx, t)
    case KeyText(members, units, esc, ctx) =>
      exists q :: 0 <= q < |t| && t[q] == '"' && KeyAhead(members, ctx, t[..q]) && InBody(units, esc, t[q + 1..])
    case Colon(members, key, ctx) =>
      exists k :: 0 <= k < |t| && t[k] == '{' && Ahead(ctx, t[..k]) && BeforeColon(members, key, t[k + 1..])
    case Text(units, esc, ctx) =>
      exists q :: 0 <= q < |t| && t[q] == '"' && Ahead(ctx, t[..q]) && InBody(units, esc, t[q + 1..])
    case Word(rest, word, ctx) =>
      rest != [] && exists q :: 0 <= q < |t| && Ahead(ctx, t[..q]) && IsText(word, t[q..] + rest)
    case Number(lexeme, part, ctx) =>
      exists q :: 0 <= q < |t| && Ahead(ctx, t[..q]) && t[q..] == lexeme && LexemePart(lexeme) == Some(part)
    case AfterItem(items, ctx) =>
      exists k :: 0 <= k < |t| && t[k] == '[' && Ahead(ctx, t[..k]) && Listed(items, t[k + 1..])
    case AfterMember(members, ctx) =>
      exists k :: 0 <= k < |t| && t[k] == '{' && Ahead(ctx, t[..k]) && MembersListed(members, t[k + 1..])
    case Done(v) => Padded(v, t)
  }

  lemma {:induction false} Split(t: string, c: char, k: nat)
    requires k < |t|
    ensures (t + [c])[..k] == t[..k] && (t + [c])[k] == t[k] && (t + [c])[k + 1..] == t[k + 1..] + [c]
  {
  }

  lemma {:induction false} BeforeItemSpace(items: seq<Value>, r: string, c: char)
    requires BeforeItem(items, r) && IsSpace(c)
    ensures BeforeItem(items, r + [c])
  {
    if items != [] {
      var q :| 0 <= q < |r| && r[q] == ',' && Listed(items, r[..q]) && Spaces(r[q + 1..]);
      Split(r, c, q);
    }
  }

  lemma {:induction false} BeforeMemberSpace(members: seq<Member>, r: string, c: char)
    requires BeforeMember(members, r) && IsSpace(c)
    ensures BeforeMember(members, r + [c])
  {
    if members != [] {
      var q :| 0 <= q < |r| && r[q] == ',' && MembersListed(members, r[..q]) && Spaces(r[q + 1..]);
      Split(r, c, q);
    }
  }

  lemma {:induction false} BeforeColonSpace(members: seq<Member>, key: seq<nat>, r: string, c: char)
    requires BeforeColon(members, key, r) && IsSpace(c)
    ensures BeforeColon(members, key, r + [c])
  {
    var i, j :| 0 <= i <= j <= |r| && ColonAt(members, key, r, i, j);
    var s := r + [c];
    assert s[..i] == r[..i] && s[i..j] == r[i..j] && s[j..] == r[j..] + [c];
    assert ColonAt(members, key, s, i, j);
  }

  lemma {:induction false} BeforeValueSpace(members: seq<Member>, key: seq<nat>, r: string, c: char)
    requires BeforeValue(members, key, r) && IsSpace(c)
    ensures BeforeValue(members, key, r + [c])
  {
    var p :| 0 <= p < |r| && r[p] == ':' && BeforeColon(members, key, r[..p]) && Spaces(r[p + 1..]);
    Split(r, c, p);
  }

  lemma {:induction false} AheadSpace(ctx: Ctx, t: string, c: char)
    requires Ahead(ctx, t) && IsSpace(c)
    ensures Ahead(ctx, t + [c])
  {
    match ctx
    case Top =>
    case Item(items, outer) =>
      var k :| 0 <= k < |t| && t[k] == '[' && Ahead(outer, t[..k]) && BeforeItem(items, t[k + 1..]);
      Split(t, c, k);
      BeforeItemSpace(items, t[k + 1..], c);
    case MemberOf(members, key, outer) =>
      var k :| 0 <= k < |t| && t[k] == '{' && Ahead(outer, t[..k]) && BeforeValue(members, key, t[k + 1..]);
      Split(t, c, k);
      BeforeValueSpace(members, key, t[k + 1..], c);
  }

  lemma {:induction false} PaddedSpace(v: Value, t: string, c: char)
    requires Padded(v, t) && IsSpace(c)
    ensures Padded(v, t + [c])
  {
    var i, j :| 0 <= i <= j <= |t| && PaddedAt(v, t, i, j);
    var s := t + [c];
    assert s[..i] == t[..i] && s[i..j] == t[i..j] && s[j..] == t[j..] + [c];
    assert PaddedAt(v, s, i, j);
  }

  lemma {:induction false} ListedSpace(items: seq<Value>, t: string, c: char)
    requires Listed(items, t) && IsSpace(c)
    ensures Listed(items, t + [c])
  {
    if |items| == 1 {
      PaddedSpace(items[0], t, c);
    } else {
      var k :| 0 <= k < |t| && ListedAt(items, t, k);
      Split(t, c, k);
      PaddedSpace(items[|items| - 1], t[k + 1..], c);
      assert ListedAt(items, t + [c], k);
    }
  }

  lemma {:induction false} MemberSpace(m: Member, t: string, c: char)
    requires IsMember(m, t) && IsSpace(c)
    ensures IsMember(m, t + [c])
  {
    var k :| 0 <= k < |t| && MemberAt(m, t, k);
    Split(t, c, k);
    PaddedSpace(m.value, t[k + 1..], c);
    assert MemberAt(m, t + [c], k);
  }

  lemma {:induction false} MembersListedSpace(members: seq<Member>, t: string, c: char)
    requires MembersListed(members, t) && IsSpace(c)
    ensures MembersListed(members, t + [c])
  {
    if |members| == 1 {
      MemberSpace(members[0], t, c);
    } else {
      var k :| 0 <= k < |t| && MembersListedAt(members, t, k);
      Split(t, c, k);
      MemberSpace(members[|members| - 1], t[k + 1..], c);
      assert MembersListedAt(members, t + [c], k);
    }
  }

  lemma {:induction false} PaddedBefore(v: Value, t: string, q: nat)
    requires q <= |t| && Spaces(t[..q]) && IsText(v, t[q..])
    ensures Padded(v, t)
  {
    hide IsText;
    assert t[q..|t|] == t[q..] && t[|t|..] == [];
    assert PaddedAt(v, t, q, |t|);
  }

  lemma {:induction false} OneMore(items: seq<Value>, v: Value, r: string, q: nat)
    requires q <= |r| && BeforeItem(items, r[..q]) && IsText(v, r[q..])
    ensures Listed(items + [v], r)
  {
    hide IsText, Spaces;
    assert (items + [v])[..|items|] == items && (items + [v])[|items|] == v;
    if items == [] {
      PaddedBefore(v, r, q);
    } else {
      var b := r[..q];
      var k :| 0 <= k < q && b[k] == ',' && Listed(items, b[..k]) && Spaces(b[k + 1..]);
      assert b[..k] == r[..k];
      var s, i := r[k + 1..], q - k - 1;
      assert s[..i] == b[k + 1..] && s[i..] == r[q..];
      PaddedBefore(v, s, i);
      assert ListedAt(items + [v], r, k);
    }
  }

  lemma {:induction false} ValueThere(key: seq<nat>, v: Value, r: string, i: nat, j: nat, p: nat, q: nat)
    requires i <= j <= p < q <= |r| && r[p] == ':'
    requires Spaces(r[..i]) && IsString(key, r[i..j]) && Spaces(r[j..p]) && Spaces(r[p + 1..q]) && IsText(v, r[q..])
    ensures IsMember(Member(key, v), r)
  {
    hide IsText, IsString;
    var b, s, m := r[..p], r[p + 1..], q - p - 1;
    assert b[..i] == r[..i] && b[i..j] == r[i..j] && b[j..] == r[j..p];
    assert KeyAt(key, b, i, j);
    assert s[..m] == r[p + 1..q] && s[m..] == r[q..];
    PaddedBefore(v, s, m);
    assert MemberAt(Member(key, v), r, p);
  }

  lemma {:induction false} WhereKeyIs(members: seq<Member>, key: seq<nat>, r: string) returns (i: nat, j: nat, p: nat)
    requires BeforeValue(members, key, r)
    ensures i <= j <= p < |r| && r[p] == ':' && BeforeMember(members, r[..i])
    ensures IsString(key, r[i..j]) && Spaces(r[j..p]) && Spaces(r[p + 1..])
  {
    hide BeforeMember, IsString, Spaces;
    p :| 0 <= p < |r| && r[p] == ':' && BeforeColon(members, key, r[..p]) && Spaces(r[p + 1..]);
    i, j :| 0 <= i <= j <= p && ColonAt(members, key, r[..p], i, j);
    assert r[..p][..i] == r[..i] && r[..p][i..j] == r[i..j] && r[..p][j..] == r[j..p];
  }

  lemma {:induction false} Within(r: string, q: nat, i: nat, j: nat)
    requires i <= j <= q <= |r|
    ensures r[..q][i..j] == r[i..j] && r[..q][..i] == r[..i] && r[..q][j..] == r[j..q]
  {
  }

  lemma {:induction false} Behind(r: string, d: nat, i: nat, j: nat)
    requires d <= i <= j <= |r|
    ensures r[d..][i - d..j - d] == r[i..j] && r[d..][..i - d] == r[d..i] && r[d..][j - d..] == r[j..]
  {
  }

  lemma {:induction false} OneMoreMember(members: seq<Member>, key: seq<nat>, v: Value, r: string, q: nat)
    requires q <= |r| && BeforeValue(members, key, r[..q]) && IsText(v, r[q..])
    ensures MembersListed(members + [Member(key, v)], r)
  {
    hide BeforeValue, IsText, IsString, Spaces, IsMember;
    var all := members + [Member(key, v)];
    assert all[..|members|] == members && all[|members|] == Member(key, v);
    var i, j, p := WhereKeyIs(members, key, r[..q]);
    Within(r, q, i, j);
    Within(r, q, j, p);
    Within(r, q, p + 1, q);
    if members == [] {
      ValueThere(key, v, r, i, j, p, q);
    } else {
      var k, d := LastCommaOf(members, r, i);
      Behind(r, d, i, j);
      Behind(r, d, j, p);
      Behind(r, d, p + 1, q);
      ValueThere(key, v, r[d..], i - d, j - d, p - d, q - d);
      assert MembersListedAt(all, r, k);
    }
  }

  lemma {:induction false} LastCommaOf(members: seq<Member>, r: string, i: nat) returns (k: nat, d: nat)
    requires members != [] && i <= |r| && BeforeMember(members, r[..i])
    ensures d == k + 1 <= i && r[k] == ',' && MembersListed(members, r[..k]) && Spaces(r[d..i])
  {
    hide MembersListed, Spaces;
    var b := r[..i];
    k :| 0 <= k < i && b[k] == ',' && MembersListed(members, b[..k]) && Spaces(b[k + 1..]);
    d := k + 1;
    Within(r, i, k, d);
    Within(r, i, d, d);
  }

  /** A value that is read where it was wanted. */
  lemma {:induction false} CompleteKeeps(ctx: Ctx, v: Value, t: string, q: nat)
    requires q <= |t| && Ahead(ctx, t[..q]) && IsText(v, t[q..])
    ensures ReadSoFar(Complete(ctx, v), t)
  {
    hide IsText, Spaces, BeforeItem, BeforeValue, Listed, MembersListed;
    var b := t[..q];
    match ctx
    case Top =>
      PaddedBefore(v, t, q);
    case Item(items, outer) =>
      var k :| 0 <= k < q && b[k] == '[' && Ahead(outer, b[..k]) && BeforeItem(items, b[k + 1..]);
      assert b[..k] == t[..k] && t[k + 1..][..q - k - 1] == b[k + 1..] && t[k + 1..][q - k - 1..] == t[q..];
      OneMore(items, v, t[k + 1..], q - k - 1);
    case MemberOf(members, key, outer) =>
      var k :| 0 <= k < q && b[k] == '{' && Ahead(outer, b[..k]) && BeforeValue(members, key, b[k + 1..]);
      assert b[..k] == t[..k] && t[k + 1..][..q - k - 1] == b[k + 1..] && t[k + 1..][q - k - 1..] == t[q..];
      OneMoreMember(members, key, v, t[k + 1..], q - k - 1);
  }

  /** The first character of a value. */
  lemma {:induction false} StartKeeps(ctx: Ctx, t: string, c: char)
    requires Ahead(ctx, t) && StartValue(ctx, c).Some?
    ensures ReadSoFar(StartValue(ctx, c).value, t + [c])
  {
    hide Ahead, IsNumber;
    var s, q := t + [c], |t|;
    assert s[..q] == t && s[q..] == [c] && s[q + 1..] == [];
    match c
    case '[' => AheadOpens(ctx, s);
    case 't' => assert [c] + "rue" == "true";
    case 'f' => assert [c] + "alse" == "false";
    case 'n' => assert [c] + "ull" == "null";
    case _ =>
  }

  lemma {:induction false} AheadOpens(ctx: Ctx, s: string)
    requires s != [] && s[|s| - 1] == '[' && Ahead(ctx, s[..|s| - 1])
    ensures Ahead(Item([], ctx), s)
  {
    assert s[|s| - 1 + 1..] == [];
  }

  lemma {:induction false} Inner(t: string, c: char, k: nat)
    requires k < |t|
    ensures
      var s := t + [c];
      s[..k] == t[..k] && |s[k..]| == |t| + 1 - k && s[k..][0] == t[k] && s[k..][|t| - k] == c
      && s[k..][1..|t| - k] == t[k + 1..]
  {
  }

  /** A closing bracket, and the value it completes. */
  lemma {:induction false} ArrayCloses(items: seq<Value>, ctx: Ctx, t: string, k: nat)
    requires k < |t| && t[k] == '[' && Ahead(ctx, t[..k])
    requires if items == [] then Spaces(t[k + 1..]) else Listed(items, t[k + 1..])
    ensures ReadSoFar(Complete(ctx, Arr(items)), t + [']'])
  {
    hide Ahead, Listed, Spaces;
    Inner(t, ']', k);
    CompleteKeeps(ctx, Arr(items), t + [']'], k);
  }

  lemma {:induction false} ObjectCloses(members: seq<Member>, ctx: Ctx, t: string, k: nat)
    requires k < |t| && t[k] == '{' && Ahead(ctx, t[..k])
    requires if members == [] then Spaces(t[k + 1..]) else MembersListed(members, t[k + 1..])
    ensures ReadSoFar(Complete(ctx, Obj(members)), t + ['}'])
  {
    hide Ahead, MembersListed, Spaces;
    Inner(t, '}', k);
    CompleteKeeps(ctx, Obj(members), t + ['}'], k);
  }

  lemma {:induction false} StringCloses(units: seq<nat>, t: string, q: nat)
    requires q < |t| && t[q] == '"' && IsBody(units, t[q + 1..])
    ensures IsString(units, t[q..] + ['"'])
  {
    hide IsBody;
    var s := t[q..] + ['"'];
    assert s[1..|s| - 1] == t[q + 1..];
  }

  /** One character behind a complete value. */
  lemma {:induction false} AfterKeeps(cfg: Config, t: string, c: char)
    requires cfg.AfterItem? || cfg.AfterMember? || cfg.Done?
    requires ReadSoFar(cfg, t) && AfterStep(cfg, c).Some?
    ensures ReadSoFar(AfterStep(cfg, c).value, t + [c])
  {
    hide Ahead, Listed, MembersListed, Padded;
    var s := t + [c];
    match cfg
    case AfterItem(items, ctx) =>
      var k :| 0 <= k < |t| && t[k] == '[' && Ahead(ctx, t[..k]) && Listed(items, t[k + 1..]);
      Split(t, c, k);
      ListedSome(items, t[k + 1..]);
      if IsSpace(c) { ListedSpace(items, t[k + 1..], c); }
      else if c == ',' { CommaBehind(items, ctx, t, k); }
      else { ArrayCloses(items, ctx, t, k); }
    case AfterMember(members, ctx) =>
      var k :| 0 <= k < |t| && t[k] == '{' && Ahead(ctx, t[..k]) && MembersListed(members, t[k + 1..]);
      Split(t, c, k);
      MembersListedSome(members, t[k + 1..]);
      if IsSpace(c) { MembersListedSpace(members, t[k + 1..], c); }
      else if c == ',' { MemberCommaBehind(members, ctx, t, k); }
      else { ObjectCloses(members, ctx, t, k); }
    case Done(v) => PaddedSpace(v, t, c);
  }

  lemma {:induction false} ListedSome(items: seq<Value>, t: string)
    requires Listed(items, t)
    ensures items != []
  {
  }

  lemma {:induction false} MembersListedSome(members: seq<Member>, t: string)
    requires MembersListed(members, t)
    ensures members != []
  {
  }

  lemma {:induction false} CommaBehind(items: seq<Value>, ctx: Ctx, t: string, k: nat)
    requires items != [] && k < |t| && t[k] == '[' && Ahead(ctx, t[..k]) && Listed(items, t[k + 1..])
    ensures Ahead(Item(items, ctx), t + [','])
  {
    hide Listed;
    Split(t, ',', k);
    var r, q := t[k + 1..] + [','], |t| - k - 1;
    assert r[..q] == t[k + 1..] && r[q + 1..] == [];
    assert BeforeItem(items, r);
  }

  lemma {:induction false} MemberCommaBehind(members: seq<Member>, ctx: Ctx, t: string, k: nat)
    requires members != [] && k < |t| && t[k] == '{' && Ahead(ctx, t[..k]) && MembersListed(members, t[k + 1..])
    ensures KeyAhead(members, ctx, t + [','])
  {
    hide MembersListed, Ahead;
    Split(t, ',', k);
    var r, q := t[k + 1..] + [','], |t| - k - 1;
    assert r[..q] == t[k + 1..] && r[q + 1..] == [];
    assert BeforeMember(members, r);
  }

  lemma {:induction false} KeyKeeps(members: seq<Member>, first: bool, ctx: Ctx, t: string, c: char)
    requires ReadSoFar(Key(members, first, ctx), t) && Step(Key(members, first, ctx), c).Some?
    ensures ReadSoFar(Step(Key(members, first, ctx), c).value, t + [c])
  {
    hide Ahead, BeforeMember, IsBody;
    var s, n := t + [c], |t|;
    var k :| 0 <= k < n && t[k] == '{' && Ahead(ctx, t[..k]) && BeforeMember(members, t[k + 1..]);
    Split(t, c, k);
    if IsSpace(c) {
      BeforeMemberSpace(members, t[k + 1..], c);
    } else if c == '"' {
      assert s[..n] == t && s[n + 1..] == [];
      BodyStarts();
      assert KeyAhead(members, ctx, s[..n]);
    } else {
      NoMember(t[k + 1..]);
      ObjectCloses([], ctx, t, k);
    }
  }

  lemma {:induction false} BodyStarts()
    ensures IsBody([], [])
  {
  }

  lemma {:induction false} NoMember(r: string)
    requires BeforeMember([], r)
    ensures Spaces(r)
  {
  }

  lemma {:induction false} KeyTextKeeps(members: seq<Member>, units: seq<nat>, esc: Escape, ctx: Ctx, t: string,
      c: char)
    requires ReadSoFar(KeyText(members, units, esc, ctx), t) && Step(KeyText(members, units, esc, ctx), c).Some?
    ensures ReadSoFar(Step(KeyText(members, units, esc, ctx), c).value, t + [c])
  {
    hide Ahead, BeforeMember, InBody, IsBody;
    var s := t + [c];
    var q :| 0 <= q < |t| && t[q] == '"' && KeyAhead(members, ctx, t[..q]) && InBody(units, esc, t[q + 1..]);
    Split(t, c, q);
    if StringStep(units, esc, c).More? {
      StringStepKeeps(units, esc, t[q + 1..], c);
      assert KeyAhead(members, ctx, s[..q]);
    } else {
      KeyEnds(members, units, ctx, t, q);
    }
  }

  lemma {:induction false} KeyEnds(members: seq<Member>, units: seq<nat>, ctx: Ctx, t: string, q: nat)
    requires q < |t| && t[q] == '"' && KeyAhead(members, ctx, t[..q]) && InBody(units, Plain, t[q + 1..])
    ensures ReadSoFar(Colon(members, units, ctx), t + ['"'])
  {
    hide Ahead, BeforeMember, IsBody, IsString, Spaces;
    var k := WhereObjectIs(members, ctx, t[..q]);
    StringCloses(units, t, q);
    var s := t + ['"'];
    KeyParts(t, '"', k, q);
    NoSpaces();
    assert ColonAt(members, units, s[k + 1..], q - k - 1, |s| - k - 1);
  }

  lemma {:induction false} WhereObjectIs(members: seq<Member>, ctx: Ctx, t: string) returns (k: nat)
    requires KeyAhead(members, ctx, t)
    ensures k < |t| && t[k] == '{' && Ahead(ctx, t[..k]) && BeforeMember(members, t[k + 1..])
  {
    hide Ahead, BeforeMember;
    k :| 0 <= k < |t| && t[k] == '{' && Ahead(ctx, t[..k]) && BeforeMember(members, t[k + 1..]);
  }

  lemma {:induction false} KeyParts(t: string, c: char, k: nat, q: nat)
    requires k < q < |t|
    ensures
      var s, b, i := t + [c], t[..q], q - k - 1;
      var r := s[k + 1..];
      && s[..k] == b[..k] && s[k] == b[k] && |r| == |s| - k - 1 && r[..i] == b[k + 1..]
      && r[i..|r|] == t[q..] + [c] && r[|r|..] == []
  {
  }

  lemma {:induction false} NoSpaces()
    ensures Spaces([])
  {
  }

  lemma {:induction false} ColonKeeps(members: seq<Member>, key: seq<nat>, ctx: Ctx, t: string, c: char)
    requires ReadSoFar(Colon(members, key, ctx), t) && Step(Colon(members, key, ctx), c).Some?
    ensures ReadSoFar(Step(Colon(members, key, ctx), c).value, t + [c])
  {
    hide BeforeColon, Spaces;
    var s := t + [c];
    var k :| 0 <= k < |t| && t[k] == '{' && Ahead(ctx, t[..k]) && BeforeColon(members, key, t[k + 1..]);
    Split(t, c, k);
    if IsSpace(c) {
      BeforeColonSpace(members, key, t[k + 1..], c);
    } else {
      var r, p := s[k + 1..], |t| - k - 1;
      NoSpaces();
      assert r[..p] == t[k + 1..] && r[p + 1..] == [];
      assert BeforeValue(members, key, r);
    }
  }

  lemma {:induction false} TextKeeps(units: seq<nat>, esc: Escape, ctx: Ctx, t: string, c: char)
    requires ReadSoFar(Text(units, esc, ctx), t) && Step(Text(units, esc, ctx), c).Some?
    ensures ReadSoFar(Step(Text(units, esc, ctx), c).value, t + [c])
  {
    hide Ahead, InBody, IsBody, IsString;
    var q :| 0 <= q < |t| && t[q] == '"' && Ahead(ctx, t[..q]) && InBody(units, esc, t[q + 1..]);
    Split(t, c, q);
    if StringStep(units, esc, c).More? {
      StringStepKeeps(units, esc, t[q + 1..], c);
    } else {
      TextEnds(units, ctx, t, q);
    }
  }

  lemma {:induction false} TextEnds(units: seq<nat>, ctx: Ctx, t: string, q: nat)
    requires q < |t| && t[q] == '"' && Ahead(ctx, t[..q]) && InBody(units, Plain, t[q + 1..])
    ensures ReadSoFar(Complete(ctx, Str(units)), t + ['"'])
  {
    hide Ahead, IsBody, IsString;
    StringCloses(units, t, q);
    assert (t + ['"'])[q..] == t[q..] + ['"'] && (t + ['"'])[..q] == t[..q];
    CompleteKeeps(ctx, Str(units), t + ['"'], q);
  }

  lemma {:induction false} WordKeeps(rest: string, word: Value, ctx: Ctx, t: string, c: char)
    requires ReadSoFar(Word(rest, word, ctx), t) && Step(Word(rest, word, ctx), c).Some?
    ensures ReadSoFar(Step(Word(rest, word, ctx), c).value, t + [c])
  {
    hide Ahead, IsText;
    var q :| 0 <= q < |t| && Ahead(ctx, t[..q]) && IsText(word, t[q..] + rest);
    var s := t + [c];
    assert s[..q] == t[..q] && s[q..] + rest[1..] == t[q..] + rest;
    if |rest| == 1 {
      assert s[q..] + rest[1..] == s[q..];
      CompleteKeeps(ctx, word, s, q);
    }
  }

  lemma {:induction false} NumberKeeps(lexeme: string, part: NumberPart, ctx: Ctx, t: string, c: char)
    requires ReadSoFar(Number(lexeme, part, ctx), t) && Step(Number(lexeme, part, ctx), c).Some?
    ensures ReadSoFar(Step(Number(lexeme, part, ctx), c).value, t + [c])
  {
    hide Ahead, IsNumber, ReadSoFar;
    var q := WhereNumberIs(lexeme, part, ctx, t);
    if NumberStep(part, c).Some? {
      NumberGoesOn(lexeme, part, ctx, t, c, q);
    } else {
      NumberIff(lexeme);
      CompleteKeeps(ctx, Num(lexeme), t, q);
      AfterKeeps(Complete(ctx, Num(lexeme)), t, c);
    }
  }

  lemma {:induction false} WhereNumberIs(lexeme: string, part: NumberPart, ctx: Ctx, t: string) returns (q: nat)
    requires ReadSoFar(Number(lexeme, part, ctx), t)
    ensures q < |t| && Ahead(ctx, t[..q]) && t[q..] == lexeme && LexemePart(lexeme) == Some(part)
  {
    hide Ahead, LexemePart;
    q :| 0 <= q < |t| && Ahead(ctx, t[..q]) && t[q..] == lexeme && LexemePart(lexeme) == Some(part);
  }

  lemma {:induction false} NumberGoesOn(lexeme: string, part: NumberPart, ctx: Ctx, t: string, c: char, q: nat)
    requires q < |t| && Ahead(ctx, t[..q]) && t[q..] == lexeme && LexemePart(lexeme) == Some(part)
    requires NumberStep(part, c).Some?
    ensures ReadSoFar(Number(lexeme + [c], NumberStep(part, c).value, ctx), t + [c])
  {
    hide Ahead;
    assert (t + [c])[..q] == t[..q] && (t + [c])[q..] == lexeme + [c];
    assert (lexeme + [c])[..|lexeme|] == lexeme;
  }

  lemma {:induction false} ArrayStartKeeps(ctx: Ctx, t: string, c: char)
    requires ReadSoFar(ArrayStart(ctx), t) && Step(ArrayStart(ctx), c).Some?
    ensures ReadSoFar(Step(ArrayStart(ctx), c).value, t + [c])
  {
    if IsSpace(c) {
      AheadSpace(Item([], ctx), t, c);
    } else if c == ']' {
      var k :| 0 <= k < |t| && t[k] == '[' && Ahead(ctx, t[..k]) && BeforeItem([], t[k + 1..]);
      ArrayCloses([], ctx, t, k);
    } else {
      StartKeeps(Item([], ctx), t, c);
    }
  }

  lemma {:induction false} StepKeeps(cfg: Config, t: string, c: char)
    requires ReadSoFar(cfg, t) && Step(cfg, c).Some?
    ensures ReadSoFar(Step(cfg, c).value, t + [c])
  {
    match cfg
    case Want(ctx) => if IsSpace(c) { AheadSpace(ctx, t, c); } else { StartKeeps(ctx, t, c); }
    case ArrayStart(ctx) => ArrayStartKeeps(ctx, t, c);
    case Key(members, first, ctx) => KeyKeeps(members, first, ctx, t, c);
    case KeyText(members, units, esc, ctx) => KeyTextKeeps(members, units, esc, ctx, t, c);
    case Colon(members, key, ctx) => ColonKeeps(members, key, ctx, t, c);
    case Text(units, esc, ctx) => TextKeeps(units, esc, ctx, t, c);
    case Word(rest, word, ctx) => WordKeeps(rest, word, ctx, t, c);
    case Number(lexeme, part, ctx) => NumberKeeps(lexeme, part, ctx, t, c);
    case _ => AfterKeeps(cfg, t, c);
  }

  lemma {:induction false} RunKeeps(text: string)
    requires Run(Want(Top), text).Some?
    ensures ReadSoFar(Run(Want(Top), text).value, text)
    decreases |text|
  {
    hide ReadSoFar, Step;
    if text == [] {
      NothingRead();
    } else {
      var n := |text| - 1;
      RunKeeps(text[..n]);
      StepKeeps(Run(Want(Top), text[..n]).value, text[..n], text[n]);
      assert text[..n] + [text[n]] == text;
    }
  }

  lemma {:induction false} NothingRead()
    ensures ReadSoFar(Want(Top), [])
  {
  }

  lemma {:induction false} AcceptedIsPadded(text: string, v: Value)
    requires Parse(text) == Some(v)
    ensures Padded(v, text)
  {
    hide Ahead, Padded, IsNumber;
    RunKeeps(text);
    var cfg := Run(Want(Top), text).value;
    if cfg.Number? {
      var q := WhereNumberIs(cfg.lexeme, cfg.part, Top, text);
      NumberIff(cfg.lexeme);
      CompleteKeeps(Top, v, text, q);
    }
  }

  // ---------------------------------------------------------------------------
  // The reader accepts what is in the grammar
  // ---------------------------------------------------------------------------

  /** What is left of a state when the next character ends the value being read. */
  function Settle(cfg: Config): Config {
    if cfg.Number? && WholeNumber(cfg.part) then Complete(cfg.ctx, Num(cfg.lexeme)) else cfg
  }

  /** A text takes the reader from one state to another, but for a number it may not have finished. */
  ghost predicate Leads(cfg: Config, text: string, next: Config) {
    match Run(cfg, text)
    case None => false
    case Some(last) => Settle(last) == next
  }

  predicate Whole(cfg: Config) {
    cfg.AfterItem? || cfg.AfterMember? || cfg.Done?
  }

  lemma {:induction false} RunFirst(cfg: Config, c: char, rest: string)
    requires Step(cfg, c).Some?
    ensures Run(cfg, [c] + rest) == Run(Step(cfg, c).value, rest)
  {
    RunConcat(cfg, [c], rest);
    assert [c][..0] == [];
  }

  lemma {:induction false} SpacesRun(cfg: Config, t: string)
    requires Spaces(t) && (Whole(cfg) || cfg.Want? || cfg.ArrayStart? || cfg.Key? || cfg.Colon?)
    ensures Run(cfg, t) == Some(cfg)
    decreases |t|
  {
    if t != [] { SpacesRun(cfg, t[..|t| - 1]); }
  }

  lemma {:induction false} SettledStep(cfg: Config, c: char)
    requires c == ',' || c == ']' || c == '}' || IsSpace(c)
    ensures Step(Settle(cfg), c) == Step(cfg, c)
  {
  }

  /** White space behind a value. */
  lemma {:induction false} SpacesBehind(cfg: Config, t: string, j: nat, next: Config)
    requires j <= |t| && Leads(cfg, t[..j], next) && Whole(next) && Spaces(t[j..])
    ensures Leads(cfg, t, next)
  {
    hide Step;
    RunConcat(cfg, t[..j], t[j..]);
    assert t[..j] + t[j..] == t;
    if j < |t| {
      var last, rest := Run(cfg, t[..j]).value, t[j + 1..];
      assert t[j..] == [t[j]] + rest;
      assert IsSpace(t[j..][0]);
      SettledStep(last, t[j]);
      SpaceStays(next, t[j]);
      RunFirst(last, t[j], rest);
      assert Spaces(rest) by { assert forall i :: 0 <= i < |rest| ==> rest[i] == t[j..][i + 1]; }
      SpacesRun(next, rest);
    }
  }

  lemma {:induction false} SpaceStays(cfg: Config, c: char)
    requires Whole(cfg) && IsSpace(c)
    ensures Step(cfg, c) == Some(cfg) && Settle(cfg) == cfg
  {
  }

  /** A delimiter behind a value, and what follows it. */
  lemma {:induction false} DelimiterBehind(cfg: Config, t: string, k: nat, mid: Config)
    requires k < |t| && Leads(cfg, t[..k], mid) && (t[k] == ',' || t[k] == ']' || t[k] == '}')
    requires Step(mid, t[k]).Some?
    ensures Run(cfg, t) == Run(Step(mid, t[k]).value, t[k + 1..])
  {
    hide Step;
    var last := Run(cfg, t[..k]).value;
    SettledStep(last, t[k]);
    RunConcat(cfg, t[..k], t[k..]);
    RunFirst(last, t[k], t[k + 1..]);
    assert t[..k] + t[k..] == t && [t[k]] + t[k + 1..] == t[k..];
  }

  lemma {:induction false} WordReads(word: string, v: Value, ctx: Ctx)
    requires
      || (word == "null" && v == Null)
      || (word == "true" && v == Bool(true))
      || (word == "false" && v == Bool(false))
    ensures Run(Want(ctx), word) == Some(Complete(ctx, v))
  {
    RunFirst(Want(ctx), word[0], word[1..]);
    assert word == [word[0]] + word[1..];
    WordRuns(word[1..], v, ctx);
  }

  lemma {:induction false} WordRuns(rest: string, word: Value, ctx: Ctx)
    requires rest != [] && forall i :: 0 <= i < |rest| ==> 'a' <= rest[i] <= 'z'
    ensures Run(Word(rest, word, ctx), rest) == Some(Complete(ctx, word))
  {
    assert rest == [rest[0]] + rest[1..];
    RunFirst(Word(rest, word, ctx), rest[0], rest[1..]);
    if |rest| > 1 { WordRuns(rest[1..], word, ctx); }
  }

  lemma {:induction false} LexemeRuns(ctx: Ctx, lexeme: string)
    requires LexemePart(lexeme).Some?
    ensures Run(Want(ctx), lexeme) == Some(Number(lexeme, LexemePart(lexeme).value, ctx))
    decreases |lexeme|
  {
    var n := |lexeme| - 1;
    if n == 0 {
      assert lexeme[..0] == [] && lexeme == [lexeme[0]];
    } else {
      LexemeRuns(ctx, lexeme[..n]);
      assert lexeme[..n] + [lexeme[n]] == lexeme;
    }
  }

  lemma {:induction false} Quoted(t: string)
    requires |t| >= 2 && t[0] == '"' && t[|t| - 1] == '"'
    ensures t == ['"'] + (t[1..|t| - 1] + ['"'])
  {
  }

  lemma {:induction false} StringReads(units: seq<nat>, t: string, ctx: Ctx)
    requires IsString(units, t)
    ensures Run(Want(ctx), t) == Some(Complete(ctx, Str(units)))
  {
    hide IsBody, Run;
    var body := t[1..|t| - 1];
    BodyReads(units, body);
    Quoted(t);
    RunFirst(Want(ctx), '"', body + ['"']);
    TextRuns(ctx, body);
    RunConcat(Text([], Plain, ctx), body, ['"']);
    RunOne(Text(units, Plain, ctx), '"');
  }

  lemma {:induction false} KeyStringReads(members: seq<Member>, first: bool, ctx: Ctx, units: seq<nat>, t: string)
    requires IsString(units, t)
    ensures Run(Key(members, first, ctx), t) == Some(Colon(members, units, ctx))
  {
    hide IsBody, Run;
    var body := t[1..|t| - 1];
    BodyReads(units, body);
    Quoted(t);
    RunFirst(Key(members, first, ctx), '"', body + ['"']);
    KeyTextRuns(members, ctx, body);
    RunConcat(KeyText(members, [], Plain, ctx), body, ['"']);
    RunOne(KeyText(members, units, Plain, ctx), '"');
  }

  lemma {:induction false} PaddedKeyReads(members: seq<Member>, first: bool, ctx: Ctx, key: seq<nat>, t: string)
    requires PaddedKey(key, t)
    ensures Run(Key(members, first, ctx), t) == Some(Colon(members, key, ctx))
  {
    hide IsString, Step, Run;
    var i, j :| 0 <= i <= j <= |t| && KeyAt(key, t, i, j);
    SpacesRun(Key(members, first, ctx), t[..i]);
    KeyStringReads(members, first, ctx, key, t[i..j]);
    SpacesRun(Colon(members, key, ctx), t[j..]);
    RunConcat(Key(members, first, ctx), t[..i], t[i..]);
    RunConcat(Key(members, first, ctx), t[i..j], t[j..]);
    assert t[..i] + t[i..] == t && t[i..j] + t[j..] == t[i..];
  }

  lemma {:induction false} TextReads(v: Value, t: string, ctx: Ctx)
    requires IsText(v, t)
    ensures Leads(Want(ctx), t, Complete(ctx, v))
    decreases |t|, 0
  {
    hide Run, Step, Listed, MembersListed, IsString, IsNumber, Spaces;
    match v
    case Null => WordReads("null", v, ctx); CompleteSettles(ctx, v);
    case Bool(b) => WordReads(t, v, ctx); CompleteSettles(ctx, v);
    case Num(lexeme) => NumberIff(t); LexemeRuns(ctx, t);
    case Str(units) => StringReads(units, t, ctx); CompleteSettles(ctx, v);
    case Arr(items) =>
      if items != [] { ListedReads(items, t[1..|t| - 1], ctx); }
      ArrayReads(items, t, ctx);
    case Obj(members) =>
      if members != [] { MembersListedReads(members, t[1..|t| - 1], ctx); }
      ObjectReads(members, t, ctx);
  }

  lemma {:induction false} CompleteSettles(ctx: Ctx, v: Value)
    ensures Settle(Complete(ctx, v)) == Complete(ctx, v) && Whole(Complete(ctx, v))
  {
  }

  lemma {:induction false} PaddedReads(v: Value, t: string, ctx: Ctx)
    requires Padded(v, t)
    ensures Leads(Want(ctx), t, Complete(ctx, v))
    decreases |t|, 2
  {
    hide Run, Step, IsText, Spaces;
    var i, j :| 0 <= i <= j <= |t| && PaddedAt(v, t, i, j);
    TextReads(v, t[i..j], ctx);
    SpacesRun(Want(ctx), t[..i]);
    RunConcat(Want(ctx), t[..i], t[i..j]);
    assert t[..i] + t[i..j] == t[..j];
    CompleteSettles(ctx, v);
    SpacesBehind(Want(ctx), t, j, Complete(ctx, v));
  }

  lemma {:induction false} ListedReads(items: seq<Value>, t: string, ctx: Ctx)
    requires Listed(items, t)
    ensures Leads(Want(Item([], ctx)), t, AfterItem(items, ctx))
    decreases |t|, 4
  {
    hide Run, Padded;
    if |items| == 1 {
      PaddedReads(items[0], t, Item([], ctx));
      assert [] + [items[0]] == items;
    } else {
      var n := |items| - 1;
      var k :| 0 <= k < |t| && ListedAt(items, t, k);
      ListedReads(items[..n], t[..k], ctx);
      PaddedReads(items[n], t[k + 1..], Item(items[..n], ctx));
      DelimiterBehind(Want(Item([], ctx)), t, k, AfterItem(items[..n], ctx));
      assert items[..n] + [items[n]] == items;
    }
  }

  lemma {:induction false} MemberReads(m: Member, t: string, before: seq<Member>, first: bool, ctx: Ctx)
    requires IsMember(m, t)
    ensures Leads(Key(before, first, ctx), t, AfterMember(before + [m], ctx))
    decreases |t|, 4
  {
    hide Run, Padded;
    var k :| 0 <= k < |t| && MemberAt(m, t, k);
    PaddedKeyReads(before, first, ctx, m.key, t[..k]);
    PaddedReads(m.value, t[k + 1..], MemberOf(before, m.key, ctx));
    RunConcat(Key(before, first, ctx), t[..k], t[k..]);
    RunFirst(Colon(before, m.key, ctx), ':', t[k + 1..]);
    assert t[..k] + t[k..] == t && [t[k]] + t[k + 1..] == t[k..];
  }

  lemma {:induction false} MembersListedReads(members: seq<Member>, t: string, ctx: Ctx)
    requires MembersListed(members, t)
    ensures Leads(Key([], true, ctx), t, AfterMember(members, ctx))
    decreases |t|, 6
  {
    hide Run, IsMember;
    if |members| == 1 {
      MemberReads(members[0], t, [], true, ctx);
      assert [] + [members[0]] == members;
    } else {
      var n := |members| - 1;
      var k :| 0 <= k < |t| && MembersListedAt(members, t, k);
      MembersListedReads(members[..n], t[..k], ctx);
      MemberReads(members[n], t[k + 1..], members[..n], false, ctx);
      DelimiterBehind(Key([], true, ctx), t, k, AfterMember(members[..n], ctx));
      assert members[..n] + [members[n]] == members;
    }
  }

  lemma {:induction false} ArrayReads(items: seq<Value>, t: string, ctx: Ctx)
    requires IsText(Arr(items), t)
    requires items != [] ==> Leads(Want(Item([], ctx)), t[1..|t| - 1], AfterItem(items, ctx))
    ensures Leads(Want(ctx), t, Complete(ctx, Arr(items)))
  {
    hide Run, Listed;
    var n := |t| - 1;
    var inner, rest := t[1..n], t[1..];
    assert t == ['['] + rest && rest[..n - 1] == inner && rest[n - 1] == ']' && rest[n..] == [];
    RunFirst(Want(ctx), '[', rest);
    CompleteSettles(ctx, Arr(items));
    RunNothing(Complete(ctx, Arr(items)));
    if items == [] {
      SpacesRun(ArrayStart(ctx), inner);
      DelimiterBehind(ArrayStart(ctx), rest, n - 1, ArrayStart(ctx));
    } else {
      ArrayStartSame(items, inner, ctx);
      DelimiterBehind(ArrayStart(ctx), rest, n - 1, AfterItem(items, ctx));
    }
  }

  lemma {:induction false} RunNothing(cfg: Config)
    ensures Run(cfg, []) == Some(cfg)
  {
  }

  lemma {:induction false} ObjectReads(members: seq<Member>, t: string, ctx: Ctx)
    requires IsText(Obj(members), t)
    requires members != [] ==> Leads(Key([], true, ctx), t[1..|t| - 1], AfterMember(members, ctx))
    ensures Leads(Want(ctx), t, Complete(ctx, Obj(members)))
  {
    hide Run, MembersListed;
    var n := |t| - 1;
    var inner, rest := t[1..n], t[1..];
    assert t == ['{'] + rest && rest[..n - 1] == inner && rest[n - 1] == '}' && rest[n..] == [];
    RunFirst(Want(ctx), '{', rest);
    CompleteSettles(ctx, Obj(members));
    RunNothing(Complete(ctx, Obj(members)));
    if members == [] {
      SpacesRun(Key([], true, ctx), inner);
      DelimiterBehind(Key([], true, ctx), rest, n - 1, Key([], true, ctx));
    } else {
      DelimiterBehind(Key([], true, ctx), rest, n - 1, AfterMember(members, ctx));
    }
  }

  /** A list of values begins, behind white space, like a value. */
  lemma {:induction false} ListedStarts(items: seq<Value>, t: string) returns (i: nat)
    requires Listed(items, t)
    ensures i < |t| && Spaces(t[..i]) && !IsSpace(t[i]) && t[i] != ']'
    decreases |t|
  {
    hide Padded;
    if |items| == 1 {
      i := PaddedStarts(items[0], t);
    } else {
      var k :| 0 <= k < |t| && ListedAt(items, t, k);
      i := ListedStarts(items[..|items| - 1], t[..k]);
      assert t[..k][..i] == t[..i];
    }
  }

  lemma {:induction false} PaddedStarts(v: Value, t: string) returns (i: nat)
    requires Padded(v, t)
    ensures i < |t| && Spaces(t[..i]) && !IsSpace(t[i]) && t[i] != ']'
  {
    hide IsText;
    var j;
    i, j :| 0 <= i <= j <= |t| && PaddedAt(v, t, i, j);
    TextStarts(v, t[i..j]);
  }

  lemma {:induction false} TextStarts(v: Value, t: string)
    requires IsText(v, t)
    ensures t != [] && !IsSpace(t[0]) && t[0] != ']'
  {
    if v.Num? {
      NumberIff(t);
      LexemeFirst(t);
    }
  }

  lemma {:induction false} LexemeFirst(lexeme: string)
    requires LexemePart(lexeme).Some?
    ensures lexeme[0] == '-' || IsDigit(lexeme[0])
    decreases |lexeme|
  {
    if |lexeme| > 1 { LexemeFirst(lexeme[..|lexeme| - 1]); }
  }

  lemma {:induction false} ArrayStartSame(items: seq<Value>, t: string, ctx: Ctx)
    requires Listed(items, t)
    ensures Run(ArrayStart(ctx), t) == Run(Want(Item([], ctx)), t)
  {
    hide Run, Listed;
    var i := ListedStarts(items, t);
    var a, b, c, rest := ArrayStart(ctx), Want(Item([], ctx)), t[i], t[i + 1..];
    SpacesRun(a, t[..i]);
    SpacesRun(b, t[..i]);
    RunConcat(a, t[..i], t[i..]);
    RunConcat(b, t[..i], t[i..]);
    assert t[..i] + t[i..] == t && [c] + rest == t[i..];
    RunConcat(a, [c], rest);
    RunConcat(b, [c], rest);
    RunOne(a, c);
    RunOne(b, c);
  }

  lemma {:induction false} RunOne(cfg: Config, c: char)
    ensures Run(cfg, [c]) == Step(cfg, c)
  {
    assert [c][..0] == [];
  }

  /** The reader accepts exactly the texts of the grammar, each as the value it is a text of. */
  lemma {:induction false} ParsesIff(text: string, v: Value)
    ensures Parse(text) == Some(v) <==> Padded(v, text)
  {
    hide Run, Padded;
    if Parse(text) == Some(v) { AcceptedIsPadded(text, v); }
    if Padded(v, text) {
      PaddedReads(v, text, Top);
      assert Settle(Run(Want(Top), text).value) == Done(v);
    }
  }
}
