/**
 What the repair of a cut-off JSON object returns, for every object and every cut.

 `Floor` reads off a machine state the value that is certain so far. It only grows as
 more text is read, so the floor at the cut is a structural prefix of the whole value;
 the repaired text parses to exactly that floor.
 */
module ExtractProofs {
  import opened Wrappers
  import opened Json
  import opened Extract

  /** `w` is `v` with the end of its rightmost path cut off, everything else intact. */
  ghost predicate Cut(w: Value, v: Value)
    decreases w
  {
    || w == v
    || (w.Str? && v.Str? && w.units <= v.units)
    || (w.Num? && v.Num? && w.lexeme <= v.lexeme)
    || (w.Arr? && v.Arr? && |w.items| <= |v.items| &&
        (w.items != [] ==>
           var n := |w.items| - 1;
           w.items[..n] == v.items[..n] && Cut(w.items[n], v.items[n])))
    || (w.Obj? && v.Obj? && |w.members| <= |v.members| &&
        (w.members != [] ==>
           var n := |w.members| - 1;
           w.members[..n] == v.members[..n] && w.members[n].key == v.members[n].key
           && Cut(w.members[n].value, v.members[n].value)))
  }

  /** The value around a place, once that place holds `v` and everything is closed. */
  function Plug(ctx: Ctx, v: Value): Value {
    match ctx
    case Top => v
    case Item(items, outer) => Plug(outer, Arr(items + [v]))
    case MemberOf(members, key, outer) => Plug(outer, Obj(members + [Member(key, v)]))
  }

  /** The same with the place left out; nothing at all at the top. */
  function Around(ctx: Ctx): Option<Value> {
    match ctx
    case Top => None
    case Item(items, outer) => Some(Plug(outer, Arr(items)))
    case MemberOf(members, key, outer) => Some(Plug(outer, Obj(members)))
  }

  /** The value that the text read so far settles. */
  function Floor(cfg: Config): Option<Value> {
    match cfg
    case Want(ctx) => Around(ctx)
    case ArrayStart(ctx) => Some(Plug(ctx, Arr([])))
    case Key(members, _, ctx) => Some(Plug(ctx, Obj(members)))
    case KeyText(members, _, _, ctx) => Some(Plug(ctx, Obj(members)))
    case Colon(members, _, ctx) => Some(Plug(ctx, Obj(members)))
    case Text(units, _, ctx) => Some(Plug(ctx, Str(units)))
    case Word(_, _, ctx) => Around(ctx)
    case Number(lexeme, _, ctx) => Some(Plug(ctx, Num(lexeme)))
    case AfterItem(items, ctx) => Some(Plug(ctx, Arr(items)))
    case AfterMember(members, ctx) => Some(Plug(ctx, Obj(members)))
    case Done(v) => Some(v)
  }

  ghost predicate Grows(a: Option<Value>, b: Option<Value>) {
    a.None? || (b.Some? && Cut(a.value, b.value))
  }

  lemma {:induction false} CutTransitive(a: Value, b: Value, c: Value)
    requires Cut(a, b) && Cut(b, c)
    ensures Cut(a, c)
    decreases a
  {
    if a == b || b == c {
    } else if a.Arr? {
      var n := |a.items| - 1;
      if n >= 0 {
        assert a.items[..n] == b.items[..n] == c.items[..n];
        if |a.items| == |b.items| { CutTransitive(a.items[n], b.items[n], c.items[n]); }
        else { assert b.items[..|b.items| - 1][n] == c.items[..|b.items| - 1][n]; }
      }
    } else if a.Obj? {
      var n := |a.members| - 1;
      if n >= 0 {
        assert a.members[..n] == b.members[..n] == c.members[..n];
        if |a.members| == |b.members| { CutTransitive(a.members[n].value, b.members[n].value, c.members[n].value); }
        else { assert b.members[..|b.members| - 1][n] == c.members[..|b.members| - 1][n]; }
      }
    }
  }

  lemma {:induction false} PlugGrows(ctx: Ctx, a: Value, b: Value)
    requires Cut(a, b)
    ensures Cut(Plug(ctx, a), Plug(ctx, b))
    decreases ctx
  {
    match ctx
    case Top =>
    case Item(items, outer) =>
      var n := |items|;
      assert (items + [a])[..n] == (items + [b])[..n];
      PlugGrows(outer, Arr(items + [a]), Arr(items + [b]));
    case MemberOf(members, key, outer) =>
      var n := |members|;
      assert (members + [Member(key, a)])[..n] == (members + [Member(key, b)])[..n];
      PlugGrows(outer, Obj(members + [Member(key, a)]), Obj(members + [Member(key, b)]));
  }

  lemma {:induction false} AroundGrows(ctx: Ctx, v: Value)
    ensures Grows(Around(ctx), Some(Plug(ctx, v)))
  {
    match ctx
    case Top =>
    case Item(items, outer) =>
      var n := |items| - 1;
      assert n >= 0 ==> items[..n] == (items + [v])[..n];
      PlugGrows(outer, Arr(items), Arr(items + [v]));
    case MemberOf(members, key, outer) =>
      var n := |members| - 1;
      assert n >= 0 ==> members[..n] == (members + [Member(key, v)])[..n];
      PlugGrows(outer, Obj(members), Obj(members + [Member(key, v)]));
  }

  lemma {:induction false} CompleteFloor(ctx: Ctx, v: Value)
    ensures Floor(Complete(ctx, v)) == Some(Plug(ctx, v))
  {
  }

  /** Commas, closers and white space settle nothing new. */
  lemma {:induction false} AfterFloor(cfg: Config, c: char)
    requires (cfg.AfterItem? || cfg.AfterMember? || cfg.Done?) && AfterStep(cfg, c).Some?
    ensures Floor(AfterStep(cfg, c).value) == Floor(cfg)
  {
    match cfg
    case AfterItem(items, ctx) => CompleteFloor(ctx, Arr(items));
    case AfterMember(members, ctx) => CompleteFloor(ctx, Obj(members));
    case Done(_) =>
  }

  lemma {:induction false} StepGrows(cfg: Config, c: char)
    requires Step(cfg, c).Some?
    ensures Grows(Floor(cfg), Floor(Step(cfg, c).value))
  {
    match cfg
    case Want(ctx) => if !IsSpace(c) { StartGrows(ctx, c); }
    case ArrayStart(ctx) =>
      if !IsSpace(c) && c != ']' { StartGrows(Item([], ctx), c); }
    case Text(units, esc, ctx) =>
      match StringStep(units, esc, c) {
        case More(units', _) => PlugGrows(ctx, Str(units), Str(units'));
        case _ =>
      }
    case Word(_, word, ctx) => AroundGrows(ctx, word);
    case Number(lexeme, part, ctx) =>
      PlugGrows(ctx, Num(lexeme), Num(lexeme + [c]));
      if NumberStep(part, c).None? {
        CompleteFloor(ctx, Num(lexeme));
        AfterFloor(Complete(ctx, Num(lexeme)), c);
      }
    case AfterItem(_, _) => AfterFloor(cfg, c);
    case AfterMember(_, _) => AfterFloor(cfg, c);
    case _ =>
  }

  lemma {:induction false} StartGrows(ctx: Ctx, c: char)
    requires !IsSpace(c) && StartValue(ctx, c).Some?
    ensures Grows(Around(ctx), Floor(StartValue(ctx, c).value))
  {
    match StartValue(ctx, c).value
    case Key(_, _, _) => AroundGrows(ctx, Obj([]));
    case ArrayStart(_) => AroundGrows(ctx, Arr([]));
    case Text(_, _, _) => AroundGrows(ctx, Str([]));
    case Number(lexeme, _, _) => AroundGrows(ctx, Num(lexeme));
    case _ =>
  }

  /** The settled value only grows while more text is read. */
  lemma {:induction false} RunGrows(cfg: Config, text: string)
    requires Run(cfg, text).Some?
    ensures Grows(Floor(cfg), Floor(Run(cfg, text).value))
  {
    if text != [] {
      var n := |text| - 1;
      RunGrows(cfg, text[..n]);
      var mid := Run(cfg, text[..n]).value;
      StepGrows(mid, text[n]);
      if Floor(cfg).Some? {
        CutTransitive(Floor(cfg).value, Floor(mid).value, Floor(Run(cfg, text).value).value);
      }
    }
  }

  // ---------------------------------------------------------------------------
  // The scanner of the source against the reference machine
  // ---------------------------------------------------------------------------

  function Brackets(ctx: Ctx): string {
    match ctx
    case Top => []
    case Item(_, outer) => Brackets(outer) + ['[']
    case MemberOf(_, _, outer) => Brackets(outer) + ['{']
  }

  /** The containers open in a machine state, outermost first. */
  function Open(cfg: Config): string {
    match cfg
    case Want(ctx) => Brackets(ctx)
    case ArrayStart(ctx) => Brackets(ctx) + ['[']
    case Key(_, _, ctx) => Brackets(ctx) + ['{']
    case KeyText(_, _, _, ctx) => Brackets(ctx) + ['{']
    case Colon(_, _, ctx) => Brackets(ctx) + ['{']
    case Text(_, _, ctx) => Brackets(ctx)
    case Word(_, _, ctx) => Brackets(ctx)
    case Number(_, _, ctx) => Brackets(ctx)
    case AfterItem(_, ctx) => Brackets(ctx) + ['[']
    case AfterMember(_, ctx) => Brackets(ctx) + ['{']
    case Done(_) => []
  }

  predicate InText(cfg: Config) {
    cfg.Text? || cfg.KeyText?
  }

  ghost predicate Agrees(s: Scanner, cfg: Config) {
    && s.inString == InText(cfg)
    && s.escaped == (InText(cfg) && cfg.esc == Backslash)
    && s.stack == Open(cfg)
  }

  lemma {:induction false} CompleteOpen(ctx: Ctx, v: Value)
    ensures Open(Complete(ctx, v)) == Brackets(ctx) && !InText(Complete(ctx, v))
  {
  }

  lemma {:induction false} StartAgrees(s: Scanner, ctx: Ctx, c: char, index: nat)
    requires s.inString == false && s.escaped == false && s.stack == Brackets(ctx)
    requires StartValue(ctx, c).Some?
    ensures Agrees(ScanStep(s, c, index), StartValue(ctx, c).value)
  {
  }

  lemma {:induction false} StringAgrees(s: Scanner, units: seq<nat>, esc: Escape, c: char, index: nat)
    requires s.inString && s.escaped == (esc == Backslash) && !StringStep(units, esc, c).Reject?
    ensures
      var next := ScanStep(s, c, index);
      && next.inString == !StringStep(units, esc, c).Close?
      && next.escaped == (StringStep(units, esc, c).More? && StringStep(units, esc, c).esc == Backslash)
      && next.stack == s.stack && next.lastComma == s.lastComma
  {
  }

  lemma {:induction false} StepAgrees(s: Scanner, cfg: Config, c: char, index: nat)
    requires Agrees(s, cfg) && Step(cfg, c).Some?
    ensures Agrees(ScanStep(s, c, index), Step(cfg, c).value)
  {
    match cfg
    case Want(ctx) => if !IsSpace(c) { StartAgrees(s, ctx, c, index); }
    case ArrayStart(ctx) =>
      CompleteOpen(ctx, Arr([]));
      if !IsSpace(c) && c != ']' { StartAgrees(s, Item([], ctx), c, index); }
    case Key(members, _, ctx) => CompleteOpen(ctx, Obj(members));
    case KeyText(_, units, esc, _) => StringAgrees(s, units, esc, c, index);
    case Colon(_, _, _) =>
    case Text(units, esc, ctx) =>
      CompleteOpen(ctx, Str(units));
      StringAgrees(s, units, esc, c, index);
    case Word(_, word, ctx) => CompleteOpen(ctx, word);
    case Number(lexeme, part, ctx) =>
      CompleteOpen(ctx, Num(lexeme));
      if NumberStep(part, c).None? { AfterAgrees(s, Complete(ctx, Num(lexeme)), c, index); }
    case AfterItem(_, _) => AfterAgrees(s, cfg, c, index);
    case AfterMember(_, _) => AfterAgrees(s, cfg, c, index);
    case Done(_) =>
  }

  lemma {:induction false} AfterAgrees(s: Scanner, cfg: Config, c: char, index: nat)
    requires cfg.AfterItem? || cfg.AfterMember? || cfg.Done?
    requires Agrees(s, cfg) && AfterStep(cfg, c).Some?
    ensures Agrees(ScanStep(s, c, index), AfterStep(cfg, c).value)
  {
    match cfg
    case AfterItem(items, ctx) => CompleteOpen(ctx, Arr(items));
    case AfterMember(members, ctx) => CompleteOpen(ctx, Obj(members));
    case Done(_) =>
  }

  ghost function At(text: string): Option<Config> {
    Run(Want(Top), text)
  }

  /** What a text that starts a document settles. */
  ghost function Settled(text: string): Option<Value> {
    match At(text)
    case None => None
    case Some(cfg) => Floor(cfg)
  }

  /** The last comma outside strings is one the grammar put between two elements. */
  ghost predicate CommaAfterElement(text: string, comma: int) {
    0 <= comma < |text| ==>
      && At(text[..comma]).Some?
      && !InText(At(text[..comma]).value)
      && Step(At(text[..comma]).value, ',').Some?
  }

  lemma {:induction false} ScanAgrees(text: string)
    requires At(text).Some?
    ensures Agrees(Scan(text), At(text).value)
    ensures CommaAfterElement(text, Scan(text).lastComma)
  {
    if text != [] {
      var n := |text| - 1;
      ScanAgrees(text[..n]);
      StepAgrees(Scan(text[..n]), At(text[..n]).value, text[n], n);
      var comma := Scan(text).lastComma;
      assert 0 <= comma < n ==> text[..n][..comma] == text[..comma];
    }
  }

  // ---------------------------------------------------------------------------
  // What closing the open containers parses to
  // ---------------------------------------------------------------------------

  /**
   The cut falls where closing suffices: not in a key, not between a key and its value,
   not in a literal word, a \u escape or an unfinished number.
   */
  predicate Repairable(cfg: Config) {
    match cfg
    case Want(ctx) => ctx.Item?
    case KeyText(_, _, _, _) => false
    case Colon(_, _, _) => false
    case Text(_, esc, _) => !esc.Hex?
    case Word(_, _, _) => false
    case Number(_, part, _) => WholeNumber(part)
    case _ => true
  }

  ghost predicate Rooted(cfg: Config) {
    cfg.Done? || (Open(cfg) != [] && Open(cfg)[0] == '{')
  }

  lemma {:induction false} StepRooted(cfg: Config, c: char)
    requires Rooted(cfg) && Step(cfg, c).Some?
    ensures Rooted(Step(cfg, c).value)
  {
    var s := Scanner(InText(cfg), InText(cfg) && cfg.esc == Backslash, Open(cfg), -1);
    StepAgrees(s, cfg, c, 0);
    if !cfg.Done? { StepEmptiesToDone(cfg, c); }
  }

  lemma {:induction false} StepEmptiesToDone(cfg: Config, c: char)
    requires Open(cfg) != [] && Step(cfg, c).Some?
    ensures Open(Step(cfg, c).value) != [] || Step(cfg, c).value.Done?
  {
  }

  lemma {:induction false} RunRooted(text: string)
    requires text != [] && text[0] == '{' && At(text).Some?
    ensures Rooted(At(text).value)
  {
    var n := |text| - 1;
    if n == 0 {
      assert text[..0] == [];
      assert At(text[..0]) == Some(Want(Top));
      assert Step(Want(Top), '{') == Some(Key([], true, Top));
    } else {
      RunRooted(text[..n]);
      StepRooted(At(text[..n]).value, text[n]);
    }
  }

  lemma {:induction false} RunCons(cfg: Config, c: char, rest: string)
    ensures Run(cfg, [c] + rest) == match Step(cfg, c) case None => None case Some(next) => Run(next, rest)
  {
    RunConcat(cfg, [c], rest);
    assert [c][..0] == [];
  }

  lemma {:induction false} ClosersStep(below: string, bracket: char)
    ensures Closers(below + [bracket]) == [if bracket == '{' then '}' else ']'] + Closers(below)
  {
    assert (below + [bracket])[..|below|] == below;
  }

  lemma {:induction false} ItemCloses(items: seq<Value>, outer: Ctx, rest: string)
    ensures Run(AfterItem(items, outer), [']'] + rest) == Run(Complete(outer, Arr(items)), rest)
  {
    RunCons(AfterItem(items, outer), ']', rest);
  }

  lemma {:induction false} MemberCloses(members: seq<Member>, outer: Ctx, rest: string)
    ensures Run(AfterMember(members, outer), ['}'] + rest) == Run(Complete(outer, Obj(members)), rest)
  {
    RunCons(AfterMember(members, outer), '}', rest);
  }

  lemma {:induction false} ClosersClose(ctx: Ctx, v: Value)
    ensures Run(Complete(ctx, v), Closers(Brackets(ctx))) == Some(Done(Plug(ctx, v)))
    decreases ctx
  {
    match ctx
    case Top =>
    case Item(items, outer) =>
      ClosersStep(Brackets(outer), '[');
      ItemCloses(items + [v], outer, Closers(Brackets(outer)));
      ClosersClose(outer, Arr(items + [v]));
    case MemberOf(members, key, outer) =>
      ClosersStep(Brackets(outer), '{');
      MemberCloses(members + [Member(key, v)], outer, Closers(Brackets(outer)));
      ClosersClose(outer, Obj(members + [Member(key, v)]));
  }

  /** A state that no comma, colon or white space has just left. */
  predicate Tight(cfg: Config) {
    !cfg.Want? && !(cfg.Key? && !cfg.first) && !InText(cfg)
  }

  lemma {:induction false} NumberCloses(lexeme: string, part: NumberPart, ctx: Ctx, rest: string)
    requires WholeNumber(part) && ctx != Top && rest != [] && (rest[0] == ']' || rest[0] == '}')
    ensures Run(Number(lexeme, part, ctx), rest) == Run(Complete(ctx, Num(lexeme)), rest)
  {
    assert rest == [rest[0]] + rest[1..];
    RunCons(Number(lexeme, part, ctx), rest[0], rest[1..]);
    RunCons(Complete(ctx, Num(lexeme)), rest[0], rest[1..]);
  }

  lemma {:induction false} ClosersFirst(stack: string)
    requires stack != []
    ensures Closers(stack) != [] && (Closers(stack)[0] == '}' || Closers(stack)[0] == ']')
    ensures Closers(stack)[0] == '}' <==> stack[|stack| - 1] == '{'
  {
  }

  lemma {:induction false} Stuck(cfg: Config, text: string)
    requires text != [] && Step(cfg, text[0]).None?
    ensures Run(cfg, text).None?
  {
    assert text == [text[0]] + text[1..];
    RunCons(cfg, text[0], text[1..]);
  }

  /** Closing a repairable tight state gives the settled value. */
  lemma {:induction false} TightCloses(cfg: Config)
    requires Tight(cfg) && Rooted(cfg) && Repairable(cfg)
    ensures Floor(cfg).Some? && Run(cfg, Closers(Open(cfg))) == Some(Done(Floor(cfg).value))
  {
    match cfg
    case ArrayStart(ctx) =>
      ClosersStep(Brackets(ctx), '[');
      ArrayStartCloses(ctx, Closers(Brackets(ctx)));
      ClosersClose(ctx, Arr([]));
    case Key(members, first, ctx) =>
      ClosersStep(Brackets(ctx), '{');
      KeyCloses(members, ctx, Closers(Brackets(ctx)));
      ClosersClose(ctx, Obj(members));
    case AfterItem(items, ctx) =>
      ClosersStep(Brackets(ctx), '[');
      ItemCloses(items, ctx, Closers(Brackets(ctx)));
      ClosersClose(ctx, Arr(items));
    case AfterMember(members, ctx) =>
      ClosersStep(Brackets(ctx), '{');
      MemberCloses(members, ctx, Closers(Brackets(ctx)));
      ClosersClose(ctx, Obj(members));
    case Number(lexeme, part, ctx) =>
      ClosersFirst(Brackets(ctx));
      NumberCloses(lexeme, part, ctx, Closers(Brackets(ctx)));
      ClosersClose(ctx, Num(lexeme));
    case _ =>
  }

  lemma {:induction false} ArrayStartCloses(ctx: Ctx, rest: string)
    ensures Run(ArrayStart(ctx), [']'] + rest) == Run(Complete(ctx, Arr([])), rest)
  {
    RunCons(ArrayStart(ctx), ']', rest);
  }

  lemma {:induction false} KeyCloses(members: seq<Member>, ctx: Ctx, rest: string)
    ensures Run(Key(members, true, ctx), ['}'] + rest) == Run(Complete(ctx, Obj(members)), rest)
  {
    RunCons(Key(members, true, ctx), '}', rest);
  }

  /** No closer fits a state that is not repairable. */
  lemma {:induction false} TightStuck(cfg: Config)
    requires Tight(cfg) && Rooted(cfg) && !Repairable(cfg)
    ensures Run(cfg, Closers(Open(cfg))).None?
  {
    ClosersFirst(Open(cfg));
    Stuck(cfg, Closers(Open(cfg)));
  }

  /** Dropping a comma, a colon or white space changes nothing that closing depends on. */
  lemma {:induction false} StripStep(cfg: Config, c: char)
    requires Strippable(c) && !InText(cfg) && Step(cfg, c).Some?
    ensures var next := Step(cfg, c).value;
      Floor(next) == Floor(cfg) && Open(next) == Open(cfg) && Repairable(next) == Repairable(cfg) && !InText(next)
  {
    match cfg
    case Number(lexeme, part, ctx) =>
      assert NumberStep(part, c).None?;
      CompleteFloor(ctx, Num(lexeme));
      CompleteOpen(ctx, Num(lexeme));
      StripAfter(Complete(ctx, Num(lexeme)), c);
    case AfterItem(_, _) => StripAfter(cfg, c);
    case AfterMember(_, _) => StripAfter(cfg, c);
    case _ =>
  }

  lemma {:induction false} StripAfter(cfg: Config, c: char)
    requires cfg.AfterItem? || cfg.AfterMember? || cfg.Done?
    requires Strippable(c) && AfterStep(cfg, c).Some?
    ensures var next := AfterStep(cfg, c).value;
      Floor(next) == Floor(cfg) && Open(next) == Open(cfg) && Repairable(next) && !InText(next)
  {
  }

  lemma {:induction false} TightStep(cfg: Config, c: char)
    requires !Strippable(c) && Step(cfg, c).Some? && !InText(Step(cfg, c).value)
    ensures Tight(Step(cfg, c).value)
  {
  }

  lemma {:induction false} NotInTextBefore(cfg: Config, c: char)
    requires Strippable(c) && Step(cfg, c).Some? && !InText(Step(cfg, c).value)
    ensures !InText(cfg)
  {
  }

  lemma {:induction false} StripKeeps(text: string)
    requires text != [] && text[0] == '{' && At(text).Some? && !InText(At(text).value)
    ensures Strip(text) != [] && Strip(text)[0] == '{' && At(Strip(text)).Some?
    ensures var cfg, stripped := At(text).value, At(Strip(text)).value;
      && Floor(stripped) == Floor(cfg) && Open(stripped) == Open(cfg)
      && Repairable(stripped) == Repairable(cfg) && Tight(stripped)
  {
    var n := |text| - 1;
    if Strippable(text[n]) {
      var before := At(text[..n]).value;
      NotInTextBefore(before, text[n]);
      StripStep(before, text[n]);
      StripKeeps(text[..n]);
    } else {
      TightStep(At(text[..n]).value, text[n]);
    }
  }

  lemma {:induction false} ColonCloses(members: seq<Member>, key: seq<nat>, ctx: Ctx, rest: string)
    requires rest != [] && (rest[0] == '}' || rest[0] == ']')
    ensures Run(Colon(members, key, ctx), rest).None?
  {
    assert Step(Colon(members, key, ctx), rest[0]).None?;
    Stuck(Colon(members, key, ctx), rest);
  }

  /** Closing a cut string or key. */
  lemma {:induction false} TextCloses(cfg: Config)
    requires InText(cfg) && Rooted(cfg) && cfg.esc != Backslash
    ensures Repairable(cfg) ==> Floor(cfg).Some? && Run(cfg, ['"'] + Closers(Open(cfg))) == Some(Done(Floor(cfg).value))
    ensures !Repairable(cfg) ==> Run(cfg, ['"'] + Closers(Open(cfg))).None?
  {
    RunCons(cfg, '"', Closers(Open(cfg)));
    ClosersFirst(Open(cfg));
    match cfg
    case Text(units, esc, ctx) => if esc.Plain? { ClosersClose(ctx, Str(units)); }
    case KeyText(members, units, esc, ctx) =>
      if esc.Plain? { ColonCloses(members, units, ctx, Closers(Open(cfg))); }
  }

  /** The state before a backslash is the same string without it. */
  lemma {:induction false} BeforeBackslash(cfg: Config, c: char)
    requires Step(cfg, c).Some? && InText(Step(cfg, c).value) && Step(cfg, c).value.esc == Backslash
    ensures InText(cfg) && cfg.esc == Plain
    ensures Floor(cfg) == Floor(Step(cfg, c).value) && Open(cfg) == Open(Step(cfg, c).value)
    ensures Repairable(cfg) == Repairable(Step(cfg, c).value)
  {
  }

  lemma {:induction false} OutsideParses(text: string)
    requires text != [] && text[0] == '{' && At(text).Some? && !InText(At(text).value)
    ensures
      var cfg := At(text).value;
      Parse(Strip(text) + Closers(Open(cfg))) == if Repairable(cfg) then Floor(cfg) else None
  {
    var cfg := At(text).value;
    StripKeeps(text);
    RunRooted(Strip(text));
    var stripped := At(Strip(text)).value;
    if Repairable(cfg) { TightCloses(stripped); } else { TightStuck(stripped); }
    RunConcat(Want(Top), Strip(text), Closers(Open(cfg)));
  }

  /** `body` is a text cut inside a string, without a dangling backslash. */
  lemma {:induction false} InsideParses(body: string)
    requires body != [] && body[0] == '{' && At(body).Some?
    requires InText(At(body).value) && At(body).value.esc != Backslash
    ensures
      var cfg := At(body).value;
      Parse(body + ['"'] + Closers(Open(cfg))) == if Repairable(cfg) then Floor(cfg) else None
  {
    var cfg := At(body).value;
    RunRooted(body);
    TextCloses(cfg);
    var tail := ['"'] + Closers(Open(cfg));
    RunConcat(Want(Top), body, tail);
    assert body + ['"'] + Closers(Open(cfg)) == body + tail;
  }

  /** One attempt parses to the settled value, exactly where the cut is repairable. */
  lemma {:induction false} CandidateParses(text: string)
    requires text != [] && text[0] == '{' && At(text).Some?
    ensures Parse(Candidate(text)) == if Repairable(At(text).value) then Floor(At(text).value) else None
  {
    var cfg := At(text).value;
    ScanAgrees(text);
    if !InText(cfg) {
      OutsideParses(text);
    } else if cfg.esc == Backslash {
      var n := |text| - 1;
      BeforeBackslash(At(text[..n]).value, text[n]);
      InsideParses(text[..n]);
    } else {
      InsideParses(text);
    }
  }

  // ---------------------------------------------------------------------------
  // The whole salvage
  // ---------------------------------------------------------------------------

  /** The state before a separating comma is tight or white space after it, and repairable. */
  lemma {:induction false} CommaRepairable(cfg: Config)
    requires !InText(cfg) && Step(cfg, ',').Some?
    ensures Repairable(cfg)
  {
  }

  lemma {:induction false} SecondCharacter(text: string)
    requires |text| > 1 && text[0] == '{' && At(text).Some?
    ensures text[1] != ','
  {
    RunPrefix(Want(Top), text, 2);
    RunPrefix(Want(Top), text, 1);
    assert text[..2][..1] == text[..1];
    assert text[..1][..0] == [];
    assert At(text[..1]) == Some(Key([], true, Top));
  }

  /** A separating comma: cutting there gives a shorter text that always repairs. */
  lemma {:induction false} DropParses(text: string)
    requires |text| > 1 && text[0] == '{' && At(text).Some? && Scan(text).lastComma >= 0
    ensures
      var cut := text[..Scan(text).lastComma];
      |cut| > 1 && At(cut).Some? && Repairable(At(cut).value) && Parse(Candidate(cut)) == Floor(At(cut).value)
  {
    ScanAgrees(text);
    SecondCharacter(text);
    var cut := text[..Scan(text).lastComma];
    CommaRepairable(At(cut).value);
    CandidateParses(cut);
  }

  lemma {:induction false} FloorExists(text: string)
    requires text != [] && text[0] == '{' && At(text).Some? && Repairable(At(text).value)
    ensures Floor(At(text).value).Some?
  {
    RunRooted(text);
  }

  /**
   One attempt, or one attempt after a single drop to the last comma: what the loop
   returns for a text that is a prefix of some JSON text.
   */
  lemma {:induction false} AttemptsResult(text: string, left: nat)
    requires text != [] ==> text[0] == '{'
    requires At(text).Some? && left >= 2
    ensures
      var cut := Scan(text).lastComma;
      Attempts(Parse, text, left) ==
        if |text| <= 1 then None
        else if Repairable(At(text).value) then Floor(At(text).value)
        else if cut >= 0 then Settled(text[..cut])
        else None
  {
    if |text| > 1 {
      CandidateParses(text);
      var cut := Scan(text).lastComma;
      if Repairable(At(text).value) {
        FloorExists(text);
      } else if cut >= 0 {
        DropParses(text);
        FloorExists(text[..cut]);
        assert Attempts(Parse, text[..cut], left - 1) == Settled(text[..cut]);
        assert cut > 0;
      }
    }
  }

  /** The settled value at any prefix of a whole document is a cut of its value. */
  lemma {:induction false} SettledIsCut(doc: string, k: nat)
    requires k <= |doc| && Parse(doc).Some? && Settled(doc[..k]).Some?
    ensures Cut(Settled(doc[..k]).value, Parse(doc).value)
  {
    RunPrefix(Want(Top), doc, k);
    RunGrows(At(doc[..k]).value, doc[k..]);
    assert Floor(At(doc).value) == Finish(At(doc).value);
  }

  lemma {:induction false} SettledGrows(text: string, k: nat)
    requires k <= |text| && At(text).Some?
    ensures Grows(Settled(text[..k]), Settled(text))
  {
    RunPrefix(Want(Top), text, k);
    RunGrows(At(text[..k]).value, text[k..]);
  }

  lemma {:induction false} StartsAt(pre: string, rest: string)
    requires '{' !in pre && rest != [] && rest[0] == '{'
    ensures IndexOf(pre + rest, '{') == |pre|
  {
    var text := pre + rest;
    var i := IndexOf(text, '{');
    assert text[|pre|] == '{';
    assert forall j :: 0 <= j < |pre| ==> text[j] == pre[j];
    assert forall j :: 0 <= j < i ==> text[j] == text[..i][j];
  }

  /** Whether the cut after a text leaves something that closing repairs. */
  predicate CutRepairs(text: string) {
    var cfg := Run(Want(Top), text);
    cfg.Some? && Repairable(cfg.value)
  }

  /**
   For any prose without a brace, any JSON object text and any point where it is cut:
   the result is the object with only its rightmost path cut short, nothing that was
   complete before the last separating comma is lost, at most one drop to that comma is
   made, and null comes back exactly when the trimmed text is shorter than two
   characters, or the cut itself does not repair and there is no comma to drop to.
   */
  lemma {:induction false} SalvageOfCutObject(pre: string, doc: string, k: nat)
    requires '{' !in pre && doc != [] && doc[0] == '{' && Parse(doc).Some? && k <= |doc|
    ensures
      var text := TrimEnd(doc[..k]);
      var comma := Scan(text).lastComma;
      var r := Salvage(pre + doc[..k]);
      && (r.None? <==> |text| < 2 || (!CutRepairs(text) && comma < 0))
      && (r.Some? ==> Cut(r.value, Parse(doc).value))
      && (r.Some? ==> r == Settled(if CutRepairs(text) then text else text[..comma]))
      && (r.Some? && comma >= 0 ==> Grows(Settled(text[..comma]), r))
  {
    hide Run, Step;
    var text := TrimEnd(doc[..k]);
    var comma := Scan(text).lastComma;
    assert text == doc[..|text|];
    RunPrefix(Want(Top), doc, |text|);
    if k == 0 {
      assert pre + doc[..0] == pre;
    } else {
      StartsAt(pre, doc[..k]);
      assert (pre + doc[..k])[|pre|..] == doc[..k];
      AttemptsResult(text, ATTEMPTS);
      if |text| >= 2 && CutRepairs(text) {
        FloorExists(text);
        SettledIsCut(doc, |text|);
        if comma >= 0 { SettledGrows(text, comma); }
      } else if |text| >= 2 && comma >= 0 {
        DropParses(text);
        FloorExists(text[..comma]);
        assert text[..comma] == doc[..comma];
        SettledIsCut(doc, comma);
      }
    }
  }

  // ---------------------------------------------------------------------------
  // The first balanced object
  // ---------------------------------------------------------------------------

  function Braces(stack: string): nat {
    if stack == [] then 0
    else Braces(stack[..|stack| - 1]) + if stack[|stack| - 1] == '{' then 1 else 0
  }

  lemma {:induction false} RootedBraces(stack: string)
    requires stack != [] && stack[0] == '{'
    ensures Braces(stack) >= 1
  {
    if |stack| > 1 { RootedBraces(stack[..|stack| - 1]); }
  }

  /** A closing bracket the grammar accepts closes a container of its own kind. */
  lemma {:induction false} ClosesOwnKind(cfg: Config, c: char)
    requires !InText(cfg) && Step(cfg, c).Some? && (c == '}' || c == ']')
    ensures Open(cfg) != [] && (Open(cfg)[|Open(cfg)| - 1] == '{' <==> c == '}')
  {
  }

  lemma {:induction false} DoneStays(v: Value, rest: string)
    requires Run(Done(v), rest).Some?
    ensures Run(Done(v), rest) == Some(Done(v))
    ensures rest != [] ==> IsSpace(rest[|rest| - 1])
  {
    if rest != [] { DoneStays(v, rest[..|rest| - 1]); }
  }

  /** A text ending in a visible character is not complete before its end. */
  lemma {:induction false} NotDoneEarly(doc: string, j: nat)
    requires 0 < j < |doc| && doc[0] == '{' && At(doc).Some? && !IsSpace(doc[|doc| - 1])
    ensures At(doc[..j]).Some? && !At(doc[..j]).value.Done? && Braces(Open(At(doc[..j]).value)) >= 1
  {
    RunPrefix(Want(Top), doc, j);
    var cfg := At(doc[..j]).value;
    if cfg.Done? { DoneStays(cfg.v, doc[j..]); }
    RunRooted(doc[..j]);
    RootedBraces(Open(cfg));
  }

  lemma {:induction false} BraceStep(cfg: Config, c: char)
    requires Step(cfg, c).Some? && !InText(cfg)
    ensures Braces(Open(Step(cfg, c).value)) ==
      Braces(Open(cfg)) + if c == '{' then 1 else if c == '}' then -1 else 0
  {
    var s := Scanner(false, false, Open(cfg), -1);
    StepAgrees(s, cfg, c, 0);
    if c == '}' || c == ']' {
      ClosesOwnKind(cfg, c);
    } else if c == '{' || c == '[' {
      assert (Open(cfg) + [c])[..|Open(cfg)|] == Open(cfg);
    }
  }

  /** What the scan's variables are at a machine state. */
  ghost function DepthAt(cfg: Config): Depth {
    Depth(Braces(Open(cfg)), InText(cfg), InText(cfg) && cfg.esc == Backslash)
  }

  lemma {:induction false} DepthFollows(cfg: Config, c: char)
    requires Step(cfg, c).Some?
    ensures DepthStep(DepthAt(cfg), c) == DepthAt(Step(cfg, c).value)
  {
    hide Step, Braces, Open;
    var d := DepthAt(cfg);
    StepAgrees(Scanner(d.inString, d.escaped, Open(cfg), -1), cfg, c, 0);
    if !InText(cfg) { BraceStep(cfg, c); }
  }

  lemma {:induction false} BalancedNext(text: string, index: nat, s: Depth)
    requires index < |text| && DepthStep(s, text[index]).depth != 0
    ensures BalancedEnd(text, index, s) == BalancedEnd(text, index + 1, DepthStep(s, text[index]))
  {
  }

  /** One character of the object inside the larger text. */
  lemma {:induction false} ScanAdvances(text: string, start: nat, doc: string, i: nat)
    requires 0 < i < |doc| - 1 && start + |doc| <= |text| && text[start + i] == doc[i]
    requires doc[0] == '{' && At(doc).Some? && !IsSpace(doc[|doc| - 1])
    ensures At(doc[..i]).Some? && At(doc[..i + 1]).Some?
    ensures BalancedEnd(text, start + i, DepthAt(At(doc[..i]).value)) ==
            BalancedEnd(text, start + i + 1, DepthAt(At(doc[..i + 1]).value))
  {
    NotDoneEarly(doc, i);
    NotDoneEarly(doc, i + 1);
    StepOf(doc, i);
    DepthFollows(At(doc[..i]).value, doc[i]);
    BalancedNext(text, start + i, DepthAt(At(doc[..i]).value));
  }

  /** The scan reaches each point of the object with the depth the grammar has there. */
  lemma {:induction false} ScanReaches(text: string, start: nat, doc: string, j: nat)
    requires start + |doc| <= |text| && forall i :: 0 <= i < |doc| ==> text[start + i] == doc[i]
    requires 0 < j < |doc| && doc[0] == '{' && At(doc).Some? && !IsSpace(doc[|doc| - 1])
    ensures At(doc[..j]).Some?
    ensures BalancedEnd(text, start, Depth(0, false, false)) == BalancedEnd(text, start + j,
        DepthAt(At(doc[..j]).value))
  {
    if j == 1 {
      FirstBrace(doc);
      assert text[start + 0] == doc[0];
      BalancedNext(text, start, Depth(0, false, false));
    } else {
      ScanReaches(text, start, doc, j - 1);
      assert text[start + (j - 1)] == doc[j - 1];
      ScanAdvances(text, start, doc, j - 1);
    }
  }

  lemma {:induction false} StepOf(doc: string, i: nat)
    requires i < |doc| && At(doc[..i]).Some?
    ensures At(doc[..i + 1]) == Step(At(doc[..i]).value, doc[i])
  {
    assert doc[..i + 1][..i] == doc[..i];
  }

  lemma {:induction false} FirstBrace(doc: string)
    requires doc != [] && doc[0] == '{'
    ensures At(doc[..1]) == Some(Key([], true, Top)) && DepthAt(Key([], true, Top)) == Depth(1, false, false)
  {
    assert doc[..1] == "{";
    assert "{"[..0] == [];
    assert Brackets(Top) + ['{'] == "{";
  }

  /**
   For any prose without a brace, any JSON object text ending in its closing brace and
   any text behind it, the scan returns exactly the object.
   */
  lemma {:induction false} FirstBalancedIsTheObject(pre: string, doc: string, post: string)
    requires '{' !in pre && doc != [] && doc[0] == '{' && Parse(doc).Some? && !IsSpace(doc[|doc| - 1])
    ensures FirstBalanced(pre + doc + post) == Some(doc)
  {
    var text, start, n := pre + doc + post, |pre|, |doc| - 1;
    assert text == pre + (doc + post);
    StartsAt(pre, doc + post);
    assert text[start..start + |doc|] == doc;
    assert forall i :: 0 <= i < |doc| ==> text[start + i] == doc[i];
    assert doc[..|doc|] == doc;
    if n == 0 {
      FirstBrace(doc);
    } else {
      ScanReaches(text, start, doc, n);
      NotDoneEarly(doc, n);
      RunRooted(doc[..n]);
      StepOf(doc, n);
      LastBrace(At(doc[..n]).value, doc[n]);
      assert text[start + n] == doc[n];
    }
  }

  /** Until an object is complete the scan is inside it. */
  lemma {:induction false} NotDoneBefore(cut: string, j: nat)
    requires 0 < j <= |cut| && cut[0] == '{' && At(cut).Some? && !At(cut).value.Done?
    ensures At(cut[..j]).Some? && !At(cut[..j]).value.Done? && Braces(Open(At(cut[..j]).value)) >= 1
  {
    RunPrefix(Want(Top), cut, j);
    var cfg := At(cut[..j]).value;
    if cfg.Done? { DoneStays(cfg.v, cut[j..]); }
    RunRooted(cut[..j]);
    RootedBraces(Open(cfg));
  }

  lemma {:induction false} ScanRunsOut(text: string, start: nat, cut: string, j: nat)
    requires start + |cut| == |text| && forall i :: 0 <= i < |cut| ==> text[start + i] == cut[i]
    requires 0 < j <= |cut| && cut[0] == '{' && At(cut).Some? && !At(cut).value.Done?
    ensures At(cut[..j]).Some?
    ensures BalancedEnd(text, start, Depth(0, false, false)) == BalancedEnd(text, start + j,
        DepthAt(At(cut[..j]).value))
  {
    if j == 1 {
      FirstBrace(cut);
      assert text[start + 0] == cut[0];
      BalancedNext(text, start, Depth(0, false, false));
    } else {
      ScanRunsOut(text, start, cut, j - 1);
      assert text[start + (j - 1)] == cut[j - 1];
      RunsOutNext(text, start + (j - 1), cut, j - 1);
    }
  }

  lemma {:induction false} RunsOutNext(text: string, index: nat, cut: string, i: nat)
    requires 0 < i < |cut| && index < |text| && text[index] == cut[i]
    requires cut[0] == '{' && At(cut).Some? && !At(cut).value.Done?
    ensures At(cut[..i]).Some? && At(cut[..i + 1]).Some?
    ensures BalancedEnd(text, index, DepthAt(At(cut[..i]).value)) ==
            BalancedEnd(text, index + 1, DepthAt(At(cut[..i + 1]).value))
  {
    NotDoneBefore(cut, i);
    NotDoneBefore(cut, i + 1);
    StepOf(cut, i);
    DepthFollows(At(cut[..i]).value, cut[i]);
    BalancedNext(text, index, DepthAt(At(cut[..i]).value));
  }

  /**
   Of a text whose first brace begins an object, cut anywhere or not at all, the scan returns
   something exactly if the object is complete.
   */
  lemma {:induction false} CutObjectIsNotBalanced(pre: string, cut: string)
    requires '{' !in pre && cut != [] && cut[0] == '{' && At(cut).Some?
    ensures FirstBalanced(pre + cut).None? <==> Parse(cut).None?
  {
    var text, start := pre + cut, |pre|;
    StartsAt(pre, cut);
    assert cut[..|cut|] == cut;
    if !At(cut).value.Done? {
      assert forall i :: 0 <= i < |cut| ==> text[start + i] == cut[i];
      ScanRunsOut(text, start, cut, |cut|);
      RunRooted(cut);
      assert start + |cut| == |text|;
    } else {
      var doc := WithoutSpace(cut);
      FirstBalancedIsTheObject(pre, doc, cut[|doc|..]);
      assert pre + doc + cut[|doc|..] == text;
    }
  }

  /** The complete object without the spaces behind it. */
  lemma {:induction false} WithoutSpace(cut: string) returns (doc: string)
    requires cut != [] && cut[0] == '{' && At(cut).Some? && At(cut).value.Done?
    ensures doc <= cut && doc != [] && doc[0] == '{' && Parse(doc).Some? && !IsSpace(doc[|doc| - 1])
    decreases |cut|
  {
    hide Step, Run;
    assert cut[..|cut|] == cut;
    if !IsSpace(cut[|cut| - 1]) { return cut; }
    StillDone(cut);
    doc := WithoutSpace(cut[..|cut| - 1]);
  }

  /** A space does not complete an object. */
  lemma {:induction false} StillDone(cut: string)
    requires cut != [] && cut[0] == '{' && At(cut).Some? && At(cut).value.Done? && IsSpace(cut[|cut| - 1])
    ensures |cut| > 1 && At(cut[..|cut| - 1]).Some? && At(cut[..|cut| - 1]).value.Done?
  {
    hide Run, Step;
    var n := |cut| - 1;
    RunPrefix(Want(Top), cut, n);
    StepOf(cut, n);
    assert cut[..|cut|] == cut;
    RunRooted(cut[..n]);
    SpaceCompletesNothing(At(cut[..n]).value, cut[n]);
  }

  lemma {:induction false} SpaceCompletesNothing(cfg: Config, c: char)
    requires Rooted(cfg) && IsSpace(c) && Step(cfg, c).Some? && Step(cfg, c).value.Done?
    ensures cfg.Done?
  {
    DepthFollows(cfg, c);
  }

  /** The character that completes the document is the brace that brings the depth to zero. */
  lemma {:induction false} LastBrace(cfg: Config, c: char)
    requires Step(cfg, c).Some? && Finish(Step(cfg, c).value).Some? && Rooted(cfg) && !cfg.Done?
    ensures c == '}' && DepthAt(cfg) == Depth(1, false, false)
  {
    StepRooted(cfg, c);
    assert Step(cfg, c).value.Done?;
    DepthFollows(cfg, c);
    RootedBraces(Open(cfg));
  }
}
