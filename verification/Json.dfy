/**
 JSON texts, read one character at a time.

 The reader is a pushdown machine for the grammar of RFC 8259: objects (section 4),
 arrays (section 5), numbers (section 6) and strings (section 7). It stands for the
 `JSON.parse` of the platform. Reading character by character makes "the text was cut
 here" a state of the machine, which is what the repair in `Extract` is about.
 */
module Json {
  import opened Wrappers

  /** Strings are their UTF-16 code units after unescaping; numbers keep their lexeme. */
  datatype Value =
    | Null
    | Bool(b: bool)
    | Num(lexeme: string)
    | Str(units: seq<nat>)
    | Arr(items: seq<Value>)
    | Obj(members: seq<Member>)

  datatype Member = Member(key: seq<nat>, value: Value)

  /** Where the value being read will go, innermost container first. */
  datatype Ctx =
    | Top
    | Item(items: seq<Value>, outer: Ctx)
    | MemberOf(members: seq<Member>, key: seq<nat>, outer: Ctx)

  datatype Escape = Plain | Backslash | Hex(count: nat, code: nat)

  datatype NumberPart = Minus | Zero | Digits | Point | Fraction | Exponent | Sign | Power

  datatype Config =
    | Want(ctx: Ctx)
    | ArrayStart(ctx: Ctx)
    | Key(members: seq<Member>, first: bool, ctx: Ctx)
    | KeyText(members: seq<Member>, units: seq<nat>, esc: Escape, ctx: Ctx)
    | Colon(members: seq<Member>, key: seq<nat>, ctx: Ctx)
    | Text(units: seq<nat>, esc: Escape, ctx: Ctx)
    | Word(rest: string, word: Value, ctx: Ctx)
    | Number(lexeme: string, part: NumberPart, ctx: Ctx)
    | AfterItem(items: seq<Value>, ctx: Ctx)
    | AfterMember(members: seq<Member>, ctx: Ctx)
    | Done(v: Value)

  predicate IsSpace(c: char) {
    c == ' ' || c == '\t' || c == '\n' || c == '\r'
  }

  predicate IsDigit(c: char) {
    '0' <= c <= '9'
  }

  function HexDigit(c: char): Option<nat> {
    if '0' <= c <= '9' then Some(c as int - '0' as int)
    else if 'a' <= c <= 'f' then Some(c as int - 'a' as int + 10)
    else if 'A' <= c <= 'F' then Some(c as int - 'A' as int + 10)
    else None
  }

  /** The code unit a two-character escape stands for. */
  function Escaped(c: char): Option<nat> {
    match c
    case '"' => Some(34)
    case '\\' => Some(92)
    case '/' => Some(47)
    case 'b' => Some(8)
    case 'f' => Some(12)
    case 'n' => Some(10)
    case 'r' => Some(13)
    case 't' => Some(9)
    case _ => None
  }

  /** A complete value goes to the place that was waiting for it. */
  function Complete(ctx: Ctx, v: Value): Config {
    match ctx
    case Top => Done(v)
    case Item(items, outer) => AfterItem(items + [v], outer)
    case MemberOf(members, key, outer) => AfterMember(members + [Member(key, v)], outer)
  }

  function StartValue(ctx: Ctx, c: char): Option<Config> {
    match c
    case '{' => Some(Key([], true, ctx))
    case '[' => Some(ArrayStart(ctx))
    case '"' => Some(Text([], Plain, ctx))
    case 't' => Some(Word("rue", Bool(true), ctx))
    case 'f' => Some(Word("alse", Bool(false), ctx))
    case 'n' => Some(Word("ull", Null, ctx))
    case '-' => Some(Number([c], Minus, ctx))
    case '0' => Some(Number([c], Zero, ctx))
    case _ => if IsDigit(c) then Some(Number([c], Digits, ctx)) else None
  }

  /** One character of a number, section 6; None when it does not continue the number. */
  function NumberStep(part: NumberPart, c: char): Option<NumberPart> {
    match part
    case Minus => if c == '0' then Some(Zero) else if IsDigit(c) then Some(Digits) else None
    case Zero => AfterInteger(c)
    case Digits => if IsDigit(c) then Some(Digits) else AfterInteger(c)
    case Point => if IsDigit(c) then Some(Fraction) else None
    case Fraction =>
      if IsDigit(c) then Some(Fraction) else if c == 'e' || c == 'E' then Some(Exponent) else None
    case Exponent =>
      if c == '+' || c == '-' then Some(Sign) else if IsDigit(c) then Some(Power) else None
    case Sign => if IsDigit(c) then Some(Power) else None
    case Power => if IsDigit(c) then Some(Power) else None
  }

  function AfterInteger(c: char): Option<NumberPart> {
    if c == '.' then Some(Point) else if c == 'e' || c == 'E' then Some(Exponent) else None
  }

  predicate WholeNumber(part: NumberPart) {
    part in {Zero, Digits, Fraction, Power}
  }

  datatype TextStep = Reject | Close | More(units: seq<nat>, esc: Escape)

  /** One character inside a string, section 7. */
  function StringStep(units: seq<nat>, esc: Escape, c: char): TextStep {
    match esc
    case Plain =>
      if c == '"' then Close
      else if c == '\\' then More(units, Backslash)
      else if c as int < 32 then Reject
      else More(units + [c as int], Plain)
    case Backslash =>
      if c == 'u' then More(units, Hex(0, 0))
      else if Escaped(c).Some? then More(units + [Escaped(c).value], Plain)
      else Reject
    case Hex(count, code) =>
      if HexDigit(c).None? then Reject
      else
        var next := code * 16 + HexDigit(c).value;
        if count >= 3 then More(units + [next], Plain) else More(units, Hex(count + 1, next))
  }

  /** One character after a complete value. */
  function AfterStep(cfg: Config, c: char): Option<Config>
    requires cfg.AfterItem? || cfg.AfterMember? || cfg.Done?
  {
    if IsSpace(c) then Some(cfg)
    else match cfg
      case AfterItem(items, ctx) =>
        if c == ',' then Some(Want(Item(items, ctx)))
        else if c == ']' then Some(Complete(ctx, Arr(items)))
        else None
      case AfterMember(members, ctx) =>
        if c == ',' then Some(Key(members, false, ctx))
        else if c == '}' then Some(Complete(ctx, Obj(members)))
        else None
      case _ => None
  }

  function Step(cfg: Config, c: char): Option<Config> {
    match cfg
    case Want(ctx) => if IsSpace(c) then Some(cfg) else StartValue(ctx, c)
    case ArrayStart(ctx) =>
      if IsSpace(c) then Some(cfg)
      else if c == ']' then Some(Complete(ctx, Arr([])))
      else StartValue(Item([], ctx), c)
    case Key(members, first, ctx) =>
      if IsSpace(c) then Some(cfg)
      else if c == '"' then Some(KeyText(members, [], Plain, ctx))
      else if c == '}' && first then Some(Complete(ctx, Obj(members)))
      else None
    case KeyText(members, units, esc, ctx) =>
      (match StringStep(units, esc, c)
       case Reject => None
       case Close => Some(Colon(members, units, ctx))
       case More(units', esc') => Some(KeyText(members, units', esc', ctx)))
    case Colon(members, key, ctx) =>
      if IsSpace(c) then Some(cfg)
      else if c == ':' then Some(Want(MemberOf(members, key, ctx)))
      else None
    case Text(units, esc, ctx) =>
      (match StringStep(units, esc, c)
       case Reject => None
       case Close => Some(Complete(ctx, Str(units)))
       case More(units', esc') => Some(Text(units', esc', ctx)))
    case Word(rest, word, ctx) =>
      // the three literal names are lower-case letters only (section 3)
      if rest == [] || rest[0] != c || !('a' <= c <= 'z') then None
      else if |rest| == 1 then Some(Complete(ctx, word))
      else Some(Word(rest[1..], word, ctx))
    case Number(lexeme, part, ctx) =>
      (match NumberStep(part, c)
       case Some(part') => Some(Number(lexeme + [c], part', ctx))
       case None =>
         if WholeNumber(part) then AfterStep(Complete(ctx, Num(lexeme)), c) else None)
    case _ => AfterStep(cfg, c)
  }

  function Run(cfg: Config, text: string): Option<Config> {
    if text == [] then Some(cfg)
    else
      match Run(cfg, text[..|text| - 1])
      case None => None
      case Some(last) => Step(last, text[|text| - 1])
  }

  function Finish(cfg: Config): Option<Value> {
    match cfg
    case Done(v) => Some(v)
    case Number(lexeme, part, Top) => if WholeNumber(part) then Some(Num(lexeme)) else None
    case _ => None
  }

  /** `JSON.parse`: the value of a whole text, None where it throws. */
  function Parse(text: string): Option<Value> {
    match Run(Want(Top), text)
    case None => None
    case Some(cfg) => Finish(cfg)
  }

  lemma {:induction false} RunConcat(cfg: Config, a: string, b: string)
    ensures Run(cfg, a + b) == match Run(cfg, a) case None => None case Some(mid) => Run(mid, b)
  {
    if b == [] {
      assert a + b == a;
    } else {
      RunConcat(cfg, a, b[..|b| - 1]);
      assert (a + b)[..|a + b| - 1] == a + b[..|b| - 1];
    }
  }

  /** A machine that survives a text survives each prefix of it. */
  lemma {:induction false} RunPrefix(cfg: Config, text: string, k: nat)
    requires k <= |text| && Run(cfg, text).Some?
    ensures Run(cfg, text[..k]).Some?
    ensures Run(Run(cfg, text[..k]).value, text[k..]) == Run(cfg, text)
  {
    RunConcat(cfg, text[..k], text[k..]);
    assert text == text[..k] + text[k..];
  }
}
