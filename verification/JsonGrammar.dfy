/**
 The grammar of RFC 8259 as a relation between values and texts: numbers (section 6),
 strings (section 7), arrays and objects (sections 4 and 5), white space (section 2); and
 that the reader of `Json` reads numbers and strings by it.
 */
module JsonGrammar {
  import opened Wrappers
  import opened Json

  predicate Spaces(t: string) {
    forall i :: 0 <= i < |t| ==> t[i] == ' ' || t[i] == '\t' || t[i] == '\n' || t[i] == '\r'
  }

  // ---------------------------------------------------------------------------
  // Numbers
  // ---------------------------------------------------------------------------

  predicate AllDigits(t: string) {
    t != [] && forall i :: 0 <= i < |t| ==> '0' <= t[i] <= '9'
  }

  predicate Unsigned(t: string) {
    AllDigits(t) && (t[0] == '0' ==> |t| == 1)
  }

  predicate Integer(t: string) {
    Unsigned(t) || (t != [] && t[0] == '-' && Unsigned(t[1..]))
  }

  predicate PointAt(t: string, k: nat)
    requires k < |t|
  {
    t[k] == '.' && Integer(t[..k]) && AllDigits(t[k + 1..])
  }

  predicate Decimal(t: string) {
    Integer(t) || exists k :: 0 <= k < |t| && PointAt(t, k)
  }

  predicate PowerAt(t: string, k: nat)
    requires k < |t|
  {
    && (t[k] == 'e' || t[k] == 'E') && Decimal(t[..k])
    && (AllDigits(t[k + 1..]) || (k + 1 < |t| && (t[k + 1] == '+' || t[k + 1] == '-') && AllDigits(t[k + 2..])))
  }

  predicate IsNumber(t: string) {
    Decimal(t) || exists k :: 0 <= k < |t| && PowerAt(t, k)
  }

  /** Where the reader stands behind the characters of a number. */
  function LexemePart(lexeme: string): Option<NumberPart> {
    if lexeme == [] then None
    else if |lexeme| == 1 then
      if lexeme[0] == '-' then Some(Minus)
      else if lexeme[0] == '0' then Some(Zero)
      else if IsDigit(lexeme[0]) then Some(Digits)
      else None
    else
      match LexemePart(lexeme[..|lexeme| - 1])
      case None => None
      case Some(part) => NumberStep(part, lexeme[|lexeme| - 1])
  }

  /** What it has read there. */
  predicate Shape(part: NumberPart, t: string) {
    var n := |t| - 1;
    n >= 0 &&
    match part
    case Minus => t == "-"
    case Zero => t == "0" || t == "-0"
    case Digits => Integer(t) && t != "0" && t != "-0"
    case Point => t[n] == '.' && Integer(t[..n])
    case Fraction => exists k :: 0 <= k < |t| && PointAt(t, k)
    case Exponent => (t[n] == 'e' || t[n] == 'E') && Decimal(t[..n])
    case Sign => (t[n] == '+' || t[n] == '-') && n > 0 && (t[n - 1] == 'e' || t[n - 1] == 'E') && Decimal(t[..n - 1])
    case Power => exists k :: 0 <= k < |t| && PowerAt(t, k)
  }

  lemma {:induction false} DigitsGrow(t: string, c: char)
    requires '0' <= c <= '9'
    ensures AllDigits(t) ==> AllDigits(t + [c])
    ensures Integer(t) && t != "0" && t != "-0" ==> Integer(t + [c])
    ensures t == "-" ==> Integer(t + [c])
  {
    if t != [] { assert (t + [c])[1..] == t[1..] + [c]; }
  }

  lemma {:induction false} PointGrows(t: string, k: nat, c: char)
    requires k < |t| && PointAt(t, k) && '0' <= c <= '9'
    ensures PointAt(t + [c], k)
  {
    assert (t + [c])[..k] == t[..k] && (t + [c])[k + 1..] == t[k + 1..] + [c];
    DigitsGrow(t[k + 1..], c);
  }

  lemma {:induction false} PowerGrows(t: string, k: nat, c: char)
    requires k < |t| && PowerAt(t, k) && '0' <= c <= '9'
    ensures PowerAt(t + [c], k)
  {
    hide Decimal;
    var u := t + [c];
    assert u[..k] == t[..k] && u[k + 1..] == t[k + 1..] + [c];
    if AllDigits(t[k + 1..]) {
      DigitsGrow(t[k + 1..], c);
    } else {
      assert u[k + 2..] == t[k + 2..] + [c];
      DigitsGrow(t[k + 2..], c);
    }
  }

  lemma {:induction false} ShapeStep(part: NumberPart, t: string, c: char, next: NumberPart)
    requires Shape(part, t) && NumberStep(part, c) == Some(next)
    ensures Shape(next, t + [c])
  {
    var u, n := t + [c], |t|;
    assert u[..n] == t;
    if IsDigit(c) { DigitsGrow(t, c); }
    match part
    case Point => assert u[..n - 1] == t[..n - 1] && u[n..] == [c]; assert PointAt(u, n - 1);
    case Fraction =>
      var k :| 0 <= k < n && PointAt(t, k);
      if IsDigit(c) { PointGrows(t, k, c); }
    case Exponent =>
      assert u[..n - 1] == t[..n - 1] && u[n..] == [c];
      if IsDigit(c) { assert PowerAt(u, n - 1); }
    case Sign =>
      assert u[..n - 2] == t[..n - 2] && u[n..] == [c];
      assert PowerAt(u, n - 2);
    case Power =>
      var k :| 0 <= k < n && PowerAt(t, k);
      PowerGrows(t, k, c);
    case _ =>
  }

  lemma {:induction false} PartHasShape(t: string)
    requires LexemePart(t).Some?
    ensures Shape(LexemePart(t).value, t)
    decreases |t|
  {
    if |t| > 1 {
      var n := |t| - 1;
      PartHasShape(t[..n]);
      ShapeStep(LexemePart(t[..n]).value, t[..n], t[n], LexemePart(t).value);
      assert t[..n] + [t[n]] == t;
    }
  }

  /** What was read before the last character. */
  lemma {:induction false} ShapeBefore(part: NumberPart, t: string) returns (before: NumberPart)
    requires Shape(part, t) && |t| > 1
    ensures Shape(before, t[..|t| - 1]) && NumberStep(before, t[|t| - 1]) == Some(part)
  {
    var n := |t| - 1;
    var u, c := t[..n], t[n];
    match part
    case Minus => assert false;
    case Zero => before := Minus;
    case Digits => before := IntegerBefore(t);
    case Point => before := IntegerPart(u);
    case Fraction =>
      var k :| 0 <= k <= n && PointAt(t, k);
      assert u[..k] == t[..k];
      if k == n - 1 {
        before := Point;
      } else {
        assert u[k + 1..] == t[k + 1..][..n - k - 1];
        assert PointAt(u, k);
        before := Fraction;
      }
    case Exponent => before := DecimalPart(u);
    case Sign => assert u[..n - 1] == t[..n - 1]; before := Exponent;
    case Power =>
      var k :| 0 <= k <= n && PowerAt(t, k);
      before := PowerBefore(t, k);
  }

  lemma {:induction false} IntegerBefore(t: string) returns (before: NumberPart)
    requires Integer(t) && t != "0" && t != "-0" && |t| > 1
    ensures Shape(before, t[..|t| - 1]) && NumberStep(before, t[|t| - 1]) == Some(Digits)
  {
    var u := t[..|t| - 1];
    if u == "-" {
      before := Minus;
    } else {
      before := Digits;
      if t[0] == '-' { assert u[1..] == t[1..][..|t| - 2]; }
    }
  }

  lemma {:induction false} IntegerPart(t: string) returns (part: NumberPart)
    requires Integer(t)
    ensures Shape(part, t) && (part == Zero || part == Digits)
  {
    part := if t == "0" || t == "-0" then Zero else Digits;
  }

  lemma {:induction false} DecimalPart(t: string) returns (part: NumberPart)
    requires Decimal(t)
    ensures Shape(part, t) && part in {Zero, Digits, Fraction}
  {
    if Integer(t) { part := IntegerPart(t); } else { part := Fraction; }
  }

  lemma {:induction false} PowerBefore(t: string, k: nat) returns (before: NumberPart)
    requires k < |t| && PowerAt(t, k)
    ensures Shape(before, t[..|t| - 1]) && NumberStep(before, t[|t| - 1]) == Some(Power)
  {
    var n := |t| - 1;
    var u := t[..n];
    if AllDigits(t[k + 1..]) {
      assert u[..k] == t[..k] && t[n] == t[k + 1..][n - k - 1];
      if k == n - 1 {
        before := Exponent;
      } else {
        assert u[k + 1..] == t[k + 1..][..n - k - 1];
        assert PowerAt(u, k);
        before := Power;
      }
    } else {
      assert u[..k] == t[..k] && t[n] == t[k + 2..][n - k - 2];
      if k + 1 == n - 1 {
        before := Sign;
      } else {
        assert u[k + 2..] == t[k + 2..][..n - k - 2];
        assert PowerAt(u, k);
        before := Power;
      }
    }
  }

  lemma {:induction false} ShapeIsPart(part: NumberPart, t: string)
    requires Shape(part, t)
    ensures LexemePart(t) == Some(part)
    decreases |t|
  {
    if |t| > 1 {
      var before := ShapeBefore(part, t);
      ShapeIsPart(before, t[..|t| - 1]);
    }
  }

  /** The reader finishes a number exactly behind the lexemes of section 6. */
  lemma {:induction false} NumberIff(t: string)
    ensures LexemePart(t).Some? && WholeNumber(LexemePart(t).value) <==> IsNumber(t)
  {
    if LexemePart(t).Some? { PartHasShape(t); }
    if Decimal(t) {
      var part := DecimalPart(t);
      ShapeIsPart(part, t);
    } else if IsNumber(t) {
      ShapeIsPart(Power, t);
    }
  }

  // ---------------------------------------------------------------------------
  // Strings
  // ---------------------------------------------------------------------------

  /** The escapes of two characters, section 7. */
  predicate ShortEscape(c: char, u: nat) {
    || (c == '"' && u == 34) || (c == '\\' && u == 92) || (c == '/' && u == 47) || (c == 'b' && u == 8)
    || (c == 'f' && u == 12) || (c == 'n' && u == 10) || (c == 'r' && u == 13) || (c == 't' && u == 9)
  }

  predicate HexIs(c: char, d: nat) {
    d < 16 && ("0123456789abcdef"[d] == c || "0123456789ABCDEF"[d] == c)
  }

  /** Hexadecimal digits and their value. */
  predicate HexText(t: string, code: nat)
    decreases |t|
  {
    if t == [] then code == 0 else HexText(t[..|t| - 1], code / 16) && HexIs(t[|t| - 1], code % 16)
  }

  /** One code unit in a string. */
  predicate IsPiece(u: nat, p: string) {
    || (|p| == 1 && p[0] as int == u && u >= 32 && p[0] != '"' && p[0] != '\\')
    || (|p| == 2 && p[0] == '\\' && ShortEscape(p[1], u))
    || (|p| == 6 && p[0] == '\\' && p[1] == 'u' && HexText(p[2..], u))
  }

  predicate IsBody(units: seq<nat>, t: string)
    decreases |units|
  {
    if units == [] then t == []
    else
      var n := |units| - 1;
      exists k :: 0 <= k <= |t| && IsBody(units[..n], t[..k]) && IsPiece(units[n], t[k..])
  }

  predicate IsString(units: seq<nat>, t: string) {
    var n := |t| - 1;
    n >= 1 && t[0] == '"' && t[n] == '"' && IsBody(units, t[1..n])
  }

  lemma {:induction false} HexIff(c: char, d: nat)
    ensures HexIs(c, d) <==> HexDigit(c) == Some(d)
  {
    assert "0123456789abcdef" == ['0', '1', '2', '3', '4', '5', '6', '7', '8', '9', 'a', 'b', 'c', 'd', 'e', 'f'];
  }

  /** What the reader has of a string it is inside of. */
  predicate InBody(units: seq<nat>, esc: Escape, t: string) {
    match esc
    case Plain => IsBody(units, t)
    case Backslash => t != [] && t[|t| - 1] == '\\' && IsBody(units, t[..|t| - 1])
    case Hex(count, code) =>
      var k := |t| - count - 2;
      count <= 3 && k >= 0 && t[k] == '\\' && t[k + 1] == 'u' && HexText(t[k + 2..], code) && IsBody(units, t[..k])
  }

  lemma {:induction false} PieceEnds(units: seq<nat>, u: nat, t: string, k: nat)
    requires k <= |t| && IsBody(units, t[..k]) && IsPiece(u, t[k..])
    ensures IsBody(units + [u], t)
  {
    hide IsPiece;
    assert (units + [u])[..|units|] == units;
  }

  lemma {:induction false} StringStepKeeps(units: seq<nat>, esc: Escape, t: string, c: char)
    requires InBody(units, esc, t) && StringStep(units, esc, c).More?
    ensures InBody(StringStep(units, esc, c).units, StringStep(units, esc, c).esc, t + [c])
  {
    hide IsBody, HexText, HexDigit, Escaped;
    match esc
    case Plain => PlainStep(units, t, c);
    case Backslash => BackslashStep(units, t, c);
    case Hex(count, code) => HexStep(units, count, code, t, c);
  }

  lemma {:induction false} PlainStep(units: seq<nat>, t: string, c: char)
    requires IsBody(units, t) && c != '"'
    ensures c == '\\' ==> InBody(units, Backslash, t + [c])
    ensures c != '\\' && c as int >= 32 ==> IsBody(units + [c as int], t + [c])
  {
    hide IsBody, HexText;
    assert (t + [c])[..|t|] == t && (t + [c])[|t|..] == [c];
    if c != '\\' && c as int >= 32 { PieceEnds(units, c as int, t + [c], |t|); }
  }

  lemma {:induction false} BackslashStep(units: seq<nat>, t: string, c: char)
    requires InBody(units, Backslash, t)
    ensures c == 'u' ==> InBody(units, Hex(0, 0), t + [c])
    ensures c != 'u' && Escaped(c).Some? ==> IsBody(units + [Escaped(c).value], t + [c])
  {
    hide IsBody;
    var s, n := t + [c], |t|;
    assert s[..n - 1] == t[..n - 1];
    if c == 'u' {
      assert s[n + 1..] == [];
    } else if Escaped(c).Some? {
      assert s[n - 1..] == ['\\', c];
      PieceEnds(units, Escaped(c).value, s, n - 1);
    }
  }

  lemma {:induction false} HexStep(units: seq<nat>, count: nat, code: nat, t: string, c: char)
    requires InBody(units, Hex(count, code), t) && HexDigit(c).Some?
    ensures
      var next := code * 16 + HexDigit(c).value;
      if count == 3 then IsBody(units + [next], t + [c]) else InBody(units, Hex(count + 1, next), t + [c])
  {
    hide IsBody, HexText, HexDigit;
    var s, k := t + [c], |t| - count - 2;
    assert s[..k] == t[..k] && s[k + 2..] == t[k + 2..] + [c];
    HexGrows(t[k + 2..], code, c);
    if count == 3 {
      assert s[k..][2..] == s[k + 2..];
      PieceEnds(units, code * 16 + HexDigit(c).value, s, k);
    }
  }

  lemma {:induction false} HexGrows(t: string, code: nat, c: char)
    requires HexText(t, code) && HexDigit(c).Some?
    ensures HexText(t + [c], code * 16 + HexDigit(c).value)
  {
    var d := HexDigit(c).value;
    HexIff(c, d);
    assert (t + [c])[..|t|] == t;
    assert (code * 16 + d) / 16 == code && (code * 16 + d) % 16 == d;
  }

  /** A string body read on from `units`; None where the string is rejected or closed. */
  function Body(units: seq<nat>, esc: Escape, text: string): Option<(seq<nat>, Escape)>
    decreases |text|
  {
    if text == [] then Some((units, esc))
    else
      match Body(units, esc, text[..|text| - 1])
      case None => None
      case Some((before, esc')) =>
        match StringStep(before, esc', text[|text| - 1])
        case More(after, esc'') => Some((after, esc''))
        case _ => None
  }

  lemma {:induction false} BodyNext(text: string, n: nat)
    requires n < |text|
    ensures Body([], Plain, text[..n + 1]) ==
      match Body([], Plain, text[..n])
      case None => None
      case Some((before, esc)) =>
        match StringStep(before, esc, text[n])
        case More(after, esc') => Some((after, esc'))
        case _ => None
  {
    hide StringStep;
    assert text[..n + 1][..n] == text[..n];
  }

  lemma {:induction false} HexReads(units: seq<nat>, text: string, k: nat, m: nat, code: nat)
    requires k + 2 + m <= |text| && m <= 3 && Body([], Plain, text[..k]) == Some((units, Plain))
    requires text[k] == '\\' && text[k + 1] == 'u' && HexText(text[k + 2..k + 2 + m], code)
    ensures Body([], Plain, text[..k + 2 + m]) == Some((units, Hex(m, code)))
    decreases m
  {
    hide Body, HexDigit, Escaped;
    var n := k + 2 + m;
    if m == 0 {
      BodyNext(text, k);
      BodyNext(text, k + 1);
    } else {
      assert text[k + 2..n][..m - 1] == text[k + 2..n - 1] && text[k + 2..n][m - 1] == text[n - 1];
      HexReads(units, text, k, m - 1, code / 16);
      HexIff(text[n - 1], code % 16);
      BodyNext(text, n - 1);
    }
  }

  lemma {:induction false} BodyReads(units: seq<nat>, t: string)
    requires IsBody(units, t)
    ensures Body([], Plain, t) == Some((units, Plain))
    decreases |units|
  {
    hide IsPiece, StringStep;
    if units != [] {
      var m := |units| - 1;
      var k :| 0 <= k <= |t| && IsBody(units[..m], t[..k]) && IsPiece(units[m], t[k..]);
      BodyReads(units[..m], t[..k]);
      PieceReads(units[..m], units[m], t, k);
      assert units[..m] + [units[m]] == units;
    }
  }

  lemma {:induction false} PieceReads(units: seq<nat>, u: nat, t: string, k: nat)
    requires k <= |t| && Body([], Plain, t[..k]) == Some((units, Plain)) && IsPiece(u, t[k..])
    ensures Body([], Plain, t) == Some((units + [u], Plain))
  {
    hide Body, HexDigit, HexText;
    var n := |t| - 1;
    assert t[..|t|] == t && t[k..][0] == t[k];
    BodyNext(t, k);
    if n > k {
      assert t[k..][1] == t[k + 1];
      if n == k + 1 { BodyNext(t, n); } else { UnicodeReads(units, u, t, k); }
    }
  }

  lemma {:induction false} UnicodeReads(units: seq<nat>, u: nat, t: string, k: nat)
    requires k + 6 == |t| && Body([], Plain, t[..k]) == Some((units, Plain))
    requires t[k] == '\\' && t[k + 1] == 'u' && HexText(t[k..][2..], u)
    ensures Body([], Plain, t) == Some((units + [u], Plain))
  {
    hide Body, HexDigit;
    var n := |t| - 1;
    assert t[..|t|] == t && t[k..][2..] == t[k + 2..];
    assert t[k + 2..][..3] == t[k + 2..k + 5] && t[k + 2..][3] == t[n];
    HexReads(units, t, k, 3, u / 16);
    HexIff(t[n], u % 16);
    BodyNext(t, n);
  }

  lemma {:induction false} TextRuns(ctx: Ctx, text: string)
    requires Body([], Plain, text).Some?
    ensures Run(Text([], Plain, ctx), text) ==
      Some(Text(Body([], Plain, text).value.0, Body([], Plain, text).value.1, ctx))
    decreases |text|
  {
    if text != [] { TextRuns(ctx, text[..|text| - 1]); }
  }

  lemma {:induction false} KeyTextRuns(members: seq<Member>, ctx: Ctx, text: string)
    requires Body([], Plain, text).Some?
    ensures Run(KeyText(members, [], Plain, ctx), text) ==
      Some(KeyText(members, Body([], Plain, text).value.0, Body([], Plain, text).value.1, ctx))
    decreases |text|
  {
    if text != [] { KeyTextRuns(members, ctx, text[..|text| - 1]); }
  }

  // ---------------------------------------------------------------------------
  // Values
  // ---------------------------------------------------------------------------

  /** The text of a value, without white space around it. */
  ghost predicate IsText(v: Value, t: string)
    decreases |t|, 0
  {
    var n := |t| - 1;
    match v
    case Null => t == "null"
    case Bool(b) => t == if b then "true" else "false"
    case Num(lexeme) => t == lexeme && IsNumber(t)
    case Str(units) => IsString(units, t)
    case Arr(items) =>
      n >= 1 && t[0] == '[' && t[n] == ']' && if items == [] then Spaces(t[1..n]) else Listed(items, t[1..n])
    case Obj(members) =>
      n >= 1 && t[0] == '{' && t[n] == '}' && if members == [] then Spaces(t[1..n]) else MembersListed(members, t[1..n])
  }

  ghost predicate PaddedAt(v: Value, t: string, i: nat, j: nat)
    requires i <= j <= |t|
    decreases |t|, 1
  {
    Spaces(t[..i]) && IsText(v, t[i..j]) && Spaces(t[j..])
  }

  ghost predicate Padded(v: Value, t: string)
    decreases |t|, 2
  {
    exists i, j :: 0 <= i <= j <= |t| && PaddedAt(v, t, i, j)
  }

  ghost predicate ListedAt(items: seq<Value>, t: string, k: nat)
    requires |items| > 1 && k < |t|
    decreases |t|, 3
  {
    var n := |items| - 1;
    t[k] == ',' && Listed(items[..n], t[..k]) && Padded(items[n], t[k + 1..])
  }

  /** Values with commas between them. */
  ghost predicate Listed(items: seq<Value>, t: string)
    decreases |t|, 4
  {
    if |items| <= 1 then items != [] && Padded(items[0], t)
    else exists k :: 0 <= k < |t| && ListedAt(items, t, k)
  }

  predicate KeyAt(key: seq<nat>, t: string, i: nat, j: nat)
    requires i <= j <= |t|
  {
    Spaces(t[..i]) && IsString(key, t[i..j]) && Spaces(t[j..])
  }

  predicate PaddedKey(key: seq<nat>, t: string) {
    exists i, j :: 0 <= i <= j <= |t| && KeyAt(key, t, i, j)
  }

  ghost predicate MemberAt(m: Member, t: string, k: nat)
    requires k < |t|
    decreases |t|, 3
  {
    t[k] == ':' && PaddedKey(m.key, t[..k]) && Padded(m.value, t[k + 1..])
  }

  ghost predicate IsMember(m: Member, t: string)
    decreases |t|, 4
  {
    exists k :: 0 <= k < |t| && MemberAt(m, t, k)
  }

  ghost predicate MembersListedAt(members: seq<Member>, t: string, k: nat)
    requires |members| > 1 && k < |t|
    decreases |t|, 5
  {
    var n := |members| - 1;
    t[k] == ',' && MembersListed(members[..n], t[..k]) && IsMember(members[n], t[k + 1..])
  }

  ghost predicate MembersListed(members: seq<Member>, t: string)
    decreases |t|, 6
  {
    if |members| <= 1 then members != [] && IsMember(members[0], t)
    else exists k :: 0 <= k < |t| && MembersListedAt(members, t, k)
  }
}
