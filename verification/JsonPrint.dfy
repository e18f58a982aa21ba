/**
 Printing JSON values without white space, as `JSON.stringify` does: every printable value
 has a text, and the reader of `Json` reads it back.
 */
module JsonPrint {
  import opened Wrappers
  import opened Json
  import opened JsonGrammar
  import opened JsonParses

  function HexChar(d: nat): char
    requires d < 16
  {
    if d < 10 then ('0' as int + d) as char else ('a' as int + d - 10) as char
  }

  /** A code unit inside a string: itself where section 7 allows, else a \u escape. */
  function PrintUnit(u: nat): string
    requires u < 0x10000
  {
    if 32 <= u < 127 && u != 34 && u != 92 then [u as char]
    else ['\\', 'u', HexChar(u / 4096), HexChar(u / 256 % 16), HexChar(u / 16 % 16), HexChar(u % 16)]
  }

  predicate Units(units: seq<nat>) {
    forall i :: 0 <= i < |units| ==> units[i] < 0x10000
  }

  function PrintUnits(units: seq<nat>): string
    requires Units(units)
  {
    if units == [] then []
    else PrintUnits(units[..|units| - 1]) + PrintUnit(units[|units| - 1])
  }

  function PrintString(units: seq<nat>): string
    requires Units(units)
  {
    ['"'] + PrintUnits(units) + ['"']
  }

  /** Numbers are number lexemes and strings are 16-bit code units, all the way down. */
  ghost predicate Printable(v: Value)
    decreases v
  {
    match v
    case Num(lexeme) => IsNumber(lexeme)
    case Str(units) => Units(units)
    case Arr(items) => forall i :: 0 <= i < |items| ==> Printable(items[i])
    case Obj(members) => forall i :: 0 <= i < |members| ==> Units(members[i].key) && Printable(members[i].value)
    case _ => true
  }

  ghost function Print(v: Value): string
    requires Printable(v)
    decreases v, 1, 0
  {
    match v
    case Null => "null"
    case Bool(b) => if b then "true" else "false"
    case Num(lexeme) => lexeme
    case Str(units) => PrintString(units)
    case Arr(items) => ['['] + PrintItems(items, v) + [']']
    case Obj(members) => ['{'] + PrintMembers(members, v) + ['}']
  }

  ghost function PrintItems(items: seq<Value>, whole: Value): string
    requires forall i :: 0 <= i < |items| ==> items[i] < whole && Printable(items[i])
    decreases whole, 0, |items|
  {
    if items == [] then []
    else if |items| == 1 then Print(items[0])
    else PrintItems(items[..|items| - 1], whole) + [','] + Print(items[|items| - 1])
  }

  ghost function PrintMember(m: Member, whole: Value): string
    requires m < whole && Units(m.key) && Printable(m.value)
    decreases whole, 0, 0
  {
    PrintString(m.key) + [':'] + Print(m.value)
  }

  ghost function PrintMembers(members: seq<Member>, whole: Value): string
    requires forall i :: 0 <= i < |members| ==>
      members[i] < whole && Units(members[i].key) && Printable(members[i].value)
    decreases whole, 0, |members|
  {
    if members == [] then []
    else if |members| == 1 then PrintMember(members[0], whole)
    else PrintMembers(members[..|members| - 1], whole) + [','] + PrintMember(members[|members| - 1], whole)
  }

  // ---------------------------------------------------------------------------
  // What is printed is in the grammar
  // ---------------------------------------------------------------------------

  lemma {:induction false} UnitIsPiece(u: nat)
    requires u < 0x10000
    ensures IsPiece(u, PrintUnit(u))
  {
    hide HexText, HexChar;
    if !(32 <= u < 127 && u != 34 && u != 92) {
      var a, b, c, d := HexChar(u / 4096), HexChar(u / 256 % 16), HexChar(u / 16 % 16), HexChar(u % 16);
      FourDigits(u, a, b, c, d);
      assert PrintUnit(u)[2..] == [a, b, c, d];
    }
  }

  lemma {:induction false} FourDigits(u: nat, a: char, b: char, c: char, d: char)
    requires u < 0x10000 && a == HexChar(u / 4096) && b == HexChar(u / 256 % 16)
    requires c == HexChar(u / 16 % 16) && d == HexChar(u % 16)
    ensures HexText([a, b, c, d], u)
  {
    hide HexText, HexChar, HexIs;
    Quarters(u);
    HexCharIs(u / 4096);
    HexCharIs(u / 256 % 16);
    HexCharIs(u / 16 % 16);
    HexCharIs(u % 16);
    HexDown([], a, 0, u / 16 / 16 / 16);
    HexDown([a], b, u / 16 / 16 / 16, u / 16 / 16);
    HexDown([a, b], c, u / 16 / 16, u / 16);
    HexDown([a, b, c], d, u / 16, u);
    NoDigits();
    assert [] + [a] == [a] && [a] + [b] == [a, b] && [a, b] + [c] == [a, b, c] && [a, b, c] + [d] == [a, b, c, d];
  }

  lemma {:induction false} NoDigits()
    ensures HexText([], 0)
  {
  }

  lemma {:induction false} Quarters(u: nat)
    requires u < 0x10000
    ensures u / 16 / 16 / 16 == u / 4096 < 16 && u / 16 / 16 == u / 256 && u / 4096 / 16 == 0
  {
  }

  lemma {:induction false} HexCharIs(d: nat)
    requires d < 16
    ensures HexIs(HexChar(d), d)
  {
    HexIff(HexChar(d), d);
  }

  lemma {:induction false} HexDown(t: string, c: char, before: nat, code: nat)
    requires code / 16 == before && HexIs(c, code % 16)
    ensures HexText(t, before) ==> HexText(t + [c], code)
  {
    hide HexIs;
    assert (t + [c])[..|t|] == t;
  }

  lemma {:induction false} UnitsAreBody(units: seq<nat>)
    requires Units(units)
    ensures IsBody(units, PrintUnits(units))
    decreases |units|
  {
    if units != [] {
      var n := |units| - 1;
      var before, t := PrintUnits(units[..n]), PrintUnits(units);
      UnitsAreBody(units[..n]);
      UnitIsPiece(units[n]);
      assert t[..|before|] == before && t[|before|..] == PrintUnit(units[n]);
    }
  }

  lemma {:induction false} StringIs(units: seq<nat>)
    requires Units(units)
    ensures IsString(units, PrintString(units))
  {
    UnitsAreBody(units);
    assert PrintString(units)[1..|PrintString(units)| - 1] == PrintUnits(units);
  }

  lemma {:induction false} Unpadded(v: Value, t: string)
    requires IsText(v, t)
    ensures Padded(v, t)
  {
    hide IsText;
    assert t[..0] == [] && t[0..] == t;
    PaddedBefore(v, t, 0);
  }

  lemma {:induction false} PrintIsText(v: Value)
    requires Printable(v)
    ensures IsText(v, Print(v))
    decreases v, 1, 0
  {
    var t := Print(v);
    match v
    case Str(units) => StringIs(units);
    case Arr(items) =>
      if items != [] { ItemsAreListed(items, v); }
      assert t[1..|t| - 1] == PrintItems(items, v);
    case Obj(members) =>
      if members != [] { MembersAreListed(members, v); }
      assert t[1..|t| - 1] == PrintMembers(members, v);
    case _ =>
  }

  lemma {:induction false} CommaBetween(items: seq<Value>, a: string, b: string)
    requires |items| > 1 && Listed(items[..|items| - 1], a) && Padded(items[|items| - 1], b)
    ensures Listed(items, a + [','] + b)
  {
    hide Padded;
    var t := a + [','] + b;
    assert t[..|a|] == a && t[|a| + 1..] == b;
    assert ListedAt(items, t, |a|);
  }

  lemma {:induction false} MemberCommaBetween(members: seq<Member>, a: string, b: string)
    requires |members| > 1 && MembersListed(members[..|members| - 1], a) && IsMember(members[|members| - 1], b)
    ensures MembersListed(members, a + [','] + b)
  {
    hide IsMember;
    var t := a + [','] + b;
    assert t[..|a|] == a && t[|a| + 1..] == b;
    assert MembersListedAt(members, t, |a|);
  }

  lemma {:induction false} OneItem(items: seq<Value>, t: string)
    requires |items| == 1 && Padded(items[0], t)
    ensures Listed(items, t)
  {
  }

  lemma {:induction false} OneMember(members: seq<Member>, t: string)
    requires |members| == 1 && IsMember(members[0], t)
    ensures MembersListed(members, t)
  {
  }

  lemma {:induction false} ItemsAreListed(items: seq<Value>, whole: Value)
    requires items != [] && forall i :: 0 <= i < |items| ==> items[i] < whole && Printable(items[i])
    ensures Listed(items, PrintItems(items, whole))
    decreases whole, 0, |items|
  {
    hide IsText, Padded, Listed;
    var n := |items| - 1;
    PrintIsText(items[n]);
    Unpadded(items[n], Print(items[n]));
    if n == 0 {
      OneItem(items, Print(items[0]));
    } else {
      ItemsAreListed(items[..n], whole);
      CommaBetween(items, PrintItems(items[..n], whole), Print(items[n]));
    }
  }

  lemma {:induction false} MemberIs(m: Member, whole: Value)
    requires m < whole && Units(m.key) && Printable(m.value)
    ensures IsMember(m, PrintMember(m, whole))
    decreases whole, 0, 0
  {
    hide IsText, Padded, IsString;
    PrintIsText(m.value);
    Unpadded(m.value, Print(m.value));
    StringIs(m.key);
    var t, k := PrintMember(m, whole), |PrintString(m.key)|;
    assert t[..k] == PrintString(m.key) && t[k + 1..] == Print(m.value);
    assert t[..k][..0] == [] && t[..k][0..k] == t[..k] && t[..k][k..] == [];
    assert KeyAt(m.key, t[..k], 0, k);
    assert MemberAt(m, t, k);
  }

  lemma {:induction false} MembersAreListed(members: seq<Member>, whole: Value)
    requires members != []
    requires forall i :: 0 <= i < |members| ==>
      members[i] < whole && Units(members[i].key) && Printable(members[i].value)
    ensures MembersListed(members, PrintMembers(members, whole))
    decreases whole, 0, |members|
  {
    hide IsMember, MembersListed;
    var n := |members| - 1;
    MemberIs(members[n], whole);
    if n == 0 {
      OneMember(members, PrintMember(members[0], whole));
    } else {
      MembersAreListed(members[..n], whole);
      MemberCommaBetween(members, PrintMembers(members[..n], whole), PrintMember(members[n], whole));
    }
  }

  /** Printing and reading back is the identity on every printable value. */
  lemma {:induction false} PrintParses(v: Value)
    requires Printable(v)
    ensures Parse(Print(v)) == Some(v)
  {
    PrintIsText(v);
    Unpadded(v, Print(v));
    ParsesIff(Print(v), v);
  }
}
