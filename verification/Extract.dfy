/**
 Recovering a JSON object from model output (packages/ai/src/extract.ts).

 The methods follow the two scanners of the source loop by loop. The functions beside
 them say what each loop has computed; `ExtractProofs` proves what the results mean.
 */
module Extract {
  import opened Wrappers
  import opened Json

  /** The scanner's variables after a text: `lastComma` is -1 until one is seen. */
  datatype Scanner = Scanner(inString: bool, escaped: bool, stack: string, lastComma: int)

  const ATTEMPTS: nat := 64

  /** White space for `trimEnd` and `\s`, a superset of JSON's four characters. */
  predicate IsJsSpace(c: char) {
    || IsSpace(c)
    || c in {'\U{000B}', '\U{000C}', '\U{00A0}', '\U{1680}', '\U{2028}', '\U{2029}', '\U{202F}', '\U{205F}',
        '\U{3000}', '\U{FEFF}'}
    || '\U{2000}' <= c <= '\U{200A}'
  }

  predicate Strippable(c: char) {
    c == ',' || c == ':' || IsJsSpace(c)
  }

  function TrimEnd(text: string): (r: string)
    ensures r <= text && (r == [] || !IsJsSpace(r[|r| - 1]))
    ensures forall i :: |r| <= i < |text| ==> IsJsSpace(text[i])
  {
    if text != [] && IsJsSpace(text[|text| - 1]) then TrimEnd(text[..|text| - 1]) else text
  }

  /** `replace(/[,:\s]+$/, "")` */
  function Strip(text: string): (r: string)
    ensures r <= text && (r == [] || !Strippable(r[|r| - 1]))
    ensures forall i :: |r| <= i < |text| ==> Strippable(text[i])
  {
    if text != [] && Strippable(text[|text| - 1]) then Strip(text[..|text| - 1]) else text
  }

  function ScanStep(s: Scanner, c: char, index: int): Scanner {
    if s.inString then
      if s.escaped then s.(escaped := false)
      else if c == '\\' then s.(escaped := true)
      else if c == '"' then s.(inString := false)
      else s
    else if c == '"' then s.(inString := true)
    else if c == '{' || c == '[' then s.(stack := s.stack + [c])
    else if c == '}' || c == ']' then s.(stack := if s.stack == [] then [] else s.stack[..|s.stack| - 1])
    else if c == ',' then s.(lastComma := index)
    else s
  }

  function Scan(text: string): (s: Scanner)
    ensures -1 <= s.lastComma < |text|
    ensures s.lastComma >= 0 ==> text[s.lastComma] == ','
  {
    if text == [] then Scanner(false, false, [], -1)
    else ScanStep(Scan(text[..|text| - 1]), text[|text| - 1], |text| - 1)
  }

  /** The brackets that close a stack, innermost first. */
  function Closers(stack: string): string {
    if stack == [] then []
    else [if stack[|stack| - 1] == '{' then '}' else ']'] + Closers(stack[..|stack| - 1])
  }

  /** The text one attempt hands to `JSON.parse`. */
  function Candidate(text: string): string {
    var s := Scan(text);
    var body :=
      if s.inString then (if s.escaped && text != [] then text[..|text| - 1] else text) + ['"']
      else Strip(text);
    body + Closers(s.stack)
  }

  /** The attempts, for whatever reader stands for `JSON.parse`. */
  function Attempts(parse: string -> Option<Value>, text: string, left: nat): Option<Value>
    decreases |text|
  {
    if left == 0 || |text| <= 1 then None
    else
      match parse(Candidate(text))
      case Some(v) => Some(v)
      case None =>
        if Scan(text).lastComma <= 0 then None
        else Attempts(parse, text[..Scan(text).lastComma], left - 1)
  }

  function IndexOf(text: string, c: char): (i: int)
    ensures i == -1 ==> c !in text
    ensures i != -1 ==> 0 <= i < |text| && text[i] == c && c !in text[..i]
  {
    if text == [] then -1
    else if text[0] == c then 0
    else
      var rest := IndexOf(text[1..], c);
      assert rest >= 0 ==> text[..rest + 1] == [text[0]] + text[1..][..rest];
      if rest == -1 then -1 else rest + 1
  }

  function Salvage(raw: string): Option<Value> {
    var start := IndexOf(raw, '{');
    if start < 0 then None else Attempts(Parse, TrimEnd(raw[start..]), ATTEMPTS)
  }

  method ScanText(text: string) returns (s: Scanner)
    ensures s == Scan(text)
  {
    var inString, escaped, stack, lastComma := false, false, [], -1;
    for index := 0 to |text|
      invariant Scanner(inString, escaped, stack, lastComma) == Scan(text[..index])
    {
      assert text[..index + 1][..index] == text[..index];
      var character := text[index];
      if inString {
        if escaped { escaped := false; }
        else if character == '\\' { escaped := true; }
        else if character == '"' { inString := false; }
        continue;
      }
      if character == '"' { inString := true; }
      else if character == '{' || character == '[' { stack := stack + [character]; }
      else if character == '}' || character == ']' { if |stack| > 0 { stack := stack[..|stack| - 1]; } }
      else if character == ',' { lastComma := index; }
    }
    assert text[..|text|] == text;
    s := Scanner(inString, escaped, stack, lastComma);
  }

  /** Closes the open string and the open containers of a text. */
  method CloseText(text: string, s: Scanner) returns (candidate: string)
    requires s == Scan(text)
    ensures candidate == Candidate(text)
  {
    hide Scan, Strip;
    if s.inString {
      candidate := if s.escaped && text != [] then text[..|text| - 1] else text;
      candidate := candidate + ['"'];
    } else {
      candidate := Strip(text);
    }
    ghost var body := candidate;
    assert s.stack[..|s.stack|] == s.stack;
    var index := |s.stack| - 1;
    while index >= 0
      invariant -1 <= index < |s.stack|
      invariant candidate + Closers(s.stack[..index + 1]) == body + Closers(s.stack)
    {
      assert s.stack[..index + 1][..index] == s.stack[..index];
      candidate := candidate + [if s.stack[index] == '{' then '}' else ']'];
      index := index - 1;
    }
  }

  method RepairLoop(parse: string -> Option<Value>, whole: string) returns (r: Option<Value>)
    ensures r == Attempts(parse, whole, 64)
  {
    var text, attempt := whole, 0;
    while attempt < ATTEMPTS && |text| > 1
      invariant 0 <= attempt <= ATTEMPTS
      invariant Attempts(parse, whole, ATTEMPTS) == Attempts(parse, text, ATTEMPTS - attempt)
    {
      var s := ScanText(text);
      var candidate := CloseText(text, s);
      match parse(candidate) {
        case Some(v) => return Some(v);
        case None =>
          if s.lastComma <= 0 { return None; }
          text := text[..s.lastComma];
      }
      attempt := attempt + 1;
    }
    r := None;
  }

  method SalvageTruncatedJson(raw: string) returns (r: Option<Value>)
    ensures r == Salvage(raw)
  {
    var start := IndexOf(raw, '{');
    if start < 0 { return None; }
    r := RepairLoop(Parse, TrimEnd(raw[start..]));
  }

  /** The variables of the balanced-object scan. */
  datatype Depth = Depth(depth: int, inString: bool, escaped: bool)

  function DepthStep(s: Depth, c: char): Depth {
    if s.inString then
      if s.escaped then s.(escaped := false)
      else if c == '\\' then s.(escaped := true)
      else if c == '"' then s.(inString := false)
      else s
    else if c == '"' then s.(inString := true)
    else if c == '{' then s.(depth := s.depth + 1)
    else if c == '}' then s.(depth := s.depth - 1)
    else s
  }

  /** The index just after the brace that brings the depth back to zero, or -1. */
  function BalancedEnd(text: string, index: nat, s: Depth): (end: int)
    requires index <= |text|
    ensures end == -1 || index < end <= |text|
    decreases |text| - index
  {
    if index == |text| then -1
    else
      var next := DepthStep(s, text[index]);
      if !s.inString && text[index] == '}' && next.depth == 0 then index + 1
      else BalancedEnd(text, index + 1, next)
  }

  function FirstBalanced(text: string): Option<string> {
    var start := IndexOf(text, '{');
    if start < 0 then None
    else
      var end := BalancedEnd(text, start, Depth(0, false, false));
      if end == -1 then None else Some(text[start..end])
  }

  method FirstBalancedObject(text: string) returns (r: Option<string>)
    ensures r == FirstBalanced(text)
  {
    var start := IndexOf(text, '{');
    if start < 0 { return None; }
    var depth, inString, escaped := 0, false, false;
    for index := start to |text|
      invariant BalancedEnd(text, start, Depth(0, false, false)) == BalancedEnd(text, index,
          Depth(depth, inString, escaped))
    {
      var character := text[index];
      if inString {
        if escaped { escaped := false; }
        else if character == '\\' { escaped := true; }
        else if character == '"' { inString := false; }
        continue;
      }
      if character == '"' { inString := true; }
      else if character == '{' { depth := depth + 1; }
      else if character == '}' {
        depth := depth - 1;
        if depth == 0 { return Some(text[start..index + 1]); }
      }
    }
    r := None;
  }
}
