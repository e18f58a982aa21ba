/**
 The character loop of `csvRows` (scripts/benchmarks/merlin-catalogs.ts) against the
 records of RFC 4180, section 2: it accepts exactly the texts that render some rows, with
 CR, LF or CRLF between records, and it returns those rows, within its budgets.
 */
module Csv {
  import opened Wrappers

  const MAX_ROW := 64
  const MAX_ROWS := 10_000
  const BOM: char := '\U{FEFF}'

  /** The loop's variables. */
  datatype Reader = Reader(rows: seq<seq<string>>, row: seq<string>, cell: string, quoted: bool, closed: bool) {
    function EndCell(): Reader {
      this.(row := row + [cell], cell := "", closed := false)
    }

    function EndRow(): Reader {
      Reader(rows + [row + [cell]], [], "", quoted, false)
    }

    predicate Over() {
      |row| > MAX_ROW || |rows| > MAX_ROWS
    }
  }

  datatype Outcome = Rows(rows: seq<seq<string>>) | MalformedQuoting | OverBudget | Unterminated

  datatype Turn = Reject | Take(next: Reader, used: nat)

  predicate StartsWith(text: string, c: char) {
    text != [] && text[0] == c
  }

  /** One turn of the loop; CRLF and a doubled quote take two characters. */
  function ReadOne(s: Reader, text: string): (t: Turn)
    requires text != []
    ensures t.Take? ==> 1 <= t.used <= |text|
  {
    var c := text[0];
    var rest := text[1..];
    if s.quoted then
      if c == '"' && StartsWith(rest, '"') then Take(s.(cell := s.cell + "\""), 2)
      else if c == '"' then Take(s.(quoted := false, closed := true), 1)
      else Take(s.(cell := s.cell + [c]), 1)
    else if c == ',' then Take(s.EndCell(), 1)
    else if c == '\r' || c == '\n' then Take(s.EndRow(), if c == '\r' && StartsWith(rest, '\n') then 2 else 1)
    else if c == '"' && s.cell == "" && !s.closed then Take(s.(quoted := true), 1)
    else if s.closed || c == '"' then Reject
    else Take(s.(cell := s.cell + [c]), 1)
  }

  /** The loop and the two checks after it. */
  function Read(s: Reader, text: string): Outcome
    decreases |text|
  {
    if text == [] then
      if s.quoted then Unterminated
      else if s.cell != "" || s.row != [] || s.closed then Rows(s.EndRow().rows)
      else Rows(s.rows)
    else
      match ReadOne(s, text)
      case Reject => MalformedQuoting
      case Take(next, used) => if next.Over() then OverBudget else Read(next, text[used..])
  }

  const START := Reader([], [], "", false, false)

  function Body(source: string): string {
    if source != [] && source[0] == BOM then source[1..] else source
  }

  /** The source is read as the rows it renders, after at most one byte-order mark; otherwise it is refused. */
  method CsvRows(source: string) returns (r: Outcome)
    ensures r == Read(START, Body(source))
    ensures forall d :: Rendering(d) && WrittenAs(source, d) ==>
      r == if WithinBudget(d) then Rows(Values(d)) else OverBudget
    ensures r.Rows? ==> exists d :: Rendering(d) && WrittenAs(source, d) && WithinBudget(d) && Values(d) == r.rows
  {
    hide Rendering, WithinBudget, Values, Render, EndsApart;
    SourceReads(source);
    var text := Body(source);
    var rows: seq<seq<string>>, row: seq<string>, cell, quoted, closed := [], [], "", false, false;
    var i := 0;
    while i < |text|
      invariant 0 <= i <= |text|
      invariant Read(START, text) == Read(Reader(rows, row, cell, quoted, closed), text[i..])
    {
      ghost var before := Reader(rows, row, cell, quoted, closed);
      ghost var start := i;
      var c := text[i];
      var more := i + 1 < |text|;
      assert text[i..][0] == c && (more ==> text[i..][1] == text[i + 1]);
      if quoted {
        if c == '"' && more && text[i + 1] == '"' { cell := cell + "\""; i := i + 1; }
        else if c == '"' { quoted, closed := false, true; }
        else { cell := cell + [c]; }
      } else if c == ',' {
        row, cell, closed := row + [cell], "", false;
      } else if c == '\r' || c == '\n' {
        rows, row, cell, closed := rows + [row + [cell]], [], "", false;
        if c == '\r' && more && text[i + 1] == '\n' { i := i + 1; }
      } else if c == '"' && cell == "" && !closed {
        quoted := true;
      } else {
        if closed || c == '"' { return MalformedQuoting; }
        cell := cell + [c];
      }
      i := i + 1;
      assert ReadOne(before, text[start..]) == Take(Reader(rows, row, cell, quoted, closed), i - start);
      assert text[start..][i - start..] == text[i..];
      if |row| > MAX_ROW || |rows| > MAX_ROWS { return OverBudget; }
    }
    if quoted { return Unterminated; }
    if cell != "" || row != [] || closed { rows := rows + [row + [cell]]; }
    r := Rows(rows);
  }

  // ---------------------------------------------------------------------------
  // Renderings of rows, RFC 4180 section 2
  // ---------------------------------------------------------------------------

  datatype Cell = Quoted(text: string) | Bare(text: string)

  datatype LineEnd = Cr | Lf | CrLf

  datatype Line = Line(cells: seq<Cell>, end: LineEnd)

  /** Terminated records, and the cells of a last record without a line end, if any. */
  datatype Doc = Doc(lines: seq<Line>, last: seq<Cell>)

  predicate Special(c: char) {
    c == '"' || c == ',' || c == '\r' || c == '\n'
  }

  predicate PlainText(t: string) {
    forall i :: 0 <= i < |t| ==> !Special(t[i])
  }

  predicate CellOk(c: Cell) {
    c.Bare? ==> PlainText(c.text)
  }

  function EscapeChar(c: char): string {
    if c == '"' then "\"\"" else [c]
  }

  function Escape(t: string): string {
    if t == [] then []
    else EscapeChar(t[0]) + Escape(t[1..])
  }

  function LineEndText(e: LineEnd): string {
    match e
    case Cr => "\r"
    case Lf => "\n"
    case CrLf => "\r\n"
  }

  function CellText(c: Cell, rest: string): string {
    match c
    case Bare(t) => t + rest
    case Quoted(t) => ['"'] + (Escape(t) + (['"'] + rest))
  }

  function CellsText(cells: seq<Cell>, rest: string): string
    requires cells != []
  {
    CellText(cells[0], if |cells| == 1 then rest else [','] + CellsText(cells[1..], rest))
  }

  function LinesText(lines: seq<Line>, rest: string): string
    requires forall i :: 0 <= i < |lines| ==> lines[i].cells != []
  {
    if lines == [] then rest
    else CellsText(lines[0].cells, LineEndText(lines[0].end) + LinesText(lines[1..], rest))
  }

  predicate LineOk(l: Line) {
    l.cells != [] && forall i :: 0 <= i < |l.cells| ==> CellOk(l.cells[i])
  }

  /** A lone CR is not followed by LF: that pair is one line end. */
  predicate EndsApart(lines: seq<Line>, rest: string)
    requires forall i :: 0 <= i < |lines| ==> lines[i].cells != []
  {
    lines != [] ==>
      && (lines[0].end.Cr? ==> !StartsWith(LinesText(lines[1..], rest), '\n'))
      && EndsApart(lines[1..], rest)
  }

  /** Bare cells hold no special character, and an empty last record is not written at all. */
  predicate Rendering(d: Doc) {
    && (forall i :: 0 <= i < |d.lines| ==> LineOk(d.lines[i]))
    && (forall i :: 0 <= i < |d.last| ==> CellOk(d.last[i]))
    && d.last != [Bare("")]
    && EndsApart(d.lines, LastText(d.last))
  }

  function LastText(cells: seq<Cell>): string {
    if cells == [] then [] else CellsText(cells, [])
  }

  function Render(d: Doc): string
    requires forall i :: 0 <= i < |d.lines| ==> d.lines[i].cells != []
  {
    LinesText(d.lines, LastText(d.last))
  }

  /** The rendering behind a byte-order mark, or alone if it does not look like that. */
  predicate WrittenAs(source: string, d: Doc)
    requires forall i :: 0 <= i < |d.lines| ==> d.lines[i].cells != []
  {
    source == ['\U{FEFF}'] + Render(d) || (source == Render(d) && !StartsWith(source, '\U{FEFF}'))
  }

  function CellValues(cells: seq<Cell>): (r: seq<string>)
    ensures |r| == |cells|
  {
    if cells == [] then [] else [cells[0].text] + CellValues(cells[1..])
  }

  function LineValues(lines: seq<Line>): (r: seq<seq<string>>)
    ensures |r| == |lines|
  {
    if lines == [] then [] else [CellValues(lines[0].cells)] + LineValues(lines[1..])
  }

  function Values(d: Doc): seq<seq<string>> {
    LineValues(d.lines) + if d.last == [] then [] else [CellValues(d.last)]
  }

  predicate Narrow(lines: seq<Line>) {
    forall i :: 0 <= i < |lines| ==> |lines[i].cells| <= MAX_ROW + 1
  }

  /** The budgets as the loop really checks them: a record may have one cell more than 64. */
  predicate WithinBudget(d: Doc) {
    && Narrow(d.lines)
    && |d.last| <= MAX_ROW + 1
    && |d.lines| <= MAX_ROWS
  }

  // ---------------------------------------------------------------------------
  // Every rendering reads back to its rows
  // ---------------------------------------------------------------------------

  predicate Fresh(s: Reader) {
    s.cell == "" && !s.quoted && !s.closed && !s.Over()
  }

  lemma {:induction false} ReadStep(s: Reader, text: string, next: Reader, used: nat)
    requires text != [] && ReadOne(s, text) == Take(next, used)
    ensures Read(s, text) == if next.Over() then OverBudget else Read(next, text[used..])
  {
  }

  lemma {:induction false} BareReads(s: Reader, t: string, rest: string)
    requires PlainText(t) && !s.quoted && !s.closed && !s.Over()
    ensures Read(s, t + rest) == Read(s.(cell := s.cell + t), rest)
    decreases |t|
  {
    if t == [] {
      assert t + rest == rest && s.cell + t == s.cell;
    } else {
      var next := s.(cell := s.cell + [t[0]]);
      ReadStep(s, t + rest, next, 1);
      assert (t + rest)[1..] == t[1..] + rest;
      BareReads(next, t[1..], rest);
      HeadMoves(s.cell, t);
    }
  }

  lemma {:induction false} QuotedReads(s: Reader, t: string, rest: string)
    requires s.quoted && !s.closed && !s.Over() && !StartsWith(rest, '"')
    ensures Read(s, Escape(t) + (['"'] + rest)) == Read(s.(cell := s.cell + t, quoted := false, closed := true), rest)
    decreases |t|
  {
    var tail := ['"'] + rest;
    if t == [] {
      assert Escape(t) + tail == tail;
      assert tail[1..] == rest;
      ReadStep(s, tail, s.(quoted := false, closed := true), 1);
      assert s.cell + t == s.cell;
    } else {
      var next := s.(cell := s.cell + [t[0]]);
      EscapeSplits(t, tail);
      QuotedStep(s, t[0], Escape(t[1..]) + tail);
      QuotedReads(next, t[1..], rest);
      HeadMoves(s.cell, t);
    }
  }

  lemma {:induction false} EscapeSplits(t: string, tail: string)
    requires t != []
    ensures Escape(t) + tail == EscapeChar(t[0]) + (Escape(t[1..]) + tail)
  {
  }

  lemma {:induction false} QuotedStep(s: Reader, c: char, more: string)
    requires s.quoted && !s.Over()
    ensures Read(s, EscapeChar(c) + more) == Read(s.(cell := s.cell + [c]), more)
  {
    var text, used := EscapeChar(c) + more, |EscapeChar(c)|;
    assert text[used..] == more;
    if c == '"' { assert text[1..][0] == '"'; }
    ReadStep(s, text, s.(cell := s.cell + [c]), used);
  }

  lemma {:induction false} CellReads(s: Reader, c: Cell, rest: string)
    requires Fresh(s) && CellOk(c) && !StartsWith(rest, '"')
    ensures Read(s, CellText(c, rest)) == Read(s.(cell := c.text, closed := c.Quoted?), rest)
  {
    match c
    case Bare(t) =>
      BareReads(s, t, rest);
      assert s.cell + t == t;
    case Quoted(t) =>
      var tail := Escape(t) + (['"'] + rest);
      ReadStep(s, ['"'] + tail, s.(quoted := true), 1);
      assert (['"'] + tail)[1..] == tail;
      QuotedReads(s.(quoted := true), t, rest);
      assert s.cell + t == t;
  }

  /** The reader once the cells of a record are read and its line end is not. */
  function Pending(s: Reader, cells: seq<Cell>): Reader
    requires cells != []
  {
    var values := CellValues(cells);
    s.(row := s.row + values[..|cells| - 1], cell := values[|cells| - 1], closed := cells[|cells| - 1].Quoted?)
  }

  lemma {:induction false} CellsRead(s: Reader, cells: seq<Cell>, rest: string)
    requires Fresh(s) && cells != [] && forall i :: 0 <= i < |cells| ==> CellOk(cells[i])
    requires rest == [] || rest[0] == '\r' || rest[0] == '\n'
    ensures Read(s, CellsText(cells, rest)) ==
      if |s.row| + |cells| > MAX_ROW + 1 then OverBudget else Read(Pending(s, cells), rest)
    decreases |cells|
  {
    var c := cells[0];
    if |cells| == 1 {
      CellReads(s, c, rest);
      assert s.row + CellValues(cells)[..0] == s.row;
    } else {
      var tail := CellsText(cells[1..], rest);
      CellReads(s, c, [','] + tail);
      var read := s.(cell := c.text, closed := c.Quoted?);
      ReadStep(read, [','] + tail, read.EndCell(), 1);
      assert ([','] + tail)[1..] == tail;
      if !read.EndCell().Over() {
        CellsRead(read.EndCell(), cells[1..], rest);
        PendingMoves(s, cells);
      }
    }
  }

  lemma {:induction false} PendingMoves(s: Reader, cells: seq<Cell>)
    requires |cells| > 1
    ensures Pending(s.(cell := cells[0].text, closed := cells[0].Quoted?).EndCell(), cells[1..]) == Pending(s, cells)
  {
    var values, rest := CellValues(cells), CellValues(cells[1..]);
    assert values == [cells[0].text] + rest;
    assert s.row + [cells[0].text] + rest[..|rest| - 1] == s.row + values[..|values| - 1];
  }

  lemma {:induction false} PendingEnds(s: Reader, cells: seq<Cell>)
    requires Fresh(s) && cells != []
    ensures Pending(s, cells).EndRow() == s.(rows := s.rows + [s.row + CellValues(cells)], row := [])
  {
    var values, n := CellValues(cells), |cells| - 1;
    assert s.row + values[..n] + [values[n]] == s.row + values;
  }

  lemma {:induction false} LineEndReads(s: Reader, e: LineEnd, rest: string)
    requires !s.quoted && !s.Over() && (e.Cr? ==> !StartsWith(rest, '\n'))
    ensures Read(s, LineEndText(e) + rest) == if s.EndRow().Over() then OverBudget else Read(s.EndRow(), rest)
  {
    var text := LineEndText(e) + rest;
    var used := |LineEndText(e)|;
    assert text[used..] == rest;
    assert text[1..] == LineEndText(e)[1..] + rest;
    ReadStep(s, text, s.EndRow(), used);
  }

  lemma {:induction false} LineReads(s: Reader, l: Line, rest: string)
    requires Fresh(s) && s.row == [] && LineOk(l) && (l.end.Cr? ==> !StartsWith(rest, '\n'))
    ensures Read(s, CellsText(l.cells, LineEndText(l.end) + rest)) ==
      if |l.cells| > MAX_ROW + 1 || |s.rows| + 1 > MAX_ROWS then OverBudget
      else Read(s.(rows := s.rows + [CellValues(l.cells)]), rest)
  {
    CellsRead(s, l.cells, LineEndText(l.end) + rest);
    if |l.cells| <= MAX_ROW + 1 {
      LineEndReads(Pending(s, l.cells), l.end, rest);
      PendingEnds(s, l.cells);
      assert [] + CellValues(l.cells) == CellValues(l.cells);
    }
  }

  lemma {:induction false} LastReads(s: Reader, cells: seq<Cell>)
    requires Fresh(s) && s.row == [] && cells != [Bare("")] && forall i :: 0 <= i < |cells| ==> CellOk(cells[i])
    ensures Read(s, LastText(cells)) ==
      if |cells| > MAX_ROW + 1 then OverBudget
      else Rows(s.rows + if cells == [] then [] else [CellValues(cells)])
  {
    if cells == [] {
      assert s.rows + [] == s.rows;
    } else {
      CellsRead(s, cells, []);
      if |cells| <= MAX_ROW + 1 {
        PendingEnds(s, cells);
        assert [] + CellValues(cells) == CellValues(cells);
      }
    }
  }

  lemma {:induction false} NarrowSplits(lines: seq<Line>)
    requires lines != []
    ensures Narrow(lines) <==> |lines[0].cells| <= MAX_ROW + 1 && Narrow(lines[1..])
  {
    assert lines == [lines[0]] + lines[1..];
  }

  lemma {:induction false} LinesRead(s: Reader, d: Doc)
    requires Fresh(s) && s.row == [] && Rendering(d)
    ensures Read(s, Render(d)) ==
      if Narrow(d.lines) && |d.last| <= MAX_ROW + 1 && |s.rows| + |d.lines| <= MAX_ROWS
      then Rows(s.rows + Values(d)) else OverBudget
    decreases |d.lines|
  {
    if d.lines == [] {
      LastReads(s, d.last);
      assert Values(d) == if d.last == [] then [] else [CellValues(d.last)];
    } else {
      var l, rest := d.lines[0], d.(lines := d.lines[1..]);
      NarrowSplits(d.lines);
      LineReads(s, l, Render(rest));
      if |l.cells| <= MAX_ROW + 1 && |s.rows| + 1 <= MAX_ROWS {
        LinesRead(s.(rows := s.rows + [CellValues(l.cells)]), rest);
        ValuesSplit(s.rows, d);
      }
    }
  }

  lemma {:induction false} ValuesSplit(rows: seq<seq<string>>, d: Doc)
    requires d.lines != []
    ensures rows + [CellValues(d.lines[0].cells)] + Values(d.(lines := d.lines[1..])) == rows + Values(d)
  {
    var first, rest := CellValues(d.lines[0].cells), d.(lines := d.lines[1..]);
    assert Values(d) == [first] + Values(rest);
  }

  /** Reading a rendering gives back its rows, with and without a byte-order mark, exactly within the budgets. */
  lemma {:induction false} RenderReads(d: Doc, source: string)
    requires Rendering(d) && WrittenAs(source, d)
    ensures Read(START, Body(source)) == if WithinBudget(d) then Rows(Values(d)) else OverBudget
  {
    LinesRead(START, d);
    assert [] + Values(d) == Values(d);
    assert Body(source) == Render(d);
  }

  /** The quoted printing of RFC 4180, with any choice of line ends. */
  function QuotedDoc(rows: seq<seq<string>>, ends: seq<LineEnd>): Doc
    requires |ends| == |rows|
  {
    Doc(seq(|rows|, i requires 0 <= i < |rows| => Line(QuoteAll(rows[i]), ends[i])), [])
  }

  function QuoteAll(row: seq<string>): seq<Cell> {
    seq(|row|, i requires 0 <= i < |row| => Quoted(row[i]))
  }

  lemma {:induction false} QuoteAllValues(row: seq<string>)
    ensures CellValues(QuoteAll(row)) == row
    decreases |row|
  {
    if row != [] {
      assert QuoteAll(row)[1..] == QuoteAll(row[1..]);
      QuoteAllValues(row[1..]);
    }
  }

  lemma {:induction false} QuotedDocRenders(rows: seq<seq<string>>, ends: seq<LineEnd>)
    requires |ends| == |rows| && forall i :: 0 <= i < |rows| ==> rows[i] != []
    ensures Rendering(QuotedDoc(rows, ends)) && Values(QuotedDoc(rows, ends)) == rows
    ensures !StartsWith(Render(QuotedDoc(rows, ends)), '\n') && !StartsWith(Render(QuotedDoc(rows, ends)), BOM)
    decreases |rows|
  {
    var d := QuotedDoc(rows, ends);
    if rows != [] {
      var rest := QuotedDoc(rows[1..], ends[1..]);
      assert d.lines[1..] == rest.lines;
      QuotedDocRenders(rows[1..], ends[1..]);
      QuoteAllValues(rows[0]);
      assert Values(d) == [rows[0]] + Values(rest);
      assert d.lines[0].cells[0] == Quoted(rows[0][0]);
    }
  }

  /**
   Any rows, each with at least one cell, quoted and separated by any mix of CR, LF and
   CRLF, read back as they are; the budgets are met exactly up to 65 cells and 10000 rows.
   */
  lemma {:induction false} QuotedRoundTrip(rows: seq<seq<string>>, ends: seq<LineEnd>)
    requires |ends| == |rows| && forall i :: 0 <= i < |rows| ==> rows[i] != []
    ensures
      var d := QuotedDoc(rows, ends);
      Read(START, Body(Render(d))) ==
        if |rows| <= 10_000 && (forall i :: 0 <= i < |rows| ==> |rows[i]| <= 65) then Rows(rows)
        else OverBudget
  {
    var d := QuotedDoc(rows, ends);
    QuotedDocRenders(rows, ends);
    RenderReads(d, Render(d));
    assert forall i :: 0 <= i < |rows| ==> |d.lines[i].cells| == |rows[i]|;
  }

  // ---------------------------------------------------------------------------
  // Every accepted text is a rendering
  // ---------------------------------------------------------------------------

  /** Complete cells of a record that goes on. */
  function OpenText(cells: seq<Cell>, rest: string): string {
    if cells == [] then rest else CellText(cells[0], [','] + OpenText(cells[1..], rest))
  }

  /** What the current cell was read from, and the text still to come. */
  function CurrentText(s: Reader, rest: string): string {
    if s.quoted then ['"'] + (Escape(s.cell) + rest)
    else if s.closed then CellText(Quoted(s.cell), rest)
    else s.cell + rest
  }

  function Current(s: Reader): Cell {
    if s.closed then Quoted(s.cell) else Bare(s.cell)
  }

  /** What has been read so far, as a rendering in progress of the whole text. */
  ghost predicate InProgress(whole: string, lines: seq<Line>, cells: seq<Cell>, s: Reader, text: string) {
    var here := OpenText(cells, CurrentText(s, text));
    && (forall i :: 0 <= i < |lines| ==> LineOk(lines[i]))
    && (forall i :: 0 <= i < |cells| ==> CellOk(cells[i]))
    && (!s.quoted ==> CellOk(Current(s)))
    && (s.quoted ==> !s.closed)
    && whole == LinesText(lines, here)
    && EndsApart(lines, here)
    && s.rows == LineValues(lines)
    && s.row == CellValues(cells)
  }

  lemma {:induction false} OpenTextAppend(cells: seq<Cell>, c: Cell, rest: string)
    ensures OpenText(cells + [c], rest) == OpenText(cells, CellText(c, [','] + rest))
    ensures CellsText(cells + [c], rest) == OpenText(cells, CellText(c, rest))
    ensures CellValues(cells + [c]) == CellValues(cells) + [c.text]
    decreases |cells|
  {
    if cells != [] {
      OpenTextAppend(cells[1..], c, rest);
      assert (cells + [c])[1..] == cells[1..] + [c];
    }
  }

  lemma {:induction false} LinesTextAppend(lines: seq<Line>, l: Line, rest: string)
    requires l.cells != [] && forall i :: 0 <= i < |lines| ==> lines[i].cells != []
    ensures LinesText(lines + [l], rest) == LinesText(lines, CellsText(l.cells, LineEndText(l.end) + rest))
    ensures EndsApart(lines + [l], rest) <==>
      EndsApart(lines, CellsText(l.cells, LineEndText(l.end) + rest)) && (l.end.Cr? ==> !StartsWith(rest, '\n'))
    ensures LineValues(lines + [l]) == LineValues(lines) + [CellValues(l.cells)]
    decreases |lines|
  {
    if lines != [] {
      LinesTextAppend(lines[1..], l, rest);
      assert (lines + [l])[1..] == lines[1..] + [l];
    }
  }

  lemma {:induction false} EscapeAppend(t: string, c: char, rest: string)
    ensures Escape(t + [c]) + rest == Escape(t) + (EscapeChar(c) + rest)
    decreases |t|
  {
    if t != [] {
      EscapeAppend(t[1..], c, rest);
      assert (t + [c])[1..] == t[1..] + [c];
      EscapeSplits(t + [c], rest);
      EscapeSplits(t, EscapeChar(c) + rest);
    } else {
      assert Escape([c]) == EscapeChar(c) + [];
    }
  }

  /** A turn inside a cell keeps the rendering in progress. */
  lemma {:induction false} CharacterKeeps(s: Reader, text: string, next: Reader, used: nat)
    requires text != [] && ReadOne(s, text) == Take(next, used)
    requires s.quoted || (text[0] != ',' && text[0] != '\r' && text[0] != '\n')
    requires s.quoted ==> !s.closed
    ensures CurrentText(next, text[used..]) == CurrentText(s, text)
    ensures next.rows == s.rows && next.row == s.row && (next.quoted ==> !next.closed)
    ensures !next.quoted && (s.quoted || CellOk(Current(s))) ==> CellOk(Current(next))
  {
    var c, rest := text[0], text[1..];
    if s.quoted && (c != '"' || StartsWith(rest, '"')) {
      EscapeAppend(s.cell, c, text[used..]);
      assert text == EscapeChar(c) + text[used..];
    } else if s.quoted {
      assert text == ['"'] + rest;
    } else if c == '"' {
      assert s.cell + text == ['"'] + (Escape("") + rest);
    } else {
      assert s.cell + text == (s.cell + [c]) + rest;
    }
  }

  lemma {:induction false} CellEnds(s: Reader, text: string)
    requires !s.quoted
    ensures CurrentText(s, text) == CellText(Current(s), text)
  {
  }

  lemma {:induction false} CommaKeeps(whole: string, lines: seq<Line>, cells: seq<Cell>, s: Reader, rest: string)
    requires InProgress(whole, lines, cells, s, [','] + rest) && !s.quoted
    ensures InProgress(whole, lines, cells + [Current(s)], s.EndCell(), rest)
  {
    CellEnds(s, [','] + rest);
    OpenTextAppend(cells, Current(s), rest);
    assert CurrentText(s.EndCell(), rest) == rest;
  }

  lemma {:induction false} LineEndKeeps(whole: string, lines: seq<Line>, cells: seq<Cell>, s: Reader, e: LineEnd,
      rest: string)
    requires InProgress(whole, lines, cells, s, LineEndText(e) + rest) && !s.quoted
    requires e.Cr? ==> !StartsWith(rest, '\n')
    ensures InProgress(whole, lines + [Line(cells + [Current(s)], e)], [], s.EndRow(), rest)
  {
    CellEnds(s, LineEndText(e) + rest);
    OpenTextAppend(cells, Current(s), LineEndText(e) + rest);
    LinesTextAppend(lines, Line(cells + [Current(s)], e), rest);
    assert CurrentText(s.EndRow(), rest) == rest;
  }

  /** The whole of one accepted text, given the part already read. */
  lemma {:induction false} AcceptedFrom(whole: string, lines: seq<Line>, cells: seq<Cell>, s: Reader, text: string)
    returns (d: Doc)
    requires InProgress(whole, lines, cells, s, text) && Read(s, text).Rows?
    ensures Rendering(d) && Render(d) == whole && Read(s, text) == Rows(Values(d))
    decreases |text|
  {
    if text == [] {
      d := AcceptedEnd(whole, lines, cells, s);
    } else {
      var next, used := ReadOne(s, text).next, ReadOne(s, text).used;
      var c, rest := text[0], text[used..];
      if s.quoted || (c != ',' && c != '\r' && c != '\n') {
        CharacterKeeps(s, text, next, used);
        d := AcceptedFrom(whole, lines, cells, next, rest);
      } else if c == ',' {
        assert text == [','] + rest;
        CommaKeeps(whole, lines, cells, s, rest);
        d := AcceptedFrom(whole, lines, cells + [Current(s)], next, rest);
      } else {
        var e := if used == 2 then CrLf else if c == '\r' then Cr else Lf;
        assert text == LineEndText(e) + rest;
        LineEndKeeps(whole, lines, cells, s, e, rest);
        d := AcceptedFrom(whole, lines + [Line(cells + [Current(s)], e)], [], next, rest);
      }
    }
  }

  lemma {:induction false} AcceptedEnd(whole: string, lines: seq<Line>, cells: seq<Cell>, s: Reader) returns (d: Doc)
    requires InProgress(whole, lines, cells, s, []) && Read(s, []).Rows?
    ensures Rendering(d) && Render(d) == whole && Read(s, []) == Rows(Values(d))
  {
    CellEnds(s, []);
    OpenTextAppend(cells, Current(s), []);
    if s.cell == "" && s.row == [] && !s.closed {
      assert OpenText(cells, CurrentText(s, [])) == [];
      d := Doc(lines, []);
      assert Values(d) == s.rows;
    } else {
      var last := cells + [Current(s)];
      d := Doc(lines, last);
      assert Values(d) == s.rows + [s.row + [s.cell]];
    }
  }

  lemma {:induction false} AcceptedSource(source: string) returns (d: Doc)
    requires Read(START, Body(source)).Rows?
    ensures Rendering(d) && WrittenAs(source, d) && WithinBudget(d) && Read(START, Body(source)) == Rows(Values(d))
  {
    var text := Body(source);
    assert source == [BOM] + text || (source == text && !StartsWith(source, BOM));
    d := AcceptedFrom(text, [], [], START, text);
    RenderReads(d, source);
  }

  /** What the reading of a source is, in terms of what the source renders. */
  lemma {:induction false} SourceReads(source: string)
    ensures forall d :: Rendering(d) && WrittenAs(source, d) ==>
      Read(START, Body(source)) == if WithinBudget(d) then Rows(Values(d)) else OverBudget
    ensures Read(START, Body(source)).Rows? ==>
      exists d :: Rendering(d) && WrittenAs(source, d) && WithinBudget(d) && Values(d) == Read(START, Body(source)).rows
  {
    forall d | Rendering(d) && WrittenAs(source, d)
      ensures Read(START, Body(source)) == if WithinBudget(d) then Rows(Values(d)) else OverBudget
    {
      RenderReads(d, source);
    }
    if Read(START, Body(source)).Rows? { var d := AcceptedSource(source); }
  }

  /**
   A text is accepted exactly when it renders some rows within the budgets, and those
   are the rows returned.
   */
  lemma {:induction false} AcceptsRenderings(source: string, rows: seq<seq<string>>)
    ensures Read(START, Body(source)) == Rows(rows) <==>
      exists d :: Rendering(d) && WrittenAs(source, d) && WithinBudget(d) && Values(d) == rows
  {
    if Read(START, Body(source)) == Rows(rows) {
      var d := AcceptedSource(source);
    }
    if d :| Rendering(d) && WrittenAs(source, d) && WithinBudget(d) && Values(d) == rows {
      RenderReads(d, source);
    }
  }
}
