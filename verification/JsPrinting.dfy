/** The texts that write a matrix of strings, and the proof that the parser reads them back. */
module JsPrinting {
  import opened Wrappers
  import opened JsArray
  import Spaces = Text

  predicate Blank(w: string) {
    forall i :: 0 <= i < |w| ==> IsBlank(w[i])
  }

  /** `enc` is a way to write `text` between quotes: any character may be escaped, two must be. */
  predicate Encodes(text: string, enc: string)
    decreases |enc|
  {
    if enc == "" then text == ""
    else if enc[0] == '\\' then
      |enc| >= 2 && text != "" && text[0] == Unescape(enc[1]) && Encodes(text[1..], enc[2..])
    else
      enc[0] != '"' && text != "" && text[0] == enc[0] && Encodes(text[1..], enc[1..])
  }

  /** A run of characters that is read as a bare cell. */
  predicate Bareword(raw: string) {
    && (forall i :: 0 <= i < |raw| ==> raw[i] != ',' && raw[i] != ']')
    && (raw != "" ==> raw[0] != '"' && raw[0] != '[' && !IsBlank(raw[0]))
  }

  /** A cell as written: blanks, then a quoted encoding and blanks, or a bare word that is trimmed. */
  datatype PrintedCell =
    | Quoted(before: string, text: string, enc: string, after: string)
    | Bare(before: string, raw: string)
  {
    predicate Valid() {
      && Blank(before)
      && match this
         case Quoted(_, text, enc, after) => Blank(after) && Encodes(text, enc)
         case Bare(_, raw) => Bareword(raw)
    }

    /** Nothing but blanks: this counts as a cell only before a comma. */
    predicate Empty() {
      Bare? && raw == ""
    }

    function Value(): string {
      match this
      case Quoted(_, text, _, _) => text
      case Bare(_, raw) => Spaces.TrimSpace(raw)
    }

    function Text(): string {
      match this
      case Quoted(before, _, enc, after) => before + ("\"" + (enc + ("\"" + after)))
      case Bare(before, raw) => before + raw
    }
  }

  /** A row as written: `comma` says whether a comma follows the last cell, `pad` what stands before the bracket. */
  datatype PrintedRow = PrintedRow(before: string, cells: seq<PrintedCell>, comma: bool, pad: string, after: string) {
    predicate Valid() {
      Blank(before) && Blank(after) && ValidCells(cells, comma, pad)
    }

    function Text(): string {
      before + ("[" + (CellsText(cells, comma, pad) + ("]" + after)))
    }

    function Values(): seq<string> {
      CellValues(cells)
    }
  }

  datatype PrintedMatrix = PrintedMatrix(before: string, rows: seq<PrintedRow>, comma: bool, pad: string) {
    predicate Valid() {
      Blank(before) && ValidRows(rows, comma, pad)
    }

    function Text(): string {
      before + ("[" + (RowsText(rows, comma, pad) + "]"))
    }

    function Values(): seq<seq<string>> {
      RowValues(rows)
    }
  }

  predicate ValidCells(cells: seq<PrintedCell>, comma: bool, pad: string) {
    && Blank(pad) && (forall i :: 0 <= i < |cells| ==> cells[i].Valid())
    && (if cells == [] then !comma else comma || (pad == "" && !cells[|cells| - 1].Empty()))
  }

  predicate ValidRows(rows: seq<PrintedRow>, comma: bool, pad: string) {
    && Blank(pad) && (forall i :: 0 <= i < |rows| ==> rows[i].Valid())
    && (if rows == [] then !comma else comma || pad == "")
  }

  /** Cells with commas between them, perhaps one after the last, and blanks. */
  function CellsText(cells: seq<PrintedCell>, comma: bool, pad: string): string {
    if cells == [] then pad
    else cells[0].Text() + (if |cells| > 1 || comma then "," + CellsText(cells[1..], comma, pad) else pad)
  }

  function RowsText(rows: seq<PrintedRow>, comma: bool, pad: string): string {
    if rows == [] then pad
    else rows[0].Text() + (if |rows| > 1 || comma then "," + RowsText(rows[1..], comma, pad) else pad)
  }

  function CellValues(cells: seq<PrintedCell>): seq<string> {
    seq(|cells|, i requires 0 <= i < |cells| => cells[i].Value())
  }

  function RowValues(rows: seq<PrintedRow>): seq<seq<string>> {
    seq(|rows|, i requires 0 <= i < |rows| => rows[i].Values())
  }

  // Reading at an offset.

  /** `w` is written in `s` at offset i. */
  predicate At(s: string, i: nat, w: string) {
    i + |w| <= |s| && s[i..i + |w|] == w
  }

  lemma Split(s: string, i: nat, u: string, v: string)
    requires At(s, i, u + v)
    ensures At(s, i, u) && At(s, i + |u|, v)
  {
    assert s[i..i + |u|] == (u + v)[..|u|];
    assert s[i + |u|..i + |u| + |v|] == (u + v)[|u|..];
  }

  lemma SplitChar(s: string, i: nat, c: char, v: string)
    requires At(s, i, [c] + v)
    ensures i < |s| && s[i] == c && At(s, i + 1, v)
  {
    Split(s, i, [c], v);
    assert s[i] == s[i..i + 1][0];
  }

  lemma {:induction false} BlanksAreSkipped(s: string, i: nat, w: string)
    requires At(s, i, w) && Blank(w)
    requires i + |w| < |s| && !IsBlank(s[i + |w|])
    ensures SkipBlanks(s, i) == i + |w|
    decreases |w|
  {
    if w != "" {
      assert w == [w[0]] + w[1..];
      SplitChar(s, i, w[0], w[1..]);
      BlanksAreSkipped(s, i + 1, w[1..]);
    }
  }

  lemma {:induction false} BodyIsRead(s: string, i: nat, text: string, enc: string, b: string)
    requires At(s, i, enc) && Encodes(text, enc) && i + |enc| < |s| && s[i + |enc|] == '"'
    ensures StringBody(s, i, b) == Ok((b + text, i + |enc| + 1))
    decreases |enc|
  {
    if enc == "" {
      assert b + text == b;
    } else {
      assert enc == [enc[0]] + enc[1..];
      SplitChar(s, i, enc[0], enc[1..]);
      assert b + [text[0]] + text[1..] == b + text;
      if enc[0] == '\\' {
        assert enc[1..] == [enc[1]] + enc[2..];
        SplitChar(s, i + 1, enc[1], enc[2..]);
        BodyIsRead(s, i + 2, text[1..], enc[2..], b + [text[0]]);
      } else {
        BodyIsRead(s, i + 1, text[1..], enc[1..], b + [text[0]]);
      }
    }
  }

  /** What is read as a string was written as an encoding of it, quote included. */
  lemma {:induction false} BodyWasWritten(s: string, i: nat, b: string)
    requires i <= |s| && StringBody(s, i, b).Ok?
    ensures var (v, j) := StringBody(s, i, b).value;
            && i < j <= |s| && s[j - 1] == '"'
            && b <= v && Encodes(v[|b|..], s[i..j - 1])
    decreases |s| - i
  {
    var (v, j) := StringBody(s, i, b).value;
    if s[i] == '\\' {
      BodyWasWritten(s, i + 2, b + [Unescape(s[i + 1])]);
      assert s[i..j - 1][2..] == s[i + 2..j - 1];
      assert v[|b|..][1..] == v[|b| + 1..];
    } else if s[i] != '"' {
      BodyWasWritten(s, i + 1, b + [s[i]]);
      assert s[i..j - 1][1..] == s[i + 1..j - 1];
      assert v[|b|..][1..] == v[|b| + 1..];
    }
  }

  predicate ClosesAt(s: string, e: nat) {
    e < |s| && (s[e] == ',' || s[e] == ']')
  }

  lemma SkipNothing(s: string, i: nat)
    requires i <= |s| && (i < |s| ==> !IsBlank(s[i]))
    ensures SkipBlanks(s, i) == i
  {
  }

  lemma AtomIsRead(s: string, k: nat, text: string, enc: string)
    requires k < |s| && s[k] == '"' && At(s, k + 1, enc) && Encodes(text, enc)
    requires k + 1 + |enc| < |s| && s[k + 1 + |enc|] == '"'
    ensures Atom(s, k) == Ok((text, k + 2 + |enc|))
  {
    SkipNothing(s, k);
    BodyIsRead(s, k + 1, text, enc, "");
    assert "" + text == text;
  }

  lemma {:induction false} BarewordEnds(s: string, i: nat, raw: string)
    requires At(s, i, raw) && ClosesAt(s, i + |raw|) && forall i :: 0 <= i < |raw| ==> raw[i] != ',' && raw[i] != ']'
    ensures AtomEnd(s, i) == i + |raw|
    decreases |raw|
  {
    if raw != "" {
      assert raw == [raw[0]] + raw[1..];
      SplitChar(s, i, raw[0], raw[1..]);
      BarewordEnds(s, i + 1, raw[1..]);
    }
  }

  lemma AtomOfBare(s: string, k: nat, raw: string)
    requires k <= |s| && SkipBlanks(s, k) == k && AtomEnd(s, k) == k + |raw| && s[k..AtomEnd(s, k)] == raw
    requires Peek(s, k) != '"' && Peek(s, k) != '['
    ensures Atom(s, k) == Ok((Spaces.TrimSpace(raw), k + |raw|))
  {
    hide AtomEnd, SkipBlanks, StringBody, Spaces.TrimSpace, Peek;
  }

  lemma BareStarts(s: string, k: nat, raw: string)
    requires At(s, k, raw) && Bareword(raw) && ClosesAt(s, k + |raw|)
    ensures !IsBlank(s[k]) && s[k] != '"' && s[k] != '[' && (raw == "" || s[k] != ']')
  {
    if raw != "" {
      assert s[k] == s[k..k + |raw|][0];
    }
  }

  lemma BareAtomIsRead(s: string, k: nat, raw: string)
    requires At(s, k, raw) && Bareword(raw) && ClosesAt(s, k + |raw|)
    ensures Blank("") && Atom(s, k) == Ok((Spaces.TrimSpace(raw), k + |raw|))
    ensures !IsBlank(s[k]) && s[k] != '"' && s[k] != '[' && (raw == "" || s[k] != ']')
  {
    BareStarts(s, k, raw);
    BarewordEnds(s, k, raw);
    assert s[k..k + |raw|] == raw;
    hide Atom, AtomEnd, SkipBlanks, Spaces.TrimSpace, Bareword, IsBlank;
    SkipNothing(s, k);
    AtomOfBare(s, k, raw);
  }

  /** Where the parts of a quoted cell written at offset i stand. */
  lemma QuotedParts(s: string, i: nat, c: PrintedCell)
    requires c.Quoted? && At(s, i, c.Text())
    ensures At(s, i, c.before)
    ensures var k := i + |c.before|;
            && k < |s| && s[k] == '"' && At(s, k + 1, c.enc)
            && k + 1 + |c.enc| < |s| && s[k + 1 + |c.enc|] == '"'
            && At(s, k + 2 + |c.enc|, c.after) && i + |c.Text()| == k + 2 + |c.enc| + |c.after|
  {
    hide At;
    var k := i + |c.before|;
    Split(s, i, c.before, "\"" + (c.enc + ("\"" + c.after)));
    SplitChar(s, k, '"', c.enc + ("\"" + c.after));
    Split(s, k + 1, c.enc, "\"" + c.after);
    SplitChar(s, k + 1 + |c.enc|, '"', c.after);
  }

  /** A cell is read up to the comma or bracket that ends it. */
  lemma QuotedIsRead(s: string, i: nat, c: PrintedCell, row: seq<string>)
    requires c.Quoted? && At(s, i, c.Text()) && c.Valid() && ClosesAt(s, i + |c.Text()|)
    ensures var e := i + |c.Text()|;
            Cells(s, i, row) == if s[e] == ',' then Cells(s, e + 1, row + [c.Value()]) else Ok((row + [c.Value()], e + 1))
  {
    hide At, Atom, SkipBlanks, Cells, Blank, Encodes, PrintedCell.Text;
    QuotedParts(s, i, c);
    var k := i + |c.before|;
    AtomIsRead(s, k, c.text, c.enc);
    AtomBetweenBlanks(s, i, c.before, c.text, k + 2 + |c.enc|, c.after, row);
  }

  lemma AtomBetweenBlanks(s: string, i: nat, before: string, value: string, j: nat, after: string, row: seq<string>)
    requires Blank(before) && At(s, i, before) && i + |before| < |s|
    requires !IsBlank(s[i + |before|]) && s[i + |before|] != ']'
    requires Atom(s, i + |before|) == Ok((value, j)) && j <= |s| && Blank(after) && At(s, j, after) && ClosesAt(s, j + |after|)
    ensures var e := j + |after|;
            Cells(s, i, row) == if s[e] == ',' then Cells(s, e + 1, row + [value]) else Ok((row + [value], e + 1))
  {
    hide At, Atom, SkipBlanks, Cells, Blank;
    BlanksAreSkipped(s, i, before);
    BlanksAreSkipped(s, j, after);
    CellsStep(s, i, row);
  }

  lemma BareParts(s: string, i: nat, c: PrintedCell)
    requires c.Bare? && At(s, i, c.Text())
    ensures At(s, i, c.before) && At(s, i + |c.before|, c.raw) && |c.Text()| == |c.before| + |c.raw|
  {
    hide At;
    Split(s, i, c.before, c.raw);
  }

  lemma BareIsRead(s: string, i: nat, c: PrintedCell, row: seq<string>)
    requires c.Bare? && At(s, i, c.Text()) && c.Valid() && ClosesAt(s, i + |c.Text()|)
    requires c.Empty() ==> s[i + |c.Text()|] == ','
    ensures var e := i + |c.Text()|;
            Cells(s, i, row) == if s[e] == ',' then Cells(s, e + 1, row + [c.Value()]) else Ok((row + [c.Value()], e + 1))
  {
    hide At, Atom, SkipBlanks, Cells, Blank, Bareword, ClosesAt, PrintedCell.Text, Spaces.TrimSpace;
    BareParts(s, i, c);
    var e := i + |c.Text()|;
    BareAtomIsRead(s, i + |c.before|, c.raw);
    NothingAt(s, e);
    AtomBetweenBlanks(s, i, c.before, c.Value(), e, "", row);
  }

  lemma NothingAt(s: string, e: nat)
    requires ClosesAt(s, e)
    ensures At(s, e, "") && e < |s| && (s[e] == ',' || s[e] == ']')
  {
  }

  lemma CellIsRead(s: string, i: nat, c: PrintedCell, row: seq<string>)
    requires At(s, i, c.Text()) && c.Valid() && ClosesAt(s, i + |c.Text()|)
    requires c.Empty() ==> s[i + |c.Text()|] == ','
    ensures var e := i + |c.Text()|;
            Cells(s, i, row) == if s[e] == ',' then Cells(s, e + 1, row + [c.Value()]) else Ok((row + [c.Value()], e + 1))
  {
    hide *;
    if c.Quoted? {
      QuotedIsRead(s, i, c, row);
    } else {
      BareIsRead(s, i, c, row);
    }
  }

  lemma PadIsRead(s: string, i: nat, pad: string, row: seq<string>)
    requires At(s, i, pad) && Blank(pad) && i + |pad| < |s| && s[i + |pad|] == ']'
    ensures Cells(s, i, row) == Ok((row, i + |pad| + 1))
  {
    hide At, Cells;
    BlanksAreSkipped(s, i, pad);
    CellsStep(s, i, row);
  }

  lemma {:induction false} CellsAreRead(s: string, i: nat, cells: seq<PrintedCell>, comma: bool, pad: string, row: seq<string>)
    requires ValidCells(cells, comma, pad) && At(s, i, CellsText(cells, comma, pad))
    requires i + |CellsText(cells, comma, pad)| < |s| && s[i + |CellsText(cells, comma, pad)|] == ']'
    ensures Cells(s, i, row) == Ok((row + CellValues(cells), i + |CellsText(cells, comma, pad)| + 1))
    decreases |cells|
  {
    hide At, Cells, CellsText, ValidCells, PrintedCell.Text, PrintedCell.Valid, PrintedCell.Value, PrintedCell.Empty;
    if cells == [] {
      NoCells(comma, pad);
      PadIsRead(s, i, pad, row);
      assert row + CellValues(cells) == row;
    } else {
      var c, rest := cells[0], cells[1..];
      var e := i + |c.Text()|;
      assert [c.Value()] + CellValues(rest) == CellValues(cells);
      if |cells| > 1 || comma {
        MoreCells(cells, comma, pad);
        var more := CellsText(rest, comma && rest != [], pad);
        Split(s, i, c.Text(), "," + more);
        SplitChar(s, e, ',', more);
        CellIsRead(s, i, c, row);
        CellsAreRead(s, e + 1, rest, comma && rest != [], pad, row + [c.Value()]);
        assert row + [c.Value()] + CellValues(rest) == row + CellValues(cells);
      } else {
        LastCell(cells, comma, pad);
        CellIsRead(s, i, c, row);
        assert row + [c.Value()] == row + CellValues(cells);
      }
    }
  }

  lemma NoCells(comma: bool, pad: string)
    ensures CellsText([], comma, pad) == pad && (ValidCells([], comma, pad) ==> Blank(pad))
  {
  }

  lemma LastCell(cells: seq<PrintedCell>, comma: bool, pad: string)
    requires |cells| == 1 && !comma && ValidCells(cells, comma, pad)
    ensures cells[0].Valid() && !cells[0].Empty() && CellsText(cells, comma, pad) == cells[0].Text()
  {
    hide PrintedCell.Text, PrintedCell.Valid, PrintedCell.Empty;
    assert cells[0].Text() + pad == cells[0].Text();
  }

  /** What follows the first comma is itself a list of cells. */
  lemma MoreCells(cells: seq<PrintedCell>, comma: bool, pad: string)
    requires cells != [] && (|cells| > 1 || comma) && ValidCells(cells, comma, pad)
    ensures var rest := cells[1..];
            && cells[0].Valid() && ValidCells(rest, comma && rest != [], pad)
            && CellsText(cells, comma, pad) == cells[0].Text() + ("," + CellsText(rest, comma && rest != [], pad))
  {
    hide PrintedCell.Text, PrintedCell.Valid;
  }

  /** Where the parts of a row written at offset i stand. */
  lemma RowParts(s: string, i: nat, r: PrintedRow, inside: string)
    requires At(s, i, r.Text()) && inside == CellsText(r.cells, r.comma, r.pad)
    ensures At(s, i, r.before)
    ensures var k := i + |r.before|;
            && k < |s| && s[k] == '[' && At(s, k + 1, inside)
            && k + 1 + |inside| < |s| && s[k + 1 + |inside|] == ']'
            && At(s, k + 2 + |inside|, r.after) && i + |r.Text()| == k + 2 + |inside| + |r.after|
  {
    hide At, CellsText;
    var k := i + |r.before|;
    Split(s, i, r.before, "[" + (inside + ("]" + r.after)));
    SplitChar(s, k, '[', inside + ("]" + r.after));
    Split(s, k + 1, inside, "]" + r.after);
    SplitChar(s, k + 1 + |inside|, ']', r.after);
  }

  lemma RowOpens(s: string, k: nat)
    requires k < |s| && s[k] == '['
    ensures Row(s, k) == Cells(s, k + 1, [])
  {
    hide Cells;
    SkipNothing(s, k);
  }

  lemma RowCoreIsRead(s: string, k: nat, r: PrintedRow, inside: string)
    requires r.Valid() && inside == CellsText(r.cells, r.comma, r.pad)
    requires k < |s| && s[k] == '[' && At(s, k + 1, inside) && k + 1 + |inside| < |s| && s[k + 1 + |inside|] == ']'
    ensures Row(s, k) == Ok((r.Values(), k + 2 + |inside|))
  {
    hide Row, Cells, At, CellsText, ValidCells, CellValues;
    RowOpens(s, k);
    CellsAreRead(s, k + 1, r.cells, r.comma, r.pad, []);
    assert [] + r.Values() == r.Values();
  }

  lemma RowIsRead(s: string, i: nat, r: PrintedRow, rows: seq<seq<string>>)
    requires At(s, i, r.Text()) && r.Valid() && ClosesAt(s, i + |r.Text()|)
    ensures var e := i + |r.Text()|;
            Rows(s, i, rows) == if s[e] == ',' then Rows(s, e + 1, rows + [r.Values()]) else Ok((rows + [r.Values()], e + 1))
  {
    hide *;
    var inside := CellsText(r.cells, r.comma, r.pad);
    RowParts(s, i, r, inside);
    RowCoreIsRead(s, i + |r.before|, r, inside);
    SpacedRowIsRead(s, i, r, i + |r.before| + 2 + |inside|, rows);
  }

  lemma SpacedRowIsRead(s: string, i: nat, r: PrintedRow, j: nat, rows: seq<seq<string>>)
    requires r.Valid() && At(s, i, r.before) && i + |r.before| < |s| && s[i + |r.before|] == '['
    requires j <= |s| && Row(s, i + |r.before|) == Ok((r.Values(), j)) && At(s, j, r.after) && ClosesAt(s, j + |r.after|)
    ensures var e := j + |r.after|;
            Rows(s, i, rows) == if s[e] == ',' then Rows(s, e + 1, rows + [r.Values()]) else Ok((rows + [r.Values()], e + 1))
  {
    hide At, Row, Rows, SkipBlanks, ValidCells, PrintedRow.Values, Blank;
    BlanksAreSkipped(s, i, r.before);
    BlanksAreSkipped(s, j, r.after);
    RowsStep(s, i, rows);
  }

  lemma PadEndsRows(s: string, i: nat, pad: string, rows: seq<seq<string>>)
    requires At(s, i, pad) && Blank(pad) && i + |pad| < |s| && s[i + |pad|] == ']'
    ensures Rows(s, i, rows) == Ok((rows, i + |pad| + 1))
  {
    hide At, Rows;
    BlanksAreSkipped(s, i, pad);
    RowsStep(s, i, rows);
  }

  lemma MoreRows(rows: seq<PrintedRow>, comma: bool, pad: string)
    requires rows != [] && (|rows| > 1 || comma) && ValidRows(rows, comma, pad)
    ensures var rest := rows[1..];
            && rows[0].Valid() && ValidRows(rest, comma && rest != [], pad)
            && RowsText(rows, comma, pad) == rows[0].Text() + ("," + RowsText(rest, comma && rest != [], pad))
  {
    hide PrintedRow.Text, PrintedRow.Valid;
  }

  lemma {:induction false} RowsAreRead(s: string, i: nat, printed: seq<PrintedRow>, comma: bool, pad: string, rows: seq<seq<string>>)
    requires ValidRows(printed, comma, pad) && At(s, i, RowsText(printed, comma, pad))
    requires i + |RowsText(printed, comma, pad)| < |s| && s[i + |RowsText(printed, comma, pad)|] == ']'
    ensures Rows(s, i, rows) == Ok((rows + RowValues(printed), i + |RowsText(printed, comma, pad)| + 1))
    decreases |printed|
  {
    hide At, Rows, RowsText, ValidRows, PrintedRow.Text, PrintedRow.Valid, PrintedRow.Values;
    if printed == [] {
      NoRows(comma, pad);
      PadEndsRows(s, i, pad, rows);
      assert rows + RowValues(printed) == rows;
    } else {
      var r, rest := printed[0], printed[1..];
      var e := i + |r.Text()|;
      assert [r.Values()] + RowValues(rest) == RowValues(printed);
      if |printed| > 1 || comma {
        MoreRows(printed, comma, pad);
        var more := RowsText(rest, comma && rest != [], pad);
        Split(s, i, r.Text(), "," + more);
        SplitChar(s, e, ',', more);
        RowIsRead(s, i, r, rows);
        RowsAreRead(s, e + 1, rest, comma && rest != [], pad, rows + [r.Values()]);
        assert rows + [r.Values()] + RowValues(rest) == rows + RowValues(printed);
      } else {
        LastRow(printed, comma, pad);
        RowIsRead(s, i, r, rows);
        assert rows + [r.Values()] == rows + RowValues(printed);
      }
    }
  }

  lemma NoRows(comma: bool, pad: string)
    ensures RowsText([], comma, pad) == pad && (ValidRows([], comma, pad) ==> Blank(pad))
  {
  }

  lemma LastRow(rows: seq<PrintedRow>, comma: bool, pad: string)
    requires |rows| == 1 && !comma && ValidRows(rows, comma, pad)
    ensures rows[0].Valid() && RowsText(rows, comma, pad) == rows[0].Text()
  {
    hide PrintedRow.Text, PrintedRow.Valid;
    assert rows[0].Text() + pad == rows[0].Text();
  }

  /** A printed matrix, whatever follows it, is read back with the cursor after its last bracket. */
  lemma {:induction false} MatrixRoundTrip(m: PrintedMatrix, tail: string)
    requires m.Valid()
    ensures Matrix(m.Text() + tail, 0) == Ok((m.Values(), |m.Text()|))
  {
    var s, inside := m.Text() + tail, RowsText(m.rows, m.comma, m.pad);
    ValidMatrix(m);
    hide *;
    AtStart(m.Text(), tail);
    MatrixParts(s, m, inside);
    MatrixOpens(s, m.before);
    RowsAreRead(s, |m.before| + 1, m.rows, m.comma, m.pad, []);
  }

  lemma ValidMatrix(m: PrintedMatrix)
    ensures m.Valid() ==> Blank(m.before) && ValidRows(m.rows, m.comma, m.pad)
    ensures [] + RowValues(m.rows) == m.Values()
  {
  }

  lemma AtStart(u: string, v: string)
    ensures At(u + v, 0, u)
  {
  }

  lemma MatrixParts(s: string, m: PrintedMatrix, inside: string)
    requires At(s, 0, m.Text()) && inside == RowsText(m.rows, m.comma, m.pad)
    ensures var k := |m.before|;
            && At(s, 0, m.before) && k < |s| && s[k] == '[' && At(s, k + 1, inside)
            && k + 1 + |inside| < |s| && s[k + 1 + |inside|] == ']' && |m.Text()| == k + 2 + |inside|
  {
    hide At, RowsText;
    var k := |m.before|;
    Split(s, 0, m.before, "[" + (inside + "]"));
    SplitChar(s, k, '[', inside + "]");
    Split(s, k + 1, inside, "]");
    assert "]" == [']'] + "";
    SplitChar(s, k + 1 + |inside|, ']', "");
  }

  lemma MatrixOpens(s: string, before: string)
    requires Blank(before) && At(s, 0, before) && |before| < |s| && s[|before|] == '['
    ensures Matrix(s, 0) == Rows(s, |before| + 1, [])
  {
    hide At, Rows;
    BlanksAreSkipped(s, 0, before);
  }

  // Every matrix has such a text.

  /** The usual escapes, by name where there is one. */
  function Escape(text: string): string {
    if text == "" then ""
    else
      (match text[0]
       case '\n' => "\\n"
       case '\r' => "\\r"
       case '\t' => "\\t"
       case '"' => "\\\""
       case '\\' => "\\\\"
       case c => [c]) + Escape(text[1..])
  }

  lemma {:induction false} EscapeEncodes(text: string)
    ensures Encodes(text, Escape(text))
  {
    if text != "" {
      EscapeEncodes(text[1..]);
      var enc := Escape(text);
      if text[0] in "\n\r\t\"\\" {
        assert enc[2..] == Escape(text[1..]);
      } else {
        assert enc[1..] == Escape(text[1..]);
      }
    }
  }

  /** Any other character may be escaped and stands for itself. */
  lemma OtherEscapes(c: char)
    requires c !in "nrt"
    ensures Encodes([c], ['\\', c])
  {
  }

  function Plain(m: seq<seq<string>>): PrintedMatrix {
    PrintedMatrix("", seq(|m|, i requires 0 <= i < |m| => PlainRow(m[i])), false, "")
  }

  function PlainRow(row: seq<string>): PrintedRow {
    PrintedRow("", seq(|row|, i requires 0 <= i < |row| => Quoted("", row[i], Escape(row[i]), "")), false, "", "")
  }

  /** The plain text of any matrix reads back as that matrix. */
  lemma {:induction false} PlainRoundTrip(m: seq<seq<string>>, tail: string)
    ensures Matrix(Plain(m).Text() + tail, 0) == Ok((m, |Plain(m).Text()|))
  {
    var p := Plain(m);
    forall i | 0 <= i < |m|
      ensures p.rows[i].Valid() && p.rows[i].Values() == m[i]
    {
      var row := PlainRow(m[i]);
      forall k | 0 <= k < |m[i]|
        ensures row.cells[k].Valid()
      {
        EscapeEncodes(m[i][k]);
      }
      assert row.Values() == m[i];
    }
    assert p.Values() == m;
    MatrixRoundTrip(p, tail);
  }
}
