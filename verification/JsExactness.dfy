/** The parser accepts exactly the texts that begin with a written matrix; where it does not, it says why. */
module JsExactness {
  import opened Wrappers
  import opened JsArray
  import opened JsPrinting
  import Spaces = Text

  lemma {:induction false} SkippedIsBlank(s: string, i: nat)
    requires i <= |s|
    ensures forall k :: i <= k < SkipBlanks(s, i) ==> IsBlank(s[k])
    ensures SkipBlanks(s, i) < |s| ==> !IsBlank(s[SkipBlanks(s, i)])
    ensures Blank(s[i..SkipBlanks(s, i)])
    decreases |s| - i
  {
    hide IsBlank;
    if i < |s| && IsBlank(s[i]) {
      SkippedIsBlank(s, i + 1);
    }
  }

  /** Only spaces, tabs, line feeds and carriage returns are skipped, and all of them. */
  lemma SkipMeaning(s: string, i: nat)
    requires i <= |s|
    ensures forall k :: i <= k < SkipBlanks(s, i) ==> s[k] in {' ', '\t', '\n', '\r'}
    ensures SkipBlanks(s, i) < |s| ==> s[SkipBlanks(s, i)] !in {' ', '\t', '\n', '\r'}
  {
    SkippedIsBlank(s, i);
  }

  lemma {:induction false} AtomWasBare(s: string, i: nat)
    requires i <= |s|
    ensures forall k :: i <= k < AtomEnd(s, i) ==> s[k] != ',' && s[k] != ']'
    ensures AtomEnd(s, i) < |s| ==> ClosesAt(s, AtomEnd(s, i))
    decreases |s| - i
  {
    if i < |s| && s[i] != ',' && s[i] != ']' {
      AtomWasBare(s, i + 1);
    }
  }

  lemma Join(s: string, i: nat, u: string, v: string)
    requires At(s, i, u) && At(s, i + |u|, v)
    ensures At(s, i, u + v)
  {
  }

  lemma JoinChar(s: string, i: nat, c: char, v: string)
    requires i < |s| && s[i] == c && At(s, i + 1, v)
    ensures At(s, i, [c] + v)
  {
  }

  lemma SliceAt(s: string, i: nat, j: nat)
    requires i <= j <= |s|
    ensures At(s, i, s[i..j])
  {
  }

  lemma BlanksBetween(s: string, i: nat)
    requires i <= |s|
    ensures var k := SkipBlanks(s, i);
            && Blank(s[i..k]) && At(s, i, s[i..k]) && SkipBlanks(s, k) == k
  {
    SkippedIsBlank(s, i);
    SliceAt(s, i, SkipBlanks(s, i));
    hide At, SkipBlanks, Blank, IsBlank;
    SkipNothing(s, SkipBlanks(s, i));
  }

  lemma PeekAt(s: string, i: nat)
    ensures Peek(s, i) == ',' || Peek(s, i) == ']' ==> ClosesAt(s, i) && i < |s| && s[i] == Peek(s, i)
  {
  }

  lemma BlanksEnd(s: string, i: nat)
    requires i <= |s|
    ensures var k := SkipBlanks(s, i); k < |s| ==> !IsBlank(s[k])
  {
    SkippedIsBlank(s, i);
  }

  lemma QuotedTextAt(s: string, i: nat, c: PrintedCell)
    requires c.Quoted? && At(s, i, c.before)
    requires var k := i + |c.before|;
             && k < |s| && s[k] == '"' && At(s, k + 1, c.enc)
             && k + 1 + |c.enc| < |s| && s[k + 1 + |c.enc|] == '"' && At(s, k + 2 + |c.enc|, c.after)
    ensures At(s, i, c.Text()) && |c.Text()| == |c.before| + 2 + |c.enc| + |c.after|
  {
    hide At;
    var k := i + |c.before|;
    JoinChar(s, k + 1 + |c.enc|, '"', c.after);
    Join(s, k + 1, c.enc, "\"" + c.after);
    JoinChar(s, k, '"', c.enc + ("\"" + c.after));
    Join(s, i, c.before, "\"" + (c.enc + ("\"" + c.after)));
  }

  lemma BodyEncodes(s: string, k: nat, text: string, j: nat) returns (enc: string)
    requires k + 1 <= |s| && StringBody(s, k + 1, "") == Ok((text, j))
    ensures Encodes(text, enc) && At(s, k + 1, enc) && k + 2 + |enc| == j <= |s| && s[j - 1] == '"'
  {
    BodyWasWritten(s, k + 1, "");
    hide Encodes, StringBody;
    enc := s[k + 1..j - 1];
    assert text[0..] == text;
    SliceAt(s, k + 1, j - 1);
  }

  lemma QuotedWasWritten(s: string, i: nat, before: string, text: string, j: nat, after: string) returns (c: PrintedCell)
    requires Blank(before) && At(s, i, before) && Blank(after) && At(s, j, after)
    requires var k := i + |before|; k < |s| && s[k] == '"' && StringBody(s, k + 1, "") == Ok((text, j))
    ensures c.Quoted? && c.Valid() && c.Value() == text && At(s, i, c.Text()) && i + |c.Text()| == j + |after|
  {
    hide At, Encodes, StringBody, Blank, PrintedCell.Text;
    var enc := BodyEncodes(s, i + |before|, text, j);
    c := Quoted(before, text, enc, after);
    QuotedTextAt(s, i, c);
  }

  lemma BareWasWritten(s: string, i: nat, before: string, j: nat) returns (c: PrintedCell)
    requires Blank(before) && At(s, i, before)
    requires var k := i + |before|; j == AtomEnd(s, k) && ClosesAt(s, j) && (k < |s| ==> s[k] != '"' && s[k] != '[' && !IsBlank(s[k]))
    ensures c == Bare(before, s[i + |before|..j]) && c.Valid() && At(s, i, c.Text()) && i + |c.Text()| == j
  {
    var k := i + |before|;
    AtomWasBare(s, k);
    c := Bare(before, s[k..j]);
    SliceAt(s, k, j);
    hide At, AtomEnd, Blank, IsBlank, Spaces.TrimSpace;
    Join(s, i, c.before, c.raw);
  }

  /** The cell between offset i and the comma or bracket after it. */
  lemma CellWasWritten(s: string, i: nat, k: nat, atom: string, j: nat, e: nat) returns (c: PrintedCell)
    requires i <= |s| && k == SkipBlanks(s, i) && Peek(s, k) != ']'
    requires Atom(s, k) == Ok((atom, j)) && e == SkipBlanks(s, j) && ClosesAt(s, e)
    ensures At(s, i, c.Text()) && i + |c.Text()| == e
    ensures c.Valid() && c.Value() == atom && (c.Empty() ==> s[e] == ',')
  {
    BlanksBetween(s, i);
    BlanksBetween(s, j);
    BlanksEnd(s, i);
    hide At, SkipBlanks, StringBody, Spaces.TrimSpace, Blank, AtomEnd, IsBlank, PrintedCell.Text, PrintedCell.Valid;
    if Peek(s, k) == '"' {
      c := QuotedWasWritten(s, i, s[i..k], atom, j, s[j..e]);
    } else {
      AtomStops(s, k, j, e);
      c := BareWasWritten(s, i, s[i..k], j);
    }
  }

  lemma AtomStops(s: string, k: nat, j: nat, e: nat)
    requires k <= |s| && j == AtomEnd(s, k) && e == SkipBlanks(s, j) && ClosesAt(s, e)
    ensures e == j
  {
    AtomWasBare(s, k);
    if j < |s| {
      SkipNothing(s, j);
    }
  }

  /** The cells are written from offset i on, up to the bracket before offset j. */
  ghost predicate CellsAt(s: string, i: nat, cells: seq<PrintedCell>, comma: bool, pad: string, j: nat) {
    var text := CellsText(cells, comma, pad);
    ValidCells(cells, comma, pad) && At(s, i, text) && j == i + |text| + 1 <= |s| && s[i + |text|] == ']'
  }

  /** A cell, a comma and more cells. */
  lemma ConsCells(s: string, i: nat, c: PrintedCell, cells: seq<PrintedCell>, comma: bool, pad: string, j: nat)
    requires c.Valid() && At(s, i, c.Text()) && i + |c.Text()| < |s| && s[i + |c.Text()|] == ','
    requires CellsAt(s, i + |c.Text()| + 1, cells, comma, pad, j)
    ensures CellsAt(s, i, [c] + cells, comma || cells == [], pad, j)
  {
    hide At, CellsText, ValidCells, PrintedCell.Text, PrintedCell.Valid, PrintedCell.Value;
    var rest := CellsText(cells, comma, pad);
    FirstCell(c, cells, comma, pad);
    JoinChar(s, i + |c.Text()|, ',', rest);
    Join(s, i, c.Text(), "," + rest);
  }

  /** `v` is `row` and what the cells write. */
  ghost predicate Continues(row: seq<string>, cells: seq<PrintedCell>, v: seq<string>) {
    v == row + CellValues(cells)
  }

  lemma NoCellsWritten(s: string, i: nat, k: nat, row: seq<string>) returns (cells: seq<PrintedCell>, comma: bool, pad: string)
    requires i <= |s| && k == SkipBlanks(s, i) && Peek(s, k) == ']'
    ensures CellsAt(s, i, cells, comma, pad, k + 1) && Continues(row, cells, row)
  {
    BlanksBetween(s, i);
    hide SkipBlanks, Blank;
    cells, comma, pad := [], false, s[i..k];
    OnlyPad(pad);
    assert row + [] == row;
  }

  lemma OneCellWritten(s: string, i: nat, c: PrintedCell, e: nat, row: seq<string>)
    returns (cells: seq<PrintedCell>, comma: bool, pad: string)
    requires c.Valid() && !c.Empty() && At(s, i, c.Text()) && i + |c.Text()| == e < |s| && s[e] == ']'
    ensures CellsAt(s, i, cells, comma, pad, e + 1) && Continues(row, cells, row + [c.Value()])
  {
    OnlyCell(c);
    cells, comma, pad := [c], false, "";
    hide At, ValidCells, CellsText, CellValues, PrintedCell.Text, PrintedCell.Valid, PrintedCell.Value;
  }

  lemma ContinueMore(row: seq<string>, c: PrintedCell, rest: seq<PrintedCell>, v: seq<string>)
    requires Continues(row + [c.Value()], rest, v)
    ensures Continues(row, [c] + rest, v)
  {
    hide PrintedCell.Value;
    assert row + [c.Value()] + CellValues(rest) == row + CellValues([c] + rest);
  }

  lemma MoreCellsWritten(
    s: string, i: nat, c: PrintedCell, e: nat, rest: seq<PrintedCell>, comma': bool, pad: string, j: nat, row: seq<string>, v: seq<string>)
    returns (cells: seq<PrintedCell>, comma: bool)
    requires c.Valid() && At(s, i, c.Text()) && i + |c.Text()| == e < |s| && s[e] == ','
    requires CellsAt(s, e + 1, rest, comma', pad, j) && Continues(row + [c.Value()], rest, v)
    ensures CellsAt(s, i, cells, comma, pad, j) && Continues(row, cells, v)
  {
    hide *;
    cells, comma := [c] + rest, comma' || rest == [];
    ConsCells(s, i, c, rest, comma', pad, j);
    ContinueMore(row, c, rest, v);
  }

  lemma {:induction false} CellsWereWritten(s: string, i: nat, row: seq<string>)
    returns (cells: seq<PrintedCell>, comma: bool, pad: string)
    requires i <= |s| && Cells(s, i, row).Ok?
    ensures CellsAt(s, i, cells, comma, pad, Cells(s, i, row).value.1)
    ensures Continues(row, cells, Cells(s, i, row).value.0)
    decreases |s| - i
  {
    hide *;
    CellsStep(s, i, row);
    var k := SkipBlanks(s, i);
    if Peek(s, k) == ']' {
      cells, comma, pad := NoCellsWritten(s, i, k, row);
    } else {
      var (atom, j) := Atom(s, k).value;
      var e := SkipBlanks(s, j);
      PeekAt(s, e);
      var c := CellWasWritten(s, i, k, atom, j, e);
      if Peek(s, e) == ',' {
        cells, comma, pad := CellsWereWritten(s, e + 1, row + [atom]);
        var (v, end) := Cells(s, i, row).value;
        cells, comma := MoreCellsWritten(s, i, c, e, cells, comma, pad, end, row, v);
      } else {
        cells, comma, pad := OneCellWritten(s, i, c, e, row);
      }
    }
  }

  lemma OnlyPad(pad: string)
    requires Blank(pad)
    ensures ValidCells([], false, pad) && CellsText([], false, pad) == pad && CellValues([]) == []
    ensures ValidRows([], false, pad) && RowsText([], false, pad) == pad && RowValues([]) == []
  {
  }

  lemma FirstCell(c: PrintedCell, cells: seq<PrintedCell>, comma: bool, pad: string)
    requires c.Valid() && ValidCells(cells, comma, pad)
    ensures var all := [c] + cells;
            && ValidCells(all, comma || cells == [], pad)
            && CellsText(all, comma || cells == [], pad) == c.Text() + ("," + CellsText(cells, comma, pad))
  {
    hide PrintedCell.Text, PrintedCell.Valid, PrintedCell.Empty;
    var all := [c] + cells;
    assert all[1..] == cells;
    if cells == [] {
      NoCells(comma, pad);
      NoCells(true, pad);
    }
  }

  lemma OnlyCell(c: PrintedCell)
    requires c.Valid() && !c.Empty()
    ensures ValidCells([c], false, "") && CellsText([c], false, "") == c.Text() && CellValues([c]) == [c.Value()]
  {
    hide PrintedCell.Text, PrintedCell.Valid, PrintedCell.Empty;
    assert c.Text() + "" == c.Text();
  }

  lemma RowOfCells(s: string, i: nat, r: PrintedRow, j: nat)
    requires Blank(r.before) && At(s, i, r.before) && Blank(r.after) && At(s, j, r.after)
    requires i + |r.before| < |s| && s[i + |r.before|] == '[' && CellsAt(s, i + |r.before| + 1, r.cells, r.comma, r.pad, j)
    ensures r.Valid() && At(s, i, r.Text()) && i + |r.Text()| == j + |r.after|
  {
    hide At, CellsText, ValidCells, Blank, PrintedRow.Text;
    RowTextAt(s, i, r, CellsText(r.cells, r.comma, r.pad));
  }

  lemma CellsMakeRow(s: string, i: nat, k: nat, cells: seq<PrintedCell>, comma: bool, pad: string, v: seq<string>, j: nat, e: nat)
    returns (r: PrintedRow)
    requires i <= |s| && k == SkipBlanks(s, i) < |s| && s[k] == '[' && j <= |s| && e == SkipBlanks(s, j)
    requires CellsAt(s, k + 1, cells, comma, pad, j) && Continues([], cells, v)
    ensures r.Valid() && r.Values() == v && At(s, i, r.Text()) && i + |r.Text()| == e
  {
    BlanksBetween(s, i);
    BlanksBetween(s, j);
    hide At, SkipBlanks, CellsAt, CellsText, ValidCells, CellValues, Blank, PrintedRow.Text, PrintedRow.Valid;
    r := PrintedRow(s[i..k], cells, comma, pad, s[j..e]);
    RowOfCells(s, i, r, j);
    assert [] + CellValues(cells) == CellValues(cells);
  }

  /** A row with the blanks around it. */
  lemma RowWasWritten(s: string, i: nat, k: nat, v: seq<string>, j: nat, e: nat) returns (r: PrintedRow)
    requires i <= |s| && k == SkipBlanks(s, i) && Row(s, k) == Ok((v, j)) && e == SkipBlanks(s, j)
    ensures r.Valid() && r.Values() == v && At(s, i, r.Text()) && i + |r.Text()| == e
  {
    hide *;
    BlanksBetween(s, i);
    RowStarts(s, k);
    var cells, comma, pad := CellsWereWritten(s, k + 1, []);
    r := CellsMakeRow(s, i, k, cells, comma, pad, v, j, e);
  }

  lemma RowStarts(s: string, k: nat)
    requires k <= |s| && SkipBlanks(s, k) == k && Row(s, k).Ok?
    ensures k < |s| && s[k] == '[' && Row(s, k) == Cells(s, k + 1, [])
  {
    hide Cells, SkipBlanks;
  }

  lemma RowTextAt(s: string, i: nat, r: PrintedRow, inside: string)
    requires inside == CellsText(r.cells, r.comma, r.pad) && At(s, i, r.before)
    requires var k := i + |r.before|;
             && k < |s| && s[k] == '[' && At(s, k + 1, inside)
             && k + 1 + |inside| < |s| && s[k + 1 + |inside|] == ']' && At(s, k + 2 + |inside|, r.after)
    ensures At(s, i, r.Text()) && |r.Text()| == |r.before| + 2 + |inside| + |r.after|
  {
    var k := i + |r.before|;
    hide At, CellsText;
    JoinChar(s, k + 1 + |inside|, ']', r.after);
    Join(s, k + 1, inside, "]" + r.after);
    JoinChar(s, k, '[', inside + ("]" + r.after));
    Join(s, i, r.before, "[" + (inside + ("]" + r.after)));
  }

  ghost predicate RowsAt(s: string, i: nat, rows: seq<PrintedRow>, comma: bool, pad: string, j: nat) {
    var text := RowsText(rows, comma, pad);
    ValidRows(rows, comma, pad) && At(s, i, text) && j == i + |text| + 1 <= |s| && s[i + |text|] == ']'
  }

  /** A row, a comma and more rows. */
  lemma ConsRows(s: string, i: nat, r: PrintedRow, rows: seq<PrintedRow>, comma: bool, pad: string, j: nat)
    requires r.Valid() && At(s, i, r.Text()) && i + |r.Text()| < |s| && s[i + |r.Text()|] == ','
    requires RowsAt(s, i + |r.Text()| + 1, rows, comma, pad, j)
    ensures RowsAt(s, i, [r] + rows, comma || rows == [], pad, j)
  {
    hide At, RowsText, ValidRows, PrintedRow.Text, PrintedRow.Valid, PrintedRow.Values;
    var rest := RowsText(rows, comma, pad);
    FirstRow(r, rows, comma, pad);
    JoinChar(s, i + |r.Text()|, ',', rest);
    Join(s, i, r.Text(), "," + rest);
  }

  ghost predicate ContinuesRows(rows: seq<seq<string>>, printed: seq<PrintedRow>, v: seq<seq<string>>) {
    v == rows + RowValues(printed)
  }

  lemma NoRowsWritten(s: string, i: nat, k: nat, rows: seq<seq<string>>) returns (printed: seq<PrintedRow>, comma: bool, pad: string)
    requires i <= |s| && k == SkipBlanks(s, i) && Peek(s, k) == ']'
    ensures RowsAt(s, i, printed, comma, pad, k + 1) && ContinuesRows(rows, printed, rows)
  {
    BlanksBetween(s, i);
    hide SkipBlanks, Blank;
    printed, comma, pad := [], false, s[i..k];
    OnlyPad(pad);
    assert rows + [] == rows;
  }

  lemma OneRowWritten(s: string, i: nat, r: PrintedRow, e: nat, rows: seq<seq<string>>)
    returns (printed: seq<PrintedRow>, comma: bool, pad: string)
    requires r.Valid() && At(s, i, r.Text()) && i + |r.Text()| == e < |s| && s[e] == ']'
    ensures RowsAt(s, i, printed, comma, pad, e + 1) && ContinuesRows(rows, printed, rows + [r.Values()])
  {
    OnlyRow(r);
    printed, comma, pad := [r], false, "";
    hide At, ValidRows, RowsText, RowValues, PrintedRow.Text, PrintedRow.Valid, PrintedRow.Values;
  }

  lemma ContinueMoreRows(rows: seq<seq<string>>, r: PrintedRow, rest: seq<PrintedRow>, v: seq<seq<string>>)
    requires ContinuesRows(rows + [r.Values()], rest, v)
    ensures ContinuesRows(rows, [r] + rest, v)
  {
    hide PrintedRow.Values;
    assert rows + [r.Values()] + RowValues(rest) == rows + RowValues([r] + rest);
  }

  lemma MoreRowsWritten(
    s: string, i: nat, r: PrintedRow, e: nat, rest: seq<PrintedRow>, comma': bool, pad: string, j: nat,
    rows: seq<seq<string>>, v: seq<seq<string>>) returns (printed: seq<PrintedRow>, comma: bool)
    requires r.Valid() && At(s, i, r.Text()) && i + |r.Text()| == e < |s| && s[e] == ','
    requires RowsAt(s, e + 1, rest, comma', pad, j) && ContinuesRows(rows + [r.Values()], rest, v)
    ensures RowsAt(s, i, printed, comma, pad, j) && ContinuesRows(rows, printed, v)
  {
    hide *;
    printed, comma := [r] + rest, comma' || rest == [];
    ConsRows(s, i, r, rest, comma', pad, j);
    ContinueMoreRows(rows, r, rest, v);
  }

  lemma {:induction false} RowsWereWritten(s: string, i: nat, rows: seq<seq<string>>)
    returns (printed: seq<PrintedRow>, comma: bool, pad: string)
    requires i <= |s| && Rows(s, i, rows).Ok?
    ensures RowsAt(s, i, printed, comma, pad, Rows(s, i, rows).value.1)
    ensures ContinuesRows(rows, printed, Rows(s, i, rows).value.0)
    decreases |s| - i
  {
    hide *;
    RowsStep(s, i, rows);
    var k := SkipBlanks(s, i);
    if Peek(s, k) == ']' {
      printed, comma, pad := NoRowsWritten(s, i, k, rows);
    } else {
      var (row, j) := Row(s, k).value;
      var e := SkipBlanks(s, j);
      PeekAt(s, e);
      var r := RowWasWritten(s, i, k, row, j, e);
      if Peek(s, e) == ',' {
        printed, comma, pad := RowsWereWritten(s, e + 1, rows + [row]);
        var (v, end) := Rows(s, i, rows).value;
        printed, comma := MoreRowsWritten(s, i, r, e, printed, comma, pad, end, rows, v);
      } else {
        printed, comma, pad := OneRowWritten(s, i, r, e, rows);
      }
    }
  }

  lemma FirstRow(r: PrintedRow, rows: seq<PrintedRow>, comma: bool, pad: string)
    requires r.Valid() && ValidRows(rows, comma, pad)
    ensures var all := [r] + rows;
            && ValidRows(all, comma || rows == [], pad)
            && RowsText(all, comma || rows == [], pad) == r.Text() + ("," + RowsText(rows, comma, pad))
  {
    hide PrintedRow.Text, PrintedRow.Valid;
    var all := [r] + rows;
    assert all[1..] == rows;
    if rows == [] {
      NoRows(comma, pad);
      NoRows(true, pad);
    }
  }

  lemma OnlyRow(r: PrintedRow)
    requires r.Valid()
    ensures ValidRows([r], false, "") && RowsText([r], false, "") == r.Text() && RowValues([r]) == [r.Values()]
  {
    hide PrintedRow.Text, PrintedRow.Valid;
    assert r.Text() + "" == r.Text();
  }

  lemma MatrixTextAt(s: string, m: PrintedMatrix, inside: string)
    requires inside == RowsText(m.rows, m.comma, m.pad) && At(s, 0, m.before) && At(s, |m.before| + 1, inside)
    requires var k := |m.before|;
             && k < |s| && s[k] == '[' && k + 1 + |inside| < |s| && s[k + 1 + |inside|] == ']'
    ensures At(s, 0, m.Text()) && |m.Text()| == |m.before| + 2 + |inside|
  {
    var k := |m.before|;
    var e := k + 1 + |inside|;
    assert At(s, e, "]") by { assert s[e..e + 1] == "]"; }
    hide At, RowsText;
    Join(s, k + 1, inside, "]");
    JoinChar(s, k, '[', inside + "]");
    Join(s, 0, m.before, "[" + (inside + "]"));
  }

  lemma MatrixStarts(s: string)
    requires Matrix(s, 0).Ok?
    ensures var k := SkipBlanks(s, 0);
            && Blank(s[0..k]) && At(s, 0, s[0..k])
            && k < |s| && s[k] == '[' && Matrix(s, 0) == Rows(s, k + 1, [])
  {
    hide Rows;
    SkippedIsBlank(s, 0);
  }

  lemma RowsMakeMatrix(s: string, k: nat, rows: seq<PrintedRow>, comma: bool, pad: string, v: seq<seq<string>>, j: nat)
    returns (m: PrintedMatrix)
    requires k < |s| && s[k] == '[' && Blank(s[0..k]) && At(s, 0, s[0..k])
    requires RowsAt(s, k + 1, rows, comma, pad, j) && ContinuesRows([], rows, v)
    ensures m.Valid() && At(s, 0, m.Text()) && |m.Text()| == j && m.Values() == v
  {
    hide At, RowsText, ValidRows, RowValues, Blank, PrintedMatrix.Text;
    m := PrintedMatrix(s[0..k], rows, comma, pad);
    MatrixTextAt(s, m, RowsText(rows, comma, pad));
    assert [] + RowValues(rows) == RowValues(rows);
  }

  /** The text up to the cursor was a printed matrix. */
  lemma MatrixWasWritten(s: string) returns (m: PrintedMatrix)
    requires Matrix(s, 0).Ok?
    ensures var (v, j) := Matrix(s, 0).value;
            m.Valid() && At(s, 0, m.Text()) && |m.Text()| == j && m.Values() == v
  {
    hide *;
    MatrixStarts(s);
    var k := SkipBlanks(s, 0);
    var rows, comma, pad := RowsWereWritten(s, k + 1, []);
    var (v, j) := Matrix(s, 0).value;
    m := RowsMakeMatrix(s, k, rows, comma, pad, v, j);
  }

  /** Exactness: the parser accepts the texts that begin with a printed matrix, and reads what that writes. */
  lemma MatrixIsExact(s: string, v: seq<seq<string>>, j: nat)
    ensures Matrix(s, 0) == Ok((v, j)) <==>
            exists m: PrintedMatrix :: m.Valid() && m.Text() <= s && |m.Text()| == j && m.Values() == v
  {
    hide Matrix, PrintedMatrix.Text, PrintedMatrix.Valid, PrintedMatrix.Values;
    if Matrix(s, 0) == Ok((v, j)) {
      var m := MatrixWasWritten(s);
      assert m.Text() == s[0..j];
    }
    if m: PrintedMatrix :| m.Valid() && m.Text() <= s && |m.Text()| == j && m.Values() == v {
      MatrixRoundTrip(m, s[|m.Text()|..]);
      assert m.Text() + s[|m.Text()|..] == s;
    }
  }

  // Where an error is.

  /** The text at the offset of an error is what the error says. */
  predicate ErrorFits(s: string, e: ParseError) {
    match e
    case ExpectedQuote(o) => false
    case UnterminatedEscape(o) => 0 < o == |s| && s[o - 1] == '\\'
    case UnterminatedString(o) => o == |s|
    case NestedArray(o) => o < |s| && s[o] == '['
    case ExpectedRow(o) => o <= |s| && (o < |s| ==> s[o] != '[' && s[o] != ']' && !IsBlank(s[o]))
    case ExpectedMatrix(o) => o <= |s| && Blank(s[..o]) && (o < |s| ==> s[o] != '[' && !IsBlank(s[o]))
    case ExpectedSeparator(o) => o <= |s| && (o < |s| ==> s[o] != ',' && s[o] != ']' && !IsBlank(s[o]))
  }

  lemma {:induction false} BodyErrors(s: string, i: nat, b: string)
    requires i <= |s| && StringBody(s, i, b).Err?
    ensures ErrorFits(s, StringBody(s, i, b).error) && !StringBody(s, i, b).error.ExpectedMatrix?
    decreases |s| - i
  {
    if i < |s| {
      if s[i] == '\\' {
        if i + 1 < |s| {
          BodyErrors(s, i + 2, b + [Unescape(s[i + 1])]);
        }
      } else {
        BodyErrors(s, i + 1, b + [s[i]]);
      }
    }
  }

  lemma {:induction false} CellsErrors(s: string, i: nat, row: seq<string>)
    requires i <= |s| && Cells(s, i, row).Err?
    ensures ErrorFits(s, Cells(s, i, row).error)
    decreases |s| - i
  {
    CellsStep(s, i, row);
    hide Cells;
    var k := SkipBlanks(s, i);
    SkippedIsBlank(s, i);
    SkipNothing(s, k);
    if Atom(s, k).Err? {
      if Peek(s, k) == '"' {
        BodyErrors(s, k + 1, "");
      }
    } else {
      var (atom, j) := Atom(s, k).value;
      var e := SkipBlanks(s, j);
      SkippedIsBlank(s, j);
      if Peek(s, e) == ',' {
        CellsErrors(s, e + 1, row + [atom]);
      }
    }
  }

  lemma {:induction false} RowsErrors(s: string, i: nat, rows: seq<seq<string>>)
    requires i <= |s| && Rows(s, i, rows).Err?
    ensures ErrorFits(s, Rows(s, i, rows).error)
    decreases |s| - i
  {
    RowsStep(s, i, rows);
    hide Rows;
    var k := SkipBlanks(s, i);
    SkippedIsBlank(s, i);
    SkipNothing(s, k);
    if Row(s, k).Err? {
      if Peek(s, k) == '[' {
        CellsErrors(s, k + 1, []);
      }
    } else {
      var (row, j) := Row(s, k).value;
      var e := SkipBlanks(s, j);
      SkippedIsBlank(s, j);
      if Peek(s, e) == ',' {
        RowsErrors(s, e + 1, rows + [row]);
      }
    }
  }

  /** Every refused text has, at the offset reported, what the error complains of. */
  lemma MatrixErrors(s: string)
    requires Matrix(s, 0).Err?
    ensures ErrorFits(s, Matrix(s, 0).error)
  {
    var k := SkipBlanks(s, 0);
    SkippedIsBlank(s, 0);
    if Peek(s, k) == '[' {
      RowsErrors(s, k + 1, []);
    }
  }
}
