/** What a rendering contains, in terms of the document: which documents can be
    read through, and where each cell, paragraph and note stands. */
module OfficeContents {
  import opened Common
  import opened OfficeText

  // ------------------------------------------------------- what cannot be read

  /** A shared string that is not in the table. */
  predicate Dangling(cell: Cell, strings: seq<string>) {
    cell.value.Shared? && !(cell.value.index.Some? && 0 <= cell.value.index.value < |strings|)
  }

  predicate Unreadable(sheet: Sheet, strings: seq<string>) {
    sheet.BrokenSheet? ||
    (sheet.Worksheet? && exists row, cell | row in sheet.rows && cell in row.cells :: Dangling(cell, strings))
  }

  lemma FaultIn(a: seq<Piece>, b: seq<Piece>)
    ensures Faulty(a + b) <==> Faulty(a) || Faulty(b)
  {
  }

  lemma CellsFaulty(cells: seq<Cell>, strings: seq<string>)
    ensures Faulty(CellPieces(cells, strings)) <==> exists cell | cell in cells :: Dangling(cell, strings)
  {
    var pieces := CellPieces(cells, strings);
    if Faulty(pieces) {
      var i :| 0 <= i < |pieces| && pieces[i] == Fault;
      assert cells[i] in cells && Dangling(cells[i], strings);
    }
    if cell :| cell in cells && Dangling(cell, strings) {
      var i :| 0 <= i < |cells| && cells[i] == cell;
      assert pieces[i] == Fault;
    }
  }

  predicate RowsDangle(rows: seq<Row>, strings: seq<string>) {
    exists row, cell | row in rows && cell in row.cells :: Dangling(cell, strings)
  }

  lemma {:induction false} RowsFaulty(rows: seq<Row>, strings: seq<string>)
    ensures Faulty(RowPieces(rows, strings)) <==> RowsDangle(rows, strings)
  {
    if rows != [] {
      RowsFaulty(rows[1..], strings);
      CellsFaulty(rows[0].cells, strings);
      FaultIn(CellPieces(rows[0].cells, strings), RowPieces(rows[1..], strings));
      assert forall row :: row in rows <==> row == rows[0] || row in rows[1..];
    }
  }

  lemma SheetFaulty(w: Wording, sheet: Sheet, strings: seq<string>)
    ensures Faulty(SheetPieces(w, sheet, strings)) <==> Unreadable(sheet, strings)
  {
    match sheet
    case Worksheet(name, state, rows) =>
      RowsFaulty(rows, strings);
      FaultIn([Text(SheetHeading(name, state))], RowPieces(rows, strings));
      FaultIn([Text(SheetHeading(name, state))] + RowPieces(rows, strings), [Text("\n")]);
    case _ =>
  }

  lemma {:induction false} SheetsFaulty(w: Wording, sheets: seq<Sheet>, strings: seq<string>)
    ensures Faulty(SheetsPieces(w, sheets, strings)) <==> exists sheet | sheet in sheets :: Unreadable(sheet, strings)
  {
    if sheets != [] {
      SheetFaulty(w, sheets[0], strings);
      SheetsFaulty(w, sheets[1..], strings);
      FaultIn(SheetPieces(w, sheets[0], strings), SheetsPieces(w, sheets[1..], strings));
      assert forall sheet :: sheet in sheets <==> sheet == sheets[0] || sheet in sheets[1..];
    }
  }

  lemma {:induction false} NotesReadable(w: Wording, notes: seq<seq<string>>)
    ensures !Faulty(NotesPieces(w, notes))
  {
    if notes != [] {
      NotesReadable(w, notes[1..]);
      FaultIn([Text(w.notes)], Lines(notes[0]));
      FaultIn([Text(w.notes)] + Lines(notes[0]), NotesPieces(w, notes[1..]));
    }
  }

  lemma SlideFaulty(w: Wording, slide: Slide, number: nat)
    ensures Faulty(SlidePieces(w, slide, number)) <==> slide.BrokenSlide?
  {
    if slide.Slide? { NotesReadable(w, slide.notes); }
  }

  lemma {:induction false} SlidesFaulty(w: Wording, slides: seq<Slide>, number: nat)
    ensures Faulty(SlidesPieces(w, slides, number)) <==> BrokenSlide in slides
  {
    if slides != [] {
      SlideFaulty(w, slides[0], number);
      SlidesFaulty(w, slides[1..], number + 1);
      FaultIn(SlidePieces(w, slides[0], number), SlidesPieces(w, slides[1..], number + 1));
      assert forall slide :: slide in slides <==> slide == slides[0] || slide in slides[1..];
    }
  }

  /** A document is read through exactly when it has a sheet or a slide and each is
      readable, with its shared strings in the table. */
  lemma ReadThrough(document: Document, wording: Wording)
    ensures !Faulty(Pieces(document, wording)) <==>
      match document
      case Excel(strings, sheets) =>
        strings.Some? && sheets != [] && forall sheet | sheet in sheets :: !Unreadable(sheet, strings.value)
      case PowerPoint(slides) => slides != [] && BrokenSlide !in slides
  {
    match document
    case Excel(strings, sheets) => if strings.Some? { SheetsFaulty(wording, sheets, strings.value); }
    case PowerPoint(slides) => SlidesFaulty(wording, slides, 1);
  }

  // ------------------------------------------------------------- one cell's line

  /** The parts make up the text from its start. */
  predicate MakeUp(parts: seq<string>, text: string) {
    if parts == [] then text == ""
    else parts[0] <= text && MakeUp(parts[1..], text[|parts[0]|..])
  }

  lemma {:induction false} JoinedFront(part: string, parts: seq<string>)
    ensures Joined([part] + parts) == part + Joined(parts)
    decreases |parts|
  {
    if parts == [] {
      assert [part] + parts == [] + [part];
      JoinedNext([], part);
    } else {
      var init, last := parts[..|parts| - 1], parts[|parts| - 1];
      assert [part] + parts == ([part] + init) + [last] && parts == init + [last];
      JoinedNext([part] + init, last);
      JoinedFront(part, init);
    }
  }

  lemma {:induction false} MakeUpJoined(parts: seq<string>, text: string)
    ensures MakeUp(parts, text) <==> text == Joined(parts)
    decreases |parts|
  {
    if parts != [] {
      JoinedFront(parts[0], parts[1..]);
      assert [parts[0]] + parts[1..] == parts;
      if parts[0] <= text { MakeUpJoined(parts[1..], text[|parts[0]|..]); }
    }
  }

  /** What a value reads as. */
  predicate ReadsAs(value: CellValue, strings: seq<string>, text: string) {
    match value
    case Stored(stored) => text == stored
    case Shared(index) => index.Some? && 0 <= index.value < |strings| && text == strings[index.value]
    case Inline(parts) => MakeUp(parts, text)
    case Truth(truth) => if truth == "1" then text == "TRUE" else text == "FALSE"
  }

  /** What is said of a formula. */
  predicate Remarks(formula: Option<string>, remark: string) {
    match formula
    case None => remark == ""
    case Some(source) =>
      if source == "" then remark == " [formula: shared formula; cached result]"
      else remark == " [formula: " + source + "; cached result]"
  }

  lemma RemarkIs(formula: Option<string>)
    ensures Remarks(formula, Annotation(formula))
  {
    assert " [formula: " + "shared formula" + "; cached result]" == " [formula: shared formula; cached result]";
  }

  /** The line of a cell: its reference, what its value reads as, and the remark. */
  ghost predicate IsLine(cell: Cell, strings: seq<string>, line: string) {
    exists text, remark ::
      && ReadsAs(cell.value, strings, text) && Remarks(cell.formula, remark)
      && line == (if cell.reference.Some? then cell.reference.value else "?") + ": " + text + remark + "\n"
  }

  lemma LineIs(cell: Cell, strings: seq<string>)
    requires !Dangling(cell, strings)
    ensures CellPiece(cell, strings).Text? && IsLine(cell, strings, CellPiece(cell, strings).text)
  {
    var text := CellText(cell.value, strings).value;
    if cell.value.Inline? { MakeUpJoined(cell.value.parts, text); }
    RemarkIs(cell.formula);
    assert ReadsAs(cell.value, strings, text) && Remarks(cell.formula, Annotation(cell.formula));
  }

  // --------------------------------------------------------- workbooks, as they grow

  /** What an unlimited reader makes of a workbook. */
  function Workbook(w: Wording, strings: seq<string>, sheets: seq<Sheet>): string {
    Upto(Pieces(Excel(Some(strings), sheets), w))
  }

  predicate AllReadable(sheets: seq<Sheet>, strings: seq<string>) {
    forall sheet | sheet in sheets :: !Unreadable(sheet, strings)
  }

  lemma UptoOne(text: string)
    ensures Upto([Text(text)]) == text
  {
    assert [Text(text)][1..] == [];
    assert text + "" == text;
  }

  lemma WorkbookText(w: Wording, strings: seq<string>, sheets: seq<Sheet>)
    requires AllReadable(sheets, strings)
    ensures Workbook(w, strings, sheets) == w.excel + Upto(SheetsPieces(w, sheets, strings))
  {
    SheetsFaulty(w, sheets, strings);
    UptoOne(w.excel);
    var body := SheetsPieces(w, sheets, strings);
    UptoConcat([Text(w.excel)], body);
    UptoConcat([Text(w.excel)] + body, if sheets == [] then [Fault] else []);
  }

  lemma {:induction false} SheetsAppend(w: Wording, sheets: seq<Sheet>, last: Sheet, strings: seq<string>)
    ensures SheetsPieces(w, sheets + [last], strings) ==
            SheetsPieces(w, sheets, strings) + SheetPieces(w, last, strings)
  {
    if sheets == [] {
      assert sheets + [last] == [last] && [last][1..] == [];
    } else {
      assert (sheets + [last])[1..] == sheets[1..] + [last];
      SheetsAppend(w, sheets[1..], last, strings);
    }
  }

  lemma SheetsNext(w: Wording, sheets: seq<Sheet>, last: Sheet, strings: seq<string>)
    requires AllReadable(sheets, strings)
    ensures Upto(SheetsPieces(w, sheets + [last], strings)) ==
            Upto(SheetsPieces(w, sheets, strings)) + Upto(SheetPieces(w, last, strings))
  {
    SheetsAppend(w, sheets, last, strings);
    SheetsFaulty(w, sheets, strings);
    UptoConcat(SheetsPieces(w, sheets, strings), SheetPieces(w, last, strings));
  }

  lemma Regroup(a: string, b: string, c: string)
    ensures a + (b + c) == (a + b) + c
  {
  }

  lemma ReadableNext(sheets: seq<Sheet>, last: Sheet, strings: seq<string>)
    requires AllReadable(sheets, strings) && !Unreadable(last, strings)
    ensures AllReadable(sheets + [last], strings)
  {
  }

  /** What one more readable sheet adds to the text. */
  lemma WorkbookNext(w: Wording, strings: seq<string>, sheets: seq<Sheet>, last: Sheet)
    requires AllReadable(sheets, strings) && !Unreadable(last, strings)
    ensures Workbook(w, strings, sheets + [last]) ==
            Workbook(w, strings, sheets) + Upto(SheetPieces(w, last, strings))
  {
    ReadableNext(sheets, last, strings);
    WorkbookText(w, strings, sheets);
    WorkbookText(w, strings, sheets + [last]);
    SheetsNext(w, sheets, last, strings);
    Regroup(w.excel, Upto(SheetsPieces(w, sheets, strings)), Upto(SheetPieces(w, last, strings)));
  }

  lemma {:induction false} RowsAppend(rows: seq<Row>, last: Row, strings: seq<string>)
    ensures RowPieces(rows + [last], strings) == RowPieces(rows, strings) + CellPieces(last.cells, strings)
  {
    if rows == [] {
      assert rows + [last] == [last] && [last][1..] == [];
    } else {
      assert (rows + [last])[1..] == rows[1..] + [last];
      RowsAppend(rows[1..], last, strings);
    }
  }

  function Heading(name: Option<string>, state: Option<string>): string {
    match (name, state)
    case (Some(n), Some(s)) => "## Sheet: " + n + " (" + s + ")\n"
    case (Some(n), None) => "## Sheet: " + n + " (visible)\n"
    case (None, Some(s)) => "## Sheet: Unnamed (" + s + ")\n"
    case (None, None) => "## Sheet: Unnamed (visible)\n"
  }

  lemma HeadingIs(name: Option<string>, state: Option<string>)
    ensures SheetHeading(name, state) == Heading(name, state)
  {
    var n, v := if name.Some? then name.value else "Unnamed", if state.Some? then state.value else "visible";
    assert SheetHeading(name, state) == "## Sheet: " + n + " (" + v + ")\n";
    if state.None? { VisibleHeading("## Sheet: " + n); }
    if name.None? { UnnamedHeading(); }
  }

  lemma VisibleHeading(start: string)
    ensures start + " (" + "visible" + ")\n" == start + " (visible)\n"
  {
    assert " (" + "visible" + ")\n" == " (visible)\n";
    assert start + " (" + "visible" + ")\n" == start + (" (" + "visible" + ")\n");
  }

  lemma UnnamedHeading()
    ensures "## Sheet: " + "Unnamed" == "## Sheet: Unnamed"
  {
  }

  lemma SheetText(w: Wording, name: Option<string>, state: Option<string>, rows: seq<Row>, strings: seq<string>)
    requires !RowsDangle(rows, strings)
    ensures Upto(SheetPieces(w, Worksheet(name, state, rows), strings)) ==
            Heading(name, state) + Upto(RowPieces(rows, strings)) + "\n"
  {
    HeadingIs(name, state);
    var heading := [Text(SheetHeading(name, state))];
    RowsFaulty(rows, strings);
    UptoOne(SheetHeading(name, state));
    UptoOne("\n");
    UptoConcat(heading, RowPieces(rows, strings));
    UptoConcat(heading + RowPieces(rows, strings), [Text("\n")]);
  }

  /** An empty workbook is introduced; a sheet adds its heading and an empty line, and
      one of another kind its heading and a remark. */
  lemma SheetsAreIntroduced(
      w: Wording, strings: seq<string>, sheets: seq<Sheet>, name: Option<string>, state: Option<string>)
    requires AllReadable(sheets, strings)
    ensures Workbook(w, strings, []) == w.excel
    ensures var before := Workbook(w, strings, sheets);
      && Workbook(w, strings, sheets + [Worksheet(name, state, [])]) == before + (Heading(name, state) + "\n")
      && Workbook(w, strings, sheets + [OtherSheet(name, state)]) == before + (Heading(name, state) + w.otherSheet)
  {
    WorkbookText(w, strings, []);
    assert w.excel + "" == w.excel;
    WorkbookNext(w, strings, sheets, Worksheet(name, state, []));
    SheetText(w, name, state, [], strings);
    assert Heading(name, state) + "" == Heading(name, state);
    WorkbookNext(w, strings, sheets, OtherSheet(name, state));
    HeadingIs(name, state);
    UptoOne(Heading(name, state));
    UptoOne(w.otherSheet);
    UptoConcat([Text(Heading(name, state))], [Text(w.otherSheet)]);
    assert [Text(Heading(name, state))] + [Text(w.otherSheet)] == [Text(Heading(name, state)), Text(w.otherSheet)];
  }

  lemma ShorterRow(rows: seq<Row>, cells: seq<Cell>, cell: Cell, strings: seq<string>)
    requires !RowsDangle(rows + [Row(cells + [cell])], strings)
    ensures !RowsDangle(rows + [Row(cells)], strings) && !Dangling(cell, strings)
  {
    var longer := rows + [Row(cells + [cell])];
    assert longer[|rows|] == Row(cells + [cell]) && (cells + [cell])[|cells|] == cell;
    forall row, c | row in rows + [Row(cells)] && c in row.cells ensures !Dangling(c, strings) {
      assert row in rows ==> row in longer;
      assert c in cells ==> c in cells + [cell];
    }
  }

  lemma RowNext(rows: seq<Row>, cells: seq<Cell>, cell: Cell, strings: seq<string>)
    requires !RowsDangle(rows + [Row(cells)], strings) && CellPiece(cell, strings).Text?
    ensures Upto(RowPieces(rows + [Row(cells + [cell])], strings)) ==
            Upto(RowPieces(rows + [Row(cells)], strings)) + CellPiece(cell, strings).text
  {
    RowsFaulty(rows + [Row(cells)], strings);
    RowsAppend(rows, Row(cells), strings);
    RowsAppend(rows, Row(cells + [cell]), strings);
    CellsNext(cells, cell, strings);
    var before, last := RowPieces(rows, strings), [CellPiece(cell, strings)];
    assert before + (CellPieces(cells, strings) + last) == (before + CellPieces(cells, strings)) + last;
    UptoConcat(before + CellPieces(cells, strings), last);
    UptoOne(CellPiece(cell, strings).text);
  }

  lemma CellsNext(cells: seq<Cell>, cell: Cell, strings: seq<string>)
    ensures CellPieces(cells + [cell], strings) == CellPieces(cells, strings) + [CellPiece(cell, strings)]
  {
  }

  /** The longer text has the line of the cell before its last character, a line break. */
  ghost predicate Gains(before: string, after: string, cell: Cell, strings: seq<string>) {
    exists head, line :: before == head + "\n" && IsLine(cell, strings, line) && after == head + line + "\n"
  }

  lemma GainsLine(head: string, line: string, cell: Cell, strings: seq<string>)
    requires IsLine(cell, strings, line)
    ensures Gains(head + "\n", head + line + "\n", cell, strings)
  {
  }

  /** Another cell at the end of the last row adds its line before the empty line that
      ends the sheet; a new row without cells adds nothing. So each line stands
      behind those of the cells, rows and sheets before it. */
  lemma CellsAddTheirLines(
      w: Wording, strings: seq<string>, sheets: seq<Sheet>, name: Option<string>, state: Option<string>,
      rows: seq<Row>, cells: seq<Cell>, cell: Cell)
    requires AllReadable(sheets, strings) && !RowsDangle(rows + [Row(cells + [cell])], strings)
    ensures Gains(
      Workbook(w, strings, sheets + [Worksheet(name, state, rows + [Row(cells)])]),
      Workbook(w, strings, sheets + [Worksheet(name, state, rows + [Row(cells + [cell])])]),
      cell, strings)
  {
    ShorterRow(rows, cells, cell, strings);
    LineIs(cell, strings);
    LineIsAdded(w, strings, sheets, name, state, rows, cells, cell);
    GainsLine(
      Workbook(w, strings, sheets) + Heading(name, state) + Upto(RowPieces(rows + [Row(cells)], strings)),
      CellPiece(cell, strings).text, cell, strings);
  }

  lemma LineIsAdded(
      w: Wording, strings: seq<string>, sheets: seq<Sheet>, name: Option<string>, state: Option<string>,
      rows: seq<Row>, cells: seq<Cell>, cell: Cell)
    requires AllReadable(sheets, strings) && !RowsDangle(rows + [Row(cells + [cell])], strings)
    requires !RowsDangle(rows + [Row(cells)], strings) && CellPiece(cell, strings).Text?
    ensures var head := Workbook(w, strings, sheets) + Heading(name, state)
                        + Upto(RowPieces(rows + [Row(cells)], strings));
      var line := CellPiece(cell, strings).text;
      && Workbook(w, strings, sheets + [Worksheet(name, state, rows + [Row(cells)])]) == head + "\n"
      && Workbook(w, strings, sheets + [Worksheet(name, state, rows + [Row(cells + [cell])])]) == head + line + "\n"
  {
    var shorter, longer := rows + [Row(cells)], rows + [Row(cells + [cell])];
    RowNext(rows, cells, cell, strings);
    WorkbookNext(w, strings, sheets, Worksheet(name, state, shorter));
    WorkbookNext(w, strings, sheets, Worksheet(name, state, longer));
    SheetText(w, name, state, shorter, strings);
    SheetText(w, name, state, longer, strings);
    Glue(Workbook(w, strings, sheets), Heading(name, state), Upto(RowPieces(shorter, strings)),
         CellPiece(cell, strings).text);
  }

  lemma Glue(start: string, heading: string, shown: string, line: string)
    ensures start + (heading + shown + "\n") == start + heading + shown + "\n"
    ensures start + (heading + (shown + line) + "\n") == start + heading + shown + line + "\n"
  {
  }

  lemma EmptyRowsAddNothing(
      w: Wording, strings: seq<string>, sheets: seq<Sheet>, name: Option<string>, state: Option<string>, rows: seq<Row>)
    requires AllReadable(sheets, strings) && !RowsDangle(rows, strings)
    ensures Workbook(w, strings, sheets + [Worksheet(name, state, rows + [Row([])])]) ==
            Workbook(w, strings, sheets + [Worksheet(name, state, rows)])
  {
    RowsAppend(rows, Row([]), strings);
    assert RowPieces(rows + [Row([])], strings) == RowPieces(rows, strings);
    WorkbookNext(w, strings, sheets, Worksheet(name, state, rows));
    WorkbookNext(w, strings, sheets, Worksheet(name, state, rows + [Row([])]));
  }

  // ----------------------------------------------------- presentations, as they grow

  /** What an unlimited reader makes of a presentation. */
  function Show(w: Wording, slides: seq<Slide>): string {
    Upto(Pieces(PowerPoint(slides), w))
  }

  lemma ShowText(w: Wording, slides: seq<Slide>)
    requires BrokenSlide !in slides
    ensures Show(w, slides) == w.powerPoint + Upto(SlidesPieces(w, slides, 1))
  {
    SlidesFaulty(w, slides, 1);
    UptoOne(w.powerPoint);
    var body := SlidesPieces(w, slides, 1);
    UptoConcat([Text(w.powerPoint)], body);
    UptoConcat([Text(w.powerPoint)] + body, if slides == [] then [Fault] else []);
  }

  lemma {:induction false} SlidesAppend(w: Wording, slides: seq<Slide>, last: Slide, number: nat)
    ensures SlidesPieces(w, slides + [last], number) ==
            SlidesPieces(w, slides, number) + SlidePieces(w, last, number + |slides|)
  {
    if slides == [] {
      assert slides + [last] == [last] && [last][1..] == [];
    } else {
      assert (slides + [last])[1..] == slides[1..] + [last];
      SlidesAppend(w, slides[1..], last, number + 1);
    }
  }

  lemma SlidesNext(w: Wording, slides: seq<Slide>, last: Slide)
    requires BrokenSlide !in slides
    ensures Upto(SlidesPieces(w, slides + [last], 1)) ==
            Upto(SlidesPieces(w, slides, 1)) + Upto(SlidePieces(w, last, |slides| + 1))
  {
    SlidesAppend(w, slides, last, 1);
    SlidesFaulty(w, slides, 1);
    UptoConcat(SlidesPieces(w, slides, 1), SlidePieces(w, last, |slides| + 1));
  }

  lemma ShowNext(w: Wording, slides: seq<Slide>, last: Slide)
    requires BrokenSlide !in slides && !last.BrokenSlide?
    ensures Show(w, slides + [last]) == Show(w, slides) + Upto(SlidePieces(w, last, |slides| + 1))
  {
    ShowText(w, slides);
    ShowText(w, slides + [last]);
    SlidesNext(w, slides, last);
    Regroup(w.powerPoint, Upto(SlidesPieces(w, slides, 1)), Upto(SlidePieces(w, last, |slides| + 1)));
  }

  /** Each paragraph on a line of its own. */
  function Lined(paragraphs: seq<string>): string {
    if paragraphs == [] then "" else Lined(paragraphs[..|paragraphs| - 1]) + paragraphs[|paragraphs| - 1] + "\n"
  }

  lemma {:induction false} LinesText(paragraphs: seq<string>)
    ensures Upto(Lines(paragraphs)) == Lined(paragraphs)
  {
    if paragraphs != [] {
      var init, last := paragraphs[..|paragraphs| - 1], paragraphs[|paragraphs| - 1];
      LinesText(init);
      assert Lines(paragraphs) == Lines(init) + [Text(last + "\n")];
      UptoConcat(Lines(init), [Text(last + "\n")]);
      UptoOne(last + "\n");
      assert Lined(init) + (last + "\n") == Lined(init) + last + "\n";
    }
  }

  /** The notes of a slide, each page introduced. */
  function Noted(w: Wording, notes: seq<seq<string>>): string {
    if notes == [] then "" else Noted(w, notes[..|notes| - 1]) + w.notes + Lined(notes[|notes| - 1])
  }

  lemma {:induction false} NotesAppend(w: Wording, notes: seq<seq<string>>, last: seq<string>)
    ensures NotesPieces(w, notes + [last]) == NotesPieces(w, notes) + ([Text(w.notes)] + Lines(last))
  {
    if notes == [] {
      assert notes + [last] == [last] && [last][1..] == [];
    } else {
      assert (notes + [last])[1..] == notes[1..] + [last];
      NotesAppend(w, notes[1..], last);
    }
  }

  lemma {:induction false} NotesText(w: Wording, notes: seq<seq<string>>)
    ensures Upto(NotesPieces(w, notes)) == Noted(w, notes)
  {
    if notes != [] {
      var init, last := notes[..|notes| - 1], notes[|notes| - 1];
      assert init + [last] == notes;
      NotesText(w, init);
      NotesAppend(w, init, last);
      NotesReadable(w, init);
      UptoConcat(NotesPieces(w, init), [Text(w.notes)] + Lines(last));
      UptoConcat([Text(w.notes)], Lines(last));
      UptoOne(w.notes);
      LinesText(last);
      assert Noted(w, init) + (w.notes + Lined(last)) == Noted(w, init) + w.notes + Lined(last);
    }
  }

  /** The number a numeral stands for. */
  function Worth(numeral: string): int {
    if numeral == "" then 0 else 10 * Worth(numeral[..|numeral| - 1]) + (numeral[|numeral| - 1] as int - '0' as int)
  }

  /** The shortest numeral of a number. */
  predicate Writes(numeral: string, n: nat) {
    && numeral != "" && Worth(numeral) == n && (n > 0 ==> numeral[0] != '0')
    && forall c | c in numeral :: '0' <= c <= '9'
  }

  lemma {:induction false} DecimalWorth(n: nat)
    ensures Writes(Decimal(n), n)
  {
    if n >= 10 {
      DecimalWorth(n / 10);
      var digit := [('0' as int + n % 10) as char];
      assert (Decimal(n / 10) + digit)[..|Decimal(n / 10)|] == Decimal(n / 10);
    } else {
      assert Decimal(n)[..0] == "";
    }
  }

  /** A slide adds its number among the slides, whether it is hidden, its paragraphs
      or that it has none, its notes, and an empty line. */
  lemma SlidesAddTheirText(
      w: Wording, slides: seq<Slide>, hidden: bool, paragraphs: seq<string>, notes: seq<seq<string>>)
    requires BrokenSlide !in slides
    ensures Show(w, []) == w.powerPoint
    ensures exists numeral ::
      && Writes(numeral, |slides| + 1)
      && Show(w, slides + [Slide(hidden, paragraphs, notes)]) ==
           Show(w, slides)
           + ("## Slide " + numeral + (if hidden then " (hidden)\n" else "\n")
              + (if paragraphs == [] then w.noText else Lined(paragraphs)) + Noted(w, notes) + "\n")
  {
    var number := |slides| + 1;
    DecimalWorth(number);
    ShowText(w, []);
    assert w.powerPoint + "" == w.powerPoint;
    ShowNext(w, slides, Slide(hidden, paragraphs, notes));
    SlideText(w, hidden, paragraphs, notes, number);
  }

  lemma SlideText(w: Wording, hidden: bool, paragraphs: seq<string>, notes: seq<seq<string>>, number: nat)
    ensures Upto(SlidePieces(w, Slide(hidden, paragraphs, notes), number)) ==
      "## Slide " + Decimal(number) + (if hidden then " (hidden)\n" else "\n")
      + (if paragraphs == [] then w.noText else Lined(paragraphs)) + Noted(w, notes) + "\n"
  {
    var heading := Text(SlideHeading(number, hidden));
    var body, noted := ParagraphPieces(w, paragraphs), NotesPieces(w, notes);
    assert "## Slide " + Decimal(number) + (if hidden then " (hidden)\n" else "\n") == SlideHeading(number, hidden);
    JoinSlide([], heading, body, noted, Text("\n"));
    assert [] + [heading] == [heading];
    assert SlidePieces(w, Slide(hidden, paragraphs, notes), number) == [heading] + body + noted + [Text("\n")];
    BodyText(w, paragraphs);
    NotesText(w, notes);
    NotesReadable(w, notes);
    UptoOne(SlideHeading(number, hidden));
    UptoOne("\n");
    UptoConcat([heading], body);
    UptoConcat([heading] + body, noted);
    UptoConcat([heading] + body + noted, [Text("\n")]);
  }

  lemma BodyText(w: Wording, paragraphs: seq<string>)
    ensures var body := ParagraphPieces(w, paragraphs);
      !Faulty(body) && Upto(body) == if paragraphs == [] then w.noText else Lined(paragraphs)
  {
    if paragraphs == [] { UptoOne(w.noText); } else { LinesText(paragraphs); }
  }
}
