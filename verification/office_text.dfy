/** Bounded text extraction from Excel and PowerPoint files refines the unbounded
    one: a rendering is the list of pieces an unlimited reader would add, ending at
    the first part that cannot be read. */
module OfficeText {
  import opened Common

  const LIMIT: nat := 100_000

  datatype CellValue =
    | Stored(text: string)
    | Shared(index: Option<int>)       // `int(value)` of a shared string
    | Inline(parts: seq<string>)
    | Truth(text: string)

  datatype Cell = Cell(reference: Option<string>, value: CellValue, formula: Option<string>)

  datatype Row = Row(cells: seq<Cell>)

  datatype Sheet =
    | Worksheet(name: Option<string>, state: Option<string>, rows: seq<Row>)
    | OtherSheet(name: Option<string>, state: Option<string>)
    | BrokenSheet                      // no such relationship, or its part cannot be read

  datatype Slide =
    | Slide(hidden: bool, paragraphs: seq<string>, notes: seq<seq<string>>)
    | BrokenSlide                      // not a slide, or a part of it cannot be read

  datatype Document =
    | Excel(strings: Option<seq<string>>, sheets: seq<Sheet>)
    | PowerPoint(slides: seq<Slide>)

  /** The fixed sentences of a snapshot: one in front of each kind, and the remarks
      for an unreadable sheet, a slide without text and speaker notes. */
  datatype Wording = Wording(excel: string, powerPoint: string, otherSheet: string, noText: string, notes: string)

  datatype Piece = Text(text: string) | Fault

  datatype Snapshot = Snapshot(text: string, truncated: bool)

  function Joined(parts: seq<string>): string {
    if parts == [] then "" else Joined(parts[..|parts| - 1]) + parts[|parts| - 1]
  }

  lemma JoinedNext(parts: seq<string>, part: string)
    ensures Joined(parts + [part]) == Joined(parts) + part
  {
    assert (parts + [part])[..|parts|] == parts;
  }

  /** What an unlimited reader has when it reaches the first fault, or the end. */
  function Upto(pieces: seq<Piece>): string {
    if pieces == [] then ""
    else if pieces[0].Fault? then ""
    else pieces[0].text + Upto(pieces[1..])
  }

  predicate Faulty(pieces: seq<Piece>) {
    Fault in pieces
  }

  function First(text: string, limit: nat): string {
    if |text| <= limit then text else text[..limit]
  }

  // ------------------------------------------------------------ what is rendered

  function CellText(value: CellValue, strings: seq<string>): Option<string> {
    match value
    case Stored(text) => Some(text)
    case Shared(index) =>
      if index.Some? && 0 <= index.value < |strings| then Some(strings[index.value]) else None
    case Inline(parts) => Some(Joined(parts))
    case Truth(text) => Some(if text == "1" then "TRUE" else "FALSE")
  }

  function Annotation(formula: Option<string>): string {
    if formula.None? then ""
    else " [formula: " + (if formula.value == "" then "shared formula" else formula.value) + "; cached result]"
  }

  function CellPiece(cell: Cell, strings: seq<string>): (piece: Piece)
    ensures piece.Text? ==> piece.text != ""
  {
    var text := CellText(cell.value, strings);
    if text.None? then Fault
    else
      var reference := if cell.reference.Some? then cell.reference.value else "?";
      Text(reference + ": " + text.value + Annotation(cell.formula) + "\n")
  }

  function CellPieces(cells: seq<Cell>, strings: seq<string>): (pieces: seq<Piece>)
    ensures |pieces| == |cells| && forall piece :: piece in pieces && piece.Text? ==> piece.text != ""
  {
    seq(|cells|, i requires 0 <= i < |cells| => CellPiece(cells[i], strings))
  }

  function RowPieces(rows: seq<Row>, strings: seq<string>): (pieces: seq<Piece>)
    ensures forall piece :: piece in pieces && piece.Text? ==> piece.text != ""
  {
    if rows == [] then [] else CellPieces(rows[0].cells, strings) + RowPieces(rows[1..], strings)
  }

  function SheetHeading(name: Option<string>, state: Option<string>): (heading: string)
    ensures heading != ""
  {
    "## Sheet: " + (if name.Some? then name.value else "Unnamed")
      + " (" + (if state.Some? then state.value else "visible") + ")\n"
  }

  function SheetPieces(w: Wording, sheet: Sheet, strings: seq<string>): (pieces: seq<Piece>)
    ensures Visible(pieces)
  {
    match sheet
    case BrokenSheet => [Fault]
    case OtherSheet(name, state) =>
      [Text(SheetHeading(name, state)), Text(w.otherSheet)]
    case Worksheet(name, state, rows) =>
      [Text(SheetHeading(name, state))] + RowPieces(rows, strings) + [Text("\n")]
  }

  function SheetsPieces(w: Wording, sheets: seq<Sheet>, strings: seq<string>): seq<Piece> {
    if sheets == [] then [] else SheetPieces(w, sheets[0], strings) + SheetsPieces(w, sheets[1..], strings)
  }

  function Decimal(n: nat): string {
    if n < 10 then [('0' as int + n) as char] else Decimal(n / 10) + [('0' as int + n % 10) as char]
  }

  function Lines(paragraphs: seq<string>): (pieces: seq<Piece>)
    ensures |pieces| == |paragraphs| && !Faulty(pieces)
  {
    seq(|paragraphs|, i requires 0 <= i < |paragraphs| => Text(paragraphs[i] + "\n"))
  }

  function NotesPieces(w: Wording, notes: seq<seq<string>>): seq<Piece> {
    if notes == [] then [] else [Text(w.notes)] + Lines(notes[0]) + NotesPieces(w, notes[1..])
  }

  function SlideHeading(number: nat, hidden: bool): (heading: string)
    ensures heading != ""
  {
    "## Slide " + Decimal(number) + (if hidden then " (hidden)" else "") + "\n"
  }

  function ParagraphPieces(w: Wording, paragraphs: seq<string>): seq<Piece> {
    if paragraphs == [] then [Text(w.noText)] else Lines(paragraphs)
  }

  function SlidePieces(w: Wording, slide: Slide, number: nat): (pieces: seq<Piece>)
    ensures Visible(pieces)
  {
    match slide
    case BrokenSlide => [Fault]
    case Slide(hidden, paragraphs, notes) =>
      [Text(SlideHeading(number, hidden))] + (ParagraphPieces(w, paragraphs) + (NotesPieces(w, notes) + [Text("\n")]))
  }

  function SlidesPieces(w: Wording, slides: seq<Slide>, number: nat): seq<Piece> {
    if slides == [] then [] else SlidePieces(w, slides[0], number) + SlidesPieces(w, slides[1..], number + 1)
  }

  /** The rendering of a whole document; without sheets or slides it is a fault. */
  function Pieces(document: Document, wording: Wording): seq<Piece> {
    match document
    case Excel(strings, sheets) =>
      [Text(wording.excel)]
        + (if strings.None? then [Fault] else SheetsPieces(wording, sheets, strings.value))
        + (if sheets == [] then [Fault] else [])
    case PowerPoint(slides) =>
      [Text(wording.powerPoint)] + SlidesPieces(wording, slides, 1) + (if slides == [] then [Fault] else [])
  }

  // ---------------------------------------------------------------- the renderings

  lemma {:induction false} UptoConcat(a: seq<Piece>, b: seq<Piece>)
    ensures Upto(a + b) == if Faulty(a) then Upto(a) else Upto(a) + Upto(b)
  {
    if a == [] {
      assert a + b == b;
    } else {
      assert (a + b)[1..] == a[1..] + b;
      UptoConcat(a[1..], b);
      if !a[0].Fault? { assert Faulty(a) <==> Faulty(a[1..]) by { assert a == [a[0]] + a[1..]; } }
    }
  }

  /** A first text that is not empty, or a fault. */
  predicate Visible(pieces: seq<Piece>) {
    pieces != [] && (pieces[0].Text? ==> pieces[0].text != "")
  }

  lemma JoinParts(done: seq<Piece>, part: seq<Piece>, rest: seq<Piece>)
    ensures done + (part + rest) == (done + part) + rest
    ensures Faulty(part + rest) == (Faulty(part) || Faulty(rest))
    ensures Visible(part) ==> Visible(part + rest)
  {
  }

  lemma RowsSplit(rows: seq<Row>, strings: seq<string>, i: nat, done: seq<Piece>)
    requires i < |rows|
    ensures var cells, rest := CellPieces(rows[i].cells, strings), RowPieces(rows[i + 1..], strings);
      && (done + cells) + rest == done + RowPieces(rows[i..], strings)
      && (Faulty(cells) || Faulty(rest) ==> Faulty(RowPieces(rows[i..], strings)))
  {
    assert rows[i..][1..] == rows[i + 1..];
    JoinParts(done, CellPieces(rows[i].cells, strings), RowPieces(rows[i + 1..], strings));
  }

  lemma SheetsSplit(w: Wording, sheets: seq<Sheet>, strings: seq<string>, i: nat, done: seq<Piece>)
    requires i < |sheets|
    ensures var sheet, rest := SheetPieces(w, sheets[i], strings), SheetsPieces(w, sheets[i + 1..], strings);
      && Visible(SheetsPieces(w, sheets[i..], strings))
      && (done + sheet) + rest == done + SheetsPieces(w, sheets[i..], strings)
      && (Faulty(sheet) || Faulty(rest) ==> Faulty(SheetsPieces(w, sheets[i..], strings)))
  {
    assert sheets[i..][1..] == sheets[i + 1..];
    JoinParts(done, SheetPieces(w, sheets[i], strings), SheetsPieces(w, sheets[i + 1..], strings));
  }

  lemma SlidesSplit(w: Wording, slides: seq<Slide>, i: nat, done: seq<Piece>)
    requires i < |slides|
    ensures var slide, rest := SlidePieces(w, slides[i], i + 1), SlidesPieces(w, slides[i + 1..], i + 2);
      && Visible(SlidesPieces(w, slides[i..], i + 1))
      && (done + slide) + rest == done + SlidesPieces(w, slides[i..], i + 1)
      && (Faulty(slide) || Faulty(rest) ==> Faulty(SlidesPieces(w, slides[i..], i + 1)))
  {
    assert slides[i..][1..] == slides[i + 1..];
    JoinParts(done, SlidePieces(w, slides[i], i + 1), SlidesPieces(w, slides[i + 1..], i + 2));
  }

  lemma NotesSplit(w: Wording, notes: seq<seq<string>>, i: nat, done: seq<Piece>)
    requires i < |notes|
    ensures done + NotesPieces(w, notes[i..])
         == (done + [Text(w.notes)] + Lines(notes[i])) + NotesPieces(w, notes[i + 1..])
  {
    assert notes[i..][1..] == notes[i + 1..];
  }

  lemma JoinNext(seen: seq<Piece>, pieces: seq<Piece>, i: nat)
    requires i < |pieces|
    ensures seen + pieces[..i] + [pieces[i]] == seen + pieces[..i + 1]
  {
  }

  lemma JoinSheet(seen: seq<Piece>, heading: Piece, body: seq<Piece>, end: Piece)
    ensures seen + [heading] + body + [end] == seen + ([heading] + body + [end])
  {
  }

  lemma JoinSlide(seen: seq<Piece>, heading: Piece, body: seq<Piece>, notes: seq<Piece>, end: Piece)
    ensures seen + [heading] + body + notes + [end] == seen + ([heading] + (body + (notes + [end])))
  {
  }

  /** What the extraction has to keep: the text is the start of the rendering so
      far, and something lost, cut off or skipped, has been noticed. */
  predicate Follows(text: string, length: nat, truncated: bool, limit: nat, seen: seq<Piece>) {
    && text == First(Upto(seen), limit) && length == |text|
    && (|Upto(seen)| > limit ==> truncated)
    && (Faulty(seen) ==> truncated && |Upto(seen)| >= limit)
  }

  predicate Exact(truncated: bool, limit: nat, seen: seq<Piece>) {
    truncated ==> Faulty(seen) || |Upto(seen)| > limit
  }

  /** Once the text is full, whatever is skipped cannot change it. */
  lemma SkipFollows(text: string, length: nat, truncated: bool, limit: nat, seen: seq<Piece>, rest: seq<Piece>)
    requires Follows(text, length, truncated, limit, seen) && length >= limit
    ensures Follows(text, length, true, limit, seen + rest)
  {
    UptoConcat(seen, rest);
    if |Upto(seen)| == limit && !Faulty(seen) { assert (Upto(seen) + Upto(rest))[..limit] == Upto(seen); }
    if |Upto(seen)| > limit { assert Upto(seen + rest)[..limit] == Upto(seen)[..limit]; }
  }

  /** Skipping something visible, or broken, is a truncation. */
  lemma SkipIsExact(text: string, length: nat, truncated: bool, limit: nat, seen: seq<Piece>, rest: seq<Piece>)
    requires Follows(text, length, truncated, limit, seen) && length >= limit
    requires Visible(rest)
    ensures Exact(true, limit, seen + rest)
  {
    UptoConcat(seen, rest);
    assert Fault in rest ==> Fault in seen + rest;
    assert rest[0].Fault? ==> Fault in rest;
  }

  lemma AddFollows(text: string, length: nat, truncated: bool, limit: nat, seen: seq<Piece>, more: string)
    requires Follows(text, length, truncated, limit, seen) && length <= limit
    ensures Follows(text + First(more, limit - length), length + |First(more, limit - length)|,
                    truncated || |more| > limit - length, limit, seen + [Text(more)])
    ensures Exact(truncated, limit, seen) ==> Exact(truncated || |more| > limit - length, limit, seen + [Text(more)])
  {
    UptoConcat(seen, [Text(more)]);
    assert Upto([Text(more)]) == more + Upto([]) == more;
    var before, after := Upto(seen), Upto(seen + [Text(more)]);
    if !Faulty(seen) {
      if |before| >= limit {
        assert First(more, limit - length) == "";
        assert after[..limit] == before[..limit];
      } else {
        assert text == before;
        assert First(after, limit) == before + First(more, limit - length);
      }
    } else {
      assert First(more, limit - length) == "";
      assert Fault in seen + [Text(more)];
    }
  }
}

/** The extraction itself: one bounded `add` and the loops around it. */
module OfficeTextExtraction {
  import opened Common
  import opened OfficeText

  class Extractor {
    const limit: nat
    var chunks: seq<string>
    var length: nat
    var truncated: bool

    constructor (limit: nat)
      ensures this.limit == limit && Follows([]) && Exact(truncated, limit, [])
    {
      this.limit, chunks, length, truncated := limit, [], 0, false;
    }

    ghost predicate Follows(seen: seq<Piece>)
      reads this
    {
      OfficeText.Follows(Joined(chunks), length, truncated, limit, seen)
    }

    ghost predicate Shows(seen: seq<Piece>)
      reads this
    {
      Follows(seen) && Exact(truncated, limit, seen)
    }

    /** `add`: a chunk is cut to what is left. */
    method Add(text: string, ghost seen: seq<Piece>)
      requires Follows(seen)
      modifies this
      ensures Follows(seen + [Text(text)])
      ensures old(Shows(seen)) ==> Shows(seen + [Text(text)])
      ensures truncated == (old(truncated) || old(length) + |text| > limit)
    {
      AddFollows(Joined(chunks), length, truncated, limit, seen, text);
      var available := limit - length;
      if |text| > available { truncated := true; }
      var chunk := text[..if available < |text| then available else |text|];
      assert chunk == First(text, available);
      JoinedNext(chunks, chunk);
      chunks := chunks + [chunk];
      length := length + |chunk|;
    }

    /** Leaving a loop early because the text is full. */
    method Cut(ghost seen: seq<Piece>, ghost rest: seq<Piece>)
      requires Follows(seen) && length >= limit
      modifies this`truncated
      ensures Follows(seen + rest) && truncated
      ensures Visible(rest) ==> Shows(seen + rest)
    {
      SkipFollows(Joined(chunks), length, truncated, limit, seen, rest);
      if Visible(rest) { SkipIsExact(Joined(chunks), length, truncated, limit, seen, rest); }
      truncated := true;
    }

    /** The cells of one row; a bad shared string index is an error. */
    method AddCells(cells: seq<Cell>, strings: seq<string>, ghost seen: seq<Piece>) returns (ok: bool)
      requires Shows(seen)
      modifies this
      ensures ok ==> Shows(seen + CellPieces(cells, strings))
      ensures !ok ==> Faulty(CellPieces(cells, strings))
    {
      ghost var pieces, done := CellPieces(cells, strings), seen;
      for i := 0 to |cells|
        invariant Shows(done) && done == seen + pieces[..i]
      {
        var piece := CellPiece(cells[i], strings);
        assert pieces[i] == piece;
        if piece.Fault? { return false; }
        Add(piece.text, done);
        JoinNext(seen, pieces, i);
        done := done + [piece];
      }
      assert pieces[..|cells|] == pieces;
      return true;
    }

    /** The line that ends a sheet, whether or not its rows were cut. */
    method EndSheet(ghost seen: seq<Piece>, ghost rest: seq<Piece>)
      requires Follows(seen) && length >= limit
      requires forall piece :: piece in rest && piece.Text? ==> piece.text != ""
      modifies this
      ensures Shows(seen + rest + [Text("\n")])
    {
      Cut(seen, rest);
      Add("\n", seen + rest);
      UptoConcat(seen + rest, [Text("\n")]);
      UptoConcat(seen, rest);
      assert Upto([Text("\n")]) == "\n" + Upto([]);
      assert Fault in seen + rest ==> Fault in seen + rest + [Text("\n")];
    }

    /** The rows of a worksheet and the line that ends it. */
    method AddRows(rows: seq<Row>, strings: seq<string>, ghost seen: seq<Piece>) returns (ok: bool)
      requires Shows(seen)
      modifies this
      ensures ok ==> Shows(seen + RowPieces(rows, strings) + [Text("\n")])
      ensures !ok ==> Faulty(RowPieces(rows, strings))
    {
      ghost var done := seen;
      var i := 0;
      assert rows[0..] == rows;
      while i < |rows|
        invariant 0 <= i <= |rows| && Shows(done)
        invariant done + RowPieces(rows[i..], strings) == seen + RowPieces(rows, strings)
        invariant Faulty(RowPieces(rows[i..], strings)) ==> Faulty(RowPieces(rows, strings))
      {
        if length >= limit {
          EndSheet(done, RowPieces(rows[i..], strings));
          return true;
        }
        RowsSplit(rows, strings, i, done);
        ok := AddCells(rows[i].cells, strings, done);
        if !ok { return; }
        done := done + CellPieces(rows[i].cells, strings);
        i := i + 1;
      }
      assert done + RowPieces([], strings) == done;
      Add("\n", done);
      return true;
    }

    method AddSheet(w: Wording, sheet: Sheet, strings: seq<string>, ghost seen: seq<Piece>) returns (ok: bool)
      requires Shows(seen)
      modifies this
      ensures ok ==> Shows(seen + SheetPieces(w, sheet, strings))
      ensures !ok ==> Faulty(SheetPieces(w, sheet, strings))
    {
      if sheet.BrokenSheet? { return false; }
      var heading := SheetHeading(sheet.name, sheet.state);
      Add(heading, seen);
      if sheet.OtherSheet? {
        Add(w.otherSheet, seen + [Text(heading)]);
        assert seen + [Text(heading)] + [Text(w.otherSheet)] == seen + [Text(heading), Text(w.otherSheet)];
        return true;
      }
      ok := AddRows(sheet.rows, strings, seen + [Text(heading)]);
      JoinSheet(seen, Text(heading), RowPieces(sheet.rows, strings), Text("\n"));
    }

    method AddSheets(w: Wording, sheets: seq<Sheet>, strings: seq<string>, ghost seen: seq<Piece>) returns (ok: bool)
      requires Shows(seen)
      modifies this
      ensures ok ==> Shows(seen + SheetsPieces(w, sheets, strings))
      ensures !ok ==> Faulty(SheetsPieces(w, sheets, strings))
    {
      ghost var done := seen;
      var i := 0;
      assert sheets[0..] == sheets;
      while i < |sheets|
        invariant 0 <= i <= |sheets| && Shows(done)
        invariant done + SheetsPieces(w, sheets[i..], strings) == seen + SheetsPieces(w, sheets, strings)
        invariant Faulty(SheetsPieces(w, sheets[i..], strings)) ==> Faulty(SheetsPieces(w, sheets, strings))
      {
        SheetsSplit(w, sheets, strings, i, done);
        if length >= limit {
          Cut(done, SheetsPieces(w, sheets[i..], strings));
          return true;
        }
        ok := AddSheet(w, sheets[i], strings, done);
        if !ok { return; }
        done := done + SheetPieces(w, sheets[i], strings);
        i := i + 1;
      }
      assert done + SheetsPieces(w, [], strings) == done;
      return true;
    }

    method AddLines(paragraphs: seq<string>, ghost seen: seq<Piece>)
      requires Shows(seen)
      modifies this
      ensures Shows(seen + Lines(paragraphs))
    {
      ghost var pieces, done := Lines(paragraphs), seen;
      for i := 0 to |paragraphs|
        invariant Shows(done) && done == seen + pieces[..i]
      {
        Add(paragraphs[i] + "\n", done);
        JoinNext(seen, pieces, i);
        done := done + [pieces[i]];
      }
      assert pieces[..|paragraphs|] == pieces;
    }

    method AddNotes(w: Wording, notes: seq<seq<string>>, ghost seen: seq<Piece>)
      requires Shows(seen)
      modifies this
      ensures Shows(seen + NotesPieces(w, notes))
    {
      ghost var done := seen;
      var i := 0;
      assert notes[0..] == notes;
      while i < |notes|
        invariant 0 <= i <= |notes| && Shows(done)
        invariant done + NotesPieces(w, notes[i..]) == seen + NotesPieces(w, notes)
      {
        NotesSplit(w, notes, i, done);
        Add(w.notes, done);
        AddLines(notes[i], done + [Text(w.notes)]);
        done := done + [Text(w.notes)] + Lines(notes[i]);
        i := i + 1;
      }
      assert done + NotesPieces(w, []) == done;
    }

    method AddParagraphs(w: Wording, paragraphs: seq<string>, ghost seen: seq<Piece>)
      requires Shows(seen)
      modifies this
      ensures Shows(seen + ParagraphPieces(w, paragraphs))
    {
      AddLines(paragraphs, seen);
      if paragraphs == [] {
        assert seen + Lines(paragraphs) == seen;
        Add(w.noText, seen);
      }
    }

    method AddSlide(w: Wording, slide: Slide, number: nat, ghost seen: seq<Piece>) returns (ok: bool)
      requires Shows(seen)
      modifies this
      ensures ok ==> Shows(seen + SlidePieces(w, slide, number))
      ensures !ok ==> Faulty(SlidePieces(w, slide, number))
    {
      if slide.BrokenSlide? { return false; }
      ghost var heading := seen + [Text(SlideHeading(number, slide.hidden))];
      Add(SlideHeading(number, slide.hidden), seen);
      AddParagraphs(w, slide.paragraphs, heading);
      ghost var body := heading + ParagraphPieces(w, slide.paragraphs);
      AddNotes(w, slide.notes, body);
      Add("\n", body + NotesPieces(w, slide.notes));
      JoinSlide(seen, Text(SlideHeading(number, slide.hidden)), ParagraphPieces(w, slide.paragraphs),
                NotesPieces(w, slide.notes), Text("\n"));
      return true;
    }

    method AddSlides(w: Wording, slides: seq<Slide>, ghost seen: seq<Piece>) returns (ok: bool)
      requires Shows(seen)
      modifies this
      ensures ok ==> Shows(seen + SlidesPieces(w, slides, 1))
      ensures !ok ==> Faulty(SlidesPieces(w, slides, 1))
    {
      ghost var done := seen;
      var i := 0;
      assert slides[0..] == slides;
      while i < |slides|
        invariant 0 <= i <= |slides| && Shows(done)
        invariant done + SlidesPieces(w, slides[i..], i + 1) == seen + SlidesPieces(w, slides, 1)
        invariant Faulty(SlidesPieces(w, slides[i..], i + 1)) ==> Faulty(SlidesPieces(w, slides, 1))
      {
        SlidesSplit(w, slides, i, done);
        if length >= limit {
          Cut(done, SlidesPieces(w, slides[i..], i + 1));
          return true;
        }
        ok := AddSlide(w, slides[i], i + 1, done);
        if !ok { return; }
        done := done + SlidePieces(w, slides[i], i + 1);
        i := i + 1;
      }
      assert done + SlidesPieces(w, [], i + 1) == done;
      return true;
    }
  }

  /** `extract` refines the unlimited rendering. Where every part can be read, the
      text is its first `limit` characters and `truncated` says whether there was
      more. A part that cannot be read is an error unless the text was full by then,
      and then the snapshot is marked truncated. */
  method Extract(document: Document, wording: Wording, limit: nat := LIMIT) returns (result: Result<Snapshot, ()>)
    ensures !Faulty(Pieces(document, wording)) ==>
      result == Ok(Snapshot(First(Upto(Pieces(document, wording)), limit), |Upto(Pieces(document, wording))| > limit))
    ensures Faulty(Pieces(document, wording)) && result.Ok? ==>
      |Upto(Pieces(document, wording))| >= limit
      && result == Ok(Snapshot(First(Upto(Pieces(document, wording)), limit), true))
  {
    var extractor := new Extractor(limit);
    var ok;
    if document.Excel? {
      assert [] + [Text(wording.excel)] == [Text(wording.excel)];
      extractor.Add(wording.excel, []);
      if document.strings.None? { return Err(()); }
      ok := extractor.AddSheets(wording, document.sheets, document.strings.value, [Text(wording.excel)]);
      if !ok || document.sheets == [] { return Err(()); }
      assert Pieces(document, wording) ==
        [Text(wording.excel)] + SheetsPieces(wording, document.sheets, document.strings.value);
    } else {
      assert [] + [Text(wording.powerPoint)] == [Text(wording.powerPoint)];
      extractor.Add(wording.powerPoint, []);
      ok := extractor.AddSlides(wording, document.slides, [Text(wording.powerPoint)]);
      if !ok || document.slides == [] { return Err(()); }
      assert Pieces(document, wording) == [Text(wording.powerPoint)] + SlidesPieces(wording, document.slides, 1);
    }
    var text := Join(extractor.chunks);
    return Ok(Snapshot(text, extractor.truncated));
  }

  method Join(parts: seq<string>) returns (text: string)
    ensures text == Joined(parts)
  {
    text := "";
    for i := 0 to |parts|
      invariant text == Joined(parts[..i])
    {
      assert parts[..i + 1][..i] == parts[..i];
      text := text + parts[i];
    }
    assert parts[..|parts|] == parts;
  }
}
