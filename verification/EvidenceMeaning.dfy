/** Which claims are accepted, in terms of the texts they quote: a reading of the checks without their helpers. */
module EvidenceMeaning {
  import opened Common
  import opened EvidenceSpans

  // ---------- pieces of text ----------

  /** White space and line terminators of ECMAScript, which trimming removes. */
  const WHITE_SPACE: set<int> := {
    0x09, 0x0A, 0x0B, 0x0C, 0x0D, 0x20, 0xA0, 0x1680, 0x2000, 0x2001, 0x2002, 0x2003, 0x2004, 0x2005, 0x2006, 0x2007,
    0x2008, 0x2009, 0x200A, 0x2028, 0x2029, 0x202F, 0x205F, 0x3000, 0xFEFF}

  ghost predicate Filled(text: Text) {
    exists u :: u in text && u !in WHITE_SPACE
  }

  /** A high surrogate before the offset and a low one after it. */
  predicate BetweenSurrogates(text: Text, offset: nat) {
    0 < offset < |text| && text[offset - 1] / 0x400 == 0x36 && text[offset] / 0x400 == 0x37
  }

  /** The piece, which is not blank, stands between what comes before and after it, and neither end lies
      within a character. */
  ghost predicate StandsAt(text: Text, start: nat, end: nat, piece: Text) {
    && Filled(piece) && !BetweenSurrogates(text, start) && !BetweenSurrogates(text, end)
    && exists before, after :: text == before + piece + after && |before| == start && |before + piece| == end
  }

  lemma SpacesAreWhiteSpace(text: Text)
    ensures Blank(text) <==> !Filled(text)
  {
  }

  lemma SplitsBetween(text: Text, offset: nat)
    ensures SplitsSurrogate(text, offset) <==> BetweenSurrogates(text, offset)
  {
  }

  lemma SliceStands(text: Text, start: nat, end: nat, piece: Text)
    ensures (start <= end <= |text| && text[start..end] == piece)
      <==> exists before, after :: text == before + piece + after && |before| == start && |before + piece| == end
  {
    if start <= end <= |text| && text[start..end] == piece {
      var before, after := text[..start], text[end..];
      assert text == before + piece + after;
      assert |before + piece| == end;
    }
    if before, after :| text == before + piece + after && |before| == start && |before + piece| == end {
      assert text[start..end] == piece;
    }
  }

  lemma ExactStands(text: Text, s: Selection)
    ensures Exact(text, s) <==> StandsAt(text, s.start, s.end, s.text)
  {
    hide Blank, Filled, SplitsSurrogate, BetweenSurrogates;
    SpacesAreWhiteSpace(s.text);
    SplitsBetween(text, s.start);
    SplitsBetween(text, s.end);
    SliceStands(text, s.start, s.end, s.text);
    if Filled(s.text) {
      FilledIsNotEmpty(s.text);
    }
  }

  lemma FilledIsNotEmpty(text: Text)
    requires Filled(text)
    ensures text != []
  {
  }

  // ---------- one claim ----------

  /** What a claim needs to bind: in a PDF a piece of the line at its place; in a table a piece of what the
      cell holds or displays, or, for an amount, the whole filled cell as it holds it - a number in a
      workbook, text in a CSV file. */
  ghost predicate Quotes(index: Index, format: Format, claim: Claim) {
    match claim.source
    case PdfSource(page, lineIndex, line, selection) =>
      && format == Pdf && page in index.pages && lineIndex < |index.pages[page]| && index.pages[page][lineIndex] == line
      && StandsAt(line, selection.start, selection.end, selection.text)
    case CellSource(sheet, row, column, evidence, part) =>
      && format != Pdf && CellAt(sheet, row, column) in index.cells
      && var cell := index.cells[CellAt(sheet, row, column)];
         if claim.role == Amount then
           && part.None? && evidence == cell.value && Filled(cell.value)
           && (format == Xlsx ==> cell.kind == Number || cell.kind == Formula(Number)) && (format == Csv ==> cell.kind == TextCell)
         else
           && (evidence == cell.value || cell.displayValue == Some(evidence))
           && match part
              case None => StandsAt(evidence, 0, |evidence|, evidence)
              case Some(s) => StandsAt(evidence, s.start, s.end, s.text)
  }

  lemma BindsExactly(index: Index, format: Format, claim: Claim)
    ensures Bind(index, format, claim).Ok? <==> Quotes(index, format, claim)
  {
    hide Exact, StandsAt, Blank, Filled;
    match claim.source
    case PdfSource(_, _, line, selection) => ExactStands(line, selection);
    case CellSource(sheet, row, column, evidence, part) =>
      ExactStands(evidence, Selection(0, |evidence|, evidence));
      if part.Some? { ExactStands(evidence, part.value); }
      SpacesAreWhiteSpace(evidence);
      if CellAt(sheet, row, column) in index.cells { SpacesAreWhiteSpace(index.cells[CellAt(sheet, row, column)].value); }
  }

  /** The selection is of no text at all: it is blank, or its offsets are not those of a piece. */
  ghost predicate OutOfText(text: Text, start: nat, end: nat, piece: Text) {
    !Filled(piece) || start > |text| || end == 0 || end > |text|
  }

  /** What a claim that does not bind is told: an amount's cell that is blank or, although quoted as it is, of
      the wrong kind is unsafe; a selection out of the quoted text is invalid; anything else was not found. */
  lemma BlockersMean(index: Index, format: Format, claim: Claim)
    requires Bind(index, format, claim).Blocked?
    ensures var blocker := Bind(index, format, claim).blocker;
      match claim.source
      case PdfSource(page, lineIndex, line, selection) =>
        blocker == if && format == Pdf && page in index.pages && lineIndex < |index.pages[page]| && index.pages[page][lineIndex] == line
                      && OutOfText(line, selection.start, selection.end, selection.text)
                   then InvalidInput else SourceNotFound(claim.id)
      case CellSource(sheet, row, column, evidence, part) =>
        var at := CellAt(sheet, row, column);
        if format == Pdf || at !in index.cells then blocker == SourceNotFound(claim.id)
        else
          var cell := index.cells[at];
          if claim.role == Amount
          then blocker == if !Filled(cell.value) || (part.None? && evidence == cell.value) then UnsafeCell(claim.id) else SourceNotFound(claim.id)
          else
            var selected := if part.Some? then part.value else Selection(0, |evidence|, evidence);
            blocker == if && (evidence == cell.value || cell.displayValue == Some(evidence))
                          && OutOfText(evidence, selected.start, selected.end, selected.text)
                       then InvalidInput else SourceNotFound(claim.id)
  {
    hide Exact, Blank, Filled, SplitsSurrogate, Binds, Holds;
    match claim.source
    case PdfSource(_, _, _, selection) => SpacesAreWhiteSpace(selection.text);
    case CellSource(sheet, row, column, evidence, part) =>
      SpacesAreWhiteSpace(if part.Some? then part.value.text else evidence);
      if CellAt(sheet, row, column) in index.cells { SpacesAreWhiteSpace(index.cells[CellAt(sheet, row, column)].value); }
  }

  // ---------- two claims ----------

  /** Two claims are made at one place. */
  predicate AtOnePlace(a: Claim, b: Claim) {
    match (a.source, b.source)
    case (PdfSource(p, l, _, _), PdfSource(q, m, _, _)) => p == q && l == m
    case (CellSource(s, r, c, _, _), CellSource(t, q, d, _, _)) => s == t && r == q && c == d
    case _ => false
  }

  function TextOf(claim: Claim): Text {
    match claim.source case PdfSource(_, _, line, _) => line case CellSource(_, _, _, evidence, _) => evidence
  }

  function FirstOf(claim: Claim): nat {
    match claim.source
    case PdfSource(_, _, _, s) => s.start
    case CellSource(_, _, _, _, part) => if part.Some? then part.value.start else 0
  }

  function EndOf(claim: Claim): nat {
    match claim.source
    case PdfSource(_, _, _, s) => s.end
    case CellSource(_, _, _, evidence, part) => if part.Some? then part.value.end else |evidence|
  }

  /** Neither takes the whole cell as an amount, both quote one text, and one ends before the other begins. */
  predicate SideBySide(a: Claim, b: Claim) {
    && !(a.source.CellSource? && a.role == Amount) && !(b.source.CellSource? && b.role == Amount)
    && TextOf(a) == TextOf(b) && (EndOf(a) <= FirstOf(b) || EndOf(b) <= FirstOf(a))
  }

  lemma PairsExactly(index: Index, format: Format, a: Claim, b: Claim)
    requires Bind(index, format, a).Ok? && Bind(index, format, b).Ok?
    ensures PairAcceptable(index, format, a, b) <==> (AtOnePlace(a, b) ==> SideBySide(a, b))
  {
    hide Bind, Binds;
  }

  /** Claims are accepted exactly when their ids differ, each quotes its text, and any two at one place stand
      side by side. */
  lemma AcceptedExactly(index: Index, format: Format, claims: seq<Claim>)
    ensures Acceptable(index, format, claims) <==>
      && (forall i, j :: 0 <= i < j < |claims| ==> claims[i].id != claims[j].id)
      && (forall i :: 0 <= i < |claims| ==> Quotes(index, format, claims[i]))
      && (forall i, j :: 0 <= i < j < |claims| && AtOnePlace(claims[i], claims[j]) ==> SideBySide(claims[i], claims[j]))
  {
    hide Bind, Quotes, PairAcceptable, AtOnePlace, SideBySide;
    forall i | 0 <= i < |claims| ensures Bind(index, format, claims[i]).Ok? <==> Quotes(index, format, claims[i]) {
      BindsExactly(index, format, claims[i]);
    }
    if forall i :: 0 <= i < |claims| ==> Bind(index, format, claims[i]).Ok? {
      forall i, j | 0 <= i < j < |claims|
        ensures PairAcceptable(index, format, claims[i], claims[j])
          <==> (AtOnePlace(claims[i], claims[j]) ==> SideBySide(claims[i], claims[j]))
      {
        PairsExactly(index, format, claims[i], claims[j]);
      }
    }
  }
}
