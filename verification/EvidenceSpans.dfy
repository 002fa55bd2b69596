/** Claims about extracted report evidence: each claim selects an exact piece of the indexed text, and
    no two claims on one line or cell may overlap. Text is a sequence of UTF-16 code units. */
module EvidenceSpans {
  import opened Common

  type Unit = u: int | 0 <= u < 0x1_0000
  type Text = seq<Unit>

  datatype Format = Pdf | Csv | Xlsx
  datatype Role = TextRole | Amount | IsoCode
  datatype CellType = Boolean | Date | Error | Formula(result: CellType) | Number | TextCell
  datatype CellFact = CellFact(kind: CellType, value: Text, displayValue: Option<Text>)
  datatype Selection = Selection(start: nat, end: nat, text: Text)
  datatype Source =
    | PdfSource(page: nat, lineIndex: nat, line: Text, selection: Selection)
    | CellSource(sheet: Text, row: nat, column: nat, evidence: Text, part: Option<Selection>)
  datatype Claim = Claim(id: Text, role: Role, source: Source)

  datatype Coordinate = LineAt(page: nat, lineIndex: nat) | CellAt(sheet: Text, row: nat, column: nat)
  datatype Index = Index(pages: map<nat, seq<Text>>, cells: map<Coordinate, CellFact>)

  /** A claim tied to its place in the evidence. */
  datatype Bound = Bound(claimId: Text, at: Coordinate, start: nat, end: nat, wholeAmount: bool, evidence: Text, selected: Text)

  datatype Blocker = InvalidInput | SourceNotFound(id: Text) | UnsafeCell(id: Text) | DuplicateClaim(id: Text) | OverlappingSource(id: Text)
  datatype Result<+T> = Ok(value: T) | Blocked(blocker: Blocker)

  // ---------- selecting a piece of text ----------

  predicate IsSpace(u: Unit) {
    || 0x09 <= u <= 0x0D || u == 0x20 || u == 0xA0 || u == 0x1680 || 0x2000 <= u <= 0x200A
    || u == 0x2028 || u == 0x2029 || u == 0x202F || u == 0x205F || u == 0x3000 || u == 0xFEFF
  }

  /** Nothing is left after trimming. */
  predicate Blank(text: Text) {
    forall u :: u in text ==> IsSpace(u)
  }

  predicate SplitsSurrogate(text: Text, offset: nat) {
    0 < offset < |text| && 0xD800 <= text[offset - 1] <= 0xDBFF && 0xDC00 <= text[offset] <= 0xDFFF
  }

  /** The selected piece is exactly what stands at its offsets, not empty, and cuts no surrogate pair. */
  predicate Exact(text: Text, s: Selection) {
    && s.start < s.end <= |text| && !Blank(s.text)
    && text[s.start..s.end] == s.text
    && !SplitsSurrogate(text, s.start) && !SplitsSurrogate(text, s.end)
  }

  function Span(text: Text, s: Selection, id: Text): (r: Result<Selection>)
    ensures r.Ok? <==> Exact(text, s)
    ensures r.Ok? ==> r.value == s
    ensures r.Blocked? ==> r.blocker == InvalidInput || r.blocker == SourceNotFound(id)
  {
    if s.start > |text| || s.end < 1 || s.end > |text| || Blank(s.text) then Blocked(InvalidInput)
    else if s.start >= s.end || SplitsSurrogate(text, s.start) || SplitsSurrogate(text, s.end) || text[s.start..s.end] != s.text
    then Blocked(SourceNotFound(id))
    else Ok(s)
  }

  /** The text a coordinate holds, as extracted or as displayed. */
  predicate Holds(index: Index, at: Coordinate, evidence: Text) {
    match at
    case LineAt(page, lineIndex) => page in index.pages && lineIndex < |index.pages[page]| && index.pages[page][lineIndex] == evidence
    case CellAt(_, _, _) => at in index.cells && (index.cells[at].value == evidence || index.cells[at].displayValue == Some(evidence))
  }

  predicate IsNumber(kind: CellType) {
    kind == Number || kind == Formula(Number)
  }

  function CoordinateOf(source: Source): Coordinate {
    match source
    case PdfSource(page, lineIndex, _, _) => LineAt(page, lineIndex)
    case CellSource(sheet, row, column, _, _) => CellAt(sheet, row, column)
  }

  /** The text a source quotes. */
  function QuotedBy(source: Source): Text {
    match source
    case PdfSource(_, _, line, _) => line
    case CellSource(_, _, _, evidence, _) => evidence
  }

  /** What a source selects: a cell without a selection stands for all of its text. */
  function SelectedBy(source: Source): Selection {
    match source
    case PdfSource(_, _, _, selection) => selection
    case CellSource(_, _, _, evidence, part) => if part.Some? then part.value else Selection(0, |evidence|, evidence)
  }

  predicate IsWholeAmount(claim: Claim) {
    claim.source.CellSource? && claim.role == Amount
  }

  /** An amount is a whole, filled cell, quoted as extracted: a number in a workbook, text in a CSV file. */
  predicate AmountFits(cell: CellFact, format: Format, source: Source)
    requires source.CellSource?
  {
    && source.part.None? && source.evidence == cell.value && !Blank(cell.value)
    && (format == Xlsx ==> IsNumber(cell.kind)) && (format == Csv ==> cell.kind == TextCell)
  }

  /** A claim binds: its source is of the right kind, quotes the text the index holds at its coordinate,
      and selects a whole amount or an exact piece of that text. */
  predicate Binds(index: Index, format: Format, claim: Claim) {
    && (format == Pdf <==> claim.source.PdfSource?)
    && Holds(index, CoordinateOf(claim.source), QuotedBy(claim.source))
    && if IsWholeAmount(claim) then AmountFits(index.cells[CoordinateOf(claim.source)], format, claim.source)
       else Exact(QuotedBy(claim.source), SelectedBy(claim.source))
  }

  /** Ties a claim to the index. */
  function Bind(index: Index, format: Format, claim: Claim): (r: Result<Bound>)
    ensures r.Ok? <==> Binds(index, format, claim)
    ensures r.Ok? ==>
      var s := SelectedBy(claim.source);
      r.value == Bound(claim.id, CoordinateOf(claim.source), s.start, s.end, IsWholeAmount(claim), QuotedBy(claim.source), s.text)
    ensures r.Ok? ==>
      && r.value.claimId == claim.id && Holds(index, r.value.at, r.value.evidence)
      && r.value.start < r.value.end <= |r.value.evidence|
      && r.value.evidence[r.value.start..r.value.end] == r.value.selected
    ensures r.Blocked? ==> r.blocker in {InvalidInput, SourceNotFound(claim.id), UnsafeCell(claim.id)}
    ensures r.Ok? ==> (r.value.wholeAmount <==> claim.source.CellSource? && claim.role == Amount)
    ensures r.Ok? && r.value.wholeAmount ==>
      && r.value.at in index.cells && r.value.start == 0
      && r.value.selected == r.value.evidence == index.cells[r.value.at].value
    ensures r.Ok? && !r.value.wholeAmount ==> Exact(r.value.evidence, Selection(r.value.start, r.value.end, r.value.selected))
  {
    match claim.source
    case PdfSource(page, lineIndex, line, selection) =>
      if format != Pdf || page !in index.pages || lineIndex >= |index.pages[page]| || index.pages[page][lineIndex] != line
      then Blocked(SourceNotFound(claim.id))
      else
        var s := Span(line, selection, claim.id);
        if s.Blocked? then Blocked(s.blocker)
        else Ok(Bound(claim.id, LineAt(page, lineIndex), selection.start, selection.end, false, line, selection.text))
    case CellSource(sheet, row, column, evidence, part) =>
      var at := CellAt(sheet, row, column);
      if format == Pdf || at !in index.cells then Blocked(SourceNotFound(claim.id))
      else
        var cell := index.cells[at];
        if claim.role == Amount then
          if Blank(cell.value) then Blocked(UnsafeCell(claim.id))
          else if part.Some? || evidence != cell.value then Blocked(SourceNotFound(claim.id))
          else if format == Xlsx && !IsNumber(cell.kind) then Blocked(UnsafeCell(claim.id))
          else if format == Csv && cell.kind != TextCell then Blocked(UnsafeCell(claim.id))
          else
            assert cell.value[0..|cell.value|] == cell.value;
            Ok(Bound(claim.id, at, 0, |cell.value|, true, cell.value, cell.value))
        else if evidence != cell.value && cell.displayValue != Some(evidence) then Blocked(SourceNotFound(claim.id))
        else
          var s := Span(evidence, if part.Some? then part.value else Selection(0, |evidence|, evidence), claim.id);
          if s.Blocked? then Blocked(s.blocker)
          else Ok(Bound(claim.id, at, s.value.start, s.value.end, false, evidence, s.value.text))
  }

  // ---------- overlap ----------

  predicate Overlaps(a: Bound, b: Bound) {
    a.start < b.end && b.start < a.end
  }

  predicate NotEmpty(items: seq<Bound>) {
    forall i :: 0 <= i < |items| ==> items[i].start < items[i].end
  }

  /** What the quadratic comparison finds. */
  predicate SomePairOverlaps(items: seq<Bound>) {
    exists i, j :: 0 <= i < j < |items| && Overlaps(items[i], items[j])
  }

  /** What one look at neighbours in sorted order finds. */
  predicate SomeNeighboursOverlap(sorted: seq<Bound>) {
    exists i :: 0 < i < |sorted| && NeighboursOverlap(sorted, i)
  }

  predicate NeighboursOverlap(sorted: seq<Bound>, i: nat)
    requires 0 < i < |sorted|
  {
    sorted[i].start < sorted[i - 1].end
  }

  predicate Ordered(a: Bound, b: Bound) {
    a.start < b.start || (a.start == b.start && a.end <= b.end)
  }

  predicate IsSorted(items: seq<Bound>) {
    forall i, j :: 0 <= i < j < |items| ==> Ordered(items[i], items[j])
  }

  lemma {:induction false} ApartInOrder(sorted: seq<Bound>, i: nat, j: nat)
    requires IsSorted(sorted) && NotEmpty(sorted) && !SomeNeighboursOverlap(sorted) && i < j < |sorted|
    ensures sorted[i].end <= sorted[j].start
  {
    assert !NeighboursOverlap(sorted, j);
    if i + 1 < j {
      ApartInOrder(sorted, i, j - 1);
    }
  }

  /** In sorted order the two tests agree. */
  lemma SortedTestsAgree(sorted: seq<Bound>)
    requires IsSorted(sorted) && NotEmpty(sorted)
    ensures SomeNeighboursOverlap(sorted) <==> SomePairOverlaps(sorted)
  {
    if SomeNeighboursOverlap(sorted) {
      var i :| 0 < i < |sorted| && NeighboursOverlap(sorted, i);
      assert Ordered(sorted[i - 1], sorted[i]);
      assert Overlaps(sorted[i - 1], sorted[i]);
    } else if SomePairOverlaps(sorted) {
      var i, j :| 0 <= i < j < |sorted| && Overlaps(sorted[i], sorted[j]);
      ApartInOrder(sorted, i, j);
      assert false;
    }
  }

  // ---------- the pairwise test does not depend on the order ----------

  /** Two equal non-empty spans overlap, so a pair overlaps exactly when two members of the multiset do. */
  ghost predicate MembersOverlap(items: multiset<Bound>) {
    exists a, b :: a in items && b in items - multiset{a} && Overlaps(a, b)
  }

  lemma PairsAreMembers(items: seq<Bound>)
    ensures SomePairOverlaps(items) <==> MembersOverlap(multiset(items))
  {
    if SomePairOverlaps(items) {
      var i, j :| 0 <= i < j < |items| && Overlaps(items[i], items[j]);
      TwoPositions(items, i, j);
      assert items[i] in multiset(items) && items[j] in multiset(items) - multiset{items[i]};
    }
    if MembersOverlap(multiset(items)) {
      var a, b :| a in multiset(items) && b in multiset(items) - multiset{a} && Overlaps(a, b);
      var i, j := PositionsOf(items, a, b);
      if i < j {
        assert Overlaps(items[i], items[j]);
      } else {
        assert Overlaps(items[j], items[i]);
      }
    }
  }

  lemma TwoPositions(items: seq<Bound>, i: nat, j: nat)
    requires i < j < |items|
    ensures items[j] in multiset(items) - multiset{items[i]}
  {
    assert items == items[..j] + items[j..];
    assert multiset(items) == multiset(items[..j]) + multiset(items[j..]);
    assert items[..j][i] in multiset(items[..j]);
    assert items[j..][0] in multiset(items[j..]);
  }

  lemma RemoveOne(items: seq<Bound>, i: nat)
    requires i < |items|
    ensures multiset(items) - multiset{items[i]} == multiset(items[..i] + items[i + 1..])
  {
    assert items == items[..i] + [items[i]] + items[i + 1..];
  }

  lemma PositionsOf(items: seq<Bound>, a: Bound, b: Bound) returns (i: nat, j: nat)
    requires a in multiset(items) && b in multiset(items) - multiset{a}
    ensures i < |items| && j < |items| && i != j && items[i] == a && items[j] == b
  {
    i :| 0 <= i < |items| && items[i] == a;
    var rest := items[..i] + items[i + 1..];
    RemoveOne(items, i);
    assert b in multiset(rest);
    var k :| 0 <= k < |rest| && rest[k] == b;
    j := if k < i then k else k + 1;
  }

  /** However the items are sorted, the neighbour test gives the answer of the pairwise test. */
  lemma NeighbourTestIsPairTest(items: seq<Bound>, sorted: seq<Bound>)
    requires NotEmpty(items) && IsSorted(sorted) && multiset(sorted) == multiset(items)
    ensures SomeNeighboursOverlap(sorted) <==> SomePairOverlaps(items)
  {
    hide SomeNeighboursOverlap, SomePairOverlaps, MembersOverlap, IsSorted;
    forall i | 0 <= i < |sorted| ensures sorted[i].start < sorted[i].end {
      assert sorted[i] in multiset(sorted);
    }
    SortedTestsAgree(sorted);
    PairsAreMembers(items);
    PairsAreMembers(sorted);
  }

  // ---------- one group ----------

  /** Two claims that may stand on one coordinate. */
  predicate Compatible(a: Bound, b: Bound) {
    !a.wholeAmount && !b.wholeAmount && a.evidence == b.evidence && !Overlaps(a, b)
  }

  ghost predicate AllCompatible(items: seq<Bound>) {
    forall i, j :: 0 <= i < j < |items| ==> Compatible(items[i], items[j])
  }

  predicate OverlapsEarlier(items: seq<Bound>, k: nat)
    requires k < |items|
  {
    exists i :: 0 <= i < k && Overlaps(items[i], items[k])
  }

  /** The claim named is at fault: it does not go with an earlier one. When nothing but overlap is wrong
      it is the first in input order that overlaps an earlier one. */
  ghost predicate Blamed(items: seq<Bound>, k: nat) {
    && 0 < k < |items|
    && (exists i :: 0 <= i < k && !Compatible(items[i], items[k]))
    && (OnlyOverlap(items) ==> OverlapsEarlier(items, k) && forall j :: 0 <= j < k ==> !OverlapsEarlier(items, j))
  }

  ghost predicate OnlyOverlap(items: seq<Bound>) {
    (forall i :: 0 <= i < |items| ==> !items[i].wholeAmount) && forall i :: 0 <= i < |items| ==> items[i].evidence == items[0].evidence
  }

  method FindWhole(items: seq<Bound>) returns (k: nat)
    ensures k <= |items| && (forall i :: 0 <= i < k ==> !items[i].wholeAmount) && (k < |items| ==> items[k].wholeAmount)
  {
    k := 0;
    while k < |items| && !items[k].wholeAmount
      invariant k <= |items| && forall i :: 0 <= i < k ==> !items[i].wholeAmount
    {
      k := k + 1;
    }
  }

  method FindDifferent(items: seq<Bound>) returns (k: nat)
    ensures k <= |items| && (forall i :: 0 <= i < k ==> items[i].evidence == items[0].evidence)
    ensures k < |items| ==> items[k].evidence != items[0].evidence
  {
    k := 0;
    while k < |items| && items[k].evidence == items[0].evidence
      invariant k <= |items| && forall i :: 0 <= i < k ==> items[i].evidence == items[0].evidence
    {
      k := k + 1;
    }
  }

  method FindOverlapping(items: seq<Bound>) returns (k: nat)
    requires SomePairOverlaps(items)
    ensures k < |items| && OverlapsEarlier(items, k) && forall j :: 0 <= j < k ==> !OverlapsEarlier(items, j)
  {
    k := 0;
    while k < |items| && !OverlapsEarlier(items, k)
      invariant k <= |items| && forall j :: 0 <= j < k ==> !OverlapsEarlier(items, j)
    {
      k := k + 1;
    }
    var i, j :| 0 <= i < j < |items| && Overlaps(items[i], items[j]);
    assert OverlapsEarlier(items, j);
  }

  /** Inserts after everything that is not larger. */
  function Placed(sorted: seq<Bound>, b: Bound): (r: seq<Bound>)
    requires IsSorted(sorted)
    ensures IsSorted(r) && multiset(r) == multiset(sorted) + multiset{b}
  {
    if sorted == [] then [b]
    else
      var n := |sorted| - 1;
      assert sorted == sorted[..n] + [sorted[n]];
      if Ordered(sorted[n], b) then sorted + [b]
      else
        var before := Placed(sorted[..n], b);
        PlacedBelow(before, sorted, b);
        before + [sorted[n]]
  }

  lemma PlacedBelow(before: seq<Bound>, sorted: seq<Bound>, b: Bound)
    requires sorted != [] && IsSorted(sorted) && !Ordered(sorted[|sorted| - 1], b)
    requires multiset(before) == multiset(sorted[..|sorted| - 1]) + multiset{b}
    ensures forall i :: 0 <= i < |before| ==> Ordered(before[i], sorted[|sorted| - 1])
  {
    var n := |sorted| - 1;
    forall i | 0 <= i < |before| ensures Ordered(before[i], sorted[n]) {
      assert before[i] in multiset(before);
      if before[i] != b {
        assert before[i] in multiset(sorted[..n]);
        var j :| 0 <= j < n && sorted[j] == before[i];
      }
    }
  }

  /** The items by start, then end. */
  method SortSpans(items: seq<Bound>) returns (sorted: seq<Bound>)
    ensures IsSorted(sorted) && multiset(sorted) == multiset(items)
  {
    sorted := [];
    for i := 0 to |items|
      invariant IsSorted(sorted) && multiset(sorted) == multiset(items[..i])
    {
      sorted := Placed(sorted, items[i]);
      assert items[..i + 1] == items[..i] + [items[i]];
    }
    assert items[..|items|] == items;
  }

  /** The checks on one coordinate: no company for a whole amount, one evidence text, no overlap. */
  method CheckGroup(items: seq<Bound>) returns (blamed: Option<nat>)
    requires NotEmpty(items) && items != []
    ensures blamed.None? <==> AllCompatible(items)
    ensures blamed.Some? ==> Blamed(items, blamed.value)
  {
    hide IsSorted, SomeNeighboursOverlap, Overlaps;
    var whole := FindWhole(items);
    if whole < |items| && |items| > 1 {
      var k := if whole == 0 then 1 else whole;
      assert !Compatible(items[0], items[k]);
      return Some(k);
    }
    var different := FindDifferent(items);
    if different < |items| {
      assert !Compatible(items[0], items[different]);
      return Some(different);
    }
    var sorted := SortSpans(items);
    NeighbourTestIsPairTest(items, sorted);
    if SomeNeighboursOverlap(sorted) {
      var k := FindOverlapping(items);
      var i :| 0 <= i < k && Overlaps(items[i], items[k]);
      assert !Compatible(items[i], items[k]);
      return Some(k);
    }
    return None;
  }

  // ---------- grouping and the whole validation ----------

  /** The first n items on one coordinate, in order. */
  function OnCoordinate(items: seq<Bound>, at: Coordinate, n: nat): (group: seq<Bound>)
    requires n <= |items|
    ensures forall b :: b in group ==> b in items[..n] && b.at == at
  {
    if n == 0 then []
    else
      var before := OnCoordinate(items, at, n - 1);
      assert items[..n] == items[..n - 1] + [items[n - 1]];
      if items[n - 1].at == at then before + [items[n - 1]] else before
  }

  /** Any two items on one coordinate go together. */
  ghost predicate CompatibleOn(items: seq<Bound>, at: Coordinate, n: nat)
    requires n <= |items|
  {
    forall i, j :: 0 <= i < j < n && items[i].at == at && items[j].at == at ==> Compatible(items[i], items[j])
  }

  lemma {:induction false} OnCoordinateHas(items: seq<Bound>, at: Coordinate, n: nat, i: nat)
    requires i < n <= |items| && items[i].at == at
    ensures items[i] in OnCoordinate(items, at, n)
  {
    var group := OnCoordinate(items, at, n);
    if i == n - 1 {
      assert group[|group| - 1] == items[i];
    } else {
      OnCoordinateHas(items, at, n - 1, i);
    }
  }

  /** Checking a group is checking the pairs of its coordinate. */
  lemma {:induction false} GroupIsPairs(items: seq<Bound>, at: Coordinate, n: nat)
    requires n <= |items|
    ensures AllCompatible(OnCoordinate(items, at, n)) <==> CompatibleOn(items, at, n)
  {
    hide Compatible;
    if n > 0 {
      GroupIsPairs(items, at, n - 1);
      var before, last := OnCoordinate(items, at, n - 1), items[n - 1];
      if last.at == at {
        assert OnCoordinate(items, at, n) == before + [last];
        if AllCompatible(before + [last]) {
          LastFitsAll(before, last);
          forall i | 0 <= i < n - 1 && items[i].at == at ensures Compatible(items[i], last) {
            OnCoordinateHas(items, at, n - 1, i);
          }
        }
        if CompatibleOn(items, at, n) {
          forall b | b in before ensures Compatible(b, last) {
            var i :| 0 <= i < n - 1 && items[i] == b;
          }
        }
      }
    }
  }

  lemma LastFitsAll(before: seq<Bound>, last: Bound)
    requires AllCompatible(before + [last])
    ensures AllCompatible(before) && forall b :: b in before ==> Compatible(b, last)
  {
    var all := before + [last];
    forall i, j | 0 <= i < j < |before| ensures Compatible(before[i], before[j]) {
      assert all[i] == before[i] && all[j] == before[j];
    }
    forall b | b in before ensures Compatible(b, last) {
      var i :| 0 <= i < |before| && before[i] == b;
      assert all[i] == b && all[|before|] == last;
    }
  }

  type Groups = map<Coordinate, seq<Bound>>

  /** The groups so far, and their coordinates in order of first appearance. */
  ghost predicate Grouped(groups: Groups, order: seq<Coordinate>, items: seq<Bound>) {
    && (forall at :: at in groups <==> exists i :: 0 <= i < |items| && items[i].at == at)
    && (forall at :: at in groups ==> groups[at] == OnCoordinate(items, at, |items|))
    && (forall at :: at in groups <==> at in order)
  }

  function AddedTo(groups: Groups, b: Bound): Groups {
    groups[b.at := (if b.at in groups then groups[b.at] else []) + [b]]
  }

  lemma {:induction false} OnCoordinateOfPrefix(items: seq<Bound>, b: Bound, at: Coordinate, n: nat)
    requires n <= |items|
    ensures OnCoordinate(items + [b], at, n) == OnCoordinate(items, at, n)
  {
    if n > 0 {
      OnCoordinateOfPrefix(items, b, at, n - 1);
    }
  }

  lemma {:induction false} NoneOnCoordinate(items: seq<Bound>, at: Coordinate, n: nat)
    requires n <= |items| && forall i :: 0 <= i < n ==> items[i].at != at
    ensures OnCoordinate(items, at, n) == []
  {
    if n > 0 {
      NoneOnCoordinate(items, at, n - 1);
    }
  }

  lemma GroupedMore(groups: Groups, order: seq<Coordinate>, items: seq<Bound>, b: Bound)
    requires Grouped(groups, order, items)
    ensures Grouped(AddedTo(groups, b), if b.at in groups then order else order + [b.at], items + [b])
  {
    hide OnCoordinate;
    var more, next := items + [b], AddedTo(groups, b);
    forall at | at in next ensures next[at] == OnCoordinate(more, at, |more|) {
      GroupNext(items, b, at);
      if at !in groups {
        NoneOnCoordinate(items, at, |items|);
      }
    }
    AppearsMore(groups, items, b);
  }

  lemma GroupNext(items: seq<Bound>, b: Bound, at: Coordinate)
    ensures OnCoordinate(items + [b], at, |items| + 1) ==
      if b.at == at then OnCoordinate(items, at, |items|) + [b] else OnCoordinate(items, at, |items|)
  {
    OnCoordinateOfPrefix(items, b, at, |items|);
  }

  lemma AppearsMore(groups: Groups, items: seq<Bound>, b: Bound)
    requires forall at :: at in groups <==> exists i :: 0 <= i < |items| && items[i].at == at
    ensures forall at :: at in AddedTo(groups, b) <==> exists i :: 0 <= i < |items + [b]| && (items + [b])[i].at == at
  {
    var more := items + [b];
    forall at ensures at in AddedTo(groups, b) <==> exists i :: 0 <= i < |more| && more[i].at == at {
      if at in groups {
        var i :| 0 <= i < |items| && items[i].at == at;
        assert more[i].at == at;
      } else if at == b.at {
        assert more[|items|].at == at;
      }
    }
  }

  /** The claims bound so far. */
  ghost predicate BoundTo(items: seq<Bound>, index: Index, format: Format, claims: seq<Claim>) {
    && |items| <= |claims|
    && forall i :: 0 <= i < |items| ==> Bind(index, format, claims[i]) == Ok(items[i])
  }

  ghost predicate DistinctIds(claims: seq<Claim>, n: nat)
    requires n <= |claims|
  {
    forall i, j :: 0 <= i < j < n ==> claims[i].id != claims[j].id
  }

  /** What makes a set of claims acceptable, without groups or sorting. */
  ghost predicate Acceptable(index: Index, format: Format, claims: seq<Claim>) {
    && DistinctIds(claims, |claims|)
    && (forall i :: 0 <= i < |claims| ==> Bind(index, format, claims[i]).Ok?)
    && forall i, j :: 0 <= i < j < |claims| ==> PairAcceptable(index, format, claims[i], claims[j])
  }

  predicate PairAcceptable(index: Index, format: Format, a: Claim, b: Claim) {
    var x, y := Bind(index, format, a), Bind(index, format, b);
    x.Ok? && y.Ok? && x.value.at == y.value.at ==> Compatible(x.value, y.value)
  }

  ghost predicate BlamedOverlap(id: Text, items: seq<Bound>) {
    exists at, k: nat :: Blamed(OnCoordinate(items, at, |items|), k) && OnCoordinate(items, at, |items|)[k].claimId == id
  }

  /** The claim is the first that repeats an id, or else does not bind, and the blocker says so. */
  ghost predicate FailsFirst(index: Index, format: Format, claims: seq<Claim>, i: nat, blocker: Blocker) {
    && i < |claims| && DistinctIds(claims, i) && (forall j :: 0 <= j < i ==> Bind(index, format, claims[j]).Ok?)
    && if exists j :: 0 <= j < i && claims[j].id == claims[i].id then blocker == DuplicateClaim(claims[i].id)
       else Bind(index, format, claims[i]) == Blocked(blocker)
  }

  datatype Binding = Binding(items: seq<Bound>, groups: Groups, order: seq<Coordinate>)

  /** Binds the claims one by one and files each under its coordinate. */
  method BindAll(index: Index, format: Format, claims: seq<Claim>) returns (result: Result<Binding>)
    ensures result.Ok? ==>
      && |result.value.items| == |claims| && BoundTo(result.value.items, index, format, claims)
      && DistinctIds(claims, |claims|) && Grouped(result.value.groups, result.value.order, result.value.items)
    ensures result.Blocked? ==> !result.blocker.OverlappingSource? && !Acceptable(index, format, claims)
    ensures result.Blocked? ==> exists i :: FailsFirst(index, format, claims, i, result.blocker)
  {
    hide Bind, Grouped, PairAcceptable, Acceptable, FailsFirst;
    var ids: set<Text>, items: seq<Bound>, groups: Groups, order: seq<Coordinate> := {}, [], map[], [];
    assert Grouped(groups, order, items) by { NothingGrouped(); }
    for i := 0 to |claims|
      invariant |items| == i && BoundTo(items, index, format, claims)
      invariant DistinctIds(claims, i) && forall id :: id in ids <==> exists j :: 0 <= j < i && claims[j].id == id
      invariant Grouped(groups, order, items)
    {
      if claims[i].id in ids {
        ClaimFails(index, format, claims, items, i, DuplicateClaim(claims[i].id));
        return Blocked(DuplicateClaim(claims[i].id));
      }
      ids := ids + {claims[i].id};
      var b := Bind(index, format, claims[i]);
      if b.Blocked? {
        ClaimFails(index, format, claims, items, i, b.blocker);
        return Blocked(b.blocker);
      }
      GroupedMore(groups, order, items, b.value);
      order := if b.value.at in groups then order else order + [b.value.at];
      groups := AddedTo(groups, b.value);
      items := items + [b.value];
    }
    return Ok(Binding(items, groups, order));
  }

  lemma ClaimFails(index: Index, format: Format, claims: seq<Claim>, items: seq<Bound>, i: nat, blocker: Blocker)
    requires i < |claims| && |items| == i && BoundTo(items, index, format, claims) && DistinctIds(claims, i)
    requires if exists j :: 0 <= j < i && claims[j].id == claims[i].id then blocker == DuplicateClaim(claims[i].id)
             else Bind(index, format, claims[i]) == Blocked(blocker)
    ensures FailsFirst(index, format, claims, i, blocker) && !Acceptable(index, format, claims)
  {
    hide Bind, PairAcceptable;
  }

  lemma NothingGrouped()
    ensures Grouped(map[], [], [])
  {
  }

  /** Binds every claim and checks every group. */
  method Validate(index: Index, format: Format, claims: seq<Claim>) returns (result: Result<seq<Bound>>)
    ensures result.Ok? <==> Acceptable(index, format, claims)
    ensures result.Ok? ==> |result.value| == |claims| && BoundTo(result.value, index, format, claims)
    ensures result.Blocked? && result.blocker.OverlappingSource? ==>
      exists items :: |items| == |claims| && BoundTo(items, index, format, claims) && BlamedOverlap(result.blocker.id, items)
    ensures result.Blocked? && !result.blocker.OverlappingSource? ==> exists i :: FailsFirst(index, format, claims, i, result.blocker)
  {
    hide Bind, Compatible, Blamed, AllCompatible, OnCoordinate, Acceptable, BoundTo, DistinctIds, FailsFirst;
    var bound := BindAll(index, format, claims);
    if bound.Blocked? {
      return Blocked(bound.blocker);
    }
    var items, groups, order := bound.value.items, bound.value.groups, bound.value.order;
    for k := 0 to |order|
      invariant forall j :: 0 <= j < k ==> AllCompatible(OnCoordinate(items, order[j], |items|))
    {
      var at := order[k];
      assert at in groups;
      GroupNotEmpty(items, index, format, claims, at);
      var blamed := CheckGroup(groups[at]);
      if blamed.Some? {
        BlamedIsInGroup(groups[at], blamed.value);
        GroupFails(items, index, format, claims, at);
        return Blocked(OverlappingSource(groups[at][blamed.value].claimId));
      }
    }
    GroupsFit(items, index, format, claims, groups, order);
    return Ok(items);
  }

  lemma BlamedIsInGroup(group: seq<Bound>, k: nat)
    requires Blamed(group, k)
    ensures k < |group|
  {
  }

  lemma GroupNotEmpty(items: seq<Bound>, index: Index, format: Format, claims: seq<Claim>, at: Coordinate)
    requires BoundTo(items, index, format, claims) && exists i :: 0 <= i < |items| && items[i].at == at
    ensures OnCoordinate(items, at, |items|) != [] && NotEmpty(OnCoordinate(items, at, |items|))
  {
    var i :| 0 <= i < |items| && items[i].at == at;
    OnCoordinateHas(items, at, |items|, i);
    var group := OnCoordinate(items, at, |items|);
    forall k | 0 <= k < |group| ensures group[k].start < group[k].end {
      assert group[k] in group;
      assert group[k] in items;
      var j :| 0 <= j < |items| && items[j] == group[k];
    }
  }

  lemma PairOf(items: seq<Bound>, index: Index, format: Format, claims: seq<Claim>, i: nat, j: nat)
    requires BoundTo(items, index, format, claims) && i < j < |items|
    ensures PairAcceptable(index, format, claims[i], claims[j]) <==> items[i].at == items[j].at ==> Compatible(items[i], items[j])
  {
    hide Bind, Compatible;
  }

  lemma GroupFails(items: seq<Bound>, index: Index, format: Format, claims: seq<Claim>, at: Coordinate)
    requires |items| == |claims| && BoundTo(items, index, format, claims)
    requires !AllCompatible(OnCoordinate(items, at, |items|))
    ensures !Acceptable(index, format, claims)
  {
    hide Bind, Compatible, AllCompatible, OnCoordinate, PairAcceptable;
    GroupIsPairs(items, at, |items|);
    var i, j :| 0 <= i < j < |items| && items[i].at == at && items[j].at == at && !Compatible(items[i], items[j]);
    PairOf(items, index, format, claims, i, j);
  }

  lemma GroupsFit(items: seq<Bound>, index: Index, format: Format, claims: seq<Claim>, groups: Groups,
                  order: seq<Coordinate>)
    requires |items| == |claims| && BoundTo(items, index, format, claims) && DistinctIds(claims, |claims|)
    requires Grouped(groups, order, items) && forall k :: 0 <= k < |order| ==> AllCompatible(OnCoordinate(items, order[k], |items|))
    ensures Acceptable(index, format, claims)
  {
    hide Bind, Compatible, AllCompatible, OnCoordinate, PairAcceptable;
    forall i, j | 0 <= i < j < |claims| ensures PairAcceptable(index, format, claims[i], claims[j]) {
      PairOf(items, index, format, claims, i, j);
      if items[i].at == items[j].at {
        var at := items[i].at;
        assert at in groups && at in order;
        var k :| 0 <= k < |order| && order[k] == at;
        GroupIsPairs(items, at, |items|);
      }
    }
  }
}
