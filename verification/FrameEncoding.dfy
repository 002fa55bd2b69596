/** The byte framing of rows that table digests are computed over. A cell is None for SQL NULL or the
    UTF-8 bytes of its text. */
module FrameEncoding {
  import opened Common

  type Byte = b: int | 0 <= b < 256
  type Bytes = seq<Byte>
  type Cells = seq<Option<Bytes>>

  /** A digest determines the content it was computed from. */
  datatype Digest = Sha256(content: Bytes)

  const COLON: Byte := 58
  const SEMICOLON: Byte := 59
  const ZERO: Byte := 48
  const ROW_TAG: Byte := 82
  const NULL_TAG: Byte := 78
  const TEXT_TAG: Byte := 83

  // ---------- encoding ----------

  /** Decimal digits, most significant first. */
  function Digits(n: nat): (digits: Bytes)
    ensures |digits| > 0 && forall i :: 0 <= i < |digits| ==> ZERO <= digits[i] <= ZERO + 9
  {
    if n < 10 then [ZERO + n] else Digits(n / 10) + [ZERO + n % 10]
  }

  function EncodeCell(cell: Option<Bytes>): Bytes {
    match cell
    case None => [NULL_TAG, SEMICOLON]
    case Some(text) => [TEXT_TAG] + Digits(|text|) + [COLON] + text
  }

  /** The cells of a row from position i on. */
  function EncodeCells(row: Cells, i: nat): Bytes
    requires i <= |row|
    decreases |row| - i
  {
    if i == |row| then [] else EncodeCell(row[i]) + EncodeCells(row, i + 1)
  }

  function EncodeRow(row: Cells): Bytes {
    [ROW_TAG] + Digits(|row|) + [COLON] + EncodeCells(row, 0)
  }

  /** The rows from position i on. */
  function EncodeRows(rows: seq<Cells>, i: nat): Bytes
    requires i <= |rows|
    decreases |rows| - i
  {
    if i == |rows| then [] else EncodeRow(rows[i]) + EncodeRows(rows, i + 1)
  }

  /** One row's updates: its header, then each cell. */
  method FeedRow(start: Bytes, row: Cells) returns (fed: Bytes)
    ensures fed == start + EncodeRow(row)
  {
    hide Digits, EncodeCell;
    var header := [ROW_TAG] + Digits(|row|) + [COLON];
    fed := start + header;
    Regroup(start, header, EncodeCells(row, 0));
    for j := 0 to |row|
      invariant fed + EncodeCells(row, j) == start + EncodeRow(row)
    {
      Regroup(fed, EncodeCell(row[j]), EncodeCells(row, j + 1));
      fed := FeedCell(fed, row[j]);
    }
    assert fed + [] == fed;
  }

  method FeedCell(start: Bytes, cell: Option<Bytes>) returns (fed: Bytes)
    ensures fed == start + EncodeCell(cell)
  {
    hide Digits;
    match cell
    case None =>
      fed := start + [NULL_TAG, SEMICOLON];
    case Some(text) =>
      fed := start + ([TEXT_TAG] + Digits(|text|) + [COLON]);
      fed := fed + text;
      Regroup(start, [TEXT_TAG] + Digits(|text|) + [COLON], text);
  }

  /** What hashFrames feeds to the hash, update by update. */
  method FeedFrames(rows: seq<Cells>) returns (fed: Bytes)
    ensures fed == EncodeRows(rows, 0)
  {
    hide EncodeRow;
    fed := [];
    assert [] + EncodeRows(rows, 0) == EncodeRows(rows, 0);
    for i := 0 to |rows|
      invariant fed + EncodeRows(rows, i) == EncodeRows(rows, 0)
    {
      Regroup(fed, EncodeRow(rows[i]), EncodeRows(rows, i + 1));
      fed := FeedRow(fed, rows[i]);
    }
    assert fed + [] == fed;
  }

  lemma Regroup(a: Bytes, b: Bytes, c: Bytes)
    ensures a + (b + c) == (a + b) + c
  {
  }

  // ---------- decoding ----------

  /** Reads digits up to a colon. */
  function ParseNumber(bytes: Bytes, soFar: nat): (parsed: Option<(nat, Bytes)>)
    ensures parsed.Some? ==> |parsed.value.1| < |bytes|
  {
    if bytes == [] then None
    else if bytes[0] == COLON then Some((soFar, bytes[1..]))
    else if ZERO <= bytes[0] <= ZERO + 9 then ParseNumber(bytes[1..], 10 * soFar + (bytes[0] - ZERO))
    else None
  }

  function DecodeCell(bytes: Bytes): (decoded: Option<(Option<Bytes>, Bytes)>)
    ensures decoded.Some? ==> |decoded.value.1| < |bytes|
  {
    if |bytes| >= 2 && bytes[0] == NULL_TAG && bytes[1] == SEMICOLON then Some((None, bytes[2..]))
    else if bytes != [] && bytes[0] == TEXT_TAG then
      var length := ParseNumber(bytes[1..], 0);
      if length.Some? && length.value.0 <= |length.value.1|
      then Some((Some(length.value.1[..length.value.0]), length.value.1[length.value.0..]))
      else None
    else None
  }

  function DecodeCells(bytes: Bytes, count: nat): (decoded: Option<(Cells, Bytes)>)
    ensures decoded.Some? ==> |decoded.value.1| <= |bytes|
    decreases count
  {
    if count == 0 then Some(([], bytes))
    else
      var first := DecodeCell(bytes);
      if first.None? then None
      else
        var rest := DecodeCells(first.value.1, count - 1);
        if rest.None? then None else Some(([first.value.0] + rest.value.0, rest.value.1))
  }

  function DecodeRow(bytes: Bytes): (decoded: Option<(Cells, Bytes)>)
    ensures decoded.Some? ==> |decoded.value.1| < |bytes|
  {
    if bytes == [] || bytes[0] != ROW_TAG then None
    else
      var count := ParseNumber(bytes[1..], 0);
      if count.None? then None else DecodeCells(count.value.1, count.value.0)
  }

  function DecodeRows(bytes: Bytes): Option<seq<Cells>>
    decreases |bytes|
  {
    if bytes == [] then Some([])
    else
      var first := DecodeRow(bytes);
      if first.None? then None
      else
        var rest := DecodeRows(first.value.1);
        if rest.None? then None else Some([first.value.0] + rest.value)
  }

  // ---------- the decoder undoes the encoder ----------

  lemma {:induction false} NumberRoundTrip(n: nat, rest: Bytes)
    ensures ParseNumber(Digits(n) + rest, 0) == ParseNumber(rest, n)
  {
    if n < 10 {
      assert (Digits(n) + rest)[1..] == rest;
    } else {
      var last := [ZERO + n % 10];
      Regroup(Digits(n / 10), last, rest);
      NumberRoundTrip(n / 10, last + rest);
      assert (last + rest)[1..] == rest;
    }
  }

  lemma LengthRoundTrip(n: nat, rest: Bytes)
    ensures ParseNumber(Digits(n) + [COLON] + rest, 0) == Some((n, rest))
  {
    hide Digits;
    Regroup(Digits(n), [COLON], rest);
    NumberRoundTrip(n, [COLON] + rest);
    assert ([COLON] + rest)[1..] == rest;
  }

  lemma CellRoundTrip(cell: Option<Bytes>, rest: Bytes)
    ensures DecodeCell(EncodeCell(cell) + rest) == Some((cell, rest))
  {
    hide Digits, ParseNumber;
    var bytes := EncodeCell(cell) + rest;
    match cell
    case None =>
      assert bytes[2..] == rest;
    case Some(text) =>
      TextStarts(text, rest);
      LengthRoundTrip(|text|, text + rest);
      assert (text + rest)[..|text|] == text && (text + rest)[|text|..] == rest;
  }

  lemma TextStarts(text: Bytes, rest: Bytes)
    ensures var bytes := EncodeCell(Some(text)) + rest;
      bytes[0] == TEXT_TAG && bytes[1..] == Digits(|text|) + [COLON] + (text + rest)
  {
    hide Digits;
    var tag, header := [TEXT_TAG], Digits(|text|) + [COLON];
    Regroup(tag, Digits(|text|), [COLON]);
    Regroup(tag, header, text);
    Regroup(tag, header + text, rest);
    Regroup(header, text, rest);
    assert EncodeCell(Some(text)) + rest == tag + (header + (text + rest));
  }

  lemma {:induction false} CellsRoundTrip(row: Cells, i: nat, rest: Bytes)
    requires i <= |row|
    ensures DecodeCells(EncodeCells(row, i) + rest, |row| - i) == Some((row[i..], rest))
    decreases |row| - i
  {
    hide EncodeCell, DecodeCell;
    if i == |row| {
      assert [] + rest == rest;
    } else {
      Regroup(EncodeCell(row[i]), EncodeCells(row, i + 1), rest);
      CellRoundTrip(row[i], EncodeCells(row, i + 1) + rest);
      CellsRoundTrip(row, i + 1, rest);
      assert row[i..] == [row[i]] + row[i + 1..];
      assert EncodeCells(row, i) + rest == EncodeCell(row[i]) + (EncodeCells(row, i + 1) + rest);
    }
  }

  lemma RowRoundTrip(row: Cells, rest: Bytes)
    ensures DecodeRow(EncodeRow(row) + rest) == Some((row, rest))
  {
    hide Digits, ParseNumber, EncodeCells, DecodeCells;
    var bytes := EncodeRow(row) + rest;
    assert bytes[1..] == Digits(|row|) + [COLON] + (EncodeCells(row, 0) + rest);
    LengthRoundTrip(|row|, EncodeCells(row, 0) + rest);
    CellsRoundTrip(row, 0, rest);
    assert row[0..] == row;
  }

  lemma DecodeRowOfNothing(row: Cells, rest: Bytes)
    ensures DecodeRow([]).None? && EncodeRow(row) + rest != []
  {
  }

  /** Every list of rows comes back: NULL and empty text, delimiters inside text and empty rows too. */
  lemma {:induction false} RowsRoundTrip(rows: seq<Cells>, i: nat)
    requires i <= |rows|
    ensures DecodeRows(EncodeRows(rows, i)) == Some(rows[i..])
    decreases |rows| - i
  {
    hide EncodeRow, DecodeRow;
    if i == |rows| {
      assert rows[i..] == [];
    } else {
      RowRoundTrip(rows[i], EncodeRows(rows, i + 1));
      RowsRoundTrip(rows, i + 1);
      assert DecodeRow([]).None? && EncodeRows(rows, i) != [] by { DecodeRowOfNothing(rows[i], EncodeRows(rows, i + 1)); }
      assert EncodeRows(rows, i) == EncodeRow(rows[i]) + EncodeRows(rows, i + 1);
      assert rows[i..] == [rows[i]] + rows[i + 1..];
    }
  }

  /** Two different lists of rows never feed the same bytes. */
  lemma FramesAreInjective(a: seq<Cells>, b: seq<Cells>)
    requires EncodeRows(a, 0) == EncodeRows(b, 0)
    ensures a == b
  {
    RowsRoundTrip(a, 0);
    RowsRoundTrip(b, 0);
    assert a[0..] == a && b[0..] == b;
  }

  // ---------- what it looks like ----------

  /** A length has no leading zero. */
  lemma {:induction false} NoLeadingZero(n: nat)
    ensures |Digits(n)| > 1 ==> Digits(n)[0] != ZERO
  {
    if n >= 10 {
      NoLeadingZero(n / 10);
      if n < 100 {
        assert Digits(n / 10) == [ZERO + n / 10];
      }
    }
  }

  /** A row of NULL and the text S, then a row without cells: R2:N;S1:SR0: in ASCII. */
  lemma FramesLookLike()
    ensures EncodeRows([[None, Some([83])], []], 0) == [82, 50, 58, 78, 59, 83, 49, 58, 83, 82, 48, 58]
  {
    var row: Cells := [None, Some([83])];
    assert EncodeCells(row, 2) == [];
    assert EncodeCells(row, 1) == [83, 49, 58, 83];
    assert EncodeCells(row, 0) == [78, 59] + EncodeCells(row, 1);
    assert EncodeRow([]) == [82, 48, 58];
    assert EncodeRows([row, []], 1) == [82, 48, 58];
    assert EncodeRow(row) == [82, 50, 58] + EncodeCells(row, 0);
  }
}
