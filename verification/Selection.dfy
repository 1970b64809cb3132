/** Copying from the viewport a replica retains when its host is gone
    (replica.rs). */
module Selection {
  import opened Common

  type u32 = n: int | 0 <= n <= 0xFFFF_FFFF

  datatype Cell = Cell(column: u16, span: u16, text: string)

  datatype Row = Row(text: string, cells: seq<Cell>)

  datatype Snapshot = Snapshot(offset: u64, rows: seq<Row>)

  datatype Position = Position(row: u32, column: u16) {
    predicate AtMost(other: Position) {
      row < other.row || (row == other.row && column <= other.column)
    }
  }

  datatype SelectionError = NoViewport | AboveViewport | OutsideViewport

  // ---------------------------------------------------------------- one row

  function Min(a: int, b: int): int {
    if a < b then a else b
  }

  /** The columns a cell covers: at least one. */
  function Width(c: Cell): nat {
    if c.span == 0 then 1 else c.span
  }

  /** In saturating 16-bit arithmetic. */
  function LastColumn(c: Cell): u16 {
    Min(c.column + Width(c), U16_MAX) - 1
  }

  predicate Takes(c: Cell, from: u16, to: u16) {
    c.column <= to && LastColumn(c) >= from
  }

  function TakenText(cells: seq<Cell>, from: u16, to: u16): string
    decreases |cells|
  {
    if cells == [] then ""
    else (if Takes(cells[0], from, to) then cells[0].text else "") + TakenText(cells[1..], from, to)
  }

  /** A row published without cells goes by its characters. */
  function RowColumns(row: Row, from: u16, to: u16): string {
    if row.cells == [] then
      var skipped := row.text[Min(from, |row.text|)..];
      skipped[..Min((if to > from then to - from else 0) + 1, |skipped|)]
    else TakenText(row.cells, from, to)
  }

  /** A cell is at its column, and a wide one at the columns of its span. */
  predicate Covers(c: Cell, k: int) {
    k == c.column || c.column <= k < c.column + c.span
  }

  ghost predicate Meets(c: Cell, from: u16, to: u16) {
    exists k :: Covers(c, k) && from <= k <= to
  }

  lemma MeetsByEnds(c: Cell, from: u16, to: u16)
    requires from <= to
    ensures Meets(c, from, to) <==> c.column <= to && from < c.column + Width(c)
  {
    if c.column <= to && from < c.column + Width(c) {
      var k := if c.column >= from then c.column else from;
      assert Covers(c, k);
    }
  }

  /** A cell is taken exactly when a column it covers is selected; but a
      selection of the very last column takes nothing. */
  lemma TakesWhatItMeets(c: Cell, from: u16, to: u16)
    requires from <= to
    ensures Takes(c, from, to) <==> from < U16_MAX && Meets(c, from, to)
  {
    MeetsByEnds(c, from, to);
  }

  /** So a cell is taken rightly by every selection if and only if it ends before
      that column. */
  lemma OnlyFittingCellsAreTakenRightly(c: Cell)
    ensures (forall from: u16, to: u16 | from <= to :: Takes(c, from, to) <==> Meets(c, from, to))
            <==> c.column + Width(c) <= U16_MAX
  {
    forall from: u16, to: u16 | from <= to
      ensures Takes(c, from, to) <==> from < U16_MAX && Meets(c, from, to)
      ensures Meets(c, from, to) <==> c.column <= to && from < c.column + Width(c)
    {
      TakesWhatItMeets(c, from, to);
      MeetsByEnds(c, from, to);
    }
    if c.column + Width(c) > U16_MAX {
      assert !Takes(c, U16_MAX, U16_MAX) && Meets(c, U16_MAX, U16_MAX);
    }
  }

  /** The text of a cell that is taken appears whole and once, between that of
      the cells before it and that of the cells after; the text of another does
      not. */
  lemma {:induction false} TakenTextInOrder(cells: seq<Cell>, from: u16, to: u16, i: nat)
    requires i < |cells|
    ensures TakenText(cells, from, to)
         == TakenText(cells[..i], from, to) + (if Takes(cells[i], from, to) then cells[i].text else "")
            + TakenText(cells[i + 1..], from, to)
    decreases |cells|
  {
    hide LastColumn, Takes;
    if i == 0 {
      assert cells[..0] == [];
    } else {
      var head := if Takes(cells[0], from, to) then cells[0].text else "";
      TakenTextInOrder(cells[1..], from, to, i - 1);
      assert cells[1..][..i - 1] == cells[..i][1..] && cells[1..][i..] == cells[i + 1..];
    }
  }

  /** Of a row without cells, exactly the characters in the range; and of a range
      that ends before it begins, the one it begins with. */
  lemma CharactersInRange(text: string, from: u16, to: u16)
    ensures var r := RowColumns(Row(text, []), from, to);
      && |r| == (if |text| <= from then 0 else if to < from then 1 else if |text| <= to then |text| - from else to - from + 1)
      && forall k | 0 <= k < |r| :: r[k] == text[from + k]
  {
  }

  // --------------------------------------------------------------- many rows

  /** Unicode White_Space. */
  predicate IsSpace(c: char) {
    var n := c as int;
    || 0x9 <= n <= 0xD || n == 0x20 || n == 0x85 || n == 0xA0 || n == 0x1680 || 0x2000 <= n <= 0x200A
    || n == 0x2028 || n == 0x2029 || n == 0x202F || n == 0x205F || n == 0x3000
  }

  /** Twenty-five code points, the blank among them. */
  lemma SpacesAre(c: char)
    ensures IsSpace(c) <==>
      c in {'\U{0009}', '\U{000A}', '\U{000B}', '\U{000C}', '\U{000D}', ' ', '\U{0085}', '\U{00A0}', '\U{1680}',
            '\U{2000}', '\U{2001}', '\U{2002}', '\U{2003}', '\U{2004}', '\U{2005}', '\U{2006}', '\U{2007}',
            '\U{2008}', '\U{2009}', '\U{200A}', '\U{2028}', '\U{2029}', '\U{202F}', '\U{205F}', '\U{3000}'}
  {
  }

  /** Trimming takes off spaces, and no character but those at the end. */
  lemma {:induction false} TrimsOnlyTheEnd(s: string)
    ensures TrimEnd(s) <= s && (TrimEnd(s) != "" ==> !IsSpace(TrimEnd(s)[|TrimEnd(s)| - 1]))
    ensures forall i | |TrimEnd(s)| <= i < |s| :: IsSpace(s[i])
    decreases |s|
  {
    if s != "" && IsSpace(s[|s| - 1]) {
      TrimsOnlyTheEnd(s[..|s| - 1]);
    }
  }

  function TrimEnd(s: string): string
    decreases |s|
  {
    if s != "" && IsSpace(s[|s| - 1]) then TrimEnd(s[..|s| - 1]) else s
  }

  function JoinRows(rows: seq<string>): string
    decreases |rows|
  {
    if rows == [] then ""
    else if |rows| == 1 then TrimEnd(rows[0])
    else TrimEnd(rows[0]) + "\n" + JoinRows(rows[1..])
  }

  function WholeRows(rows: seq<Row>): seq<string> {
    seq(|rows|, i requires 0 <= i < |rows| => RowColumns(rows[i], 0, U16_MAX))
  }

  /** The slice of each row from the first to the last, both included. */
  function Slices(rows: seq<Row>, first: nat, last: nat, from: u16, to: u16): seq<string>
    requires first <= last < |rows|
  {
    seq(last - first + 1, offset requires 0 <= offset <= last - first =>
      var index := first + offset;
      RowColumns(rows[index], if index == first then from else 0, if index == last then to else U16_MAX))
  }

  function ViewportSelectionText(latest: Option<Snapshot>, a: Position, b: Position, selectAll: bool)
    : Result<string, SelectionError>
  {
    if latest.None? then Err(NoViewport)
    else
      var rows, viewportStart := latest.value.rows, latest.value.offset;
      if rows == [] then Ok("")
      else if selectAll then Ok(JoinRows(WholeRows(rows)))
      else
        var start, end := if a.AtMost(b) then a else b, if a.AtMost(b) then b else a;
        if start.row < viewportStart then Err(AboveViewport)
        else if end.row < viewportStart then Err(AboveViewport)
        else
          var first, last := start.row - viewportStart, end.row - viewportStart;
          if first >= |rows| then Err(OutsideViewport)
          else Ok(JoinRows(Slices(rows, first, Min(last, |rows| - 1), start.column, end.column)))
  }

  // -------------------------------------------------------------------- laws

  /** Whichever way the drag went. */
  lemma DirectionIndependent(latest: Option<Snapshot>, a: Position, b: Position, selectAll: bool)
    ensures ViewportSelectionText(latest, a, b, selectAll) == ViewportSelectionText(latest, b, a, selectAll)
  {
  }

  /** When there is an answer: with a viewport, which may be empty, unless both
      ends are above it or below it, or one is above. */
  lemma AnswersWithinViewport(latest: Option<Snapshot>, a: Position, b: Position)
    ensures var upper := Min(a.row, b.row);
      match ViewportSelectionText(latest, a, b, false)
      case Ok(text) =>
        latest.Some? && if latest.value.rows == [] then text == ""
                        else latest.value.offset <= upper < latest.value.offset + |latest.value.rows|
      case Err(NoViewport) => latest.None?
      case Err(AboveViewport) => latest.Some? && latest.value.rows != [] && upper < latest.value.offset
      case Err(OutsideViewport) =>
        latest.Some? && latest.value.rows != [] && upper >= latest.value.offset + |latest.value.rows|
  {
  }

  /** Scrolling the whole picture changes nothing. */
  lemma ShiftInvariant(s: Snapshot, a: Position, b: Position, shift: u32)
    requires s.offset + shift <= U64_MAX && a.row + shift <= 0xFFFF_FFFF && b.row + shift <= 0xFFFF_FFFF
    ensures ViewportSelectionText(Some(s), a, b, false)
            == ViewportSelectionText(Some(s.(offset := s.offset + shift)), a.(row := a.row + shift), b.(row := b.row + shift), false)
  {
  }

  lemma {:induction false} JoinAppend(a: seq<string>, b: seq<string>)
    requires a != [] && b != []
    ensures JoinRows(a + b) == JoinRows(a) + "\n" + JoinRows(b)
    decreases |a|
  {
    if |a| == 1 {
      assert (a + b)[1..] == b;
    } else {
      JoinAppend(a[1..], b);
      assert (a + b)[1..] == a[1..] + b;
      assert TrimEnd(a[0]) + "\n" + (JoinRows(a[1..]) + "\n" + JoinRows(b))
          == (TrimEnd(a[0]) + "\n" + JoinRows(a[1..])) + "\n" + JoinRows(b);
    }
  }

  /** Both ends on rows the replica retains. */
  predicate Retained(s: Snapshot, p: Position) {
    s.offset <= p.row < s.offset + |s.rows|
  }

  function Copied(s: Snapshot, a: Position, b: Position): Result<string, SelectionError> {
    ViewportSelectionText(Some(s), a, b, false)
  }

  /** A selection is its two halves at any row boundary it crosses. */
  lemma SplitsAtRows(s: Snapshot, a: Position, b: Position, row: u32)
    requires Retained(s, a) && Retained(s, b) && a.row <= row < b.row
    ensures var upper, lower := Copied(s, a, Position(row, U16_MAX)), Copied(s, Position(row + 1, 0), b);
      upper.Ok? && lower.Ok? && Copied(s, a, b) == Ok(upper.value + "\n" + lower.value)
  {
    hide RowColumns, TrimEnd, JoinRows;
    var first, cut, last := a.row - s.offset, row - s.offset, b.row - s.offset;
    var upper := Slices(s.rows, first, cut, a.column, U16_MAX);
    var lower := Slices(s.rows, cut + 1, last, 0, b.column);
    assert Slices(s.rows, first, last, a.column, b.column) == upper + lower;
    JoinAppend(upper, lower);
  }

  /** Within a row, it is that row's columns, trimmed. */
  lemma OneRowIsItsColumns(s: Snapshot, row: u32, from: u16, to: u16)
    requires Retained(s, Position(row, from)) && from <= to
    ensures Copied(s, Position(row, from), Position(row, to))
            == Ok(TrimEnd(RowColumns(s.rows[row - s.offset], from, to)))
  {
    hide RowColumns, TrimEnd;
    var at := row - s.offset;
    assert Slices(s.rows, at, at, from, to) == [RowColumns(s.rows[at], from, to)];
  }

  /** The full range is select-all. */
  lemma FullRangeIsSelectAll(s: Snapshot, a: Position, b: Position)
    requires s.rows != [] && s.offset + |s.rows| - 1 <= 0xFFFF_FFFF
    ensures Copied(s, Position(s.offset, 0), Position(s.offset + |s.rows| - 1, U16_MAX))
            == ViewportSelectionText(Some(s), a, b, true)
  {
    assert Slices(s.rows, 0, |s.rows| - 1, 0, U16_MAX) == WholeRows(s.rows);
  }

  // ------------------------------------------------- past the last kept row

  predicate Blank(s: string) {
    forall i | 0 <= i < |s| :: IsSpace(s[i])
  }

  lemma {:induction false} TrimBehind(p: string, q: string)
    ensures Blank(q) ==> TrimEnd(p + q) == TrimEnd(p) && TrimEnd(q) == ""
    ensures !Blank(q) ==> TrimEnd(p + q) == p + TrimEnd(q) && TrimEnd(q) != ""
    decreases |q|
  {
    if q == "" {
      assert p + q == p;
    } else if IsSpace(q[|q| - 1]) {
      var front := q[..|q| - 1];
      assert (p + q)[..|p + q| - 1] == p + front;
      TrimBehind(p, front);
      assert Blank(q) <==> Blank(front);
    } else {
      assert (p + q)[|p + q| - 1] == q[|q| - 1];
    }
  }

  /** From `from` on, but beyond `to`. */
  predicate Beyond(c: Cell, from: u16, to: u16) {
    c.column > to && LastColumn(c) >= from
  }

  /** Cutting these cells at `to` drops nothing that shows: from the first cell
      with text that is dropped, everything selected is blank. */
  predicate CutsBlanks(cells: seq<Cell>, from: u16, to: u16)
    decreases |cells|
  {
    cells != [] ==>
      if Beyond(cells[0], from, to) && cells[0].text != "" then Blank(TakenText(cells, from, U16_MAX))
      else CutsBlanks(cells[1..], from, to)
  }

  /** What is kept is no longer than all of it, and blank if that is. */
  lemma {:induction false} KeptIsLess(cells: seq<Cell>, from: u16, to: u16)
    ensures |TrimEnd(TakenText(cells, from, to))| <= |TrimEnd(TakenText(cells, from, U16_MAX))|
    ensures Blank(TakenText(cells, from, U16_MAX)) ==> Blank(TakenText(cells, from, to))
    decreases |cells|
  {
    hide LastColumn, TrimEnd;
    if cells != [] {
      KeptIsLess(cells[1..], from, to);
      var kept, all := TakenText(cells[1..], from, to), TakenText(cells[1..], from, U16_MAX);
      if Takes(cells[0], from, to) {
        TrimBehind(cells[0].text, kept);
        TrimBehind(cells[0].text, all);
        BlankPieces(cells[0].text, all);
        BlankPieces(cells[0].text, kept);
        TrimShortens(cells[0].text);
      } else if Takes(cells[0], from, U16_MAX) {
        TrimBehind(cells[0].text, all);
        BlankPieces(cells[0].text, all);
        TrimBehind("", kept);
        assert "" + kept == kept;
      } else {
        assert "" + kept == kept && "" + all == all;
      }
    }
  }

  lemma BlankPieces(p: string, q: string)
    ensures Blank(p + q) <==> Blank(p) && Blank(q)
  {
    assert forall i | 0 <= i < |p| :: (p + q)[i] == p[i];
    assert forall i | 0 <= i < |q| :: (p + q)[|p| + i] == q[i];
  }

  lemma {:induction false} TrimShortens(s: string)
    ensures |TrimEnd(s)| <= |s|
    decreases |s|
  {
    if s != "" && IsSpace(s[|s| - 1]) {
      TrimShortens(s[..|s| - 1]);
    }
  }

  /** In whatever order the cells come. */
  lemma {:induction false} CellsCutAtEnd(cells: seq<Cell>, from: u16, to: u16)
    ensures TrimEnd(TakenText(cells, from, to)) == TrimEnd(TakenText(cells, from, U16_MAX))
            <==> CutsBlanks(cells, from, to)
    decreases |cells|
  {
    hide LastColumn, TrimEnd;
    if cells != [] {
      var c, kept, all := cells[0], TakenText(cells[1..], from, to), TakenText(cells[1..], from, U16_MAX);
      CellsCutAtEnd(cells[1..], from, to);
      KeptIsLess(cells[1..], from, to);
      assert "" + kept == kept && "" + all == all;
      if Beyond(c, from, to) && c.text != "" {
        DroppedTextShows(c.text, kept, all);
      } else if Takes(c, from, to) {
        SameFront(c.text, kept, all);
      } else if Takes(c, from, U16_MAX) {
        assert c.text == "";
      }
    }
  }

  lemma DroppedTextShows(text: string, kept: string, all: string)
    requires text != "" && |TrimEnd(kept)| <= |TrimEnd(all)| && (Blank(all) ==> Blank(kept))
    ensures TrimEnd(kept) == TrimEnd(text + all) <==> Blank(text + all)
  {
    hide TrimEnd;
    TrimBehind(text, all);
    BlankPieces(text, all);
    TrimBehind("", kept);
    TrimBehind("", text);
    assert "" + kept == kept && "" + text == text;
  }

  lemma SameFront(text: string, kept: string, all: string)
    requires |TrimEnd(kept)| <= |TrimEnd(all)| && (Blank(all) ==> Blank(kept))
    ensures TrimEnd(text + kept) == TrimEnd(text + all) <==> TrimEnd(kept) == TrimEnd(all)
  {
    hide TrimEnd;
    TrimBehind(text, kept);
    TrimBehind(text, all);
    TrimBehind("", kept);
    TrimBehind("", all);
    TrimShortens(text);
    if !Blank(all) {
      assert (text + TrimEnd(all))[|text|..] == TrimEnd(all);
      assert !Blank(kept) ==> (text + TrimEnd(kept))[|text|..] == TrimEnd(kept);
    }
  }

  /** Whether ending at this column drops nothing but blanks from a row's end. */
  predicate OnlyBlanksBeyond(row: Row, from: u16, to: u16) {
    if row.cells == []
    then Blank(row.text[Min((if from > to then from else to) + 1, |row.text|)..Min(U16_MAX + 1, |row.text|)])
    else CutsBlanks(row.cells, from, to)
  }

  lemma TextSplitsAtEnd(text: string, from: u16, to: u16)
    ensures var begin := if from > to then from else to;
      RowColumns(Row(text, []), from, U16_MAX)
      == RowColumns(Row(text, []), from, to) + text[Min(begin + 1, |text|)..Min(U16_MAX + 1, |text|)]
  {
    var begin := if from > to then from else to;
    var lo, cut, hi := Min(from, |text|), Min(begin + 1, |text|), Min(U16_MAX + 1, |text|);
    assert RowColumns(Row(text, []), from, to) == text[lo..cut];
    assert RowColumns(Row(text, []), from, U16_MAX) == text[lo..hi];
    assert text[lo..hi] == text[lo..cut] + text[cut..hi];
  }

  lemma RowCutAtEnd(row: Row, from: u16, to: u16)
    ensures TrimEnd(RowColumns(row, from, to)) == TrimEnd(RowColumns(row, from, U16_MAX))
            <==> OnlyBlanksBeyond(row, from, to)
  {
    hide TrimEnd;
    if row.cells == [] {
      hide RowColumns, Blank;
      TextSplitsAtEnd(row.text, from, to);
      assert row == Row(row.text, []);
      var begin := if from > to then from else to;
      TrimBehind(RowColumns(row, from, to), row.text[Min(begin + 1, |row.text|)..Min(U16_MAX + 1, |row.text|)]);
      TrimShortens(RowColumns(row, from, to));
    } else {
      CellsCutAtEnd(row.cells, from, to);
    }
  }

  lemma JoinLast(rows: seq<string>, x: string, y: string)
    ensures JoinRows(rows + [x]) == JoinRows(rows + [y]) <==> TrimEnd(x) == TrimEnd(y)
  {
    if rows == [] {
      assert rows + [x] == [x] && rows + [y] == [y];
    } else {
      JoinAppend(rows, [x]);
      JoinAppend(rows, [y]);
      var p := JoinRows(rows) + "\n";
      assert (p + TrimEnd(x))[|p|..] == TrimEnd(x) && (p + TrimEnd(y))[|p|..] == TrimEnd(y);
    }
  }

  /** Where a selection ends matters to its last row alone. */
  lemma OnlyLastSliceEnds(rows: seq<Row>, first: nat, last: nat, from: u16, to: u16) returns (above: seq<string>)
    requires first <= last < |rows|
    ensures var begin := if first == last then from else 0;
      && Slices(rows, first, last, from, to) == above + [RowColumns(rows[last], begin, to)]
      && Slices(rows, first, last, from, U16_MAX) == above + [RowColumns(rows[last], begin, U16_MAX)]
  {
    hide RowColumns;
    above := Slices(rows, first, last, from, to)[..last - first];
  }

  /** A selection that ends below the retained viewport stops at its last row,
      but still at the end column, which was meant for another row. It copies the
      rest of the viewport exactly when cutting that row there drops only
      blanks. */
  lemma PastTheEnd(s: Snapshot, a: Position, b: Position)
    requires Retained(s, a) && b.row >= s.offset + |s.rows|
    ensures var end := s.offset + |s.rows| - 1;
      Copied(s, a, b) == Copied(s, a, Position(end, U16_MAX))
      <==> OnlyBlanksBeyond(s.rows[|s.rows| - 1], if a.row == end then a.column else 0, b.column)
  {
    var first, last := a.row - s.offset, |s.rows| - 1;
    var from, row := if first == last then a.column else 0, s.rows[last];
    hide Slices, RowColumns, JoinRows, TrimEnd, OnlyBlanksBeyond;
    var above := OnlyLastSliceEnds(s.rows, first, last, a.column, b.column);
    JoinLast(above, RowColumns(row, from, b.column), RowColumns(row, from, U16_MAX));
    RowCutAtEnd(row, from, b.column);
  }

  /** So the laws stop at the viewport: here a drag to below it loses text. */
  lemma PastTheEndLosesText()
    ensures var s := Snapshot(0, [Row("abc", [])]);
      Copied(s, Position(0, 1), Position(5, 0)) == Ok("b")
      && Copied(s, Position(0, 1), Position(0, U16_MAX)) == Ok("bc")
  {
    var s := Snapshot(0, [Row("abc", [])]);
    assert RowColumns(s.rows[0], 1, 0) == "b";
    assert RowColumns(s.rows[0], 1, U16_MAX) == "bc";
    assert Slices(s.rows, 0, 0, 1, 0) == ["b"];
    assert Slices(s.rows, 0, 0, 1, U16_MAX) == ["bc"];
  }
}
