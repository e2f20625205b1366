/** The side-by-side line comparison: a longest common subsequence for small texts, a line-by-line
    comparison for large ones. */
module LineDiff {
  import opened Prelude
  import Text

  type Line = string

  /** An element of the typed table. Storing anything larger would wrap around. */
  newtype uint16 = x: int | 0 <= x < 0x1_0000

  const MAX_LCS_LINES: nat := 400

  datatype Kind = Same | Added | Removed

  datatype Row = Row(kind: Kind, beforeLine: Option<nat>, afterLine: Option<nat>, before: Line, after: Line)

  // ---------------------------------------------------------------------------------------------
  // Splitting into lines

  function Lines(text: string): seq<Line> {
    var lines := Text.Split('\n', text);
    if lines[|lines| - 1] == "" then lines[..|lines| - 1] else lines
  }

  predicate EndsLine(text: string) {
    text != "" && text[|text| - 1] == '\n'
  }

  lemma {:induction false} SplitHasNoBreaks(text: string)
    ensures forall l :: l in Text.Split('\n', text) ==> '\n' !in l
    ensures Text.Split('\n', text)[|Text.Split('\n', text)| - 1] == "" <==> text == "" || EndsLine(text)
    ensures |Text.Split('\n', text)| == 1 ==> Text.Split('\n', text) == [text]
  {
    if text == "" {
    } else {
      SplitHasNoBreaks(text[1..]);
      assert text == [text[0]] + text[1..];
    }
  }

  /** Nothing but the choice of a final line break is lost by splitting. */
  lemma LinesRoundTrip(text: string)
    ensures text == Text.Join('\n', Lines(text)) + (if EndsLine(text) then "\n" else "")
    ensures forall l :: l in Lines(text) ==> '\n' !in l
    ensures Lines(text) == [] <==> text == ""
  {
    Text.JoinOfSplit('\n', text);
    SplitHasNoBreaks(text);
    DropFinalEmptyLine(text, Text.Split('\n', text));
  }

  lemma DropFinalEmptyLine(text: string, lines: seq<Line>)
    requires lines != [] && Text.Join('\n', lines) == text && (forall l :: l in lines ==> '\n' !in l)
    requires lines[|lines| - 1] == "" <==> text == "" || EndsLine(text)
    ensures var kept := if lines[|lines| - 1] == "" then lines[..|lines| - 1] else lines;
            && text == Text.Join('\n', kept) + (if EndsLine(text) then "\n" else "")
            && forall l :: l in kept ==> '\n' !in l
  {
    var kept := lines[..|lines| - 1];
    if lines[|lines| - 1] == "" {
      assert lines == kept + [""];
      if kept != [] {
        Text.JoinOfConcat('\n', kept, [""]);
      }
    }
  }

  /** The lines are the pieces between the breaks, and no line for a final break: that leaves one choice only. */
  method SplitLines(text: string) returns (lines: seq<Line>)
    ensures forall l :: l in lines ==> '\n' !in l
    ensures text == Text.Join('\n', lines) + (if EndsLine(text) then "\n" else "")
    ensures lines == [] <==> text == ""
    ensures lines == Lines(text)
  {
    LinesRoundTrip(text);
    lines := Text.Split('\n', text);
    if lines[|lines| - 1] == "" {
      lines := lines[..|lines| - 1];
    }
  }

  /** Two texts split alike exactly when they agree up to one final line break. */
  lemma SameLinesSameText(a: string, b: string)
    requires EndsLine(a) == EndsLine(b)
    ensures Lines(a) == Lines(b) <==> a == b
  {
    LinesRoundTrip(a);
    LinesRoundTrip(b);
  }

  // ---------------------------------------------------------------------------------------------
  // Longest common subsequences

  /** Length of a longest common subsequence of a from i on and b from j on. */
  function Lcs(a: seq<Line>, b: seq<Line>, i: nat, j: nat): (n: nat)
    requires i <= |a| && j <= |b|
    ensures n <= |a| - i && n <= |b| - j
    decreases |a| - i + |b| - j
  {
    if i == |a| || j == |b| then 0
    else if a[i] == b[j] then Lcs(a, b, i + 1, j + 1) + 1
    else
      var skipA := Lcs(a, b, i + 1, j);
      var skipB := Lcs(a, b, i, j + 1);
      if skipA < skipB then skipB else skipA
  }

  /** c can be obtained from a by deleting lines. */
  predicate IsSubsequence(c: seq<Line>, a: seq<Line>) {
    c == [] || (a != [] && (IsSubsequence(c, a[1..]) || (c[0] == a[0] && IsSubsequence(c[1..], a[1..]))))
  }

  lemma {:induction false} SubsequenceTail(c: seq<Line>, a: seq<Line>)
    requires c != [] && IsSubsequence(c, a)
    ensures IsSubsequence(c[1..], a)
    decreases a
  {
    if IsSubsequence(c, a[1..]) {
      SubsequenceTail(c, a[1..]);
    }
  }

  lemma {:induction false} SubsequenceOfTail(c: seq<Line>, a: seq<Line>)
    requires a != [] && IsSubsequence(c, a)
    ensures c != [] && c[0] == a[0] ==> IsSubsequence(c[1..], a[1..])
    ensures c != [] && c[0] != a[0] ==> IsSubsequence(c, a[1..])
  {
    if c != [] && c[0] == a[0] && IsSubsequence(c, a[1..]) {
      SubsequenceTail(c, a[1..]);
    }
  }

  /** No common subsequence is longer than what the recursion counts. */
  lemma {:induction false} LcsIsLongest(a: seq<Line>, b: seq<Line>, i: nat, j: nat, c: seq<Line>)
    requires i <= |a| && j <= |b| && IsSubsequence(c, a[i..]) && IsSubsequence(c, b[j..])
    ensures |c| <= Lcs(a, b, i, j)
    decreases |a| - i + |b| - j
  {
    if c == [] {
    } else {
      assert a[i..][1..] == a[i + 1..] && b[j..][1..] == b[j + 1..];
      SubsequenceOfTail(c, a[i..]);
      SubsequenceOfTail(c, b[j..]);
      if a[i] == b[j] {
        if c[0] == a[i] {
          LcsIsLongest(a, b, i + 1, j + 1, c[1..]);
        } else {
          LcsIsLongest(a, b, i + 1, j + 1, c);
        }
      } else if c[0] == a[i] {
        LcsIsLongest(a, b, i, j + 1, c);
      } else {
        LcsIsLongest(a, b, i + 1, j, c);
      }
    }
  }

  // ---------------------------------------------------------------------------------------------
  // Reading rows back

  datatype Numbered = Numbered(line: nat, text: Line)

  /** The lines of one side that the rows show, with the numbers they show. */
  function BeforeSide(rows: seq<Row>): seq<Numbered> {
    if rows == [] then []
    else
      var last := rows[|rows| - 1];
      BeforeSide(rows[..|rows| - 1])
      + if last.beforeLine.Some? then [Numbered(last.beforeLine.value, last.before)] else []
  }

  function AfterSide(rows: seq<Row>): seq<Numbered> {
    if rows == [] then []
    else
      var last := rows[|rows| - 1];
      AfterSide(rows[..|rows| - 1])
      + if last.afterLine.Some? then [Numbered(last.afterLine.value, last.after)] else []
  }

  function SameTexts(rows: seq<Row>): seq<Line> {
    if rows == [] then []
    else
      var last := rows[|rows| - 1];
      SameTexts(rows[..|rows| - 1]) + if last.kind == Same then [last.before] else []
  }

  function NumberedFrom1(lines: seq<Line>): (r: seq<Numbered>)
    ensures |r| == |lines|
    ensures forall k :: 0 <= k < |lines| ==> r[k] == Numbered(k + 1, lines[k])
  {
    seq(|lines|, k requires 0 <= k < |lines| => Numbered(k + 1, lines[k]))
  }

  /** Each row says about its lines what they are. */
  predicate RowIsHonest(row: Row) {
    match row.kind
    case Same => row.beforeLine.Some? && row.afterLine.Some? && row.before == row.after
    case Added => row.beforeLine.None? && row.afterLine.Some? && row.before == ""
    case Removed => row.beforeLine.Some? && (row.afterLine.None? ==> row.after == "")
                    && (row.afterLine.Some? ==> row.before != row.after)
  }

  /** The rows replay both texts in order, every line once and under its own number. */
  ghost predicate Replays(rows: seq<Row>, before: seq<Line>, after: seq<Line>) {
    && BeforeSide(rows) == NumberedFrom1(before)
    && AfterSide(rows) == NumberedFrom1(after)
    && forall row :: row in rows ==> RowIsHonest(row)
  }

  lemma AppendRow(rows: seq<Row>, row: Row)
    ensures BeforeSide(rows + [row])
         == if row.beforeLine.Some? then BeforeSide(rows) + [Numbered(row.beforeLine.value, row.before)]
             else BeforeSide(rows)
    ensures AfterSide(rows + [row])
         == if row.afterLine.Some? then AfterSide(rows) + [Numbered(row.afterLine.value, row.after)]
             else AfterSide(rows)
    ensures SameTexts(rows + [row]) == if row.kind == Same then SameTexts(rows) + [row.before] else SameTexts(rows)
  {
    assert (rows + [row])[..|rows|] == rows;
  }

  // ---------------------------------------------------------------------------------------------
  // The comparison

  function PositionalRow(before: seq<Line>, after: seq<Line>, index: nat): Row
    requires index < |before| || index < |after|
  {
    if index < |before| && index < |after| && before[index] == after[index] then
      Row(Same, Some(index + 1), Some(index + 1), before[index], after[index])
    else if index >= |before| then
      Row(Added, None, Some(index + 1), "", after[index])
    else
      Row(Removed, Some(index + 1), if index < |after| then Some(index + 1) else None,
          before[index], if index < |after| then after[index] else "")
  }

  function PositionalDiff(before: seq<Line>, after: seq<Line>): seq<Row> {
    var count := if |before| < |after| then |after| else |before|;
    seq(count, index requires 0 <= index < count => PositionalRow(before, after, index))
  }

  /** Reading back the first `n` rows of a side that shows its k-th line on its k-th row. */
  lemma {:induction false} PositionalReplaysPrefix(before: seq<Line>, after: seq<Line>, rows: seq<Row>)
    requires |rows| <= |PositionalDiff(before, after)|
    requires forall k :: 0 <= k < |rows| ==> rows[k] == PositionalRow(before, after, k)
    ensures BeforeSide(rows) == NumberedFrom1(before)[..Min(|rows|, |before|)]
    ensures AfterSide(rows) == NumberedFrom1(after)[..Min(|rows|, |after|)]
  {
    if rows == [] {
    } else {
      var n := |rows| - 1;
      PositionalReplaysPrefix(before, after, rows[..n]);
      TakeOneMore(before, n);
      TakeOneMore(after, n);
      var last := rows[n];
      assert last == PositionalRow(before, after, n);
    }
  }

  lemma TakeOneMore(lines: seq<Line>, n: nat)
    ensures NumberedFrom1(lines)[..Min(n + 1, |lines|)]
         == NumberedFrom1(lines)[..Min(n, |lines|)] + if n < |lines| then [Numbered(n + 1, lines[n])] else []
  {
  }

  lemma PositionalReplays(before: seq<Line>, after: seq<Line>)
    ensures Replays(PositionalDiff(before, after), before, after)
  {
    var rows := PositionalDiff(before, after);
    PositionalReplaysPrefix(before, after, rows);
    assert NumberedFrom1(before)[..|before|] == NumberedFrom1(before);
    assert NumberedFrom1(after)[..|after|] == NumberedFrom1(after);
  }

  predicate Small(before: seq<Line>, after: seq<Line>) {
    |before| <= MAX_LCS_LINES && |after| <= MAX_LCS_LINES
  }

  /** Cells of rows from `left` on, and in row `left - 1` from column `right` on, are filled in. */
  ghost predicate Filled(cells: seq<uint16>, a: seq<Line>, b: seq<Line>, left: nat)
    requires left <= |a| && |cells| == (|a| + 1) * (|b| + 1)
  {
    forall i, j :: left <= i <= |a| && 0 <= j <= |b| ==> CellIs(cells, a, b, i, j)
  }

  predicate CellIs(cells: seq<uint16>, a: seq<Line>, b: seq<Line>, i: nat, j: nat)
    requires i <= |a| && j <= |b| && |cells| == (|a| + 1) * (|b| + 1)
  {
    CellInRange(a, b, i, j);
    cells[i * (|b| + 1) + j] as nat == Lcs(a, b, i, j)
  }

  lemma CellInRange(a: seq<Line>, b: seq<Line>, i: nat, j: nat)
    requires i <= |a| && j <= |b|
    ensures 0 <= i * (|b| + 1) + j < (|a| + 1) * (|b| + 1)
  {
    assert i * (|b| + 1) <= |a| * (|b| + 1);
  }

  lemma CellsDiffer(w: nat, i: nat, j: nat, k: nat, l: nat)
    requires j < w && l < w && (i != k || j != l)
    ensures i * w + j != k * w + l
  {
    if i < k {
      assert k * w >= (i + 1) * w;
    } else if k < i {
      assert i * w >= (k + 1) * w;
    }
  }

  lemma LastRowIsZero(cells: seq<uint16>, a: seq<Line>, b: seq<Line>)
    requires |cells| == (|a| + 1) * (|b| + 1) && forall k :: 0 <= k < |cells| ==> cells[k] == 0
    ensures Filled(cells, a, b, |a|)
  {
    forall i, j | |a| <= i <= |a| && 0 <= j <= |b| ensures CellIs(cells, a, b, i, j) {
      CellInRange(a, b, i, j);
    }
  }

  /** Cells before a position have not been written yet. */
  predicate Untouched(cells: seq<uint16>, bound: nat) {
    forall k :: 0 <= k < bound && k < |cells| ==> cells[k] == 0
  }

  /** Fills the flat table backwards; the last row and the last column stay zero. */
  method FillTable(a: seq<Line>, b: seq<Line>) returns (table: array<uint16>)
    requires Small(a, b)
    ensures fresh(table) && table.Length == (|a| + 1) * (|b| + 1)
    ensures Filled(table[..], a, b, 0)
  {
    table := new uint16[(|a| + 1) * (|b| + 1)](_ => 0);
    LastRowIsZero(table[..], a, b);
    var left := |a|;
    while left > 0
      invariant 0 <= left <= |a|
      invariant Filled(table[..], a, b, left)
      invariant Untouched(table[..], left * (|b| + 1))
    {
      left := left - 1;
      FillRow(a, b, table, left);
    }
  }

  method FillRow(a: seq<Line>, b: seq<Line>, table: array<uint16>, left: nat)
    requires Small(a, b) && left < |a| && table.Length == (|a| + 1) * (|b| + 1)
    requires Filled(table[..], a, b, left + 1)
    requires Untouched(table[..], (left + 1) * (|b| + 1))
    modifies table
    ensures Filled(table[..], a, b, left)
    ensures Untouched(table[..], left * (|b| + 1))
  {
    var right := |b|;
    LastColumnIsZero(table[..], a, b, left);
    while right > 0
      invariant 0 <= right <= |b|
      invariant RowFilled(table[..], a, b, left, right)
      invariant Untouched(table[..], left * (|b| + 1))
    {
      right := right - 1;
      FillCell(a, b, table, left, right);
    }
    RowIsFilled(table[..], a, b, left);
  }

  /** The rows below are filled, and this one from a column on. */
  ghost predicate RowFilled(cells: seq<uint16>, a: seq<Line>, b: seq<Line>, left: nat, right: nat)
    requires left < |a| && right <= |b| && |cells| == (|a| + 1) * (|b| + 1)
  {
    && Filled(cells, a, b, left + 1)
    && forall j :: right <= j <= |b| ==> CellIs(cells, a, b, left, j)
  }

  lemma LastColumnIsZero(cells: seq<uint16>, a: seq<Line>, b: seq<Line>, left: nat)
    requires left < |a| && |cells| == (|a| + 1) * (|b| + 1) && Filled(cells, a, b, left + 1)
    requires Untouched(cells, (left + 1) * (|b| + 1))
    ensures RowFilled(cells, a, b, left, |b|)
    ensures Untouched(cells, left * (|b| + 1))
  {
    CellInRange(a, b, left, |b|);
    assert left * (|b| + 1) + |b| < (left + 1) * (|b| + 1);
    assert cells[left * (|b| + 1) + |b|] == 0;
  }

  lemma RowIsFilled(cells: seq<uint16>, a: seq<Line>, b: seq<Line>, left: nat)
    requires left < |a| && |cells| == (|a| + 1) * (|b| + 1) && RowFilled(cells, a, b, left, 0)
    ensures Filled(cells, a, b, left)
  {
    forall i, j | left <= i <= |a| && 0 <= j <= |b| ensures CellIs(cells, a, b, i, j) {
      if i == left {
        assert CellIs(cells, a, b, left, j);
      }
    }
  }

  method FillCell(a: seq<Line>, b: seq<Line>, table: array<uint16>, left: nat, right: nat)
    requires Small(a, b) && left < |a| && right < |b| && table.Length == (|a| + 1) * (|b| + 1)
    requires RowFilled(table[..], a, b, left, right + 1) && Untouched(table[..], left * (|b| + 1))
    modifies table
    ensures RowFilled(table[..], a, b, left, right)
    ensures Untouched(table[..], left * (|b| + 1))
  {
    var w := |b| + 1;
    var index := left * w + right;
    CellInRange(a, b, left, right);
    CellInRange(a, b, left + 1, right + 1);
    assert CellIs(table[..], a, b, left + 1, right + 1) && CellIs(table[..], a, b, left + 1, right);
    assert CellIs(table[..], a, b, left, right + 1);
    var value :=
      if a[left] == b[right] then table[(left + 1) * w + right + 1] as nat + 1
      else if table[(left + 1) * w + right] < table[index + 1] then table[index + 1] as nat
      else table[(left + 1) * w + right] as nat;
    assert value == Lcs(a, b, left, right) <= 400;
    ghost var was := table[..];
    table[index] := value as uint16;
    OtherCellsStay(was, table[..], a, b, left, right);
  }

  lemma OtherCellsStay(was: seq<uint16>, now: seq<uint16>, a: seq<Line>, b: seq<Line>, left: nat, right: nat)
    requires left < |a| && right < |b| && |was| == |now| == (|a| + 1) * (|b| + 1)
    requires forall k :: 0 <= k < |was| && k != left * (|b| + 1) + right ==> now[k] == was[k]
    requires Filled(was, a, b, left + 1)
    requires forall j :: right + 1 <= j <= |b| ==> CellIs(was, a, b, left, j)
    ensures Filled(now, a, b, left + 1)
    ensures forall j :: right + 1 <= j <= |b| ==> CellIs(now, a, b, left, j)
  {
    forall i: nat, j: nat | i <= |a| && j <= |b| && (i != left || j != right) && CellIs(was, a, b, i, j)
      ensures CellIs(now, a, b, i, j)
    {
      CellInRange(a, b, i, j);
      CellsDiffer(|b| + 1, i, j, left, right);
    }
  }

  /** What the rows show after the walk has passed `left` and `right` lines. */
  ghost predicate Progress(rows: seq<Row>, a: seq<Line>, b: seq<Line>, left: nat, right: nat)
    requires left <= |a| && right <= |b|
  {
    && SidesAre(rows, NumberedFrom1(a)[..left], NumberedFrom1(b)[..right])
    && IsCommon(SameTexts(rows), a[..left], b[..right])
  }

  ghost predicate SidesAre(rows: seq<Row>, before: seq<Numbered>, after: seq<Numbered>) {
    && BeforeSide(rows) == before && AfterSide(rows) == after
    && forall row :: row in rows ==> RowIsHonest(row)
  }

  ghost predicate IsCommon(c: seq<Line>, a: seq<Line>, b: seq<Line>) {
    IsSubsequence(c, a) && IsSubsequence(c, b)
  }

  lemma CommonGrows(c: seq<Line>, a: seq<Line>, b: seq<Line>, x: Line)
    requires IsCommon(c, a, b)
    ensures IsCommon(c + [x], a + [x], b + [x])
    ensures IsCommon(c, a + [x], b) && IsCommon(c, a, b + [x])
  {
    ExtendSubsequence(c, a, x);
    ExtendSubsequence(c, b, x);
    WidenSubsequence(c, a, x);
    WidenSubsequence(c, b, x);
  }

  lemma TakeNext(lines: seq<Line>, n: nat)
    requires n < |lines|
    ensures lines[..n + 1] == lines[..n] + [lines[n]]
    ensures NumberedFrom1(lines)[..n + 1] == NumberedFrom1(lines)[..n] + [Numbered(n + 1, lines[n])]
  {
  }

  lemma StepSame(rows: seq<Row>, a: seq<Line>, b: seq<Line>, left: nat, right: nat, row: Row)
    requires left < |a| && right < |b| && a[left] == b[right] && Progress(rows, a, b, left, right)
    requires row == Row(Same, Some(left + 1), Some(right + 1), a[left], b[right])
    ensures Progress(rows + [row], a, b, left + 1, right + 1)
    ensures |SameTexts(rows + [row])| == |SameTexts(rows)| + 1
  {
    AppendRow(rows, row);
    TakeNext(a, left);
    TakeNext(b, right);
    CommonGrows(SameTexts(rows), a[..left], b[..right], a[left]);
  }

  lemma StepAdded(rows: seq<Row>, a: seq<Line>, b: seq<Line>, left: nat, right: nat, row: Row)
    requires left <= |a| && right < |b| && Progress(rows, a, b, left, right)
    requires row == Row(Added, None, Some(right + 1), "", b[right])
    ensures Progress(rows + [row], a, b, left, right + 1)
    ensures SameTexts(rows + [row]) == SameTexts(rows)
  {
    AppendRow(rows, row);
    TakeNext(b, right);
    CommonGrows(SameTexts(rows), a[..left], b[..right], b[right]);
  }

  lemma StepRemoved(rows: seq<Row>, a: seq<Line>, b: seq<Line>, left: nat, right: nat, row: Row)
    requires left < |a| && right <= |b| && Progress(rows, a, b, left, right)
    requires row == Row(Removed, Some(left + 1), None, a[left], "")
    ensures Progress(rows + [row], a, b, left + 1, right)
    ensures SameTexts(rows + [row]) == SameTexts(rows)
  {
    AppendRow(rows, row);
    TakeNext(a, left);
    CommonGrows(SameTexts(rows), a[..left], b[..right], a[left]);
  }

  /** The walk along the filled table. */
  predicate HaveNothingInCommon(a: seq<Line>, b: seq<Line>) {
    forall x :: x in a ==> x !in b
  }

  lemma {:induction false} NothingInCommon(a: seq<Line>, b: seq<Line>, i: nat, j: nat)
    requires HaveNothingInCommon(a, b) && i <= |a| && j <= |b|
    ensures Lcs(a, b, i, j) == 0
    decreases |a| - i + |b| - j
  {
    if i < |a| && j < |b| {
      assert a[i] in a && b[j] in b;
      NothingInCommon(a, b, i + 1, j);
      NothingInCommon(a, b, i, j + 1);
    }
  }

  /** As many added rows as there are lines, and only then removed ones. */
  predicate ShowsAddedFirst(rows: seq<Row>, added: nat) {
    forall k :: 0 <= k < |rows| ==> rows[k].kind == if k < added then Added else Removed
  }

  /** The same on the way. */
  predicate AddsFirst(rows: seq<Row>, added: nat, left: nat, right: nat) {
    |rows| == left + right && ShowsAddedFirst(rows, added) && right <= added && (left > 0 ==> right == added)
  }

  /** Whether the walk goes on with a line of the second text: by the table no worse than with one of the first. */
  method AddsNext(a: seq<Line>, b: seq<Line>, table: array<uint16>, left: nat, right: nat) returns (adds: bool)
    requires table.Length == (|a| + 1) * (|b| + 1) && Filled(table[..], a, b, 0)
    requires left <= |a| && right <= |b| && (left < |a| || right < |b|)
    ensures adds <==> right < |b| && (left == |a| || Lcs(a, b, left, right + 1) >= Lcs(a, b, left + 1, right))
    ensures HaveNothingInCommon(a, b) && right < |b| ==> adds
  {
    var w := |b| + 1;
    if left < |a| && right < |b| {
      CellInRange(a, b, left + 1, right);
      CellInRange(a, b, left, right + 1);
      assert CellIs(table[..], a, b, left + 1, right);
      assert CellIs(table[..], a, b, left, right + 1);
      if HaveNothingInCommon(a, b) {
        NothingInCommon(a, b, left + 1, right);
        NothingInCommon(a, b, left, right + 1);
      }
    }
    adds := right < |b| && (left == |a| || table[left * w + right + 1] >= table[(left + 1) * w + right]);
  }

  /** One round of the walk: the next row, and where the walk goes on. */
  method NextRow(a: seq<Line>, b: seq<Line>, table: array<uint16>, left: nat, right: nat, ghost rows: seq<Row>)
    returns (row: Row, l: nat, r: nat)
    requires table.Length == (|a| + 1) * (|b| + 1) && Filled(table[..], a, b, 0)
    requires left <= |a| && right <= |b| && (left < |a| || right < |b|) && Progress(rows, a, b, left, right)
    ensures left <= l <= |a| && right <= r <= |b| && left + right < l + r
    ensures Progress(rows + [row], a, b, l, r)
    ensures |SameTexts(rows + [row])| + Lcs(a, b, l, r) == |SameTexts(rows)| + Lcs(a, b, left, right)
    ensures HaveNothingInCommon(a, b) && AddsFirst(rows, |b|, left, right) ==> AddsFirst(rows + [row], |b|, l, r)
  {
    if left < |a| && right < |b| && a[left] == b[right] {
      assert a[left] in a && b[right] in b;
      row := Row(Same, Some(left + 1), Some(right + 1), a[left], b[right]);
      StepSame(rows, a, b, left, right, row);
      return row, left + 1, right + 1;
    }
    row, l, r := ChangedRow(a, b, table, left, right, rows);
  }

  /** The same where the next two lines differ, or one text has come to its end. */
  method ChangedRow(a: seq<Line>, b: seq<Line>, table: array<uint16>, left: nat, right: nat, ghost rows: seq<Row>)
    returns (row: Row, l: nat, r: nat)
    requires table.Length == (|a| + 1) * (|b| + 1) && Filled(table[..], a, b, 0)
    requires left <= |a| && right <= |b| && (left < |a| || right < |b|) && Progress(rows, a, b, left, right)
    requires left < |a| && right < |b| ==> a[left] != b[right]
    ensures left <= l <= |a| && right <= r <= |b| && left + right < l + r
    ensures Progress(rows + [row], a, b, l, r)
    ensures SameTexts(rows + [row]) == SameTexts(rows) && Lcs(a, b, l, r) == Lcs(a, b, left, right)
    ensures HaveNothingInCommon(a, b) && AddsFirst(rows, |b|, left, right) ==> AddsFirst(rows + [row], |b|, l, r)
  {
    var adds := AddsNext(a, b, table, left, right);
    if adds {
      row := Row(Added, None, Some(right + 1), "", b[right]);
      StepAdded(rows, a, b, left, right, row);
      l, r := left, right + 1;
    } else {
      row := Row(Removed, Some(left + 1), None, a[left], "");
      StepRemoved(rows, a, b, left, right, row);
      l, r := left + 1, right;
    }
    AddsFirstGoesOn(rows, row, |b|, left, right, l, r);
  }

  lemma AddsFirstGoesOn(rows: seq<Row>, row: Row, added: nat, left: nat, right: nat, l: nat, r: nat)
    requires (row.kind == Added && l == left && r == right + 1 <= added)
             || (row.kind == Removed && l == left + 1 && r == right)
    ensures AddsFirst(rows, added, left, right) && (row.kind == Removed ==> right == added) ==>
              AddsFirst(rows + [row], added, l, r)
  {
  }

  method WalkTable(a: seq<Line>, b: seq<Line>, table: array<uint16>) returns (rows: seq<Row>)
    requires table.Length == (|a| + 1) * (|b| + 1) && Filled(table[..], a, b, 0)
    ensures Progress(rows, a, b, |a|, |b|)
    ensures |SameTexts(rows)| == Lcs(a, b, 0, 0)
    // Where both are as good, a line is added before one is removed.
    ensures HaveNothingInCommon(a, b) ==> |rows| == |a| + |b| && ShowsAddedFirst(rows, |b|)
  {
    rows := [];
    var left, right := 0, 0;
    while left < |a| || right < |b|
      invariant 0 <= left <= |a| && 0 <= right <= |b|
      invariant Progress(rows, a, b, left, right)
      invariant |SameTexts(rows)| + Lcs(a, b, left, right) == Lcs(a, b, 0, 0)
      invariant HaveNothingInCommon(a, b) ==> AddsFirst(rows, |b|, left, right)
      decreases |a| - left + |b| - right
    {
      var row;
      row, left, right := NextRow(a, b, table, left, right, rows);
      rows := rows + [row];
    }
  }

  lemma {:induction false} WidenSubsequence(c: seq<Line>, a: seq<Line>, x: Line)
    requires IsSubsequence(c, a)
    ensures IsSubsequence(c, a + [x])
    decreases a
  {
    if c == [] {
    } else {
      assert (a + [x])[1..] == a[1..] + [x];
      if IsSubsequence(c, a[1..]) {
        WidenSubsequence(c, a[1..], x);
      } else {
        WidenSubsequence(c[1..], a[1..], x);
      }
    }
  }

  lemma {:induction false} ExtendSubsequence(c: seq<Line>, a: seq<Line>, x: Line)
    requires IsSubsequence(c, a)
    ensures IsSubsequence(c + [x], a + [x])
    decreases a
  {
    if a == [] {
      assert c + [x] == [x] && a + [x] == [x] && [x][1..] == [];
    } else {
      assert (a + [x])[1..] == a[1..] + [x];
      if IsSubsequence(c, a[1..]) {
        ExtendSubsequence(c, a[1..], x);
      } else {
        assert (c + [x])[1..] == c[1..] + [x];
        ExtendSubsequence(c[1..], a[1..], x);
      }
    }
  }

  /** What a user sees for two texts: both replayed in full, and, for texts of at most 400 lines each,
      as many lines shown as unchanged as any common subsequence has. */
  method BuildLineDiff(before: string, after: string) returns (rows: seq<Row>)
    ensures Replays(rows, Lines(before), Lines(after))
    ensures |Lines(before)| <= 400 && |Lines(after)| <= 400 ==>
      && IsSubsequence(SameTexts(rows), Lines(before)) && IsSubsequence(SameTexts(rows), Lines(after))
      && forall c :: IsSubsequence(c, Lines(before)) && IsSubsequence(c, Lines(after)) ==> |c| <= |SameTexts(rows)|
    ensures |Lines(before)| <= 400 && |Lines(after)| <= 400 && HaveNothingInCommon(Lines(before), Lines(after)) ==>
      ShowsAddedFirst(rows, |Lines(after)|)
    ensures |Lines(before)| > 400 || |Lines(after)| > 400 ==> rows == PositionalDiff(Lines(before), Lines(after))
  {
    var a := SplitLines(before);
    var b := SplitLines(after);
    if |a| > MAX_LCS_LINES || |b| > MAX_LCS_LINES {
      PositionalReplays(a, b);
      return PositionalDiff(a, b);
    }
    var table := FillTable(a, b);
    rows := WalkTable(a, b, table);
    assert a[..|a|] == a && b[..|b|] == b;
    assert NumberedFrom1(a)[..|a|] == NumberedFrom1(a) && NumberedFrom1(b)[..|b|] == NumberedFrom1(b);
    forall c | IsSubsequence(c, a) && IsSubsequence(c, b) ensures |c| <= Lcs(a, b, 0, 0) {
      assert a[0..] == a && b[0..] == b;
      LcsIsLongest(a, b, 0, 0, c);
    }
  }
}
