/** Day 13: Point of Incidence (`src/bin/13.rs`). Each block of the input is
    a grid of `.` and `#`; a vertical mirror line sits between two columns
    when, over the widest window around it that fits in the grid, every row
    reads the same forwards and mirrored, allowing a fixed number of
    mismatches (none in part one, exactly one in part two). A horizontal
    line is looked for as a vertical one of the transposed grid. */
module Day13 {
  import opened Common

  type Grid = seq<seq<char>>

  const EmptyAssert := "assertion failed: !v.is_empty()"
  const IndexPanic := "index out of bounds: the len is 0 but the index is 0"
  const SlicePanic := "range end index out of range for slice"

  // ---------------------------------------------------------------------
  // `transpose`

  /** Every row is at least `len` long. */
  predicate RowsAtLeast<T>(v: seq<seq<T>>, len: nat)
  {
    forall j | 0 <= j < |v| :: |v[j]| >= len
  }

  /** `transpose`: column `i` of the rows becomes row `i`, for as many
      columns as the first row has; an empty grid fails the assertion and a
      row shorter than the first runs out (an `unwrap` of `None`). */
  function Transpose<T>(v: seq<seq<T>>): (r: Result<seq<seq<T>>>)
    ensures r.Ok? <==> |v| > 0 && RowsAtLeast(v, |v[0]|)
    ensures r.Ok? ==> |r.value| == |v[0]|
    ensures r.Ok? ==> forall i | 0 <= i < |r.value| :: |r.value[i]| == |v|
    ensures r.Ok? ==> forall i, j | 0 <= i < |r.value| && 0 <= j < |v| :: r.value[i][j] == v[j][i]
  {
    if v == [] then Panic(EmptyAssert)
    else if !RowsAtLeast(v, |v[0]|) then Panic(UnwrapNone)
    else Ok(seq(|v[0]|, i requires 0 <= i < |v[0]| => seq(|v|, j requires 0 <= j < |v| => v[j][i])))
  }

  /** All rows have the same, non-zero, length. */
  predicate Rectangular<T>(v: seq<seq<T>>)
  {
    |v| > 0 && |v[0]| > 0 && forall j | 0 <= j < |v| :: |v[j]| == |v[0]|
  }

  /** Transposing a rectangular grid twice gives it back. */
  lemma TransposeTwice<T>(v: seq<seq<T>>)
    requires Rectangular(v)
    ensures Transpose(v).Ok? && Rectangular(Transpose(v).value)
    ensures Transpose(Transpose(v).value) == Ok(v)
  {
    var t := Transpose(v).value;
    assert |t| == |v[0]| && |t[0]| == |v|;
    assert RowsAtLeast(t, |t[0]|);
    var tt := Transpose(t).value;
    assert |tt| == |v|;
    forall j | 0 <= j < |v|
      ensures tt[j] == v[j]
    {
      assert |tt[j]| == |v[j]|;
      forall i | 0 <= i < |v[j]|
        ensures tt[j][i] == v[j][i]
      {
        assert tt[j][i] == t[i][j];
      }
    }
    assert tt == v;
  }

  // ---------------------------------------------------------------------
  // `find_mirror`

  /** The number of columns each side of the line after column `x - 1`
      that `find_mirror` compares. */
  function Reach(x: nat, width: nat): nat
    requires x <= width
  {
    if x < width - x then x else width - x
  }

  /** Column `x - 1 - k` of `row` equals its mirror image, column `x + k`. */
  predicate Reflects(row: seq<char>, x: nat, k: nat)
    requires k < x && x + k < |row|
  {
    row[x - 1 - k] == row[x + k]
  }

  /** The pairs `row[x - 1 - k]`, `row[x + k]` for `k < reach` that differ. */
  function RowMismatches(row: seq<char>, x: nat, reach: nat): (n: nat)
    requires reach <= x && x + reach <= |row|
    ensures n <= reach
    ensures n == 0 <==> forall k | 0 <= k < reach :: Reflects(row, x, k)
  {
    if reach == 0 then 0
    else RowMismatches(row, x, reach - 1) + (if Reflects(row, x, reach - 1) then 0 else 1)
  }

  /** The mismatches of the first `n` rows. */
  function Mismatches(grid: Grid, x: nat, reach: nat, n: nat): (total: nat)
    requires n <= |grid| && reach <= x && RowsAtLeast(grid, x + reach)
    ensures total == 0 <==> forall y | 0 <= y < n :: RowMismatches(grid[y], x, reach) == 0
  {
    if n == 0 then 0 else Mismatches(grid, x, reach, n - 1) + RowMismatches(grid[n - 1], x, reach)
  }

  /** The line after column `x - 1` has exactly `end` mismatches. */
  predicate MirrorAt(grid: Grid, width: nat, x: nat, end: nat)
    requires 0 < x < width && RowsAtLeast(grid, width)
  {
    Mismatches(grid, x, Reach(x, width), |grid|) == end
  }

  /** The loop `for x in 1..width`, from `x` on. */
  function SearchFrom(grid: Grid, width: nat, end: nat, x: nat): (r: Result<nat>)
    requires 0 < x
    ensures RowsAtLeast(grid, width) ==> r.Ok?
    ensures r.Ok? ==> r.value == 0 || x <= r.value < width
    decreases width - x
  {
    if x >= width then Ok(0)
    else if !RowsAtLeast(grid, x + Reach(x, width)) then Panic(SlicePanic)
    else if Mismatches(grid, x, Reach(x, width), |grid|) == end then Ok(x)
    else SearchFrom(grid, width, end, x + 1)
  }

  /** `find_mirror`: the first line with exactly `end` mismatches, or 0. */
  function FindMirror(grid: Grid, end: nat): (r: Result<nat>)
    ensures grid != [] && RowsAtLeast(grid, |grid[0]|) ==> r.Ok?
    ensures r.Ok? ==> grid != [] && (r.value == 0 || 0 < r.value < |grid[0]|)
  {
    if grid == [] then Panic(IndexPanic) else SearchFrom(grid, |grid[0]|, end, 1)
  }

  /** On a grid whose rows are all as wide as the first, the search from
      `x` succeeds, and a line it reports has exactly `end` mismatches. */
  lemma {:induction false} SearchFromFinds(grid: Grid, width: nat, end: nat, x: nat)
    requires 0 < x && RowsAtLeast(grid, width)
    ensures SearchFrom(grid, width, end, x).Ok?
    ensures var r := SearchFrom(grid, width, end, x).value; r > 0 ==> MirrorAt(grid, width, r, end)
    decreases width - x
  {
    if x < width {
      assert RowsAtLeast(grid, x + Reach(x, width));
      if !MirrorAt(grid, width, x, end) {
        SearchFromFinds(grid, width, end, x + 1);
        assert SearchFrom(grid, width, end, x) == SearchFrom(grid, width, end, x + 1);
      } else {
        assert SearchFrom(grid, width, end, x) == Ok(x);
      }
    } else {
      assert SearchFrom(grid, width, end, x) == Ok(0);
    }
  }

  /** The search reports the first such line: any line from `x` on with
      exactly `end` mismatches is at or after the one reported. */
  lemma {:induction false} SearchFromFirst(grid: Grid, width: nat, end: nat, x: nat, line: nat)
    requires 0 < x <= line < width && RowsAtLeast(grid, width) && MirrorAt(grid, width, line, end)
    ensures SearchFrom(grid, width, end, x).Ok?
    ensures 0 < SearchFrom(grid, width, end, x).value <= line
    decreases width - x
  {
    assert RowsAtLeast(grid, x + Reach(x, width));
    if !MirrorAt(grid, width, x, end) {
      SearchFromFirst(grid, width, end, x + 1, line);
      assert SearchFrom(grid, width, end, x) == SearchFrom(grid, width, end, x + 1);
    } else {
      assert SearchFrom(grid, width, end, x) == Ok(x);
    }
  }

  /** `find_mirror` on a grid whose rows are as wide as the first reports a
      line with exactly `end` mismatches, or 0. */
  lemma FindMirrorFinds(grid: Grid, end: nat)
    requires grid != [] && RowsAtLeast(grid, |grid[0]|)
    ensures var r := FindMirror(grid, end);
      r.Ok? && (r.value == 0 || r.value < |grid[0]|) &&
      (r.value > 0 ==> MirrorAt(grid, |grid[0]|, r.value, end))
  {
    SearchFromFinds(grid, |grid[0]|, end, 1);
  }

  /** ... and no earlier line has exactly `end` mismatches; 0 means none
      does. */
  lemma FindMirrorFirst(grid: Grid, end: nat, line: nat)
    requires grid != [] && 0 < line < |grid[0]| && RowsAtLeast(grid, |grid[0]|) && MirrorAt(grid, |grid[0]|, line, end)
    ensures FindMirror(grid, end).Ok? && 0 < FindMirror(grid, end).value <= line
  {
    SearchFromFirst(grid, |grid[0]|, end, 1, line);
  }

  /** With no mismatches allowed, a line found is an exact reflection: in
      every row, each column within reach equals its mirror image. */
  lemma ExactMirror(grid: Grid, width: nat, x: nat)
    requires 0 < x < width && RowsAtLeast(grid, width) && MirrorAt(grid, width, x, 0)
    ensures forall y, k | 0 <= y < |grid| && 0 <= k < Reach(x, width) :: Reflects(grid[y], x, k)
  {
    forall y, k | 0 <= y < |grid| && 0 <= k < Reach(x, width)
      ensures Reflects(grid[y], x, k)
    {
      assert RowMismatches(grid[y], x, Reach(x, width)) == 0;
    }
  }

  /** Row `y - 1 - k` and row `y + k` agree in column `i`. */
  predicate RowsReflect(grid: Grid, y: nat, k: nat, i: nat)
    requires k < y && y + k < |grid| && i < |grid[y - 1 - k]| && i < |grid[y + k]|
  {
    grid[y - 1 - k][i] == grid[y + k][i]
  }

  /** A line found with no mismatches on the transposed grid is a
      horizontal mirror of the grid: within reach, each row equals its
      mirror image (as far as the first row is wide). */
  lemma ExactHorizontalMirror(grid: Grid, y: nat)
    requires Transpose(grid).Ok?
    requires 0 < y < |grid| && |grid[0]| > 0 && MirrorAt(Transpose(grid).value, |grid|, y, 0)
    ensures forall k, i | 0 <= k < Reach(y, |grid|) && 0 <= i < |grid[0]| :: RowsReflect(grid, y, k, i)
  {
    var t := Transpose(grid).value;
    ExactMirror(t, |grid|, y);
    forall k, i | 0 <= k < Reach(y, |grid|) && 0 <= i < |grid[0]|
      ensures RowsReflect(grid, y, k, i)
    {
      assert Reflects(t[i], y, k);
      assert t[i][y - 1 - k] == grid[y - 1 - k][i] && t[i][y + k] == grid[y + k][i];
    }
  }

  // ---------------------------------------------------------------------
  // Summarising the blocks

  /** A block's score: the vertical line if there is one, otherwise 100
      times the line found on the transpose. */
  function BlockScore(grid: Grid, end: nat): (r: Result<nat>)
    ensures FindMirror(grid, end).Ok? && FindMirror(grid, end).value > 0 ==> r == FindMirror(grid, end)
    ensures FindMirror(grid, end) == Ok(0) && Transpose(grid).Ok? && FindMirror(Transpose(grid).value, end).Ok? ==>
      r == Ok(100 * FindMirror(Transpose(grid).value, end).value)
    ensures FindMirror(grid, end).Panic? ==> r == Panic(FindMirror(grid, end).reason)
    ensures FindMirror(grid, end) == Ok(0) && Transpose(grid).Panic? ==> r == Panic(Transpose(grid).reason)
    ensures FindMirror(grid, end) == Ok(0) && Transpose(grid).Ok? && FindMirror(Transpose(grid).value, end).Panic? ==>
      r == Panic(FindMirror(Transpose(grid).value, end).reason)
  {
    var vert :- FindMirror(grid, end);
    if vert > 0 then Ok(vert)
    else
      var t :- Transpose(grid);
      var horiz :- FindMirror(t, end);
      Ok(horiz * 100)
  }

  /** A rectangular block with a vertical line scores the first one. */
  lemma VerticalScores(grid: Grid, end: nat)
    requires Rectangular(grid) && FindMirror(grid, end).Ok? && FindMirror(grid, end).value > 0
    ensures BlockScore(grid, end) == FindMirror(grid, end)
    ensures MirrorAt(grid, |grid[0]|, BlockScore(grid, end).value, end)
  {
    FindMirrorFinds(grid, end);
  }

  /** A rectangular block without a vertical line scores 100 times the
      first horizontal line, or 0 when there is none either. */
  lemma HorizontalScores(grid: Grid, end: nat)
    requires Rectangular(grid) && FindMirror(grid, end) == Ok(0)
    ensures Transpose(grid).Ok? && FindMirror(Transpose(grid).value, end).Ok?
    ensures var y := FindMirror(Transpose(grid).value, end).value;
      BlockScore(grid, end) == Ok(100 * y) && y < |grid| &&
      (y > 0 ==> MirrorAt(Transpose(grid).value, |grid|, y, end))
  {
    FindMirrorFinds(grid, end);
    TransposeTwice(grid);
    FindMirrorFinds(Transpose(grid).value, end);
  }

  /** One block of text, its lines as rows. */
  function ScoreText(block: string, end: nat): Result<nat>
  {
    BlockScore(Lines(block), end)
  }

  /** The blank-line separated blocks of the trimmed input. */
  function Blocks(input: string): seq<string>
  {
    Split(Trim(input), "\n\n")
  }

  /** The score of each block, as one function value. */
  function ScoreOf(end: nat): string -> Result<nat>
  {
    (block: string) => ScoreText(block, end)
  }

  /** Collecting results succeeds exactly when every one is `Ok`. */
  lemma AllOkIff<A, B>(xs: seq<A>, f: A -> Result<B>)
    ensures AllOk(xs, f).Ok? <==> forall i | 0 <= i < |xs| :: f(xs[i]).Ok?
  {
    if !AllOk(xs, f).Ok? {
      var k :| 0 <= k < |xs| && f(xs[k]).Panic?;
    }
  }

  /** The scores are all there exactly when no block's score panics. */
  lemma AllScored(blocks: seq<string>, end: nat)
    ensures AllOk(blocks, ScoreOf(end)).Ok? <==> forall i | 0 <= i < |blocks| :: ScoreText(blocks[i], end).Ok?
  {
    AllOkIff(blocks, ScoreOf(end));
    assert forall i | 0 <= i < |blocks| :: ScoreOf(end)(blocks[i]) == ScoreText(blocks[i], end);
  }

  /** The sum of the block scores; the first block that panics stops it. */
  function Summarise(input: string, end: nat): (r: Result<nat>)
    ensures r.Ok? <==> forall i | 0 <= i < |Blocks(input)| :: ScoreText(Blocks(input)[i], end).Ok?
  {
    var blocks := Blocks(input);
    AllScored(blocks, end);
    var scores: seq<int> :- AllOk(blocks, ScoreOf(end));
    SumNonNeg(scores);
    Ok(Sum(scores))
  }

  function PartOne(input: string): Result<nat>
  {
    Summarise(input, 0)
  }

  function PartTwo(input: string): Result<nat>
  {
    Summarise(input, 1)
  }
}
