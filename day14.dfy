/** Parabolic reflector dish (src/bin/14.rs): the platform `Grid` whose
    cells the tilts rearrange in place, `calc_load`, and the two parts. Each
    method is proved to compute the functions of Day14Spec. */
module Day14 {
  import opened Common
  import opened Day14Spec

  /** What `parse_grid` builds: the rows of the trimmed input, the width
      one more than the largest column index seen (at least 1) and the
      height one more than the last row index (at least 1). */
  datatype Layout = Layout(cells: Cells, width: int, height: int)

  function MaxLength(ls: seq<string>): (m: nat)
    ensures forall k | 0 <= k < |ls| :: |ls[k]| <= m
    ensures |ls| == 0 ==> m == 0
    ensures |ls| > 0 ==> exists k | 0 <= k < |ls| :: |ls[k]| == m
  {
    if ls == [] then 0
    else
      var m := MaxLength(ls[..|ls| - 1]);
      if |ls[|ls| - 1]| > m then |ls[|ls| - 1]| else m
  }

  function ParseGrid(input: string): (g: Layout)
    ensures g.height >= 1 && g.width >= 1
    ensures g.cells == Lines(Trim(input))
    ensures |g.cells| > 0 ==> g.height == |g.cells|
    ensures forall y | 0 <= y < |g.cells| :: |g.cells[y]| <= g.width
    ensures g.width > 1 ==> exists y | 0 <= y < |g.cells| :: |g.cells[y]| == g.width
  {
    var ls := Lines(Trim(input));
    var m := MaxLength(ls);
    Layout(ls, if m > 0 then m else 1, if |ls| > 0 then |ls| else 1)
  }

  /** The layouts the tilts and `calc_load` can work on without indexing
      past the end of a row: every row is `width` long. On any other layout
      (an empty input, or rows of different lengths) the first north pass
      or `calc_load` reads a cell that is not there and panics. */
  predicate Workable(g: Layout)
  {
    Rect(g.cells, g.width, g.height)
  }

  /** The platforms at the ends of the first `n` cycles are all different. */
  ghost predicate Distinct(f: Cells -> Cells, c: Cells, n: int)
  {
    forall a, b | 1 <= a < b <= n :: Iterate(f, c, a) != Iterate(f, c, b)
  }

  /** The end of cycle `i` is the first to repeat a platform seen before,
      and it repeats the one at the end of cycle `index`. */
  ghost predicate FirstRepeat(f: Cells -> Cells, c: Cells, index: int, i: int)
  {
    && 0 <= index < i < Loops
    && Iterate(f, c, index + 1) == Iterate(f, c, i + 1)
    && Distinct(f, c, i)
  }

  lemma SpinNNext(c: Cells, w: int, h: int, n: nat)
    requires Rect(SpinN(c, w, h, n), w, h)
    ensures SpinN(c, w, h, n + 1) == Spin(SpinN(c, w, h, n), w, h)
  {
  }

  class Platform {
    var cells: Cells
    var width: int
    var height: int

    ghost predicate Valid()
      reads this
    {
      Rect(cells, width, height) && width >= 0
    }

    /** `Grid::new` */
    constructor (cells: Cells, width: int, height: int)
      requires Rect(cells, width, height) && width >= 0
      ensures Valid()
      ensures this.cells == cells && this.width == width && this.height == height
    {
      this.cells := cells;
      this.width := width;
      this.height := height;
    }

    /** `Grid::get`: the cell at `(x, y)`, nothing off the platform. */
    function Get(x: int, y: int): (r: Option<char>)
      reads this
      requires Valid()
      ensures r.Some? <==> InBounds(width, height, x, y)
      ensures r.Some? ==> r.value == cells[y][x]
    {
      if 0 <= x < width && 0 <= y < height then Some(cells[y][x]) else None
    }

    /** `Grid::swap` */
    method Swap(x1: int, y1: int, x2: int, y2: int)
      requires Valid()
      modifies this
      ensures Valid() && width == old(width) && height == old(height)
      ensures cells == Swapped(old(cells), width, height, x1, y1, x2, y2)
    {
      if (0 <= x1 < width && 0 <= y1 < height) && (0 <= x2 < width && 0 <= y2 < height) {
        var a, b := cells[y1][x1], cells[y2][x2];
        cells := cells[y1 := cells[y1][x1 := b]];
        cells := cells[y2 := cells[y2][x2 := a]];
      }
    }

    /** `check_update`: a round rock with an empty cell one gravity step
        further rolls into it; the answer says whether it did. */
    method CheckUpdate(x: int, y: int, t: Tilt) returns (moved: bool)
      requires Valid()
      modifies this
      ensures Valid() && width == old(width) && height == old(height)
      ensures moved == CanMove(old(cells), width, height, t, x, y)
      ensures cells == Step(old(cells), width, height, t, (x, y))
    {
      var checkX, checkY := x + Delta(t).0, y + Delta(t).1;
      if Get(x, y) == Some('O') && Get(checkX, checkY) == Some('.') {
        Swap(x, y, checkX, checkY);
        moved := true;
      } else {
        moved := false;
      }
    }

    /** One inner loop of a pass in `handle_gravity`: `check_update` at
        each point of the line `o` in turn. `moved` is the `updated` flag of
        the source, set when some rock rolled. */
    method ScanLine(t: Tilt, o: int, inner: seq<int>) returns (moved: bool)
      requires Valid()
      modifies this
      ensures Valid() && width == old(width) && height == old(height)
      ensures cells == Steps(old(cells), width, height, t, Line(t, o, inner))
      ensures !moved ==> cells == old(cells)
      ensures moved ==> Potential(cells, width, height, t) < Potential(old(cells), width, height, t)
    {
      moved := false;
      for j := 0 to |inner|
        invariant Valid() && width == old(width) && height == old(height)
        invariant cells == Steps(old(cells), width, height, t, Line(t, o, inner[..j]))
        invariant !moved ==> cells == old(cells)
        invariant moved ==> Potential(cells, width, height, t) < Potential(old(cells), width, height, t)
      {
        var p := At(t, o, inner[j]);
        LineNext(old(cells), width, height, t, o, inner, j);
        StepEffect(cells, width, height, t, p);
        var m := CheckUpdate(p.0, p.1, t);
        moved := moved || m;
      }
      assert inner[..|inner|] == inner;
    }

    /** One pass of the `loop` in `handle_gravity`: every line of the scan
        order in turn. */
    method PassOnce(t: Tilt) returns (updated: bool)
      requires Valid()
      modifies this
      ensures Valid() && width == old(width) && height == old(height)
      ensures cells == Pass(old(cells), width, height, t)
      ensures !updated ==> cells == old(cells)
      ensures updated ==> Potential(cells, width, height, t) < Potential(old(cells), width, height, t)
    {
      var outer, inner := Outer(t, width, height), Inner(t, width, height);
      updated := false;
      for i := 0 to |outer|
        invariant Valid() && width == old(width) && height == old(height)
        invariant cells == Steps(old(cells), width, height, t, Nest(t, outer[..i], inner))
        invariant !updated ==> cells == old(cells)
        invariant updated ==> Potential(cells, width, height, t) < Potential(old(cells), width, height, t)
      {
        NestNext(old(cells), width, height, t, outer, inner, i);
        var moved := ScanLine(t, outer[i], inner);
        updated := updated || moved;
      }
      assert outer[..|outer|] == outer;
    }

    /** `handle_gravity`: passes until one moves no rock. The result is the
        tilted platform of Day14Spec, which is settled and holds the rocks
        the platform held. */
    method HandleGravity(t: Tilt)
      requires Valid()
      modifies this
      ensures Valid() && width == old(width) && height == old(height)
      ensures cells == Tilted(old(cells), width, height, t)
    {
      while true
        invariant Valid() && width == old(width) && height == old(height)
        invariant Tilted(cells, width, height, t) == Tilted(old(cells), width, height, t)
        decreases Potential(cells, width, height, t)
      {
        PotentialNonNeg(cells, width, height, t);
        var updated := PassOnce(t);
        if !updated {
          break;
        }
      }
    }

    /** The four tilts of one cycle of `part_two`: north, west, south, east. */
    method SpinCycle()
      requires Valid()
      modifies this
      ensures Valid() && width == old(width) && height == old(height)
      ensures cells == Spin(old(cells), width, height)
    {
      HandleGravity(North);
      HandleGravity(West);
      HandleGravity(South);
      HandleGravity(East);
    }

    /** `calc_load`: column by column, the sum of `height - y` over the
        round rocks. */
    method CalcLoad() returns (sum: int)
      requires Valid()
      ensures sum == Load(cells, height)
    {
      sum := 0;
      for x := 0 to width
        invariant sum == ColumnsSum(cells, LoadOf(height), x)
      {
        var value := 0;
        for y := 0 to height
          invariant value == ColumnSum(cells, x, LoadOf(height), y)
        {
          if Get(x, y) == Some('O') {
            value := value + (height - y);
          }
        }
        sum := sum + value;
      }
      ColumnsSumIsGridSum(cells, width, LoadOf(height));
    }
  }

  /** The sum of `f` down column `x` over the first `k` rows. */
  function ColumnSum(c: Cells, x: int, f: (int, int, char) -> int, k: int): int
    requires k <= |c|
  {
    if k <= 0 then 0
    else ColumnSum(c, x, f, k - 1) + (if 0 <= x < |c[k - 1]| then f(x, k - 1, c[k - 1][x]) else 0)
  }

  /** The sum of the first `n` column sums over all rows. */
  function ColumnsSum(c: Cells, f: (int, int, char) -> int, n: int): int
  {
    if n <= 0 then 0 else ColumnsSum(c, f, n - 1) + ColumnSum(c, n - 1, f, |c|)
  }

  lemma {:induction false} ColumnSumPrefix(c: Cells, x: int, f: (int, int, char) -> int, k: int)
    requires 0 <= k < |c|
    ensures ColumnSum(c, x, f, k) == ColumnSum(c[..|c| - 1], x, f, k)
  {
    if k > 0 {
      ColumnSumPrefix(c, x, f, k - 1);
    }
  }

  lemma {:induction false} ColumnsSplit(c: Cells, w: int, f: (int, int, char) -> int, n: int)
    requires |c| > 0 && 0 <= n <= w == |c[|c| - 1]|
    ensures ColumnsSum(c, f, n) == ColumnsSum(c[..|c| - 1], f, n) + RowSum(c[|c| - 1][..n], |c| - 1, f)
  {
    if n > 0 {
      ColumnsSplit(c, w, f, n - 1);
      ColumnSumPrefix(c, n - 1, f, |c| - 1);
      var row := c[|c| - 1];
      assert row[..n][..n - 1] == row[..n - 1];
    }
  }

  /** Summing column by column gives the row-by-row sum. */
  lemma {:induction false} ColumnsSumIsGridSum(c: Cells, w: int, f: (int, int, char) -> int)
    requires Rect(c, w, |c|)
    ensures ColumnsSum(c, f, w) == GridSum(c, f)
  {
    if c == [] {
      ColumnsSumEmpty(c, f, w);
    } else {
      var front := c[..|c| - 1];
      assert Rect(front, w, |front|);
      ColumnsSumIsGridSum(front, w, f);
      assert |c[|c| - 1]| == w;
      ColumnsSplit(c, w, f, w);
      assert c[|c| - 1][..w] == c[|c| - 1];
    }
  }

  lemma {:induction false} StepsAppend(c: Cells, w: int, h: int, t: Tilt, ps: seq<(int, int)>, qs: seq<(int, int)>)
    requires Rect(c, w, h)
    ensures Steps(c, w, h, t, ps + qs) == Steps(Steps(c, w, h, t, ps), w, h, t, qs)
  {
    if qs == [] {
      assert ps + qs == ps;
    } else {
      assert (ps + qs)[..|ps + qs| - 1] == ps + qs[..|qs| - 1];
      assert (ps + qs)[|ps + qs| - 1] == qs[|qs| - 1];
      StepsAppend(c, w, h, t, ps, qs[..|qs| - 1]);
    }
  }

  lemma LineNext(c: Cells, w: int, h: int, t: Tilt, o: int, inner: seq<int>, j: int)
    requires Rect(c, w, h) && 0 <= j < |inner|
    ensures Steps(c, w, h, t, Line(t, o, inner[..j + 1])) == Step(Steps(c, w, h, t, Line(t, o, inner[..j])), w, h, t, At(t, o, inner[j]))
  {
    var done := Line(t, o, inner[..j]);
    assert Line(t, o, inner[..j + 1]) == done + [At(t, o, inner[j])];
    assert (done + [At(t, o, inner[j])])[..|done|] == done;
  }

  lemma NestNext(c: Cells, w: int, h: int, t: Tilt, outer: seq<int>, inner: seq<int>, i: int)
    requires Rect(c, w, h) && 0 <= i < |outer|
    ensures Steps(c, w, h, t, Nest(t, outer[..i + 1], inner)) == Steps(Steps(c, w, h, t, Nest(t, outer[..i], inner)), w, h, t, Line(t, outer[i], inner))
  {
    assert outer[..i + 1][..i] == outer[..i];
    StepsAppend(c, w, h, t, Nest(t, outer[..i], inner), Line(t, outer[i], inner));
  }

  lemma {:induction false} ColumnsSumEmpty(c: Cells, f: (int, int, char) -> int, n: int)
    requires c == []
    ensures ColumnsSum(c, f, n) == 0
  {
    if n > 0 {
      ColumnsSumEmpty(c, f, n - 1);
    }
  }

  /** `part_one`: the load after tilting north. */
  method PartOne(input: string) returns (r: Result<int>)
    ensures var g := ParseGrid(input);
      && (r.Ok? <==> Workable(g))
      && (r.Ok? ==> r.value == Load(Tilted(g.cells, g.width, g.height, North), g.height))
  {
    var g := ParseGrid(input);
    if !Workable(g) {
      return Panic("index out of bounds");
    }
    var grid := new Platform(g.cells, g.width, g.height);
    grid.HandleGravity(North);
    var sum := grid.CalcLoad();
    return Ok(sum);
  }

  /** What the `seen` map of `part_two` holds after `n` cycles: the
      platform at the end of each cycle `k - 1`, mapped to `k - 1`, and
      nothing else. */
  ghost predicate Recorded(f: Cells -> Cells, c0: Cells, n: nat, seen: map<Cells, int>)
  {
    && (forall s | s in seen :: 0 <= seen[s] < n && Iterate(f, c0, seen[s] + 1) == s)
    && (forall k | 1 <= k <= n :: Iterate(f, c0, k) in seen && seen[Iterate(f, c0, k)] == k - 1)
  }

  /** What the `scores` list of `part_two` holds: the load at the end of
      each cycle so far. */
  ghost predicate Scored(f: Cells -> Cells, c0: Cells, scores: seq<int>, load: Cells -> int)
  {
    forall k | 0 <= k < |scores| :: scores[k] == load(Iterate(f, c0, k + 1))
  }

  lemma RecordedExtend(f: Cells -> Cells, c0: Cells, n: nat, seen: map<Cells, int>)
    requires Recorded(f, c0, n, seen) && Iterate(f, c0, n + 1) !in seen
    ensures Recorded(f, c0, n + 1, seen[Iterate(f, c0, n + 1) := n])
  {
  }

  /** The map keeps the cycles apart: no platform recorded is recorded twice. */
  lemma RecordedDistinct(f: Cells -> Cells, c0: Cells, n: nat, seen: map<Cells, int>)
    requires Recorded(f, c0, n, seen)
    ensures Distinct(f, c0, n)
  {
  }

  /** A platform found in the map is the first repeat, of the cycle the map
      names. */
  lemma RecordedRepeat(f: Cells -> Cells, c0: Cells, n: nat, seen: map<Cells, int>)
    requires Recorded(f, c0, n, seen) && n < Loops && Iterate(f, c0, n + 1) in seen
    ensures FirstRepeat(f, c0, seen[Iterate(f, c0, n + 1)], n)
  {
    RecordedDistinct(f, c0, n, seen);
  }

  lemma ScoredExtend(f: Cells -> Cells, c0: Cells, scores: seq<int>, load: Cells -> int, v: int)
    requires Scored(f, c0, scores, load) && v == load(Iterate(f, c0, |scores| + 1))
    ensures Scored(f, c0, scores + [v], load)
  {
  }

  function LoadAt(h: int): Cells -> int
  {
    (c: Cells) => Load(c, h)
  }

  /** The loop of `part_two`: spin cycles, each platform recorded in
      `seen` with its cycle and its load pushed on `scores`, until a
      platform comes round again (`found`) or the cycles run out. */
  method CycleUntilRepeat(grid: Platform, ghost c0: Cells) returns (found: bool, first: int, n: int, scores: seq<int>)
    requires grid.Valid() && grid.cells == c0
    modifies grid
    ensures grid.Valid() && grid.width == old(grid.width) && grid.height == old(grid.height)
    ensures |scores| == n && Scored(SpinOf(grid.width, grid.height), c0, scores, LoadAt(grid.height))
    ensures found ==> FirstRepeat(SpinOf(grid.width, grid.height), c0, first, n)
    ensures !found ==> n == Loops && Distinct(SpinOf(grid.width, grid.height), c0, Loops)
  {
    var w, h := grid.width, grid.height;
    var seen: map<Cells, int> := map[];
    scores := [];
    for k := 0 to Loops
      invariant grid.Valid() && grid.width == w && grid.height == h
      invariant grid.cells == SpinN(c0, w, h, k)
      invariant Recorded(SpinOf(w, h), c0, k, seen)
      invariant |scores| == k && Scored(SpinOf(w, h), c0, scores, LoadAt(h))
    {
      SpinNNext(c0, w, h, k);
      ghost var next := Iterate(SpinOf(w, h), c0, k + 1);
      grid.SpinCycle();
      assert grid.cells == next;
      if grid.cells in seen {
        RecordedRepeat(SpinOf(w, h), c0, k, seen);
        return true, seen[grid.cells], k, scores;
      }
      var sum := grid.CalcLoad();
      assert sum == LoadAt(h)(next);
      ScoredExtend(SpinOf(w, h), c0, scores, LoadAt(h), sum);
      RecordedExtend(SpinOf(w, h), c0, k, seen);
      scores := scores + [sum];
      seen := seen[grid.cells := k];
    }
    RecordedDistinct(SpinOf(w, h), c0, Loops, seen);
    return false, 0, Loops, scores;
  }

  /** `part_two`: spin cycles until a platform repeats, then the load at
      the extrapolated index, taken as intended (`IntendedEnd`; the source's
      pick is `AsWrittenEnd`), which is the load after a billion cycles.
      The first repeat found is the one described by `index` and `i`. */
  method PartTwo(input: string) returns (r: Result<Option<int>>, ghost index: int, ghost i: int)
    ensures var g := ParseGrid(input);
      && (r.Panic? <==> !Workable(g))
      && (r == Ok(None) ==> Distinct(SpinOf(g.width, g.height), g.cells, Loops))
      && (r.Ok? && r.value.Some? ==>
            && FirstRepeat(SpinOf(g.width, g.height), g.cells, index, i)
            && r.value.value == Load(SpinN(g.cells, g.width, g.height, Loops), g.height))
  {
    index, i := 0, 0;
    var g := ParseGrid(input);
    if !Workable(g) {
      return Panic("index out of bounds"), index, i;
    }
    var grid := new Platform(g.cells, g.width, g.height);
    var found, first, n, scores := CycleUntilRepeat(grid, g.cells);
    if !found {
      return Ok(None), index, i;
    }
    index, i := first, n;
    var endIndex := IntendedEnd(first, n);
    IntendedEndCorrect(g.cells, g.width, g.height, first, n);
    ghost var last := SpinN(g.cells, g.width, g.height, endIndex + 1);
    assert scores[endIndex] == LoadAt(g.height)(last);
    return Ok(Some(scores[endIndex])), index, i;
  }
}

/** What `part_two` does with a platform that holds no round rock: every
    cycle leaves it as it is, so the first repeat is cycle 1 of cycle 0 and
    the as-written index is `-1`. */
module Day14Findings {
  import opened Common
  import opened Day14Spec
  import opened Day14

  predicate NoRoundRocks(c: Cells)
  {
    forall y, x | 0 <= y < |c| && 0 <= x < |c[y]| :: c[y][x] != 'O'
  }

  /** Without round rocks nothing can roll, so a spin cycle changes nothing. */
  lemma NoRoundRocksSpinFixed(c: Cells, w: int, h: int)
    requires Rect(c, w, h) && NoRoundRocks(c)
    ensures SpinOf(w, h)(c) == c
  {
    forall t: Tilt
      ensures Tilted(c, w, h, t) == c
    {
      TiltSettledUnchanged(c, w, h, t);
    }
  }

  lemma {:induction false} IterateFixed(f: Cells -> Cells, c: Cells, n: nat)
    requires f(c) == c
    ensures Iterate(f, c, n) == c
  {
    if n > 0 {
      IterateFixed(f, c, n - 1);
    }
  }

  /** From a fixed point, the cycles never differ, and the only first
      repeat is cycle 1 repeating cycle 0. */
  lemma FixedPointRepeats(f: Cells -> Cells, c: Cells)
    requires f(c) == c
    ensures !Distinct(f, c, Loops)
    ensures forall index, i | FirstRepeat(f, c, index, i) :: index == 0 && i == 1
  {
    IterateFixed(f, c, 1);
    IterateFixed(f, c, 2);
    assert Iterate(f, c, 1) == Iterate(f, c, 2);
  }

  lemma {:induction false} RowWithoutRoundRocks(row: seq<char>, y: int)
    requires forall x | 0 <= x < |row| :: row[x] != 'O'
    ensures RowSum(row, y, TallyOf('O')) == 0
  {
    if row != [] {
      RowWithoutRoundRocks(row[..|row| - 1], y);
    }
  }

  lemma {:induction false} NoRoundRocksTally(c: Cells)
    requires NoRoundRocks(c)
    ensures Tally(c, 'O') == 0
  {
    if c != [] {
      NoRoundRocksTally(c[..|c| - 1]);
      RowWithoutRoundRocks(c[|c| - 1], |c| - 1);
    }
  }

  /** As written, on every workable platform without round rocks the first
      repeat is cycle 1 of cycle 0 and the picked index is `-1`, which the
      cast to `usize` turns into an index far past the end of `scores`:
      `part_two` panics, although the load after a billion cycles is 0. */
  lemma AsWrittenWithoutRoundRocks(g: Layout)
    requires Workable(g) && NoRoundRocks(g.cells)
    ensures FirstRepeat(SpinOf(g.width, g.height), g.cells, 0, 1)
    ensures forall index, i | FirstRepeat(SpinOf(g.width, g.height), g.cells, index, i) :: AsWrittenEnd(index, i) == -1
    ensures Load(SpinN(g.cells, g.width, g.height, Loops), g.height) == 0
  {
    NoRoundRocksSpinFixed(g.cells, g.width, g.height);
    FixedPointRepeats(SpinOf(g.width, g.height), g.cells);
    IterateFixed(SpinOf(g.width, g.height), g.cells, 1);
    IterateFixed(SpinOf(g.width, g.height), g.cells, 2);
    assert AsWrittenEnd(0, 1) == -1;
    NoRoundRocksTally(g.cells);
    NoRoundRocksNoLoad(g.cells, g.width, g.height, Loops);
  }

  /** With the index taken as intended, `part_two` reports load 0 for such
      a platform. */
  method PartTwoWithoutRoundRocks(input: string) returns (r: Result<Option<int>>)
    requires Workable(ParseGrid(input)) && NoRoundRocks(ParseGrid(input).cells)
    ensures r == Ok(Some(0))
  {
    var g := ParseGrid(input);
    ghost var index, i;
    r, index, i := PartTwo(input);
    AsWrittenWithoutRoundRocks(g);
    NoRoundRocksSpinFixed(g.cells, g.width, g.height);
    FixedPointRepeats(SpinOf(g.width, g.height), g.cells);
    assert r.Ok? && r != Ok(None);
    assert r.value.value == Load(SpinN(g.cells, g.width, g.height, Loops), g.height);
  }

  /** The input `"."` is a platform of one empty cell. */
  lemma DotLayout()
    ensures ParseGrid(".") == Layout(["."], 1, 1)
  {
    assert TrimStart(".") == "." && TrimEnd(".") == ".";
    assert Split(".", "\n") == ["."];
    assert Lines(".") == ["."];
    assert MaxLength(["."]) == 1;
  }

  /** The platform of `"."` can be spun and holds no round rock. */
  lemma DotWorkable()
    ensures Workable(ParseGrid(".")) && NoRoundRocks(ParseGrid(".").cells)
  {
    DotLayout();
    assert Workable(Layout(["."], 1, 1)) && NoRoundRocks(["."]);
  }

  /** The input `"."`, a single empty cell, is such a platform. */
  method SingleEmptyCell() returns (r: Result<Option<int>>)
    ensures r == Ok(Some(0))
  {
    DotWorkable();
    r := PartTwoWithoutRoundRocks(".");
  }
}
