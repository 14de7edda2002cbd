/** Parabolic reflector dish (src/bin/14.rs), the value-level half: the
    platform's cells as a rectangle of characters, what one `check_update`
    does to them, the scan order of one pass of `handle_gravity`, and the
    tilt as the fixed point that repeating passes reaches. The class in
    day14.dfy is proved to compute exactly these functions. */
module Day14Spec {
  import opened Common

  /** The cycle count `part_two` extrapolates to. */
  const Loops: int := 1000000000

  /** The four gravities `handle_gravity` accepts. */
  datatype Tilt = North | West | South | East

  type Cells = seq<seq<char>>

  function Delta(t: Tilt): (d: (int, int))
  {
    match t
    case North => (0, -1)
    case West => (-1, 0)
    case South => (0, 1)
    case East => (1, 0)
  }

  /** The `match gravity` of `handle_gravity`: the four unit vectors are
      accepted, any other gravity panics. */
  function TiltOf(g: (int, int)): (r: Result<Tilt>)
    ensures r.Ok? <==> g == (0, -1) || g == (0, 1) || g == (-1, 0) || g == (1, 0)
    ensures r.Ok? ==> Delta(r.value) == g
  {
    match g
    case (0, -1) => Ok(North)
    case (0, 1) => Ok(South)
    case (-1, 0) => Ok(West)
    case (1, 0) => Ok(East)
    case _ => Panic("not possible")
  }

  /** Every gravity of the four is accepted as itself. */
  lemma TiltOfDelta(t: Tilt)
    ensures TiltOf(Delta(t)) == Ok(t)
  {
  }

  predicate Rect(c: Cells, w: int, h: int)
  {
    |c| == h && forall y | 0 <= y < h :: |c[y]| == w
  }

  predicate InBounds(w: int, h: int, x: int, y: int)
  {
    0 <= x < w && 0 <= y < h
  }

  /** The cell `(x, y)` set to `v`. */
  function Put(c: Cells, x: int, y: int, v: char): Cells
    requires 0 <= y < |c| && 0 <= x < |c[y]|
  {
    c[y := c[y][x := v]]
  }

  /** `Grid::swap`: the two cells exchanged when both lie on the platform,
      the platform unchanged otherwise. */
  function Swapped(c: Cells, w: int, h: int, x1: int, y1: int, x2: int, y2: int): (r: Cells)
    requires Rect(c, w, h)
    ensures Rect(r, w, h)
  {
    if InBounds(w, h, x1, y1) && InBounds(w, h, x2, y2) then
      Put(Put(c, x1, y1, c[y2][x2]), x2, y2, c[y1][x1])
    else c
  }

  /** After a swap of two cells on the platform each holds what the other
      held and every other cell is as it was; with either cell off the
      platform nothing changes. */
  lemma SwappedCells(c: Cells, w: int, h: int, x1: int, y1: int, x2: int, y2: int)
    requires Rect(c, w, h)
    ensures forall x, y | InBounds(w, h, x, y) ::
      Swapped(c, w, h, x1, y1, x2, y2)[y][x] ==
        if InBounds(w, h, x1, y1) && InBounds(w, h, x2, y2) then
          (if x == x2 && y == y2 then c[y1][x1] else if x == x1 && y == y1 then c[y2][x2] else c[y][x])
        else c[y][x]
  {
  }

  /** The condition of `check_update`: a round rock at `(x, y)` and an
      empty cell one gravity step further, both on the platform. */
  predicate CanMove(c: Cells, w: int, h: int, t: Tilt, x: int, y: int)
    requires Rect(c, w, h)
  {
    var (dx, dy) := Delta(t);
    InBounds(w, h, x, y) && InBounds(w, h, x + dx, y + dy) && c[y][x] == 'O' && c[y + dy][x + dx] == '.'
  }

  /** What `check_update` does to the cells. */
  function Step(c: Cells, w: int, h: int, t: Tilt, p: (int, int)): (r: Cells)
    requires Rect(c, w, h)
    ensures Rect(r, w, h)
  {
    if CanMove(c, w, h, t, p.0, p.1) then Swapped(c, w, h, p.0, p.1, p.0 + Delta(t).0, p.1 + Delta(t).1) else c
  }

  /** The platform after the tilt: no round rock has an empty cell one
      gravity step further on. */
  ghost predicate Settled(c: Cells, w: int, h: int, t: Tilt)
    requires Rect(c, w, h)
  {
    forall x, y | InBounds(w, h, x, y) :: !CanMove(c, w, h, t, x, y)
  }

  // ---------------------------------------------------------------------
  // Scan order of one pass

  function Range(lo: int, hi: int): (r: seq<int>)
    ensures |r| == if hi > lo then hi - lo else 0
    ensures forall k | 0 <= k < |r| :: r[k] == lo + k
  {
    seq(if hi > lo then hi - lo else 0, k => lo + k)
  }

  /** `(lo..hi).rev()` */
  function RevRange(lo: int, hi: int): (r: seq<int>)
    ensures |r| == if hi > lo then hi - lo else 0
    ensures forall k | 0 <= k < |r| :: r[k] == hi - 1 - k
  {
    seq(if hi > lo then hi - lo else 0, k => hi - 1 - k)
  }

  /** The rows `handle_gravity` visits: every row whose neighbour in the
      gravity direction exists, nearest that edge first. */
  function YRange(t: Tilt, h: int): seq<int>
  {
    match t
    case North => Range(1, h)
    case South => RevRange(0, h - 1)
    case West => Range(0, h)
    case East => Range(0, h)
  }

  /** The columns `handle_gravity` visits. */
  function XRange(t: Tilt, w: int): seq<int>
  {
    match t
    case North => Range(0, w)
    case South => Range(0, w)
    case West => Range(1, w)
    case East => RevRange(0, w - 1)
  }

  /** Exactly the cells whose gravity neighbour is on the platform are visited. */
  lemma {:induction false} RangesCover(t: Tilt, w: int, h: int, x: int, y: int)
    ensures (x in XRange(t, w) && y in YRange(t, h)) <==> InBounds(w, h, x, y) && InBounds(w, h, x + Delta(t).0, y + Delta(t).1)
  {
    var xs, ys := XRange(t, w), YRange(t, h);
    if InBounds(w, h, x, y) && InBounds(w, h, x + Delta(t).0, y + Delta(t).1) {
      match t
      case North => assert xs[x] == x; assert ys[y - 1] == y;
      case South => assert xs[x] == x; assert ys[h - 2 - y] == y;
      case West => assert xs[x - 1] == x; assert ys[y] == y;
      case East => assert xs[w - 2 - x] == x; assert ys[y] == y;
    }
  }

  /** Whether the outer loop of a pass runs over rows (only for a positive
      x gravity, that is east) or over columns. */
  predicate RowsOuter(t: Tilt) { Delta(t).0 > 0 }

  function Outer(t: Tilt, w: int, h: int): seq<int>
  {
    if RowsOuter(t) then YRange(t, h) else XRange(t, w)
  }

  function Inner(t: Tilt, w: int, h: int): seq<int>
  {
    if RowsOuter(t) then XRange(t, w) else YRange(t, h)
  }

  /** The point visited for outer value `o` and inner value `i`. */
  function At(t: Tilt, o: int, i: int): (int, int)
  {
    if RowsOuter(t) then (i, o) else (o, i)
  }

  /** The points of one inner loop, in order. */
  function Line(t: Tilt, o: int, inner: seq<int>): (r: seq<(int, int)>)
    ensures |r| == |inner| && forall k | 0 <= k < |inner| :: r[k] == At(t, o, inner[k])
  {
    seq(|inner|, k requires 0 <= k < |inner| => At(t, o, inner[k]))
  }

  /** The points of the loop nest over the outer values `outer`, in order. */
  function Nest(t: Tilt, outer: seq<int>, inner: seq<int>): seq<(int, int)>
  {
    if outer == [] then [] else Nest(t, outer[..|outer| - 1], inner) + Line(t, outer[|outer| - 1], inner)
  }

  /** Every point of one pass of `handle_gravity`, in visiting order. */
  function ScanOrder(t: Tilt, w: int, h: int): seq<(int, int)>
  {
    Nest(t, Outer(t, w, h), Inner(t, w, h))
  }

  lemma {:induction false} NestContains(t: Tilt, outer: seq<int>, inner: seq<int>, o: int, i: int)
    requires o in outer && i in inner
    ensures At(t, o, i) in Nest(t, outer, inner)
  {
    var last := outer[|outer| - 1];
    if o == last {
      var k :| 0 <= k < |inner| && inner[k] == i;
      assert Line(t, last, inner)[k] == At(t, o, i);
    } else {
      assert o in outer[..|outer| - 1] by {
        var k :| 0 <= k < |outer| && outer[k] == o;
        assert k < |outer| - 1;
        assert outer[..|outer| - 1][k] == o;
      }
      NestContains(t, outer[..|outer| - 1], inner, o, i);
    }
  }

  /** A pass visits every cell whose gravity neighbour is on the platform. */
  lemma ScanOrderCovers(t: Tilt, w: int, h: int, x: int, y: int)
    requires InBounds(w, h, x, y) && InBounds(w, h, x + Delta(t).0, y + Delta(t).1)
    ensures (x, y) in ScanOrder(t, w, h)
  {
    RangesCover(t, w, h, x, y);
    if RowsOuter(t) {
      NestContains(t, YRange(t, h), XRange(t, w), y, x);
    } else {
      NestContains(t, XRange(t, w), YRange(t, h), x, y);
    }
  }

  // ---------------------------------------------------------------------
  // Passes and the tilt

  /** The cells after `check_update` at each of the points `ps` in turn. */
  function Steps(c: Cells, w: int, h: int, t: Tilt, ps: seq<(int, int)>): (r: Cells)
    requires Rect(c, w, h)
    ensures Rect(r, w, h)
  {
    if ps == [] then c else Step(Steps(c, w, h, t, ps[..|ps| - 1]), w, h, t, ps[|ps| - 1])
  }

  /** One pass of the `loop` in `handle_gravity`. */
  function Pass(c: Cells, w: int, h: int, t: Tilt): (r: Cells)
    requires Rect(c, w, h)
    ensures Rect(r, w, h)
  {
    Steps(c, w, h, t, ScanOrder(t, w, h))
  }

  /** `handle_gravity`: passes are repeated until one changes nothing. */
  function Tilted(c: Cells, w: int, h: int, t: Tilt): (r: Cells)
    requires Rect(c, w, h)
    ensures Rect(r, w, h)
    decreases Potential(c, w, h, t)
  {
    var p := Pass(c, w, h, t);
    if p == c then c
    else
      StepsDecrease(c, w, h, t, ScanOrder(t, w, h));
      PotentialNonNeg(p, w, h, t);
      Tilted(p, w, h, t)
  }

  /** One spin cycle: north, west, south, east. */
  function Spin(c: Cells, w: int, h: int): (r: Cells)
    requires Rect(c, w, h)
    ensures Rect(r, w, h)
  {
    Tilted(Tilted(Tilted(Tilted(c, w, h, North), w, h, West), w, h, South), w, h, East)
  }

  // ---------------------------------------------------------------------
  // Weighted sums over the cells

  /** The sum of `f(x, y, row[x])` over the row. */
  function RowSum(row: seq<char>, y: int, f: (int, int, char) -> int): int
  {
    if row == [] then 0 else RowSum(row[..|row| - 1], y, f) + f(|row| - 1, y, row[|row| - 1])
  }

  /** The sum of `f(x, y, c[y][x])` over every cell. */
  function GridSum(c: Cells, f: (int, int, char) -> int): int
  {
    if c == [] then 0 else GridSum(c[..|c| - 1], f) + RowSum(c[|c| - 1], |c| - 1, f)
  }

  lemma {:induction false} RowSumPut(row: seq<char>, y: int, f: (int, int, char) -> int, x: int, v: char)
    requires 0 <= x < |row|
    ensures RowSum(row[x := v], y, f) == RowSum(row, y, f) - f(x, y, row[x]) + f(x, y, v)
  {
    var r := row[x := v];
    if x == |row| - 1 {
      assert r[..|r| - 1] == row[..|row| - 1];
    } else {
      assert r[..|r| - 1] == row[..|row| - 1][x := v];
      RowSumPut(row[..|row| - 1], y, f, x, v);
    }
  }

  /** Changing one cell changes a weighted sum by that cell's difference. */
  lemma {:induction false} GridSumPut(c: Cells, f: (int, int, char) -> int, x: int, y: int, v: char)
    requires 0 <= y < |c| && 0 <= x < |c[y]|
    ensures GridSum(Put(c, x, y, v), f) == GridSum(c, f) - f(x, y, c[y][x]) + f(x, y, v)
  {
    var r := Put(c, x, y, v);
    if y == |c| - 1 {
      assert r[..|r| - 1] == c[..|c| - 1];
      RowSumPut(c[y], y, f, x, v);
    } else {
      assert r[..|r| - 1] == Put(c[..|c| - 1], x, y, v);
      GridSumPut(c[..|c| - 1], f, x, y, v);
    }
  }

  lemma {:induction false} RowSumNonNeg(row: seq<char>, y: int, f: (int, int, char) -> int)
    requires forall x | 0 <= x < |row| :: f(x, y, row[x]) >= 0
    ensures RowSum(row, y, f) >= 0
  {
    if row != [] {
      RowSumNonNeg(row[..|row| - 1], y, f);
    }
  }

  lemma {:induction false} GridSumNonNeg(c: Cells, f: (int, int, char) -> int)
    requires forall y, x | 0 <= y < |c| && 0 <= x < |c[y]| :: f(x, y, c[y][x]) >= 0
    ensures GridSum(c, f) >= 0
  {
    if c != [] {
      GridSumNonNeg(c[..|c| - 1], f);
      RowSumNonNeg(c[|c| - 1], |c| - 1, f);
    }
  }

  /** Weight 1 for each cell holding `ch`. */
  function TallyOf(ch: char): (int, int, char) -> int
  {
    (x: int, y: int, k: char) => if k == ch then 1 else 0
  }

  /** The number of cells holding `ch`. */
  function Tally(c: Cells, ch: char): int
  {
    GridSum(c, TallyOf(ch))
  }

  /** Weight `height - y` for each round rock. */
  function LoadOf(h: int): (int, int, char) -> int
  {
    (x: int, y: int, k: char) => if k == 'O' then h - y else 0
  }

  /** `calc_load`: the sum of `height - y` over the round rocks. */
  function Load(c: Cells, h: int): int
  {
    GridSum(c, LoadOf(h))
  }

  /** How many steps a rock at `(x, y)` is away from the edge it falls towards. */
  function Distance(w: int, h: int, t: Tilt, x: int, y: int): int
  {
    match t
    case North => y
    case South => h - 1 - y
    case West => x
    case East => w - 1 - x
  }

  function PotentialOf(w: int, h: int, t: Tilt): (int, int, char) -> int
  {
    (x: int, y: int, k: char) => if k == 'O' then Distance(w, h, t, x, y) else 0
  }

  /** The total distance of the round rocks from the edge they fall towards:
      every swap lowers it by one, which is why `handle_gravity` stops. */
  function Potential(c: Cells, w: int, h: int, t: Tilt): int
  {
    GridSum(c, PotentialOf(w, h, t))
  }

  lemma PotentialNonNeg(c: Cells, w: int, h: int, t: Tilt)
    requires Rect(c, w, h)
    ensures Potential(c, w, h, t) >= 0
  {
    GridSumNonNeg(c, PotentialOf(w, h, t));
  }

  /** Where the cube rocks are. */
  function Cubes(c: Cells): seq<seq<bool>>
  {
    seq(|c|, y requires 0 <= y < |c| => seq(|c[y]|, x requires 0 <= x < |c[y]| => c[y][x] == '#'))
  }

  /** Writing a non-cube over a non-cube keeps the cube rocks where they are. */
  lemma PutKeepsCubes(c: Cells, x: int, y: int, v: char)
    requires 0 <= y < |c| && 0 <= x < |c[y]| && c[y][x] != '#' && v != '#'
    ensures Cubes(Put(c, x, y, v)) == Cubes(c)
  {
    var a, b := Cubes(Put(c, x, y, v)), Cubes(c);
    assert forall k | 0 <= k < |a| :: a[k] == b[k];
  }

  /** The cells keep their counts of every character and their cube rocks. */
  ghost predicate Conserved(a: Cells, b: Cells, w: int, h: int)
  {
    && Tally(a, 'O') == Tally(b, 'O') && Tally(a, '#') == Tally(b, '#') && Tally(a, '.') == Tally(b, '.')
    && Cubes(a) == Cubes(b)
  }

  lemma {:induction false} StepEffect(c: Cells, w: int, h: int, t: Tilt, p: (int, int))
    requires Rect(c, w, h)
    ensures Conserved(c, Step(c, w, h, t, p), w, h)
    ensures CanMove(c, w, h, t, p.0, p.1) ==> Potential(Step(c, w, h, t, p), w, h, t) == Potential(c, w, h, t) - 1
    ensures !CanMove(c, w, h, t, p.0, p.1) ==> Step(c, w, h, t, p) == c
  {
    if CanMove(c, w, h, t, p.0, p.1) {
      var (x, y) := p;
      var x2, y2 := x + Delta(t).0, y + Delta(t).1;
      var c1 := Put(c, x, y, '.');
      var c2 := Put(c1, x2, y2, 'O');
      StepIsMove(c, w, h, t, p, c1, c2);
      MoveTallies(c, c1, c2, x, y, x2, y2);
      PutKeepsCubes(c, x, y, '.');
      PutKeepsCubes(c1, x2, y2, 'O');
      GridSumPut(c, PotentialOf(w, h, t), x, y, '.');
      GridSumPut(c1, PotentialOf(w, h, t), x2, y2, 'O');
      assert Distance(w, h, t, x2, y2) == Distance(w, h, t, x, y) - 1;
    }
  }

  /** A step that moves a rock empties its cell and fills the one in front. */
  lemma StepIsMove(c: Cells, w: int, h: int, t: Tilt, p: (int, int), c1: Cells, c2: Cells)
    requires Rect(c, w, h) && CanMove(c, w, h, t, p.0, p.1)
    requires c1 == Put(c, p.0, p.1, '.') && c2 == Put(c1, p.0 + Delta(t).0, p.1 + Delta(t).1, 'O')
    ensures Step(c, w, h, t, p) == c2
  {
    var x2, y2 := p.0 + Delta(t).0, p.1 + Delta(t).1;
    assert c[y2][x2] == '.' && c[p.1][p.0] == 'O';
    assert Swapped(c, w, h, p.0, p.1, x2, y2) == Put(Put(c, p.0, p.1, '.'), x2, y2, 'O');
  }

  /** Moving a round rock onto an empty cell keeps every character's count. */
  lemma MoveTallies(c: Cells, c1: Cells, c2: Cells, x1: int, y1: int, x2: int, y2: int)
    requires 0 <= y1 < |c| && 0 <= x1 < |c[y1]| && 0 <= y2 < |c| && 0 <= x2 < |c[y2]|
    requires c[y1][x1] == 'O' && c[y2][x2] == '.' && (x1, y1) != (x2, y2)
    requires c1 == Put(c, x1, y1, '.') && c2 == Put(c1, x2, y2, 'O')
    ensures Tally(c, 'O') == Tally(c2, 'O') && Tally(c, '#') == Tally(c2, '#') && Tally(c, '.') == Tally(c2, '.')
  {
    GridSumPut(c, TallyOf('O'), x1, y1, '.');
    GridSumPut(c1, TallyOf('O'), x2, y2, 'O');
    GridSumPut(c, TallyOf('#'), x1, y1, '.');
    GridSumPut(c1, TallyOf('#'), x2, y2, 'O');
    GridSumPut(c, TallyOf('.'), x1, y1, '.');
    GridSumPut(c1, TallyOf('.'), x2, y2, 'O');
  }

  lemma ConservedTrans(a: Cells, b: Cells, d: Cells, w: int, h: int)
    requires Conserved(a, b, w, h) && Conserved(b, d, w, h)
    ensures Conserved(a, d, w, h)
  {
  }

  /** Steps never raise the potential; if they change anything they lower it. */
  lemma {:induction false} StepsDecrease(c: Cells, w: int, h: int, t: Tilt, ps: seq<(int, int)>)
    requires Rect(c, w, h)
    ensures Conserved(c, Steps(c, w, h, t, ps), w, h)
    ensures Potential(Steps(c, w, h, t, ps), w, h, t) <= Potential(c, w, h, t)
    ensures Steps(c, w, h, t, ps) != c ==> Potential(Steps(c, w, h, t, ps), w, h, t) < Potential(c, w, h, t)
  {
    if ps != [] {
      var d := Steps(c, w, h, t, ps[..|ps| - 1]);
      StepsDecrease(c, w, h, t, ps[..|ps| - 1]);
      StepEffect(d, w, h, t, ps[|ps| - 1]);
      ConservedTrans(c, d, Steps(c, w, h, t, ps), w, h);
    }
  }

  /** Steps that change nothing found no rock to move anywhere they looked. */
  lemma {:induction false} StepsUnchanged(c: Cells, w: int, h: int, t: Tilt, ps: seq<(int, int)>)
    requires Rect(c, w, h)
    requires Steps(c, w, h, t, ps) == c
    ensures forall k | 0 <= k < |ps| :: !CanMove(c, w, h, t, ps[k].0, ps[k].1)
  {
    if ps != [] {
      var front := ps[..|ps| - 1];
      var d := Steps(c, w, h, t, front);
      StepsDecrease(c, w, h, t, front);
      StepEffect(d, w, h, t, ps[|ps| - 1]);
      assert d == c;
      StepsUnchanged(c, w, h, t, front);
      assert forall k | 0 <= k < |ps| - 1 :: ps[k] == front[k];
    }
  }

  /** On a settled platform steps change nothing. */
  lemma {:induction false} StepsSettled(c: Cells, w: int, h: int, t: Tilt, ps: seq<(int, int)>)
    requires Rect(c, w, h) && Settled(c, w, h, t)
    ensures Steps(c, w, h, t, ps) == c
  {
    if ps != [] {
      StepsSettled(c, w, h, t, ps[..|ps| - 1]);
      var p := ps[|ps| - 1];
      assert !CanMove(c, w, h, t, p.0, p.1);
    }
  }

  /** A pass changes nothing exactly when the platform is settled. */
  lemma PassFixedIffSettled(c: Cells, w: int, h: int, t: Tilt)
    requires Rect(c, w, h)
    ensures Pass(c, w, h, t) == c <==> Settled(c, w, h, t)
  {
    var ps := ScanOrder(t, w, h);
    if Pass(c, w, h, t) == c {
      StepsUnchanged(c, w, h, t, ps);
      forall x, y | InBounds(w, h, x, y) ensures !CanMove(c, w, h, t, x, y) {
        if InBounds(w, h, x + Delta(t).0, y + Delta(t).1) {
          ScanOrderCovers(t, w, h, x, y);
          var k :| 0 <= k < |ps| && ps[k] == (x, y);
        }
      }
    }
    if Settled(c, w, h, t) {
      StepsSettled(c, w, h, t, ps);
    }
  }

  /** The tilted platform is settled and holds the same rocks: no round rock
      has an empty cell in front of it, the counts of `O`, `#` and `.` are
      those of the input, and the cube rocks have not moved. */
  lemma {:induction false} TiltedSettled(c: Cells, w: int, h: int, t: Tilt)
    requires Rect(c, w, h)
    ensures Settled(Tilted(c, w, h, t), w, h, t)
    ensures Conserved(c, Tilted(c, w, h, t), w, h)
    decreases Potential(c, w, h, t)
  {
    var p := Pass(c, w, h, t);
    StepsDecrease(c, w, h, t, ScanOrder(t, w, h));
    PotentialNonNeg(p, w, h, t);
    if p == c {
      PassFixedIffSettled(c, w, h, t);
    } else {
      TiltedSettled(p, w, h, t);
      ConservedTrans(c, p, Tilted(p, w, h, t), w, h);
    }
  }

  /** A settled platform is left as it is by a tilt. */
  lemma TiltSettledUnchanged(c: Cells, w: int, h: int, t: Tilt)
    requires Rect(c, w, h) && Settled(c, w, h, t)
    ensures Tilted(c, w, h, t) == c
  {
    PassFixedIffSettled(c, w, h, t);
  }

  /** Tilting twice the same way is tilting once. */
  lemma TiltIdempotent(c: Cells, w: int, h: int, t: Tilt)
    requires Rect(c, w, h)
    ensures Tilted(Tilted(c, w, h, t), w, h, t) == Tilted(c, w, h, t)
  {
    TiltedSettled(c, w, h, t);
    TiltSettledUnchanged(Tilted(c, w, h, t), w, h, t);
  }

  /** A spin cycle holds the same rocks. */
  lemma SpinConserves(c: Cells, w: int, h: int)
    requires Rect(c, w, h)
    ensures Conserved(c, Spin(c, w, h), w, h)
  {
    var n := Tilted(c, w, h, North);
    var we := Tilted(n, w, h, West);
    var s := Tilted(we, w, h, South);
    TiltedSettled(c, w, h, North);
    TiltedSettled(n, w, h, West);
    TiltedSettled(we, w, h, South);
    TiltedSettled(s, w, h, East);
    ConservedTrans(c, n, we, w, h);
    ConservedTrans(c, we, s, w, h);
    ConservedTrans(c, s, Spin(c, w, h), w, h);
  }

  /** The load lies between 0 and `height` times the number of round rocks. */
  lemma LoadBounds(c: Cells, w: int, h: int)
    requires Rect(c, w, h)
    ensures 0 <= Load(c, h) <= h * Tally(c, 'O')
  {
    var f := LoadOf(h);
    var g := (x: int, y: int, k: char) => h * TallyOf('O')(x, y, k) - f(x, y, k);
    GridSumNonNeg(c, f);
    GridSumNonNeg(c, g);
    GridSumLinear(c, h, TallyOf('O'), f, g);
  }

  lemma {:induction false} RowSumLinear(row: seq<char>, y: int, a: int, f: (int, int, char) -> int, g: (int, int, char) -> int, d: (int, int, char) -> int)
    requires forall x, k :: d(x, y, k) == a * f(x, y, k) - g(x, y, k)
    ensures RowSum(row, y, d) == a * RowSum(row, y, f) - RowSum(row, y, g)
  {
    if row != [] {
      RowSumLinear(row[..|row| - 1], y, a, f, g, d);
    }
  }

  lemma {:induction false} GridSumLinear(c: Cells, a: int, f: (int, int, char) -> int, g: (int, int, char) -> int, d: (int, int, char) -> int)
    requires forall x, y, k :: d(x, y, k) == a * f(x, y, k) - g(x, y, k)
    ensures GridSum(c, d) == a * GridSum(c, f) - GridSum(c, g)
  {
    if c != [] {
      GridSumLinear(c[..|c| - 1], a, f, g, d);
      RowSumLinear(c[|c| - 1], |c| - 1, a, f, g, d);
    }
  }

  // ---------------------------------------------------------------------
  // Repeated spin cycles

  /** `f` applied `n` times. */
  function Iterate(f: Cells -> Cells, c: Cells, n: nat): Cells
  {
    if n == 0 then c else f(Iterate(f, c, n - 1))
  }

  /** One spin cycle of a `w` by `h` platform, as a value. */
  function SpinOf(w: int, h: int): Cells -> Cells
  {
    (c: Cells) => if Rect(c, w, h) then Spin(c, w, h) else c
  }

  /** The platform after `n` spin cycles. */
  function SpinN(c: Cells, w: int, h: int, n: nat): Cells
  {
    Iterate(SpinOf(w, h), c, n)
  }

  /** Spin cycles keep the shape and hold the same rocks. */
  lemma SpinNConserves(c: Cells, w: int, h: int, n: nat)
    requires Rect(c, w, h)
    ensures Rect(SpinN(c, w, h, n), w, h)
    ensures Conserved(c, SpinN(c, w, h, n), w, h)
  {
    var keeps := (x: Cells) => Rect(x, w, h) && Conserved(c, x, w, h);
    forall x | keeps(x)
      ensures keeps(SpinOf(w, h)(x))
    {
      SpinOfConserves(c, x, w, h);
    }
    IterateKeeps(SpinOf(w, h), c, n, keeps);
  }

  /** A property every application of `f` keeps holds after any number of
      them. */
  lemma {:induction false} IterateKeeps(f: Cells -> Cells, c: Cells, n: nat, keeps: Cells -> bool)
    requires keeps(c) && forall x | keeps(x) :: keeps(f(x))
    ensures keeps(Iterate(f, c, n))
  {
    if n > 0 {
      IterateKeeps(f, c, n - 1, keeps);
    }
  }

  lemma SpinOfConserves(c: Cells, x: Cells, w: int, h: int)
    requires Rect(x, w, h) && Conserved(c, x, w, h)
    ensures Rect(SpinOf(w, h)(x), w, h) && Conserved(c, SpinOf(w, h)(x), w, h)
  {
    SpinConserves(x, w, h);
    ConservedTrans(c, x, Spin(x, w, h), w, h);
  }

  /** A platform without round rocks has load 0 after any number of cycles. */
  lemma NoRoundRocksNoLoad(c: Cells, w: int, h: int, n: nat)
    requires Rect(c, w, h) && Tally(c, 'O') == 0
    ensures Load(SpinN(c, w, h, n), h) == 0
  {
    SpinNConserves(c, w, h, n);
    LoadBounds(SpinN(c, w, h, n), w, h);
  }

  lemma MulAtLeast(d: int, p: int)
    requires d >= 1 && p > 0
    ensures d * p >= p
  {
    assert d * p == (d - 1) * p + p;
  }

  /** The remainder is the unique `r` in `[0, p)` with `n == q * p + r`. */
  lemma ModUnique(n: int, p: int, q: int, r: int)
    requires p > 0 && 0 <= r < p && n == q * p + r
    ensures n % p == r
  {
    var q', r' := n / p, n % p;
    assert n == q' * p + r';
    assert (q - q') * p == r' - r;
    if q > q' {
      MulAtLeast(q - q', p);
    } else if q < q' {
      MulAtLeast(q' - q, p);
    }
  }

  lemma ModStep(x: int, p: int)
    requires x >= 0 && p > 0
    ensures (x + 1) % p == if x % p + 1 < p then x % p + 1 else 0
  {
    var q, r := x / p, x % p;
    assert x == q * p + r;
    if r + 1 < p {
      ModUnique(x + 1, p, q, r + 1);
    } else {
      assert x + 1 == (q + 1) * p + 0;
      ModUnique(x + 1, p, q + 1, 0);
    }
  }

  /** Once the state after `a` steps comes back after `a + p`, every later
      state is the one `(m - a) % p` steps after the `a`-th. */
  lemma {:induction false} IteratePeriodic(f: Cells -> Cells, c: Cells, a: nat, p: nat, m: nat)
    requires p > 0 && Iterate(f, c, a) == Iterate(f, c, a + p)
    requires a <= m
    ensures Iterate(f, c, m) == Iterate(f, c, a + (m - a) % p)
  {
    if m > a {
      IteratePeriodic(f, c, a, p, m - 1);
      ModStep(m - 1 - a, p);
    }
  }

  /** The index of the load `part_two` reports, as written: the index of
      the first sighting plus `(loops - index) % (i - index)`, minus one. */
  function AsWrittenEnd(index: int, i: int): (e: int)
    requires 0 <= index < i
    ensures index - 1 <= e < i - 1
  {
    index + (Loops - index) % (i - index) - 1
  }

  /** The same pick with the remainder taken one cycle later, which is
      never before the first sighting. */
  function IntendedEnd(index: int, i: int): (e: int)
    requires 0 <= index < i < Loops
    ensures index <= e < i
  {
    index + (Loops - 1 - index) % (i - index)
  }

  /** The load at `IntendedEnd` is the load after a billion cycles: in the
      loop the platform after cycle `i + 1` is the one after cycle
      `index + 1`, and `scores[k]` is the load after cycle `k + 1`. */
  lemma IntendedEndCorrect(c: Cells, w: int, h: int, index: int, i: int)
    requires 0 <= index < i < Loops && SpinN(c, w, h, index + 1) == SpinN(c, w, h, i + 1)
    ensures SpinN(c, w, h, IntendedEnd(index, i) + 1) == SpinN(c, w, h, Loops)
  {
    IteratePeriodic(SpinOf(w, h), c, index + 1, i - index, Loops);
  }

  /** The as-written pick agrees with the intended one whenever the
      remainder `(loops - index) % (i - index)` is not 0. */
  lemma AsWrittenEndWhenNonZero(c: Cells, w: int, h: int, index: int, i: int)
    requires 0 <= index < i < Loops && SpinN(c, w, h, index + 1) == SpinN(c, w, h, i + 1)
    requires (Loops - index) % (i - index) != 0
    ensures AsWrittenEnd(index, i) == IntendedEnd(index, i)
    ensures SpinN(c, w, h, AsWrittenEnd(index, i) + 1) == SpinN(c, w, h, Loops)
  {
    ModStep(Loops - 1 - index, i - index);
    IntendedEndCorrect(c, w, h, index, i);
  }

  /** When the remainder is 0 the as-written pick is one full period too
      early: it names the platform after cycle `index`, not after cycle
      `index + (i - index)`; with `index == 0` it is `-1`. */
  lemma AsWrittenEndWhenZero(index: int, i: int)
    requires 0 <= index < i < Loops && (Loops - index) % (i - index) == 0
    ensures AsWrittenEnd(index, i) == index - 1
    ensures IntendedEnd(index, i) == i - 1
  {
    ModStep(Loops - 1 - index, i - index);
  }
}
