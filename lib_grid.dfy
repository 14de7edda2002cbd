/** The shared helpers of the puzzle library (src/lib.rs): an integer `Point`
    with component-wise addition, and a `Grid` of rows with bounds-checked
    access. */
module SharedGrid {
  import opened Common

  datatype Point = Point(x: int, y: int)

  /** `impl Add for Point`. */
  function Add(p: Point, q: Point): Point
  {
    Point(p.x + q.x, p.y + q.y)
  }

  /** `impl AddAssign for Point`: the two fields are bumped one after the
      other, in place; the point that results is the sum. */
  method AddAssign(p: Point, rhs: Point) returns (p': Point)
    ensures p' == Add(p, rhs)
    ensures Add(p', Point(-rhs.x, -rhs.y)) == p
  {
    p' := p;
    p' := p'.(x := p'.x + rhs.x);
    p' := p'.(y := p'.y + rhs.y);
  }

  /** Addition of points is a commutative monoid with the origin as unit, so
      a walk's end point does not depend on how its steps are grouped. */
  lemma AddLaws(p: Point, q: Point, r: Point)
    ensures Add(p, q) == Add(q, p)
    ensures Add(Add(p, q), r) == Add(p, Add(q, r))
    ensures Add(p, Point(0, 0)) == p
  {
  }

  /** `Grid<T>`: the rows, the width and the height the constructor was given. */
  datatype Grid<T> = Grid(cells: seq<seq<T>>, width: int, height: int) {

    /** `height` rows, none shorter than `width`: exactly when `get` and
        `get_mut` never index past the end of a row. */
    predicate Valid()
    {
      height == |cells| && forall y | 0 <= y < |cells| :: |cells[y]| >= width
    }

    /** Every row exactly `width` long, as `vec_vec_grid_with_type` builds. */
    predicate Rectangular()
    {
      height == |cells| && forall y | 0 <= y < |cells| :: |cells[y]| == width
    }

    predicate InBounds(p: Point)
    {
      0 <= p.x < width && 0 <= p.y < height
    }

    /** `Grid::get` (and the bounds test of `Grid::get_mut`). */
    function Get(p: Point): (r: Option<T>)
      requires Valid()
      ensures r.Some? <==> InBounds(p)
      ensures r.Some? ==> r.value == cells[p.y][p.x]
    {
      if 0 <= p.x < width && 0 <= p.y < height then Some(cells[p.y][p.x]) else None
    }

    /** Writing `v` through the reference `Grid::get_mut` hands out; when it
        hands out none (the point is outside) nothing is written. */
    function Set(p: Point, v: T): (g: Grid<T>)
      requires Valid()
      ensures g.Valid() && g.width == width && g.height == height
      ensures Rectangular() ==> g.Rectangular()
      ensures forall q :: g.Get(q) == (if q == p && InBounds(p) then Some(v) else Get(q))
    {
      if InBounds(p) then Grid(cells[p.y := cells[p.y][p.x := v]], width, height) else this
    }
  }

  /** `parse_to_vec_vec_grid`: one row per line of the trimmed input. */
  function ParseToGrid<T>(input: string, f: char -> T): Result<Grid<T>>
  {
    GridOfLines(Lines(Trim(input)), f)
  }

  /** The grid `parse_to_vec_vec_grid` builds from its lines: each character
      mapped by `f`, the width the first line's length and the height the
      number of lines. With no line at all, `grid[0]` panics. */
  function GridOfLines<T>(ls: seq<string>, f: char -> T): (r: Result<Grid<T>>)
    ensures r.Ok? <==> |ls| > 0
    ensures r.Ok? ==>
      && r.value.height == |ls| == |r.value.cells|
      && r.value.width == |ls[0]|
      && forall y | 0 <= y < |ls| ::
           |r.value.cells[y]| == |ls[y]| && forall x | 0 <= x < |ls[y]| :: r.value.cells[y][x] == f(ls[y][x])
  {
    if |ls| == 0 then Panic("index out of bounds: no first line")
    else
      var cells := seq(|ls|, y requires 0 <= y < |ls| => seq(|ls[y]|, x requires 0 <= x < |ls[y]| => f(ls[y][x])));
      Ok(Grid(cells, |ls[0]|, |ls|))
  }

  /** The grid is safe to read exactly when no line is shorter than the
      first. */
  lemma GridOfLinesValid<T>(ls: seq<string>, f: char -> T)
    requires |ls| > 0
    ensures GridOfLines(ls, f).value.Valid() <==> forall y | 0 <= y < |ls| :: |ls[y]| >= |ls[0]|
  {
  }

  /** `vec_vec_grid_with_type`: `height` rows of `width` default values. */
  function GridWithDefault<T>(width: nat, height: nat, d: T): (g: Grid<T>)
    ensures g.Valid() && g.Rectangular() && g.width == width && g.height == height
    ensures forall p | g.InBounds(p) :: g.Get(p) == Some(d)
  {
    Grid(seq(height, _ => seq(width, _ => d)), width, height)
  }
}
