/** The lava contraption (src/bin/16.rs): a beam enters a grid of mirrors and
    splitters, and `calculate_score` traces it with a queue of rays and a
    grid of the directions each cell has already been entered in. The model
    proves the trace visits exactly the (cell, direction) pairs the beam can
    reach, so the score is the number of cells some beam passes through. */
module Day16 {
  import opened Common
  import opened SharedGrid

  // ---------------------------------------------------------------------
  // Directions, rays and objects

  datatype Direction = Up | Down | Left | Right

  const AllDirections: set<Direction> := {Up, Down, Left, Right}

  /** `Direction::dir`: the unit step of each direction (y grows downward). */
  function Dir(d: Direction): (p: Point)
    ensures (if p.x < 0 then -p.x else p.x) + (if p.y < 0 then -p.y else p.y) == 1
    ensures d.Up? || d.Down? <==> p.x == 0
  {
    match d
    case Up => Point(0, -1)
    case Down => Point(0, 1)
    case Left => Point(-1, 0)
    case Right => Point(1, 0)
  }

  /** Distinct directions step differently; opposite directions cancel. */
  lemma DirInjective(d: Direction, e: Direction)
    ensures Dir(d) == Dir(e) <==> d == e
    ensures Add(Dir(Up), Dir(Down)) == Point(0, 0) && Add(Dir(Left), Dir(Right)) == Point(0, 0)
  {
  }

  datatype Ray = Ray(position: Point, direction: Direction)

  /** `Ray::step`: the ray one cell further along its direction. */
  function Stepped(r: Ray): (s: Ray)
    ensures s.direction == r.direction
    ensures Add(s.position, Dir(Opposite(r.direction))) == r.position
  {
    Ray(Add(r.position, Dir(r.direction)), r.direction)
  }

  function Opposite(d: Direction): Direction
  {
    match d
    case Up => Down
    case Down => Up
    case Left => Right
    case Right => Left
  }

  datatype Object = Empty | HSplitter | VSplitter | FMirror | BMirror

  /** `char_to_object`; any other character panics. */
  function CharToObject(c: char): (r: Result<Object>)
    ensures r.Ok? <==> c in "|-/\\."
    ensures r.Ok? ==> ObjectChar(r.value) == c
  {
    match c
    case '|' => Ok(VSplitter)
    case '-' => Ok(HSplitter)
    case '/' => Ok(FMirror)
    case '\\' => Ok(BMirror)
    case '.' => Ok(Empty)
    case _ => Panic("unknown object")
  }

  function ObjectChar(o: Object): char
  {
    match o
    case VSplitter => '|'
    case HSplitter => '-'
    case FMirror => '/'
    case BMirror => '\\'
    case Empty => '.'
  }

  /** Every object is read back from its own character. */
  lemma ObjectRoundTrip(o: Object)
    ensures CharToObject(ObjectChar(o)) == Ok(o)
  {
  }

  /** `/` turns Up to Right and Down to Left, and back. */
  function Slash(d: Direction): Direction
  {
    match d
    case Up => Right
    case Down => Left
    case Left => Down
    case Right => Up
  }

  /** `\` turns Up to Left and Down to Right, and back. */
  function Backslash(d: Direction): Direction
  {
    match d
    case Up => Left
    case Down => Right
    case Left => Up
    case Right => Down
  }

  /** Each mirror undoes itself and turns a beam through a right angle. */
  lemma MirrorsInvolutions(d: Direction)
    ensures Slash(Slash(d)) == d && Backslash(Backslash(d)) == d
    ensures (d.Up? || d.Down?) <==> (Slash(d).Left? || Slash(d).Right?)
    ensures (d.Up? || d.Down?) <==> (Backslash(d).Left? || Backslash(d).Right?)
  {
  }

  /** The directions a beam leaves a cell in, having entered it heading `d`:
      a splitter met across its axis gives two, everything else one. */
  function Out(o: Object, d: Direction): (ds: seq<Direction>)
    ensures 1 <= |ds| <= 2
    ensures |ds| == 2 <==> (o.HSplitter? && (d.Up? || d.Down?)) || (o.VSplitter? && (d.Left? || d.Right?))
    ensures o.Empty? ==> ds == [d]
  {
    match (o, d)
    case (Empty, _) => [d]
    case (HSplitter, Up) => [Left, Right]
    case (HSplitter, Down) => [Left, Right]
    case (VSplitter, Left) => [Up, Down]
    case (VSplitter, Right) => [Up, Down]
    case (HSplitter, _) => [d]
    case (VSplitter, _) => [d]
    case (FMirror, _) => [Slash(d)]
    case (BMirror, _) => [Backslash(d)]
  }

  // ---------------------------------------------------------------------
  // The beam relation and what it reaches

  /** The rays a beam standing on `s` continues as, one per way out. */
  function Outs(g: Grid<Object>, s: Ray): (rs: seq<Ray>)
    requires g.Valid() && g.InBounds(s.position)
    ensures |rs| == |Out(g.cells[s.position.y][s.position.x], s.direction)|
    ensures forall i | 0 <= i < |rs| :: rs[i].position == s.position
  {
    var ds := Out(g.cells[s.position.y][s.position.x], s.direction);
    if |ds| == 1 then [Ray(s.position, ds[0])] else [Ray(s.position, ds[0]), Ray(s.position, ds[1])]
  }

  /** `t` is where one of `rays` lands after its next step. */
  predicate InNexts(rays: seq<Ray>, t: Ray)
  {
    exists i | 0 <= i < |rays| :: Stepped(rays[i]) == t
  }

  /** The beam standing on `s` next stands on `t`, inside the grid. */
  predicate Succ(g: Grid<Object>, s: Ray, t: Ray)
  {
    g.Valid() && g.InBounds(s.position) && g.InBounds(t.position) && InNexts(Outs(g, s), t)
  }

  ghost predicate IsPath(g: Grid<Object>, path: seq<Ray>)
  {
    && |path| > 0
    && (forall i | 0 <= i < |path| :: g.InBounds(path[i].position))
    && forall i | 0 <= i < |path| - 1 :: Succ(g, path[i], path[i + 1])
  }

  /** A beam let in as `start` (from just outside the grid) can stand on `r`. */
  ghost predicate Reachable(g: Grid<Object>, start: Ray, r: Ray)
  {
    exists path | IsPath(g, path) :: path[0] == Stepped(start) && path[|path| - 1] == r
  }

  lemma ReachableStep(g: Grid<Object>, start: Ray, s: Ray, t: Ray)
    requires Reachable(g, start, s) && Succ(g, s, t)
    ensures Reachable(g, start, t)
  {
    var path :| IsPath(g, path) && path[0] == Stepped(start) && path[|path| - 1] == s;
    var longer := path + [t];
    forall i | 0 <= i < |longer| - 1
      ensures Succ(g, longer[i], longer[i + 1])
    {
      if i < |path| - 1 {
        assert longer[i] == path[i] && longer[i + 1] == path[i + 1];
      } else {
        assert longer[i] == s && longer[i + 1] == t;
      }
    }
    assert forall i | 0 <= i < |longer| :: g.InBounds(longer[i].position) by {
      forall i | 0 <= i < |longer| ensures g.InBounds(longer[i].position) {
        if i < |path| {
          assert longer[i] == path[i];
        }
      }
    }
    assert longer[0] == path[0] && longer[|longer| - 1] == t;
    assert IsPath(g, longer);
  }

  lemma EveryDirection(d: Direction)
    ensures d in AllDirections
  {
  }

  /** The number of cells of `cells` entered in some direction: the
      `filter(|hm| !hm.is_empty()).count()` of `calculate_score`. */
  function CountNonEmpty(cells: seq<seq<set<Direction>>>): (n: nat)
  {
    if cells == [] then 0 else CountNonEmpty(cells[..|cells| - 1]) + RowNonEmpty(cells[|cells| - 1])
  }

  function RowNonEmpty(row: seq<set<Direction>>): (n: nat)
    ensures n <= |row|
  {
    if row == [] then 0 else RowNonEmpty(row[..|row| - 1]) + (if row[|row| - 1] != {} then 1 else 0)
  }

  /** Cell (x, y) is energised: the beam can stand on it in some direction. */
  ghost predicate Lit(g: Grid<Object>, start: Ray, x: int, y: int)
  {
    exists d | d in AllDirections :: Reachable(g, start, Ray(Point(x, y), d))
  }

  /** `Lit` of one beam, as a predicate on positions. */
  ghost function LitOf(g: Grid<Object>, start: Ray): (int, int) -> bool
  {
    (x, y) => Lit(g, start, x, y)
  }

  /** The cells among the first `k` of row `y` that `lit` holds of. */
  function RowCount(lit: (int, int) -> bool, y: int, k: int): (n: nat)
    ensures n <= if k < 0 then 0 else k
    decreases k
  {
    if k <= 0 then 0 else RowCount(lit, y, k - 1) + (if lit(k - 1, y) then 1 else 0)
  }

  /** The cells among the first `k` rows, each `w` wide, that `lit` holds of. */
  function CellCount(lit: (int, int) -> bool, w: int, k: int): nat
    decreases k
  {
    if k <= 0 then 0 else CellCount(lit, w, k - 1) + RowCount(lit, k - 1, w)
  }

  /** The number of energised cells of a beam let in as `start`. */
  ghost function Energized(g: Grid<Object>, start: Ray): nat
  {
    CellCount(LitOf(g, start), g.width, g.height)
  }

  lemma {:induction false} CellCountBound(lit: (int, int) -> bool, w: nat, k: nat)
    ensures CellCount(lit, w, k) <= w * k
  {
    if k > 0 {
      CellCountBound(lit, w, k - 1);
      assert w * k == w * (k - 1) + w;
    }
  }

  /** No more cells are energised than the contraption has. */
  lemma EnergizedBound(g: Grid<Object>, start: Ray)
    requires g.width >= 0 && g.height >= 0
    ensures Energized(g, start) <= g.width * g.height
  {
    CellCountBound(LitOf(g, start), g.width, g.height);
  }

  /** A grid of direction sets whose non-empty cells are those `lit` holds
      of counts them. */
  lemma {:induction false} CountAgrees(lit: (int, int) -> bool, v: Grid<set<Direction>>, k: nat)
    requires v.Rectangular() && v.width >= 0 && k <= v.height
    requires forall y, x | 0 <= y < v.height && 0 <= x < v.width :: v.cells[y][x] != {} <==> lit(x, y)
    ensures CountNonEmpty(v.cells[..k]) == CellCount(lit, v.width, k)
  {
    if k > 0 {
      var row := v.cells[k - 1];
      assert v.cells[..k][..k - 1] == v.cells[..k - 1] && v.cells[..k][k - 1] == row;
      CountAgrees(lit, v, k - 1);
      RowAgrees(lit, row, k - 1, v.width);
      assert row[..v.width] == row;
    }
  }

  lemma {:induction false} RowAgrees(lit: (int, int) -> bool, row: seq<set<Direction>>, y: int, k: nat)
    requires k <= |row|
    requires forall x | 0 <= x < |row| :: row[x] != {} <==> lit(x, y)
    ensures RowNonEmpty(row[..k]) == RowCount(lit, y, k)
  {
    if k > 0 {
      assert row[..k][..k - 1] == row[..k - 1];
      RowAgrees(lit, row, y, k - 1);
    }
  }

  // ---------------------------------------------------------------------
  // The state of the trace

  /** `visited` has `r`'s direction at `r`'s cell. */
  predicate Has(v: Grid<set<Direction>>, r: Ray)
  {
    v.Valid() && v.InBounds(r.position) && r.direction in v.cells[r.position.y][r.position.x]
  }

  /** `t` is already visited or is where a pending ray lands next. */
  predicate Covered(v: Grid<set<Direction>>, rays: seq<Ray>, cur: seq<Ray>, t: Ray)
  {
    Has(v, t) || InNexts(rays, t) || InNexts(cur, t)
  }

  /** What the trace keeps, with `rays` the queue and `cur` the ray being
      followed (if any): the visited grid has the shape of the contraption;
      everything visited, and every in-grid landing of a pending ray, is
      reachable; the first landing is covered; and every successor of a
      visited pair is covered. */
  ghost predicate Inv(g: Grid<Object>, start: Ray, v: Grid<set<Direction>>, rays: seq<Ray>, cur: seq<Ray>)
  {
    && g.Valid() && g.width >= 0 && v.Valid() && v.Rectangular() && v.width == g.width && v.height == g.height
    && Sound(g, start, v) && PendingSound(g, start, rays) && PendingSound(g, start, cur)
    && Closed(g, start, v, rays, cur)
  }

  ghost predicate Sound(g: Grid<Object>, start: Ray, v: Grid<set<Direction>>)
  {
    forall r | Has(v, r) :: Reachable(g, start, r)
  }

  ghost predicate PendingSound(g: Grid<Object>, start: Ray, rays: seq<Ray>)
  {
    forall i | 0 <= i < |rays| && g.InBounds(Stepped(rays[i]).position) :: Reachable(g, start, Stepped(rays[i]))
  }

  ghost predicate Closed(g: Grid<Object>, start: Ray, v: Grid<set<Direction>>, rays: seq<Ray>, cur: seq<Ray>)
  {
    && (g.InBounds(Stepped(start).position) ==> Covered(v, rays, cur, Stepped(start)))
    && forall s, t | Has(v, s) && Succ(g, s, t) :: Covered(v, rays, cur, t)
  }

  /** The pairs visited, as a set. */
  ghost function Seen(v: Grid<set<Direction>>): set<Ray>
    requires v.Valid()
  {
    set x, y, d | 0 <= y < v.height && 0 <= x < v.width && d in AllDirections && d in v.cells[y][x] :: Ray(Point(x, y), d)
  }

  ghost function AllRays(w: int, h: int): set<Ray>
  {
    set x, y, d | 0 <= y < h && 0 <= x < w && d in AllDirections :: Ray(Point(x, y), d)
  }

  lemma SeenHas(v: Grid<set<Direction>>)
    requires v.Valid()
    ensures forall r :: r in Seen(v) <==> Has(v, r)
    ensures Seen(v) <= AllRays(v.width, v.height)
  {
    forall r | Has(v, r)
      ensures r in Seen(v)
    {
      EveryDirection(r.direction);
      assert r == Ray(Point(r.position.x, r.position.y), r.direction);
    }
  }

  /** What inserting `n` into the visited grid does. */
  lemma Inserted(v: Grid<set<Direction>>, n: Ray, v': Grid<set<Direction>>)
    requires v.Valid() && v.Rectangular() && v.InBounds(n.position) && !Has(v, n)
    requires v' == v.Set(n.position, v.cells[n.position.y][n.position.x] + {n.direction})
    ensures v'.Valid() && v'.Rectangular() && v'.width == v.width && v'.height == v.height
    ensures forall r :: Has(v', r) <==> Has(v, r) || r == n
    ensures |AllRays(v.width, v.height) - Seen(v')| < |AllRays(v.width, v.height) - Seen(v)|
  {
    forall r
      ensures Has(v', r) <==> Has(v, r) || r == n
    {
      if v.InBounds(r.position) {
        assert v'.Get(r.position) == (if r.position == n.position then Some(v.cells[n.position.y][n.position.x] + {n.direction}) else v.Get(r.position));
      }
    }
    SeenHas(v);
    SeenHas(v');
    var all := AllRays(v.width, v.height);
    assert Seen(v') == Seen(v) + {n};
    assert n in all by {
      assert n == Ray(Point(n.position.x, n.position.y), n.direction);
    }
    assert all - Seen(v) == (all - Seen(v')) + {n};
  }

  /** A pending landing stays covered when the ray being followed enters
      its next cell. */
  lemma CoverMoves(v: Grid<set<Direction>>, v': Grid<set<Direction>>, rays: seq<Ray>, ray: Ray, outs: seq<Ray>, t: Ray)
    requires Covered(v, rays, [ray], t)
    requires forall r :: Has(v, r) ==> Has(v', r)
    requires Has(v', Stepped(ray))
    ensures Covered(v', rays, outs, t)
  {
  }

  /** The followed ray enters a new cell: it becomes visited, and the ways
      out become the rays being followed. */
  lemma Enter(g: Grid<Object>, start: Ray, v: Grid<set<Direction>>, rays: seq<Ray>, ray: Ray, v': Grid<set<Direction>>)
    requires Inv(g, start, v, rays, [ray])
    requires g.InBounds(Stepped(ray).position) && !Has(v, Stepped(ray))
    requires v' == v.Set(Stepped(ray).position, v.cells[Stepped(ray).position.y][Stepped(ray).position.x] + {ray.direction})
    ensures Inv(g, start, v', rays, Outs(g, Stepped(ray)))
    ensures |AllRays(g.width, g.height) - Seen(v')| < |AllRays(g.width, g.height) - Seen(v)|
  {
    Inserted(v, Stepped(ray), v');
    EnterSound(g, start, v, ray, v');
    EnterClosed(g, start, v, rays, ray, v');
  }

  lemma EnterSound(g: Grid<Object>, start: Ray, v: Grid<set<Direction>>, ray: Ray, v': Grid<set<Direction>>)
    requires g.Valid() && g.InBounds(Stepped(ray).position)
    requires Sound(g, start, v) && PendingSound(g, start, [ray])
    requires forall r :: Has(v', r) <==> Has(v, r) || r == Stepped(ray)
    ensures Sound(g, start, v') && PendingSound(g, start, Outs(g, Stepped(ray)))
  {
    var n := Stepped(ray);
    var outs := Outs(g, n);
    assert Reachable(g, start, n) by {
      assert Stepped([ray][0]) == n;
    }
    forall i | 0 <= i < |outs| && g.InBounds(Stepped(outs[i]).position)
      ensures Reachable(g, start, Stepped(outs[i]))
    {
      assert Succ(g, n, Stepped(outs[i]));
      ReachableStep(g, start, n, Stepped(outs[i]));
    }
  }

  lemma EnterClosed(g: Grid<Object>, start: Ray, v: Grid<set<Direction>>, rays: seq<Ray>, ray: Ray, v': Grid<set<Direction>>)
    requires g.Valid() && g.InBounds(Stepped(ray).position)
    requires Closed(g, start, v, rays, [ray])
    requires forall r :: Has(v', r) <==> Has(v, r) || r == Stepped(ray)
    ensures Closed(g, start, v', rays, Outs(g, Stepped(ray)))
  {
    var n := Stepped(ray);
    var outs := Outs(g, n);
    if g.InBounds(Stepped(start).position) {
      CoverMoves(v, v', rays, ray, outs, Stepped(start));
    }
    forall s, t | Has(v', s) && Succ(g, s, t)
      ensures Covered(v', rays, outs, t)
    {
      if s != n {
        CoverMoves(v, v', rays, ray, outs, t);
      }
    }
  }

  /** The followed ray leaves the grid or meets a visited pair: it is
      dropped. */
  lemma Drop(g: Grid<Object>, start: Ray, v: Grid<set<Direction>>, rays: seq<Ray>, ray: Ray)
    requires Inv(g, start, v, rays, [ray])
    requires !g.InBounds(Stepped(ray).position) || Has(v, Stepped(ray))
    ensures Inv(g, start, v, rays, [])
  {
    forall t | Covered(v, rays, [ray], t) && g.InBounds(t.position)
      ensures Covered(v, rays, [], t)
    {
      if InNexts([ray], t) {
        assert Stepped(ray) == t;
      }
    }
  }

  /** Rays being followed go to the back of the queue. */
  lemma Flush(g: Grid<Object>, start: Ray, v: Grid<set<Direction>>, rays: seq<Ray>, outs: seq<Ray>)
    requires Inv(g, start, v, rays, outs)
    ensures Inv(g, start, v, rays + outs, [])
  {
    var all := rays + outs;
    forall t | Covered(v, rays, outs, t)
      ensures Covered(v, all, [], t)
    {
      if InNexts(rays, t) {
        var i :| 0 <= i < |rays| && Stepped(rays[i]) == t;
        assert all[i] == rays[i];
      } else if InNexts(outs, t) {
        var i :| 0 <= i < |outs| && Stepped(outs[i]) == t;
        assert all[|rays| + i] == outs[i];
      }
    }
    forall i | 0 <= i < |all| && g.InBounds(Stepped(all[i]).position)
      ensures Reachable(g, start, Stepped(all[i]))
    {
      if i >= |rays| {
        assert all[i] == outs[i - |rays|];
      }
    }
  }

  /** The front of the queue becomes the ray being followed. */
  lemma Pop(g: Grid<Object>, start: Ray, v: Grid<set<Direction>>, rays: seq<Ray>)
    requires Inv(g, start, v, rays, []) && |rays| > 0
    ensures Inv(g, start, v, rays[1..], [rays[0]])
  {
    forall t | Covered(v, rays, [], t)
      ensures Covered(v, rays[1..], [rays[0]], t)
    {
      if InNexts(rays, t) {
        var i :| 0 <= i < |rays| && Stepped(rays[i]) == t;
        if i > 0 {
          assert rays[1..][i - 1] == rays[i];
        } else {
          assert [rays[0]][0] == rays[0];
        }
      }
    }
    forall i | 0 <= i < |rays[1..]| && g.InBounds(Stepped(rays[1..][i]).position)
      ensures Reachable(g, start, Stepped(rays[1..][i]))
    {
      assert rays[1..][i] == rays[i + 1];
    }
  }

  /** With nothing pending, the visited pairs are closed under the beam
      relation and contain the first landing, so every reachable pair is
      visited. */
  lemma {:induction false} Complete(g: Grid<Object>, start: Ray, v: Grid<set<Direction>>, path: seq<Ray>)
    requires Inv(g, start, v, [], [])
    requires IsPath(g, path) && path[0] == Stepped(start)
    ensures Has(v, path[|path| - 1])
    decreases |path|
  {
    if |path| > 1 {
      var front := path[..|path| - 1];
      assert IsPath(g, front);
      Complete(g, start, v, front);
      assert Succ(g, path[|path| - 2], path[|path| - 1]);
    }
  }

  /** At the end of the trace a cell has been entered exactly when it is
      energised, so the count of entered cells is the energised count. */
  lemma Finished(g: Grid<Object>, start: Ray, v: Grid<set<Direction>>)
    requires Inv(g, start, v, [], [])
    ensures CountNonEmpty(v.cells) == Energized(g, start)
  {
    var lit := LitOf(g, start);
    forall y, x | 0 <= y < v.height && 0 <= x < v.width
      ensures v.cells[y][x] != {} <==> lit(x, y)
    {
      if v.cells[y][x] != {} {
        var d :| d in v.cells[y][x];
        EveryDirection(d);
        assert Has(v, Ray(Point(x, y), d));
      }
      if Lit(g, start, x, y) {
        var d :| d in AllDirections && Reachable(g, start, Ray(Point(x, y), d));
        var path :| IsPath(g, path) && path[0] == Stepped(start) && path[|path| - 1] == Ray(Point(x, y), d);
        Complete(g, start, v, path);
      }
    }
    CountAgrees(lit, v, v.height);
    assert v.cells[..v.height] == v.cells;
  }

  // ---------------------------------------------------------------------
  // The trace

  /** Before the trace: nothing visited, the start ray queued. */
  lemma Initial(g: Grid<Object>, start: Ray)
    requires g.Valid() && g.width >= 0
    ensures Inv(g, start, GridWithDefault(g.width, g.height, {}), [start], [])
  {
    var v: Grid<set<Direction>> := GridWithDefault(g.width, g.height, {});
    forall r: Ray | v.InBounds(r.position)
      ensures !Has(v, r)
    {
      assert v.Get(r.position) == Some({});
    }
    var first := Stepped(start);
    if g.InBounds(first.position) {
      assert IsPath(g, [first]);
      assert Stepped([start][0]) == first;
    }
  }

  /** The number of (cell, direction) pairs not yet visited. */
  ghost function Unseen(v: Grid<set<Direction>>): nat
    requires v.Valid()
  {
    |AllRays(v.width, v.height) - Seen(v)|
  }

  /** The `match` of `calculate_score` on the object entered and the
      heading: a splitter met across its axis yields the two rays to queue,
      anything else the one ray to keep following. */
  method Deflect(o: Object, position: Point, d: Direction) returns (split: seq<Ray>, ray: Ray)
    ensures var ds := Out(o, d);
      if |ds| == 2 then split == [Ray(position, ds[0]), Ray(position, ds[1])]
      else split == [] && ray == Ray(position, ds[0])
  {
    split, ray := [], Ray(position, d);
    match (o, d)
    case (HSplitter, Up) | (HSplitter, Down) =>
      split := [Ray(position, Left), Ray(position, Right)];
    case (VSplitter, Left) | (VSplitter, Right) =>
      split := [Ray(position, Up), Ray(position, Down)];
    case (Empty, _) | (HSplitter, _) | (VSplitter, _) =>
    case (FMirror, _) =>
      ray := Ray(position, Slash(d));
    case (BMirror, _) =>
      ray := Ray(position, Backslash(d));
  }

  /** What `Deflect` yields are the ways out of the entered cell: the one
      ray keeps being followed, or the two are queued. */
  lemma Deflected(g: Grid<Object>, start: Ray, v: Grid<set<Direction>>, rays: seq<Ray>, n: Ray, split: seq<Ray>, ray: Ray)
    requires g.Valid() && g.InBounds(n.position) && Inv(g, start, v, rays, Outs(g, n))
    requires var ds := Out(g.cells[n.position.y][n.position.x], n.direction);
      if |ds| == 2 then split == [Ray(n.position, ds[0]), Ray(n.position, ds[1])]
      else split == [] && ray == Ray(n.position, ds[0])
    ensures split == [] ==> Inv(g, start, v, rays, [ray])
    ensures split != [] ==> Inv(g, start, v, rays + split, [])
  {
    assert Outs(g, n) == if split == [] then [ray] else split;
    if split != [] {
      Flush(g, start, v, rays, split);
    }
  }

  /** The inner `loop` of `calculate_score`: follow one ray, step by step,
      until it leaves the grid, repeats a visited pair or is split. Either
      it entered a new cell, or nothing changed. */
  method TraceRay(grid: Grid<Object>, ghost start: Ray, visited0: Grid<set<Direction>>, rays0: seq<Ray>, ray0: Ray)
    returns (visited: Grid<set<Direction>>, rays: seq<Ray>)
    requires Inv(grid, start, visited0, rays0, [ray0])
    ensures Inv(grid, start, visited, rays, [])
    ensures Unseen(visited) < Unseen(visited0) || (visited == visited0 && rays == rays0)
  {
    visited, rays := visited0, rays0;
    var ray := ray0;
    while true
      invariant Inv(grid, start, visited, rays, [ray])
      invariant Unseen(visited) < Unseen(visited0) || (visited == visited0 && rays == rays0)
      decreases Unseen(visited)
    {
      var next := Stepped(ray);
      var position := AddAssign(ray.position, Dir(ray.direction));
      if !grid.InBounds(position) {
        Drop(grid, start, visited, rays, ray);
        return;
      }
      var v := visited.Get(position).value;
      if ray.direction in v {
        Drop(grid, start, visited, rays, ray);
        return;
      }
      var visited' := visited.Set(position, v + {ray.direction});
      Enter(grid, start, visited, rays, ray, visited');
      visited := visited';
      var split;
      split, ray := Deflect(grid.Get(position).value, position, ray.direction);
      Deflected(grid, start, visited, rays, next, split, ray);
      if split != [] {
        rays := rays + split;
        return;
      }
    }
  }

  /** `calculate_score`: trace every ray from the queue; the score is the
      number of cells entered, which is the number of cells the beam can
      reach. */
  method CalculateScore(startRay: Ray, grid: Grid<Object>) returns (score: nat)
    requires grid.Valid() && grid.width >= 0
    ensures score == Energized(grid, startRay)
    ensures score <= grid.width * grid.height
  {
    var visited: Grid<set<Direction>> := GridWithDefault(grid.width, grid.height, {});
    var rays := [startRay];
    Initial(grid, startRay);
    while |rays| > 0
      invariant Inv(grid, startRay, visited, rays, [])
      decreases Unseen(visited), |rays|
    {
      var ray := rays[0];
      Pop(grid, startRay, visited, rays);
      visited, rays := TraceRay(grid, startRay, visited, rays[1..], ray);
    }
    Finished(grid, startRay, visited);
    score := CountNonEmpty(visited.cells);
    EnergizedBound(grid, startRay);
  }

  // ---------------------------------------------------------------------
  // Parsing and the two parts

  /** The contraption of the trimmed input's lines. */
  function ParseContraption(input: string): Result<Grid<Object>>
  {
    Contraption(Lines(Trim(input)))
  }

  /** `parse_to_vec_vec_grid(input, char_to_object)`, or a panic: no line at
      all, or an unknown character. A line shorter than the first is
      reported as a panic up front. */
  function Contraption(ls: seq<string>): (r: Result<Grid<Object>>)
    ensures r.Ok? <==> |ls| > 0 && Known(ls)
    ensures r.Ok? ==> r.value.Valid() && r.value.height == |ls| && r.value.width == |ls[0]|
    ensures r.Ok? ==> forall y, x | 0 <= y < |ls| && 0 <= x < |ls[0]| :: CharToObject(ls[y][x]) == Ok(r.value.cells[y][x])
  {
    if |ls| == 0 then Panic("index out of bounds: no first line")
    else if !Known(ls) then Panic("unknown object")
    else
      GridOfLinesValid(ls, ObjectOf);
      GridOfLines(ls, ObjectOf)
  }

  /** Every character is an object and no line is shorter than the first. */
  predicate Known(ls: seq<string>)
    requires |ls| > 0
  {
    forall y | 0 <= y < |ls| :: |ls[y]| >= |ls[0]| && forall x | 0 <= x < |ls[y]| :: CharToObject(ls[y][x]).Ok?
  }

  function ObjectOf(c: char): Object
  {
    match CharToObject(c)
    case Ok(o) => o
    case Panic(_) => Empty
  }

  /** `part_one`: the beam enters at the top-left corner heading right. */
  method PartOne(input: string) returns (r: Result<int>)
    ensures r.Ok? <==> ParseContraption(input).Ok?
    ensures r.Ok? ==> r.value == Energized(ParseContraption(input).value, Ray(Point(-1, 0), Right))
  {
    var grid :- ParseContraption(input);
    var sum := CalculateScore(Ray(Point(-1, 0), Right), grid);
    return Ok(sum);
  }

  /** The ways in of part two: up into each column from below, down into
      each column from above, right into each row from the left and left
      into each row from the right, each from just outside the grid. */
  function Ups(w: nat, h: nat): seq<Ray> { seq(w, x => Ray(Point(x, h), Up)) }
  function Downs(w: nat): seq<Ray> { seq(w, x => Ray(Point(x, -1), Down)) }
  function Rights(h: nat): seq<Ray> { seq(h, y => Ray(Point(-1, y), Right)) }
  function Lefts(w: nat, h: nat): seq<Ray> { seq(h, y => Ray(Point(w, y), Left)) }

  function EdgeStarts(w: nat, h: nat): (starts: seq<Ray>)
    ensures |starts| == 2 * w + 2 * h
    ensures forall i | 0 <= i < |starts| ::
      var p := starts[i].position;
      (p.x == -1 || p.x == w || p.y == -1 || p.y == h) && -1 <= p.x <= w && -1 <= p.y <= h
  {
    (Ups(w, h) + Downs(w)) + (Rights(h) + Lefts(w, h))
  }

  /** `m` is the largest score over `starts`, and one of them scores it. */
  ghost predicate IsMax(g: Grid<Object>, starts: seq<Ray>, m: int)
    requires g.Valid() && g.width >= 0
  {
    && (forall i | 0 <= i < |starts| :: Energized(g, starts[i]) <= m)
    && (exists i | 0 <= i < |starts| :: Energized(g, starts[i]) == m)
  }

  lemma PairedMax(g: Grid<Object>, a: seq<Ray>, b: seq<Ray>, m: int)
    requires g.Valid() && g.width >= 0 && |a| == |b| > 0
    requires forall i | 0 <= i < |a| :: Energized(g, a[i]) <= m && Energized(g, b[i]) <= m
    requires exists i | 0 <= i < |a| :: Energized(g, a[i]) == m || Energized(g, b[i]) == m
    ensures IsMax(g, a + b, m)
  {
    var i :| 0 <= i < |a| && (Energized(g, a[i]) == m || Energized(g, b[i]) == m);
    if Energized(g, a[i]) != m {
      assert (a + b)[|a| + i] == b[i];
    } else {
      assert (a + b)[i] == a[i];
    }
    forall k | 0 <= k < |a + b|
      ensures Energized(g, (a + b)[k]) <= m
    {
      if k >= |a| {
        assert (a + b)[k] == b[k - |a|];
      }
    }
  }

  lemma ConcatMax(g: Grid<Object>, a: seq<Ray>, b: seq<Ray>, ma: int, mb: int)
    requires g.Valid() && g.width >= 0 && IsMax(g, a, ma) && IsMax(g, b, mb)
    ensures IsMax(g, a + b, if ma >= mb then ma else mb)
  {
    var m := if ma >= mb then ma else mb;
    forall k | 0 <= k < |a + b|
      ensures Energized(g, (a + b)[k]) <= m
    {
      if k >= |a| {
        assert (a + b)[k] == b[k - |a|];
      }
    }
    if ma >= mb {
      var i :| 0 <= i < |a| && Energized(g, a[i]) == ma;
      assert (a + b)[i] == a[i];
    } else {
      var i :| 0 <= i < |b| && Energized(g, b[i]) == mb;
      assert (a + b)[|a| + i] == b[i];
    }
  }

  /** The pairwise loop shared by `up_down_max` and `left_right_max` of
      `part_two`: for each index the better of the two opposite entries,
      then the best index. */
  method PairedBest(grid: Grid<Object>, a: seq<Ray>, b: seq<Ray>) returns (m: int)
    requires grid.Valid() && grid.width >= 0 && |a| == |b| > 0
    ensures IsMax(grid, a + b, m)
  {
    m := 0;
    for i := 0 to |a|
      invariant forall k | 0 <= k < i :: Energized(grid, a[k]) <= m && Energized(grid, b[k]) <= m
      invariant i > 0 ==> exists k | 0 <= k < i :: Energized(grid, a[k]) == m || Energized(grid, b[k]) == m
    {
      var first := CalculateScore(a[i], grid);
      var second := CalculateScore(b[i], grid);
      var best := if first >= second then first else second;
      if i == 0 || best > m {
        m := best;
      }
    }
    PairedMax(grid, a, b, m);
  }

  /** The two sweeps of `part_two` on a grid with a row and a column: the
      larger of the best vertical and the best horizontal start. */
  method BestStart(grid: Grid<Object>) returns (m: int)
    requires grid.Valid() && grid.width > 0 && grid.height > 0
    ensures IsMax(grid, EdgeStarts(grid.width, grid.height), m)
  {
    var upDownMax := PairedBest(grid, Ups(grid.width, grid.height), Downs(grid.width));
    var leftRightMax := PairedBest(grid, Rights(grid.height), Lefts(grid.width, grid.height));
    ConcatMax(grid, Ups(grid.width, grid.height) + Downs(grid.width), Rights(grid.height) + Lefts(grid.width, grid.height), upDownMax, leftRightMax);
    m := if upDownMax >= leftRightMax then upDownMax else leftRightMax;
  }

  /** `part_two`: the largest score over every way in from an edge; with no
      column (or no row) the empty `max` is unwrapped and panics. */
  method PartTwo(input: string) returns (r: Result<int>)
    ensures r.Panic? <==> ParseContraption(input).Panic? || ParseContraption(input).value.width == 0 || ParseContraption(input).value.height == 0
    ensures r.Ok? ==> ParseContraption(input).Ok? &&
                      var g := ParseContraption(input).value;
                      IsMax(g, EdgeStarts(g.width, g.height), r.value)
  {
    var grid :- ParseContraption(input);
    if grid.width == 0 || grid.height == 0 {
      return Panic("called `Option::unwrap()` on a `None` value");
    }
    var best := BestStart(grid);
    return Ok(best);
  }
}
