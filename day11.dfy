/** Day 11: cosmic expansion. Every row and column without a galaxy grows
    `expansion` times as wide; the answer is the sum of the Manhattan
    distances between every pair of galaxies afterwards. */
module Day11 {
  import opened Common

  /** A position `(x, y)`: column, then row. */
  type Pos = (int, int)

  /** `Universe`: the galaxies, each mapped to its `'#'`, and the empty
      columns and rows. */
  datatype Universe = Universe(grid: map<Pos, char>, xEmpty: set<int>, yEmpty: set<int>)

  // ---------------------------------------------------------------------
  // Reading the image

  /** Every `'#'` of the image, at its column and row. */
  function Galaxies(lines: seq<string>): set<Pos>
  {
    set j, i | 0 <= j < |lines| && 0 <= i < |lines[j]| && lines[j][i] == '#' :: (i, j)
  }

  /** The galaxies a left-to-right scan of row `y` meets before column `x`. */
  function RowScan(line: string, y: int, x: nat): set<Pos>
    requires x <= |line|
  {
    if x == 0 then {}
    else RowScan(line, y, x - 1) + (if line[x - 1] == '#' then {(x - 1, y)} else {})
  }

  /** The galaxies a top-to-bottom scan meets in the rows before `y`. */
  function Scan(lines: seq<string>, y: nat): set<Pos>
    requires y <= |lines|
  {
    if y == 0 then {}
    else Scan(lines, y - 1) + RowScan(lines[y - 1], y - 1, |lines[y - 1]|)
  }

  function Columns(g: set<Pos>): set<int>
  {
    set p | p in g :: p.0
  }

  function Rows(g: set<Pos>): set<int>
  {
    set p | p in g :: p.1
  }

  /** `m` is the largest of `coords`, or 0 when there is none. */
  predicate Largest(m: nat, coords: set<int>)
  {
    (forall c | c in coords :: 0 <= c <= m) && (m == 0 || m in coords)
  }

  /** The empty lines `parse_universe` records: every line from 0 up to
      the last one holding a galaxy that holds none (line 0 alone when
      there is no galaxy). */
  ghost predicate EmptyUpTo(empty: set<int>, coords: set<int>)
  {
    forall v :: v in empty <==> 0 <= v && v !in coords && (v == 0 || exists c | c in coords :: c >= v)
  }

  /** `not_in_range`: the values of `0..=size` missing from `existing`. */
  function NotInRange(size: nat, existing: set<int>): (r: set<int>)
    ensures forall v :: v in r <==> 0 <= v <= size && v !in existing
  {
    var here := if size in existing then {} else {size};
    if size == 0 then here else NotInRange(size - 1, existing) + here
  }

  lemma EmptyFromLargest(m: nat, coords: set<int>)
    requires Largest(m, coords)
    ensures EmptyUpTo(NotInRange(m, coords), coords)
  {
    forall v | 0 <= v && v !in coords
      ensures v <= m <==> (v == 0 || exists c | c in coords :: c >= v)
    {
      if v <= m && v != 0 {
        assert m in coords && m >= v;
      }
    }
  }

  lemma {:induction false} RowScanSpec(line: string, y: int, x: nat)
    requires x <= |line|
    ensures forall p :: p in RowScan(line, y, x) <==> p.1 == y && 0 <= p.0 < x && line[p.0] == '#'
  {
    if x > 0 {
      RowScanSpec(line, y, x - 1);
    }
  }

  lemma {:induction false} ScanSpec(lines: seq<string>, y: nat)
    requires y <= |lines|
    ensures forall p :: p in Scan(lines, y) <==>
      0 <= p.1 < y && 0 <= p.0 < |lines[p.1]| && lines[p.1][p.0] == '#'
  {
    if y > 0 {
      ScanSpec(lines, y - 1);
      RowScanSpec(lines[y - 1], y - 1, |lines[y - 1]|);
    }
  }

  /** The scan of every row meets exactly the galaxies. */
  lemma ScanGalaxies(lines: seq<string>)
    ensures Scan(lines, |lines|) == Galaxies(lines)
  {
    ScanSpec(lines, |lines|);
    forall p | p in Galaxies(lines)
      ensures p in Scan(lines, |lines|)
    {
    }
  }

  lemma RowScanGalaxy(found: set<Pos>, line: string, y: int, x: nat)
    requires x < |line| && line[x] == '#'
    ensures found + RowScan(line, y, x + 1) == found + RowScan(line, y, x) + {(x, y)}
  {
  }

  lemma RowScanOther(found: set<Pos>, line: string, y: int, x: nat)
    requires x < |line| && line[x] != '#'
    ensures found + RowScan(line, y, x + 1) == found + RowScan(line, y, x)
  {
  }

  lemma ScanRowEnd(lines: seq<string>, y: nat)
    requires y < |lines|
    ensures Scan(lines, y) + RowScan(lines[y], y, |lines[y]|) == Scan(lines, y + 1)
  {
  }

  lemma ColumnsRowsAdd(g: set<Pos>, x: int, y: int)
    ensures Columns(g + {(x, y)}) == Columns(g) + {x}
    ensures Rows(g + {(x, y)}) == Rows(g) + {y}
  {
    assert (x, y) in g + {(x, y)};
  }

  /** The state of `parse_universe` once it has met the galaxies `found`. */
  ghost predicate Recorded(found: set<Pos>, grid: map<Pos, char>,
                           width: nat, height: nat, xSet: set<int>, ySet: set<int>)
  {
    && grid.Keys == found
    && (forall p | p in grid :: grid[p] == '#')
    && xSet == Columns(found) && ySet == Rows(found)
    && Largest(width, xSet) && Largest(height, ySet)
  }

  lemma RecordGalaxy(found: set<Pos>, grid: map<Pos, char>,
                     width: nat, height: nat, xSet: set<int>, ySet: set<int>, x: nat, y: nat)
    requires Recorded(found, grid, width, height, xSet, ySet)
    ensures Recorded(found + {(x, y)}, grid[(x, y) := '#'],
                     if width < x then x else width, if height < y then y else height,
                     xSet + {x}, ySet + {y})
  {
    ColumnsRowsAdd(found, x, y);
  }

  lemma ScanDone(lines: seq<string>, grid: map<Pos, char>, width: nat, height: nat,
                 xSet: set<int>, ySet: set<int>, u: Universe)
    requires Recorded(Scan(lines, |lines|), grid, width, height, xSet, ySet)
    requires u == Universe(grid, NotInRange(width, xSet), NotInRange(height, ySet))
    ensures u.grid.Keys == Galaxies(lines)
    ensures forall p | p in u.grid :: u.grid[p] == '#'
    ensures EmptyUpTo(u.xEmpty, Columns(u.grid.Keys))
    ensures EmptyUpTo(u.yEmpty, Rows(u.grid.Keys))
  {
    ScanGalaxies(lines);
    EmptyFromLargest(width, xSet);
    EmptyFromLargest(height, ySet);
  }

  /** The inner loop of `parse_universe`: scan row `y`, recording each
      `'#'` with its column and row. */
  method ScanLine(line: string, y: nat, ghost found: set<Pos>, grid: map<Pos, char>,
                  width: nat, height: nat, xSet: set<int>, ySet: set<int>)
    returns (ghost found': set<Pos>, grid': map<Pos, char>,
             width': nat, height': nat, xSet': set<int>, ySet': set<int>)
    requires Recorded(found, grid, width, height, xSet, ySet)
    ensures found' == found + RowScan(line, y, |line|)
    ensures Recorded(found', grid', width', height', xSet', ySet')
  {
    found', grid', width', height', xSet', ySet' := found, grid, width, height, xSet, ySet;
    for x := 0 to |line|
      invariant found' == found + RowScan(line, y, x)
      invariant Recorded(found', grid', width', height', xSet', ySet')
    {
      if line[x] == '#' {
        RowScanGalaxy(found, line, y, x);
        RecordGalaxy(found', grid', width', height', xSet', ySet', x, y);
        found' := found' + {(x, y)};
        grid' := grid'[(x, y) := '#'];
        width' := if width' < x then x else width';
        height' := if height' < y then y else height';
        xSet' := xSet' + {x};
        ySet' := ySet' + {y};
      } else {
        RowScanOther(found, line, y, x);
      }
    }
  }

  /** The outer loop of `parse_universe`: scan the rows in order. */
  method ScanLines(lines: seq<string>) returns (grid: map<Pos, char>, width: nat, height: nat,
                                                 xSet: set<int>, ySet: set<int>)
    ensures Recorded(Scan(lines, |lines|), grid, width, height, xSet, ySet)
  {
    grid, width, height, xSet, ySet := map[], 0, 0, {}, {};
    ghost var found: set<Pos> := {};
    for y := 0 to |lines|
      invariant found == Scan(lines, y)
      invariant Recorded(found, grid, width, height, xSet, ySet)
    {
      found, grid, width, height, xSet, ySet := ScanLine(lines[y], y, found, grid, width, height, xSet, ySet);
      ScanRowEnd(lines, y);
    }
  }

  /** `parse_universe`: scan the trimmed image row by row, recording each
      `'#'`, the columns and rows that hold one and the largest of each;
      then the empty columns and rows up to those. */
  method ParseUniverse(input: string) returns (u: Universe)
    ensures u.grid.Keys == Galaxies(Lines(Trim(input)))
    ensures forall p | p in u.grid :: u.grid[p] == '#'
    ensures EmptyUpTo(u.xEmpty, Columns(u.grid.Keys))
    ensures EmptyUpTo(u.yEmpty, Rows(u.grid.Keys))
  {
    var lines := Lines(Trim(input));
    var grid, width, height, xSet, ySet := ScanLines(lines);
    u := Universe(grid, NotInRange(width, xSet), NotInRange(height, ySet));
    ScanDone(lines, grid, width, height, xSet, ySet, u);
  }

  // ---------------------------------------------------------------------
  // Expansion

  /** How many of the empty lines lie strictly before `v`. */
  function EmptyBelow(empty: set<int>, v: int): nat
  {
    |set e | e in empty && e < v|
  }

  /** The empty lines from `a` up to, not including, `b`. */
  function EmptyBetween(empty: set<int>, a: int, b: int): nat
  {
    |set e | e in empty && a <= e < b|
  }

  /** A coordinate after each empty line before it has grown to
      `expansion` lines. */
  function Shift(v: int, empty: set<int>, expansion: int): int
  {
    v + EmptyBelow(empty, v) * (expansion - 1)
  }

  function Expand(p: Pos, u: Universe, expansion: int): Pos
  {
    (Shift(p.0, u.xEmpty, expansion), Shift(p.1, u.yEmpty, expansion))
  }

  /** Where the galaxies end up. */
  function Expanded(u: Universe, expansion: int): set<Pos>
  {
    set p | p in u.grid.Keys :: Expand(p, u, expansion)
  }

  lemma BelowSplit(empty: set<int>, a: int, b: int)
    requires a <= b
    ensures EmptyBelow(empty, b) == EmptyBelow(empty, a) + EmptyBetween(empty, a, b)
  {
    var lower := set e | e in empty && e < a;
    var middle := set e | e in empty && a <= e < b;
    assert (set e | e in empty && e < b) == lower + middle;
    assert lower * middle == {};
  }

  lemma MulNonNeg(a: int, b: int)
    requires a >= 0 && b >= 0
    ensures a * b >= 0
  {
  }

  /** Two coordinates end up as far apart as they were, plus
      `expansion - 1` for every empty line between them. */
  lemma ShiftGap(empty: set<int>, expansion: int, a: int, b: int)
    requires a <= b
    ensures Shift(b, empty, expansion) - Shift(a, empty, expansion)
      == (b - a) + EmptyBetween(empty, a, b) * (expansion - 1)
  {
    BelowSplit(empty, a, b);
    assert EmptyBelow(empty, b) * (expansion - 1)
      == EmptyBelow(empty, a) * (expansion - 1) + EmptyBetween(empty, a, b) * (expansion - 1);
  }

  /** With `expansion` at least 1 the order of coordinates is kept, so
      distinct galaxies stay distinct. */
  lemma ShiftOrder(empty: set<int>, expansion: int, a: int, b: int)
    requires expansion >= 1 && a < b
    ensures Shift(a, empty, expansion) < Shift(b, empty, expansion)
  {
    ShiftGap(empty, expansion, a, b);
    MulNonNeg(EmptyBetween(empty, a, b), expansion - 1);
  }

  /** With `expansion` 1 nothing moves. */
  lemma ShiftNone(empty: set<int>, v: int)
    ensures Shift(v, empty, 1) == v
  {
  }

  function Abs(v: int): nat
  {
    if v < 0 then -v else v
  }

  function Manhattan(p: Pos, q: Pos): nat
  {
    Abs(p.0 - q.0) + Abs(p.1 - q.1)
  }

  /** The empty lines between two coordinates, in either order. */
  function Crossed(empty: set<int>, a: int, b: int): nat
  {
    if a <= b then EmptyBetween(empty, a, b) else EmptyBetween(empty, b, a)
  }

  lemma ShiftDistance(empty: set<int>, expansion: int, a: int, b: int)
    requires expansion >= 1
    ensures Abs(Shift(a, empty, expansion) - Shift(b, empty, expansion))
      == Abs(a - b) + Crossed(empty, a, b) * (expansion - 1)
  {
    if a <= b {
      ShiftGap(empty, expansion, a, b);
      MulNonNeg(EmptyBetween(empty, a, b), expansion - 1);
    } else {
      ShiftGap(empty, expansion, b, a);
      MulNonNeg(EmptyBetween(empty, b, a), expansion - 1);
    }
  }

  /** The distance between two galaxies after expansion: their distance
      before, plus `expansion - 1` for every empty column and every empty
      row between them. */
  lemma ExpandedDistance(u: Universe, expansion: int, p: Pos, q: Pos)
    requires expansion >= 1
    ensures Manhattan(Expand(p, u, expansion), Expand(q, u, expansion))
      == Manhattan(p, q)
         + (Crossed(u.xEmpty, p.0, q.0) + Crossed(u.yEmpty, p.1, q.1)) * (expansion - 1)
  {
    ShiftDistance(u.xEmpty, expansion, p.0, q.0);
    ShiftDistance(u.yEmpty, expansion, p.1, q.1);
  }

  // ---------------------------------------------------------------------
  // Summing over pairs

  /** The distances from `p` to each of `qs`. */
  function DistancesFrom(p: Pos, qs: seq<Pos>): nat
  {
    if qs == [] then 0 else Manhattan(p, qs[0]) + DistancesFrom(p, qs[1..])
  }

  /** `tuple_combinations().map(distance).sum()`: each element with each
      one after it. */
  function PairSum(ps: seq<Pos>): nat
  {
    if ps == [] then 0 else DistancesFrom(ps[0], ps[1..]) + PairSum(ps[1..])
  }

  /** The distances from each of `rows` to each of `all`, in both orders
      and including each position with itself. */
  function RowsSum(rows: seq<Pos>, all: seq<Pos>): nat
  {
    if rows == [] then 0 else DistancesFrom(rows[0], all) + RowsSum(rows[1..], all)
  }

  lemma {:induction false} RowsSumCons(rows: seq<Pos>, p: Pos, rest: seq<Pos>)
    ensures RowsSum(rows, [p] + rest) == DistancesFrom(p, rows) + RowsSum(rows, rest)
    decreases |rows|
  {
    if rows != [] {
      RowsSumCons(rows[1..], p, rest);
      assert ([p] + rest)[1..] == rest;
    }
  }

  /** Each unordered pair counted once: the sum over pairs is half the sum
      over all ordered pairs (a galaxy is at distance 0 from itself). */
  lemma {:induction false} PairsCountedOnce(ps: seq<Pos>)
    ensures 2 * PairSum(ps) == RowsSum(ps, ps)
  {
    if ps != [] {
      var p, rest := ps[0], ps[1..];
      assert ps == [p] + rest;
      PairsCountedOnce(rest);
      RowsSumCons(rest, p, rest);
      assert DistancesFrom(p, ps) == DistancesFrom(p, rest);
    }
  }

  ghost predicate Enumerates(order: seq<Pos>, s: set<Pos>)
  {
    (forall i, j | 0 <= i < j < |order| :: order[i] != order[j])
    && (forall p :: p in s <==> p in order)
  }

  /** `calculate_distances`: move every galaxy to its expanded position,
      then sum the distances over the pairs of positions, visited in the
      order of the map's keys. */
  method CalculateDistances(u: Universe, expansion: int) returns (r: int, ghost order: seq<Pos>)
    ensures Enumerates(order, Expanded(u, expansion))
    ensures r == PairSum(order)
  {
    var expanded: map<Pos, char> := map[];
    var todo := u.grid.Keys;
    while todo != {}
      invariant todo <= u.grid.Keys
      invariant expanded.Keys == set p | p in u.grid.Keys - todo :: Expand(p, u, expansion)
      decreases |todo|
    {
      var p :| p in todo;
      var c := u.grid[p];
      expanded := expanded[Expand(p, u, expansion) := c];
      todo := todo - {p};
    }
    assert expanded.Keys == Expanded(u, expansion);
    var keys := expanded.Keys;
    var visit: seq<Pos> := [];
    while keys != {}
      invariant keys <= expanded.Keys
      invariant forall i, j | 0 <= i < j < |visit| :: visit[i] != visit[j]
      invariant forall p :: p in expanded.Keys <==> p in visit || p in keys
      invariant forall p | p in visit :: p !in keys
      decreases |keys|
    {
      var k :| k in keys;
      visit := visit + [k];
      keys := keys - {k};
    }
    order := visit;
    r := PairSum(visit);
  }

  /** With `expansion` at least 1 no two galaxies meet, so there are as
      many positions as galaxies. */
  lemma ExpandedCount(u: Universe, expansion: int)
    requires expansion >= 1
    ensures |Expanded(u, expansion)| == |u.grid.Keys|
  {
    ExpandInjective(u, expansion, u.grid.Keys);
  }

  lemma {:induction false} ExpandInjective(u: Universe, expansion: int, g: set<Pos>)
    requires expansion >= 1
    ensures |set p | p in g :: Expand(p, u, expansion)| == |g|
    decreases |g|
  {
    if g != {} {
      var q :| q in g;
      var rest := g - {q};
      ExpandInjective(u, expansion, rest);
      var image := set p | p in rest :: Expand(p, u, expansion);
      assert (set p | p in g :: Expand(p, u, expansion)) == image + {Expand(q, u, expansion)};
      if Expand(q, u, expansion) in image {
        var p :| p in rest && Expand(p, u, expansion) == Expand(q, u, expansion);
        if p.0 != q.0 {
          if p.0 < q.0 { ShiftOrder(u.xEmpty, expansion, p.0, q.0); }
          else { ShiftOrder(u.xEmpty, expansion, q.0, p.0); }
        } else {
          if p.1 < q.1 { ShiftOrder(u.yEmpty, expansion, p.1, q.1); }
          else { ShiftOrder(u.yEmpty, expansion, q.1, p.1); }
        }
      }
    }
  }

  // ---------------------------------------------------------------------
  // The two parts

  /** `part_one`: empty lines count twice. */
  method PartOne(input: string) returns (r: int, ghost u: Universe, ghost order: seq<Pos>)
    ensures u.grid.Keys == Galaxies(Lines(Trim(input)))
    ensures EmptyUpTo(u.xEmpty, Columns(u.grid.Keys)) && EmptyUpTo(u.yEmpty, Rows(u.grid.Keys))
    ensures Enumerates(order, Expanded(u, 2)) && r == PairSum(order)
  {
    var universe := ParseUniverse(input);
    u := universe;
    r, order := CalculateDistances(universe, 2);
  }

  /** `part_two`: empty lines count a million times. */
  method PartTwo(input: string) returns (r: int, ghost u: Universe, ghost order: seq<Pos>)
    ensures u.grid.Keys == Galaxies(Lines(Trim(input)))
    ensures EmptyUpTo(u.xEmpty, Columns(u.grid.Keys)) && EmptyUpTo(u.yEmpty, Rows(u.grid.Keys))
    ensures Enumerates(order, Expanded(u, 1_000_000)) && r == PairSum(order)
  {
    var universe := ParseUniverse(input);
    u := universe;
    r, order := CalculateDistances(universe, 1_000_000);
  }
}
