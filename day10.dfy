/** Day 10: the pipe maze (`src/bin/10.rs`). The animal's start `S` is
    given the one pipe that joins the two neighbours connecting to it, the
    loop is walked from both of those neighbours recording the number of
    steps to each cell, and a scan line counts the cells enclosed by the
    loop. */
module Day10 {
  import opened Common

  /** A cell `(x, y)`, or an offset between cells. */
  type Pos = (int, int)

  /** The tiles of the maze, by position, as `part_one` and `part_two`
      collect them. */
  type Tiles = map<Pos, char>

  function Offset(p: Pos, d: Pos): Pos
  {
    (p.0 + d.0, p.1 + d.1)
  }

  function Neg(d: Pos): Pos
  {
    (-d.0, -d.1)
  }

  function Min(a: int, b: int): (m: int)
    ensures m <= a && m <= b && (m == a || m == b)
  {
    if a <= b then a else b
  }

  // ---------------------------------------------------------------------
  // The two tables of `generate_score_map`

  /** The neighbours of `S` in the order they are tried, each with the
      pipes that connect back to `S` from that side. */
  const Sides: seq<(Pos, string)> := [((-1, 0), "-LF"), ((1, 0), "-J7"), ((0, -1), "|7F"), ((0, 1), "|LJ")]

  /** The two offsets a pipe joins, in the order of the table; no other
      character is a pipe. */
  function Ends(c: char): (r: Option<(Pos, Pos)>)
    ensures r.Some? <==> c in "|-LJ7F"
  {
    match c
    case '|' => Some(((0, 1), (0, -1)))
    case '-' => Some(((-1, 0), (1, 0)))
    case 'L' => Some(((1, 0), (0, -1)))
    case 'J' => Some(((-1, 0), (0, -1)))
    case '7' => Some(((-1, 0), (0, 1)))
    case 'F' => Some(((1, 0), (0, 1)))
    case _ => None
  }

  /** Every pipe joins two different sides of its cell. */
  lemma PipeEnds(c: char)
    requires Ends(c).Some?
    ensures var (a, b) := Ends(c).value;
      a != b && (exists i | 0 <= i < |Sides| :: Sides[i].0 == a) && (exists j | 0 <= j < |Sides| :: Sides[j].0 == b)
  {
    var (a, b) := Ends(c).value;
    assert Sides[0].0 == (-1, 0) && Sides[1].0 == (1, 0) && Sides[2].0 == (0, -1) && Sides[3].0 == (0, 1);
  }

  /** The two tables agree: a pipe is accepted on a side of `S` exactly when
      one of its ends points back at `S`. */
  lemma AcceptedMeansConnected(i: int, c: char)
    requires 0 <= i < |Sides|
    ensures c in Sides[i].1 <==> Ends(c).Some? && Neg(Sides[i].0) in {Ends(c).value.0, Ends(c).value.1}
  {
  }

  // ---------------------------------------------------------------------
  // The start piece

  /** The neighbour of `start` on `side` is a pipe that connects back. */
  predicate Accepts(grid: Tiles, start: Pos, side: (Pos, string))
  {
    var n := Offset(start, side.0);
    n in grid && grid[n] in side.1
  }

  /** The offsets of the accepted sides among `sides`, in order. */
  function Accepted(grid: Tiles, start: Pos, sides: seq<(Pos, string)>): (ds: seq<Pos>)
    ensures |ds| <= |sides|
  {
    if sides == [] then []
    else
      var last := sides[|sides| - 1];
      Accepted(grid, start, sides[..|sides| - 1]) + (if Accepts(grid, start, last) then [last.0] else [])
  }

  /** The accepted offset of side `i`, if it accepts. */
  function AcceptedAt(grid: Tiles, start: Pos, i: int): seq<Pos>
    requires 0 <= i < |Sides|
  {
    if Accepts(grid, start, Sides[i]) then [Sides[i].0] else []
  }

  lemma AcceptedSides(grid: Tiles, start: Pos)
    ensures Accepted(grid, start, Sides) == AcceptedAt(grid, start, 0) + AcceptedAt(grid, start, 1) + AcceptedAt(grid, start, 2) + AcceptedAt(grid, start, 3)
  {
    forall k | 0 < k <= |Sides|
      ensures Accepted(grid, start, Sides[..k]) == Accepted(grid, start, Sides[..k - 1]) + AcceptedAt(grid, start, k - 1)
    {
      assert Sides[..k][..k - 1] == Sides[..k - 1] && Sides[..k][k - 1] == Sides[k - 1];
    }
    assert Sides[..0] == [] && Sides[..4] == Sides;
  }

  /** The accepted directions are exactly the sides that accept. */
  lemma AcceptedExactly(grid: Tiles, start: Pos)
    ensures forall i | 0 <= i < |Sides| :: Sides[i].0 in Accepted(grid, start, Sides) <==> Accepts(grid, start, Sides[i])
  {
    AcceptedSides(grid, start);
  }

  /** The neighbours the walks start from. */
  function Neighbours(start: Pos, ds: seq<Pos>): (ns: seq<Pos>)
    ensures |ns| == |ds| && forall i | 0 <= i < |ds| :: ns[i] == Offset(start, ds[i])
  {
    seq(|ds|, i requires 0 <= i < |ds| => Offset(start, ds[i]))
  }

  /** The `match` on the accepted directions: one pipe per ordered pair. */
  function StartPiece(ds: seq<Pos>): (r: Result<char>)
    ensures r.Ok? ==> |ds| == 2 && Ends(r.value).Some? && Ends(r.value).value.0 in ds && Ends(r.value).value.1 in ds
  {
    if ds == [(-1, 0), (1, 0)] then Ok('-')
    else if ds == [(0, -1), (0, 1)] then Ok('|')
    else if ds == [(-1, 0), (0, -1)] then Ok('J')
    else if ds == [(-1, 0), (0, 1)] then Ok('7')
    else if ds == [(1, 0), (0, -1)] then Ok('L')
    else if ds == [(1, 0), (0, 1)] then Ok('F')
    else Panic("ohnoes")
  }

  /** Since the sides are tried in a fixed order, every two accepted sides
      form one of the six pairs: the start piece is found exactly when two
      sides accept. */
  lemma StartPieceFound(grid: Tiles, start: Pos)
    ensures StartPiece(Accepted(grid, start, Sides)).Ok? <==> |Accepted(grid, start, Sides)| == 2
  {
    AcceptedSides(grid, start);
  }

  // ---------------------------------------------------------------------
  // The walks

  /** `entry(previous).and_modify(min).or_insert(score)`: the map keeps the
      smallest score recorded for each cell. */
  function Record(scores: map<Pos, int>, p: Pos, score: int): (r: map<Pos, int>)
    ensures r.Keys == scores.Keys + {p}
    ensures r[p] <= score && (p in scores ==> r[p] <= scores[p])
    ensures r[p] == score || (p in scores && r[p] == scores[p])
    ensures forall q | q in scores && q != p :: r[q] == scores[q]
  {
    if p in scores then scores[p := Min(score, scores[p])] else scores[p := score]
  }

  /** The end of the pipe at `current` that is not `previous` (the first end
      when `previous` is neither). */
  function Next(current: Pos, ends: (Pos, Pos), previous: Pos): Pos
  {
    var p1 := Offset(current, ends.0);
    var p2 := Offset(current, ends.1);
    if p1 == previous then p2 else p1
  }

  /** Coming from one end of a pipe, the walk leaves by the other. */
  lemma NextIsOtherEnd(current: Pos, ends: (Pos, Pos), previous: Pos)
    requires ends.0 != ends.1
    ensures previous == Offset(current, ends.0) ==> Next(current, ends, previous) == Offset(current, ends.1)
    ensures previous == Offset(current, ends.1) ==> Next(current, ends, previous) == Offset(current, ends.0)
    ensures Next(current, ends, previous) != previous
  {
  }

  /** A walk is cut after this many steps. No walk that ends takes more: from
      its second step on `previous` is next to `current`, so a longer walk
      repeats a state. */
  function Budget(grid: Tiles): nat
  {
    4 * |grid| + 1
  }

  /** One `while let` walk: on each pipe record `previous` with the steps so
      far and move on to the other end, until `S` or a position off the
      maze; a non-pipe is `unwrap`ped and panics. The result is the scores
      and the final `previous`. */
  function Walk(grid: Tiles, previous: Pos, current: Pos, score: int, fuel: nat, scores: map<Pos, int>): (r: Result<(map<Pos, int>, Pos)>)
    decreases fuel
  {
    if current !in grid || grid[current] == 'S' then Ok((scores, previous))
    else if fuel == 0 then Panic("the walk does not end")
    else match Ends(grid[current])
      case None => Panic("called `Option::unwrap()` on a `None` value")
      case Some(ends) => Walk(grid, current, Next(current, ends, previous), score + 1, fuel - 1, Record(scores, previous, score))
  }

  /** The walks from each neighbour in turn. `previous` carries over from one
      walk to the next, as in the source. */
  function WalkAll(grid: Tiles, previous: Pos, nexts: seq<Pos>, scores: map<Pos, int>): Result<map<Pos, int>>
    decreases |nexts|, 1
  {
    if nexts == [] then Ok(scores)
    else Continue(Walk(grid, previous, nexts[0], 0, Budget(grid), scores), grid, nexts[1..])
  }

  /** The remaining walks after one that ended with `w`. */
  function Continue(w: Result<(map<Pos, int>, Pos)>, grid: Tiles, nexts: seq<Pos>): Result<map<Pos, int>>
    decreases |nexts| + 1, 0
  {
    match w
    case Panic(why) => Panic(why)
    case Ok((scores, previous)) => WalkAll(grid, previous, nexts, scores)
  }

  /** What `generate_score_map` returns: the scores of both walks and the
      start piece, or the panic. */
  function ScoreMap(start: Pos, grid: Tiles): Result<(map<Pos, int>, char)>
  {
    var ds := Accepted(grid, start, Sides);
    match StartPiece(ds)
    case Panic(why) => Panic(why)
    case Ok(piece) =>
      match WalkAll(grid, start, Neighbours(start, ds), map[])
      case Panic(why) => Panic(why)
      case Ok(scores) => Ok((scores, piece))
  }

  /** The walks from each neighbour, each starting with `previous` at `S`,
      as the loop over the neighbours evidently intends. */
  function WalkEach(grid: Tiles, start: Pos, nexts: seq<Pos>, scores: map<Pos, int>): Result<map<Pos, int>>
    decreases |nexts|
  {
    if nexts == [] then Ok(scores)
    else match Walk(grid, start, nexts[0], 0, Budget(grid), scores)
      case Panic(why) => Panic(why)
      case Ok((s, _)) => WalkEach(grid, start, nexts[1..], s)
  }

  /** `generate_score_map` with `previous` reset to `S` for every walk:
      each cell of the loop keeps the smaller of its distances from `S`
      the two ways round. */
  function ScoreMapFromStart(start: Pos, grid: Tiles): Result<(map<Pos, int>, char)>
  {
    var ds := Accepted(grid, start, Sides);
    match StartPiece(ds)
    case Panic(why) => Panic(why)
    case Ok(piece) =>
      match WalkEach(grid, start, Neighbours(start, ds), map[])
      case Panic(why) => Panic(why)
      case Ok(scores) => Ok((scores, piece))
  }

  /** A walk only adds cells and never raises a score. */
  lemma {:induction false} WalkKeepsMinimum(grid: Tiles, previous: Pos, current: Pos, score: int, fuel: nat, scores: map<Pos, int>)
    requires Walk(grid, previous, current, score, fuel, scores).Ok?
    ensures var s := Walk(grid, previous, current, score, fuel, scores).value.0;
      scores.Keys <= s.Keys && forall q | q in scores :: s[q] <= scores[q]
    decreases fuel
  {
    if current in grid && grid[current] != 'S' && fuel > 0 {
      var ends := Ends(grid[current]).value;
      WalkKeepsMinimum(grid, current, Next(current, ends, previous), score + 1, fuel - 1, Record(scores, previous, score));
    }
  }

  /** The `for` loop over the four sides: the neighbours to walk from and
      the directions they lie in. */
  method FindNexts(start: Pos, grid: Tiles) returns (nexts: seq<Pos>, allowedDirections: seq<Pos>)
    ensures allowedDirections == Accepted(grid, start, Sides)
    ensures nexts == Neighbours(start, allowedDirections)
  {
    nexts, allowedDirections := [], [];
    for i := 0 to |Sides|
      invariant allowedDirections == Accepted(grid, start, Sides[..i])
      invariant nexts == Neighbours(start, allowedDirections)
    {
      var (d, check) := Sides[i];
      var neighbour := Offset(start, d);
      if neighbour in grid && grid[neighbour] in check {
        nexts := nexts + [neighbour];
        allowedDirections := allowedDirections + [d];
      }
      assert Sides[..i + 1][..i] == Sides[..i];
    }
    assert Sides[..|Sides|] == Sides;
  }

  /** One `while let` walk from `current`, starting at score 0. */
  method WalkFrom(grid: Tiles, previous0: Pos, current0: Pos, scores0: map<Pos, int>) returns (r: Result<(map<Pos, int>, Pos)>)
    ensures r == Walk(grid, previous0, current0, 0, Budget(grid), scores0)
  {
    var previous, current, scores := previous0, current0, scores0;
    var score := 0;
    var fuel := Budget(grid);
    while current in grid && grid[current] != 'S'
      invariant Walk(grid, previous0, current0, 0, Budget(grid), scores0) == Walk(grid, previous, current, score, fuel, scores)
      decreases fuel
    {
      if fuel == 0 {
        return Panic("the walk does not end");
      }
      var pipe := grid[current];
      if Ends(pipe).None? {
        return Panic("called `Option::unwrap()` on a `None` value");
      }
      var ends := Ends(pipe).value;
      scores := Record(scores, previous, score);
      var next := Next(current, ends, previous);
      previous := current;
      current := next;
      score := score + 1;
      fuel := fuel - 1;
    }
    return Ok((scores, previous));
  }

  /** `generate_score_map` as written, with `previous` carried from one walk
      into the next. */
  method GenerateScoreMap(start: Pos, grid: Tiles) returns (r: Result<(map<Pos, int>, char)>)
    ensures r == ScoreMap(start, grid)
  {
    var nexts, allowedDirections := FindNexts(start, grid);
    var startPiece :- StartPiece(allowedDirections);
    var previous := start;
    var scores: map<Pos, int> := map[];
    for k := 0 to |nexts|
      invariant WalkAll(grid, start, nexts, map[]) == WalkAll(grid, previous, nexts[k..], scores)
    {
      assert nexts[k..][1..] == nexts[k + 1..];
      var walked := WalkFrom(grid, previous, nexts[k], scores);
      if walked.Panic? {
        return Panic(walked.reason);
      }
      scores, previous := walked.value.0, walked.value.1;
    }
    return Ok((scores, startPiece));
  }

  /** `generate_score_map` corrected: `previous` is set to `S` at the start
      of every walk. Parts one and two use this one. */
  method GenerateScores(start: Pos, grid: Tiles) returns (r: Result<(map<Pos, int>, char)>)
    ensures r == ScoreMapFromStart(start, grid)
  {
    var nexts, allowedDirections := FindNexts(start, grid);
    var startPiece :- StartPiece(allowedDirections);
    var scores: map<Pos, int> := map[];
    for k := 0 to |nexts|
      invariant WalkEach(grid, start, nexts, map[]) == WalkEach(grid, start, nexts[k..], scores)
    {
      assert nexts[k..][1..] == nexts[k + 1..];
      var previous := start;
      var walked := WalkFrom(grid, previous, nexts[k], scores);
      if walked.Panic? {
        return Panic(walked.reason);
      }
      scores := walked.value.0;
    }
    return Ok((scores, startPiece));
  }

  // ---------------------------------------------------------------------
  // Reading the maze

  /** Every character of the lines, at its column and line. */
  function TilesOf(ls: seq<string>): (m: Tiles)
    ensures forall x, y :: (x, y) in m <==> 0 <= y < |ls| && 0 <= x < |ls[y]|
    ensures forall x, y | 0 <= y < |ls| && 0 <= x < |ls[y]| :: m[(x, y)] == ls[y][x]
  {
    map x, y | 0 <= y < |ls| && 0 <= x < |ls[y]| :: (x, y) := ls[y][x]
  }

  /** The last position of `c` in `s`. */
  function LastIndex(s: string, c: char): (r: Option<nat>)
    ensures r.Some? ==> r.value < |s| && s[r.value] == c && forall j | r.value < j < |s| :: s[j] != c
    ensures r.None? ==> c !in s
  {
    if s == [] then None
    else if s[|s| - 1] == c then Some(|s| - 1)
    else LastIndex(s[..|s| - 1], c)
  }

  /** Where `start` ends up after the reading loop: the last `S` in reading
      order, or `(0, 0)` when there is none. */
  function StartOf(ls: seq<string>): (p: Pos)
    ensures (forall y | 0 <= y < |ls| :: 'S' !in ls[y]) ==> p == (0, 0)
    ensures (exists y | 0 <= y < |ls| :: 'S' in ls[y]) ==>
      && 0 <= p.1 < |ls| && 0 <= p.0 < |ls[p.1]| && ls[p.1][p.0] == 'S'
      && (forall x | p.0 < x < |ls[p.1]| :: ls[p.1][x] != 'S')
      && (forall y | p.1 < y < |ls| :: 'S' !in ls[y])
  {
    if ls == [] then (0, 0)
    else match LastIndex(ls[|ls| - 1], 'S')
      case Some(x) => (x, |ls| - 1)
      case None => StartOf(ls[..|ls| - 1])
  }

  /** The largest column index of any character (`width` of `part_two`). */
  function Widest(ls: seq<string>): (w: nat)
    ensures forall y | 0 <= y < |ls| :: |ls[y]| <= w + 1
    ensures w == 0 || exists y | 0 <= y < |ls| :: |ls[y]| == w + 1
  {
    if ls == [] then 0
    else
      var rest := Widest(ls[..|ls| - 1]);
      var last := if |ls[|ls| - 1]| == 0 then 0 else |ls[|ls| - 1]| - 1;
      assert forall y | 0 <= y < |ls| - 1 :: ls[y] == ls[..|ls| - 1][y];
      if last > rest then last else rest
  }

  // ---------------------------------------------------------------------
  // Part one

  /** `m` is the largest value in `scores`. */
  predicate IsLargest(scores: map<Pos, int>, m: int)
  {
    m in scores.Values && forall p | p in scores :: scores[p] <= m
  }

  /** `scores.values().max().unwrap()`. */
  method MaxValue(scores: map<Pos, int>) returns (r: Result<int>)
    ensures r.Ok? <==> scores != map[]
    ensures r.Ok? ==> IsLargest(scores, r.value)
  {
    var rest := scores.Keys;
    var best: Option<int> := None;
    while rest != {}
      invariant rest <= scores.Keys
      invariant best.None? <==> rest == scores.Keys
      invariant best.Some? ==> best.value in scores.Values && forall p | p in scores.Keys - rest :: scores[p] <= best.value
      decreases rest
    {
      var p :| p in rest;
      if best.None? || scores[p] > best.value {
        best := Some(scores[p]);
      }
      rest := rest - {p};
    }
    if best.None? {
      assert scores.Keys == {};
      return Panic("called `Option::unwrap()` on a `None` value");
    }
    return Ok(best.value);
  }

  /** `part_one`: the largest score. */
  method PartOne(input: string) returns (r: Result<int>)
    ensures var ls := Lines(Trim(input));
      var sm := ScoreMapFromStart(StartOf(ls), TilesOf(ls));
      && (r.Ok? <==> sm.Ok? && sm.value.0 != map[])
      && (r.Ok? ==> IsLargest(sm.value.0, r.value))
  {
    var ls := Lines(Trim(input));
    var sm :- GenerateScores(StartOf(ls), TilesOf(ls));
    r := MaxValue(sm.0);
  }

  // ---------------------------------------------------------------------
  // Part two: the scan line

  /** `check_transitions` from column `x`: skip `-`, stop at `noT`, or stop
      at `t` and flip `inside`; anything else, or the end of the row,
      panics. The result is the column after the stop and the new flag. */
  function Transit(row: seq<char>, x: int, inside: bool, noT: char, t: char): (r: Result<(int, bool)>)
    requires 0 <= x <= |row|
    ensures r.Ok? ==> x < r.value.0 <= |row| && row[r.value.0 - 1] in [noT, t]
    ensures r.Ok? ==> forall k | x <= k < r.value.0 - 1 :: row[k] == '-'
    ensures r.Ok? ==> r.value.1 == (if row[r.value.0 - 1] == noT then inside else !inside)
    decreases |row| - x
  {
    if x == |row| then Panic("not possible")
    else if row[x] == noT then Ok((x + 1, inside))
    else if row[x] == t then Ok((x + 1, !inside))
    else if row[x] == '-' then Transit(row, x + 1, inside, noT, t)
    else Panic("not possible")
  }

  /** The corner that closes a run opened by `c` without crossing the loop,
      and the one that crosses it. */
  function Closers(c: char): (char, char)
  {
    if c == 'F' then ('7', 'J') else ('J', '7')
  }

  function Plus(n: nat, r: Result<nat>): Result<nat>
  {
    match r
    case Panic(why) => Panic(why)
    case Ok(m) => Ok(n + m)
  }

  /** The count of the scan of `row` (line `y`) from column `x` on: cells
      off the loop are counted while `inside`; `|` flips `inside`, `F` and `L`
      hand over to `check_transitions`. */
  function Scan(row: seq<char>, loop: set<Pos>, y: int, x: int, inside: bool): Result<nat>
    requires 0 <= x <= |row|
    decreases |row| - x
  {
    if x == |row| then Ok(0)
    else if (x, y) in loop then
      if row[x] == 'F' || row[x] == 'L' then
        match Transit(row, x + 1, inside, Closers(row[x]).0, Closers(row[x]).1)
        case Panic(why) => Panic(why)
        case Ok((x', inside')) => Scan(row, loop, y, x', inside')
      else Scan(row, loop, y, x + 1, if row[x] == '|' then !inside else inside)
    else Plus(if inside then 1 else 0, Scan(row, loop, y, x + 1, inside))
  }

  /** `check_transitions`, on the rest `row` of the line `full` from column
      `x` on. */
  method CheckTransitions(x0: int, row0: seq<char>, inside0: bool, noT: char, t: char, ghost full: seq<char>)
    returns (r: Result<(int, seq<char>, bool)>)
    requires 0 <= x0 <= |full| && row0 == full[x0..]
    ensures var tr := Transit(full, x0, inside0, noT, t);
      && (r.Panic? <==> tr.Panic?)
      && (r.Panic? ==> r.reason == tr.reason)
      && (r.Ok? ==> r.value.0 == tr.value.0 && r.value.2 == tr.value.1 && r.value.1 == full[tr.value.0..])
  {
    var x, row, inside := x0, row0, inside0;
    while true
      invariant 0 <= x <= |full| && row == full[x..]
      invariant Transit(full, x0, inside0, noT, t) == Transit(full, x, inside, noT, t)
      decreases |row|
    {
      if row == [] {
        return Panic("not possible");
      }
      var c := row[0];
      row := row[1..];
      x := x + 1;
      if c == noT {
        return Ok((x, row, inside));
      } else if c == t {
        inside := !inside;
        return Ok((x, row, inside));
      } else if c == '-' {
        continue;
      } else {
        return Panic("not possible");
      }
    }
  }

  /** The `while let` over one row of `part_two`. */
  method ScanRow(cells: seq<char>, loop: set<Pos>, y: int) returns (r: Result<nat>)
    ensures r == Scan(cells, loop, y, 0, false)
  {
    var row := cells;
    var inside := false;
    var x := 0;
    var count := 0;
    while row != []
      invariant 0 <= x <= |cells| && row == cells[x..]
      invariant Scan(cells, loop, y, 0, false) == Plus(count, Scan(cells, loop, y, x, inside))
      decreases |row|
    {
      var c := row[0];
      row := row[1..];
      var current := (x, y);
      x := x + 1;
      if current in loop {
        if c == '|' {
          inside := !inside;
        }
        if c == 'F' || c == 'L' {
          var (noT, t) := Closers(c);
          var after :- CheckTransitions(x, row, inside, noT, t, cells);
          x, row, inside := after.0, after.1, after.2;
        }
      } else if inside {
        count := count + 1;
      }
    }
    return Ok(count);
  }

  // ---------------------------------------------------------------------
  // The scan line counts the enclosed cells

  /** A pipe that reaches the upper edge of its cell. */
  predicate ReachesUp(c: char)
  {
    c == '|' || c == 'L' || c == 'J'
  }

  /** An odd number of loop cells reaching up lie left of column `k`: a ray
      along the upper part of the row has crossed the loop. */
  function Crossed(row: seq<char>, loop: set<Pos>, y: int, k: int): bool
    requires 0 <= k <= |row|
    decreases k
  {
    if k == 0 then false else Crossed(row, loop, y, k - 1) != ((k - 1, y) in loop && ReachesUp(row[k - 1]))
  }

  /** The cells off the loop from column `k` on that the loop encloses. */
  function EnclosedFrom(row: seq<char>, loop: set<Pos>, y: int, k: int): nat
    requires 0 <= k <= |row|
    decreases |row| - k
  {
    if k == |row| then 0
    else (if (k, y) !in loop && Crossed(row, loop, y, k) then 1 else 0) + EnclosedFrom(row, loop, y, k + 1)
  }

  /** A pipe open to the right of its cell. */
  predicate OpensRight(c: char)
  {
    c == 'F' || c == 'L' || c == '-'
  }

  /** A pipe open to the left of its cell. */
  predicate OpensLeft(c: char)
  {
    c == 'J' || c == '7' || c == '-'
  }

  /** The loop is closed along the row: a loop pipe open to the right has a
      loop cell to its right, and one open to the left a loop pipe open to
      the right on its left. */
  predicate Linked(row: seq<char>, loop: set<Pos>, y: int)
  {
    forall i | 0 <= i < |row| :: LinkedCell(row, loop, y, i)
  }

  predicate LinkedCell(row: seq<char>, loop: set<Pos>, y: int, i: int)
    requires 0 <= i < |row|
  {
    (i, y) in loop ==>
      && (OpensRight(row[i]) ==> (i + 1, y) in loop)
      && (OpensLeft(row[i]) ==> i > 0 && (i - 1, y) in loop && OpensRight(row[i - 1]))
  }

  lemma LinkedAt(row: seq<char>, loop: set<Pos>, y: int, i: int)
    requires Linked(row, loop, y) && 0 <= i < |row| && (i, y) in loop
    ensures OpensRight(row[i]) ==> (i + 1, y) in loop
    ensures OpensLeft(row[i]) ==> i > 0 && (i - 1, y) in loop && OpensRight(row[i - 1])
  {
    assert LinkedCell(row, loop, y, i);
  }

  /** A run opened at a loop `F` or `L` ends where it leaves the crossing
      parity right, and passes over no cell off the loop. */
  lemma {:induction false} TransitCrosses(row: seq<char>, loop: set<Pos>, y: int, j: int, inside: bool, c: char)
    requires c == 'F' || c == 'L'
    requires Linked(row, loop, y) && 0 < j <= |row| && (j - 1, y) in loop && OpensRight(row[j - 1])
    requires Crossed(row, loop, y, j) == (inside != (c == 'L'))
    requires Transit(row, j, inside, Closers(c).0, Closers(c).1).Ok?
    ensures var (j', inside') := Transit(row, j, inside, Closers(c).0, Closers(c).1).value;
      inside' == Crossed(row, loop, y, j') && EnclosedFrom(row, loop, y, j') == EnclosedFrom(row, loop, y, j)
    decreases |row| - j
  {
    LinkedAt(row, loop, y, j - 1);
    if row[j] != Closers(c).0 && row[j] != Closers(c).1 {
      TransitCrosses(row, loop, y, j + 1, inside, c);
    }
  }

  /** A cell that is not a loop `F` or `L` is scanned on its own, with the
      crossing parity kept. */
  lemma ScanPlainCell(row: seq<char>, loop: set<Pos>, y: int, x: int)
    requires Linked(row, loop, y) && 0 <= x < |row|
    requires x == 0 || !((x - 1, y) in loop && OpensRight(row[x - 1]))
    requires !((x, y) in loop && (row[x] == 'F' || row[x] == 'L'))
    ensures !((x, y) in loop && OpensRight(row[x]))
    ensures var bit := if (x, y) !in loop && Crossed(row, loop, y, x) then 1 else 0;
      && Scan(row, loop, y, x, Crossed(row, loop, y, x)) == Plus(bit, Scan(row, loop, y, x + 1, Crossed(row, loop, y, x + 1)))
      && EnclosedFrom(row, loop, y, x) == bit + EnclosedFrom(row, loop, y, x + 1)
  {
    if (x, y) in loop {
      LinkedAt(row, loop, y, x);
    }
    assert Crossed(row, loop, y, x + 1) == if (x, y) in loop && row[x] == '|' then !Crossed(row, loop, y, x) else Crossed(row, loop, y, x);
  }

  /** A loop `F` or `L` is scanned together with its run, which ends at
      column `x'` with the crossing parity kept. */
  lemma ScanRun(row: seq<char>, loop: set<Pos>, y: int, x: int) returns (x': int)
    requires Linked(row, loop, y) && 0 <= x < |row| && (x, y) in loop && (row[x] == 'F' || row[x] == 'L')
    requires Scan(row, loop, y, x, Crossed(row, loop, y, x)).Ok?
    ensures x < x' <= |row| && !((x' - 1, y) in loop && OpensRight(row[x' - 1]))
    ensures Scan(row, loop, y, x, Crossed(row, loop, y, x)) == Scan(row, loop, y, x', Crossed(row, loop, y, x'))
    ensures EnclosedFrom(row, loop, y, x) == EnclosedFrom(row, loop, y, x')
  {
    var c := row[x];
    var inside := Crossed(row, loop, y, x);
    TransitCrosses(row, loop, y, x + 1, inside, c);
    var inside';
    x', inside' := Transit(row, x + 1, inside, Closers(c).0, Closers(c).1).value.0, Transit(row, x + 1, inside, Closers(c).0, Closers(c).1).value.1;
  }

  /** The scan counts exactly the cells off the loop with an odd number of
      upward loop cells to their left. */
  lemma {:induction false} ScanEncloses(row: seq<char>, loop: set<Pos>, y: int, x: int)
    requires Linked(row, loop, y) && 0 <= x <= |row|
    requires x == 0 || !((x - 1, y) in loop && OpensRight(row[x - 1]))
    requires Scan(row, loop, y, x, Crossed(row, loop, y, x)).Ok?
    ensures Scan(row, loop, y, x, Crossed(row, loop, y, x)).value == EnclosedFrom(row, loop, y, x)
    decreases |row| - x
  {
    if x < |row| {
      var c := row[x];
      if (x, y) in loop && (c == 'F' || c == 'L') {
        var x' := ScanRun(row, loop, y, x);
        ScanEncloses(row, loop, y, x');
      } else {
        ScanPlainCell(row, loop, y, x);
        ScanEncloses(row, loop, y, x + 1);
      }
    }
  }

  /** The count of one row is the number of cells it has inside the loop. */
  lemma ScanRowEncloses(row: seq<char>, loop: set<Pos>, y: int)
    requires Linked(row, loop, y) && Scan(row, loop, y, 0, false).Ok?
    ensures Scan(row, loop, y, 0, false).value == EnclosedFrom(row, loop, y, 0)
  {
    ScanEncloses(row, loop, y, 0);
  }

  // ---------------------------------------------------------------------
  // Part two

  /** Line `y` of the maze, columns `0..=width`; `None` when a cell is
      missing and the `unwrap` panics. */
  function RowCells(grid: Tiles, width: nat, y: int): (r: Option<seq<char>>)
    ensures r.Some? <==> forall x | 0 <= x <= width :: (x, y) in grid
    ensures r.Some? ==> |r.value| == width + 1 && forall x | 0 <= x <= width :: r.value[x] == grid[(x, y)]
  {
    if forall x | 0 <= x <= width :: (x, y) in grid then Some(seq(width + 1, x requires 0 <= x <= width => grid[(x, y)]))
    else None
  }

  /** The counts of lines `0..k`, or the first panic among them. */
  function CountRows(grid: Tiles, loop: set<Pos>, width: nat, k: int): Result<nat>
    decreases k
  {
    if k <= 0 then Ok(0)
    else match CountRows(grid, loop, width, k - 1)
      case Panic(why) => Panic(why)
      case Ok(n) =>
        match RowCells(grid, width, k - 1)
        case None => Panic("called `Option::unwrap()` on a `None` value")
        case Some(row) => Plus(n, Scan(row, loop, k - 1, 0, false))
  }

  /** The enclosed cells of lines `0..k`, all `width + 1` long. */
  function EnclosedRows(grid: Tiles, loop: set<Pos>, width: nat, k: int): nat
    requires forall y | 0 <= y < k :: RowCells(grid, width, y).Some?
    decreases k
  {
    if k <= 0 then 0
    else EnclosedRows(grid, loop, width, k - 1) + EnclosedFrom(RowCells(grid, width, k - 1).value, loop, k - 1, 0)
  }

  /** Where the loop is closed along every line, part two counts the cells
      inside it. */
  lemma {:induction false} CountRowsEncloses(grid: Tiles, loop: set<Pos>, width: nat, k: int)
    requires forall y | 0 <= y < k :: RowCells(grid, width, y).Some? && Linked(RowCells(grid, width, y).value, loop, y)
    requires CountRows(grid, loop, width, k).Ok?
    ensures CountRows(grid, loop, width, k).value == EnclosedRows(grid, loop, width, k)
    decreases k
  {
    if k > 0 {
      CountRowsEncloses(grid, loop, width, k - 1);
      ScanRowEncloses(RowCells(grid, width, k - 1).value, loop, k - 1);
    }
  }

  /** The maze with `S` replaced by its pipe, when `S` is in it. */
  function Patched(grid: Tiles, start: Pos, piece: char): Tiles
  {
    if start in grid then grid[start := piece] else grid
  }

  /** The lines `0..=height` scanned: one per line, and line 0 when there is
      none. */
  function ScannedRows(ls: seq<string>): nat
  {
    if |ls| == 0 then 1 else |ls|
  }

  /** A panic on one line is the panic of every longer prefix. */
  lemma {:induction false} CountRowsPanicSticks(grid: Tiles, loop: set<Pos>, width: nat, k: int, k': int)
    requires k <= k' && CountRows(grid, loop, width, k).Panic?
    ensures CountRows(grid, loop, width, k') == CountRows(grid, loop, width, k)
    decreases k' - k
  {
    if k < k' {
      CountRowsPanicSticks(grid, loop, width, k, k' - 1);
    }
  }

  /** The loop over the lines of part two. */
  method CountLines(grid: Tiles, loop: set<Pos>, width: nat, rows: nat) returns (r: Result<nat>)
    ensures r == CountRows(grid, loop, width, rows)
  {
    var count := 0;
    for y := 0 to rows
      invariant CountRows(grid, loop, width, y) == Ok(count)
    {
      var row := RowCells(grid, width, y);
      if row.None? {
        CountRowsPanicSticks(grid, loop, width, y + 1, rows);
        return Panic("called `Option::unwrap()` on a `None` value");
      }
      var n := ScanRow(row.value, loop, y);
      if n.Panic? {
        CountRowsPanicSticks(grid, loop, width, y + 1, rows);
        return Panic(n.reason);
      }
      count := count + n.value;
    }
    return Ok(count);
  }

  /** `part_two`. */
  method PartTwo(input: string) returns (r: Result<nat>)
    ensures var ls := Lines(Trim(input));
      match ScoreMapFromStart(StartOf(ls), TilesOf(ls))
      case Panic(why) => r == Panic(why)
      case Ok((scores, piece)) => r == CountRows(Patched(TilesOf(ls), StartOf(ls), piece), scores.Keys, Widest(ls), ScannedRows(ls))
  {
    var ls := Lines(Trim(input));
    var grid := TilesOf(ls);
    var start := StartOf(ls);
    var sm :- GenerateScores(start, grid);
    var (scores, startPiece) := sm;
    if start in grid {
      grid := grid[start := startPiece];
    }
    r := CountLines(grid, scores.Keys, Widest(ls), ScannedRows(ls));
  }
}
