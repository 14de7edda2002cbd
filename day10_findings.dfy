/** Day 10: `previous` is set to the start once, before the loop over the
    neighbours of `S`, so the second walk begins with the last cell of the
    first walk as its `previous` instead of `S`. The second walk then leaves
    its first cell by the first end listed for its pipe whenever that end is
    not the inherited `previous`. When that first end is `S`, as on the
    ring below, the walk steps straight back to `S` and the first walk's
    scores stand alone: on the 8-cell ring the farthest score is 6, not 4.
    When it is not, the second walk goes round the loop and lowers the
    scores, and part one can still be right (the square sample gives 4).
    The corrected walks reset `previous` to `S` for each neighbour. */
module Day10Findings {
  import opened Common
  import opened Day10

  /** A walk that starts at an accepted neighbour of `S` with `previous` at
      `S` records `S` at 0 and leaves the neighbour by its other end, away
      from `S`. */
  lemma FirstStepLeavesStart(grid: Tiles, start: Pos, i: int, fuel: nat, scores: map<Pos, int>)
    requires 0 <= i < |Sides| && Accepts(grid, start, Sides[i]) && fuel > 0
    ensures var n := Offset(start, Sides[i].0);
      && n in grid && Ends(grid[n]).Some?
      && var ends := Ends(grid[n]).value;
      var m := Next(n, ends, start);
      && m != start && (m == Offset(n, ends.0) || m == Offset(n, ends.1))
      && Walk(grid, start, n, 0, fuel, scores) == Walk(grid, n, m, 1, fuel - 1, Record(scores, start, 0))
  {
    var n := Offset(start, Sides[i].0);
    AcceptedMeansConnected(i, grid[n]);
    var ends := Ends(grid[n]).value;
    PipeEnds(grid[n]);
    assert start == Offset(n, Neg(Sides[i].0));
    NextIsOtherEnd(n, ends, start);
  }

  /** A three-by-three loop with `S` in the middle of its top side. */
  const Ring: Tiles := map[(0, 0) := 'F', (1, 0) := 'S', (2, 0) := '7',
                           (0, 1) := '|', (1, 1) := '.', (2, 1) := '|',
                           (0, 2) := 'L', (1, 2) := '-', (2, 2) := 'J']

  /** The cells of `Ring`, as facts the walks below use. */
  predicate RingCells(g: Tiles)
  {
    && (0, 0) in g && g[(0, 0)] == 'F' && (1, 0) in g && g[(1, 0)] == 'S' && (2, 0) in g && g[(2, 0)] == '7'
    && (0, 1) in g && g[(0, 1)] == '|' && (1, 1) in g && g[(1, 1)] == '.' && (2, 1) in g && g[(2, 1)] == '|'
    && (0, 2) in g && g[(0, 2)] == 'L' && (1, 2) in g && g[(1, 2)] == '-' && (2, 2) in g && g[(2, 2)] == 'J'
    && (1, -1) !in g
  }

  lemma RingStart()
    ensures RingCells(Ring)
    ensures Budget(Ring) == 37
  {
    assert |Ring| == 9;
  }

  lemma {:induction false} StartOfRing(g: Tiles)
    requires RingCells(g)
    ensures Accepted(g, (1, 0), Sides) == [(-1, 0), (1, 0)]
    ensures Neighbours((1, 0), [(-1, 0), (1, 0)]) == [(0, 0), (2, 0)]
  {
    AcceptedSides(g, (1, 0));
  }

  /** One step of a walk along the pipe `c`, recording `previous`. The
      three cases of the record: a new cell, a lower score, no change. */
  lemma StepNew(g: Tiles, previous: Pos, current: Pos, c: char, score: int, fuel: nat, rest: nat, scores: map<Pos, int>, next: Pos)
    requires current in g && g[current] == c && c != 'S' && Ends(c).Some? && fuel == rest + 1
    requires Next(current, Ends(c).value, previous) == next && previous !in scores
    ensures Walk(g, previous, current, score, fuel, scores) == Walk(g, current, next, score + 1, rest, scores[previous := score])
  {
  }

  lemma StepLower(g: Tiles, previous: Pos, current: Pos, c: char, score: int, fuel: nat, rest: nat, scores: map<Pos, int>, next: Pos)
    requires current in g && g[current] == c && c != 'S' && Ends(c).Some? && fuel == rest + 1
    requires Next(current, Ends(c).value, previous) == next && previous in scores && score <= scores[previous]
    ensures Walk(g, previous, current, score, fuel, scores) == Walk(g, current, next, score + 1, rest, scores[previous := score])
  {
  }

  lemma StepHigher(g: Tiles, previous: Pos, current: Pos, c: char, score: int, fuel: nat, rest: nat, scores: map<Pos, int>, next: Pos)
    requires current in g && g[current] == c && c != 'S' && Ends(c).Some? && fuel == rest + 1
    requires Next(current, Ends(c).value, previous) == next && previous in scores && scores[previous] <= score
    ensures Walk(g, previous, current, score, fuel, scores) == Walk(g, current, next, score + 1, rest, scores)
  {
    assert scores[previous := scores[previous]] == scores;
  }

  /** A walk that has reached `S` is over. */
  lemma Arrived(g: Tiles, previous: Pos, current: Pos, score: int, fuel: nat, scores: map<Pos, int>)
    requires current in g && g[current] == 'S'
    ensures Walk(g, previous, current, score, fuel, scores) == Ok((scores, previous))
  {
  }

  // The first walk round `Ring`, from the left neighbour of `S`: once round
  // the loop, one way, ending with `previous` at the right neighbour. The
  // walk is taken a few steps per lemma, for any scores `m` it starts from;
  // the suffixes `A` and `B` name the two halves of the lemma they extend.

  lemma FirstWalkFromAA(g: Tiles, fuel: nat, rest: nat, m: map<Pos, int>)
    requires RingCells(g) && fuel == rest + 2
    requires (1, 0) !in m && (0, 0) !in m
    ensures Walk(g, (1, 0), (0, 0), 0, fuel, m) == Walk(g, (0, 1), (0, 2), 2, rest, m[(1, 0) := 0][(0, 0) := 1])
  {
    StepNew(g, (1, 0), (0, 0), 'F', 0, rest + 2, rest + 1, m, (0, 1));
    StepNew(g, (0, 0), (0, 1), '|', 1, rest + 1, rest, m[(1, 0) := 0], (0, 2));
  }

  lemma FirstWalkFromAB(g: Tiles, fuel: nat, rest: nat, m: map<Pos, int>)
    requires RingCells(g) && fuel == rest + 2
    requires (0, 1) !in m && (0, 2) !in m
    ensures Walk(g, (0, 1), (0, 2), 2, fuel, m[(1, 0) := 0][(0, 0) := 1]) == Walk(g, (1, 2), (2, 2), 4, rest, m[(1, 0) := 0][(0, 0) := 1][(0, 1) := 2][(0, 2) := 3])
  {
    StepNew(g, (0, 1), (0, 2), 'L', 2, rest + 2, rest + 1, m[(1, 0) := 0][(0, 0) := 1], (1, 2));
    StepNew(g, (0, 2), (1, 2), '-', 3, rest + 1, rest, m[(1, 0) := 0][(0, 0) := 1][(0, 1) := 2], (2, 2));
  }

  lemma FirstWalkFromA(g: Tiles, fuel: nat, rest: nat, m: map<Pos, int>)
    requires RingCells(g) && fuel == rest + 4
    requires (1, 0) !in m && (0, 0) !in m && (0, 1) !in m && (0, 2) !in m
    ensures Walk(g, (1, 0), (0, 0), 0, fuel, m) == Walk(g, (1, 2), (2, 2), 4, rest, m[(1, 0) := 0][(0, 0) := 1][(0, 1) := 2][(0, 2) := 3])
  {
    FirstWalkFromAA(g, fuel, rest + 2, m);
    FirstWalkFromAB(g, rest + 2, rest, m);
  }

  lemma FirstWalkFromBA(g: Tiles, fuel: nat, rest: nat, m: map<Pos, int>)
    requires RingCells(g) && fuel == rest + 2
    requires (1, 2) !in m && (2, 2) !in m
    ensures Walk(g, (1, 2), (2, 2), 4, fuel, m[(1, 0) := 0][(0, 0) := 1][(0, 1) := 2][(0, 2) := 3]) == Walk(g, (2, 1), (2, 0), 6, rest, m[(1, 0) := 0][(0, 0) := 1][(0, 1) := 2][(0, 2) := 3][(1, 2) := 4][(2, 2) := 5])
  {
    StepNew(g, (1, 2), (2, 2), 'J', 4, rest + 2, rest + 1, m[(1, 0) := 0][(0, 0) := 1][(0, 1) := 2][(0, 2) := 3], (2, 1));
    StepNew(g, (2, 2), (2, 1), '|', 5, rest + 1, rest, m[(1, 0) := 0][(0, 0) := 1][(0, 1) := 2][(0, 2) := 3][(1, 2) := 4], (2, 0));
  }

  lemma FirstWalkFromBB(g: Tiles, fuel: nat, rest: nat, m: map<Pos, int>)
    requires RingCells(g) && fuel == rest + 1
    requires (2, 1) !in m
    ensures Walk(g, (2, 1), (2, 0), 6, fuel, m[(1, 0) := 0][(0, 0) := 1][(0, 1) := 2][(0, 2) := 3][(1, 2) := 4][(2, 2) := 5]) == Ok((m[(1, 0) := 0][(0, 0) := 1][(0, 1) := 2][(0, 2) := 3][(1, 2) := 4][(2, 2) := 5][(2, 1) := 6], (2, 0)))
  {
    StepNew(g, (2, 1), (2, 0), '7', 6, rest + 1, rest, m[(1, 0) := 0][(0, 0) := 1][(0, 1) := 2][(0, 2) := 3][(1, 2) := 4][(2, 2) := 5], (1, 0));
    Arrived(g, (2, 0), (1, 0), 7, rest, m[(1, 0) := 0][(0, 0) := 1][(0, 1) := 2][(0, 2) := 3][(1, 2) := 4][(2, 2) := 5][(2, 1) := 6]);
  }

  lemma FirstWalkFromB(g: Tiles, fuel: nat, rest: nat, m: map<Pos, int>)
    requires RingCells(g) && fuel == rest + 3
    requires (1, 2) !in m && (2, 2) !in m && (2, 1) !in m
    ensures Walk(g, (1, 2), (2, 2), 4, fuel, m[(1, 0) := 0][(0, 0) := 1][(0, 1) := 2][(0, 2) := 3]) == Ok((m[(1, 0) := 0][(0, 0) := 1][(0, 1) := 2][(0, 2) := 3][(1, 2) := 4][(2, 2) := 5][(2, 1) := 6], (2, 0)))
  {
    FirstWalkFromBA(g, fuel, rest + 1, m);
    FirstWalkFromBB(g, rest + 1, rest, m);
  }

  lemma FirstWalkFrom(g: Tiles, fuel: nat, rest: nat, m: map<Pos, int>)
    requires RingCells(g) && fuel == rest + 7
    requires (1, 0) !in m && (0, 0) !in m && (0, 1) !in m && (0, 2) !in m && (1, 2) !in m && (2, 2) !in m && (2, 1) !in m
    ensures Walk(g, (1, 0), (0, 0), 0, fuel, m) == Ok((m[(1, 0) := 0][(0, 0) := 1][(0, 1) := 2][(0, 2) := 3][(1, 2) := 4][(2, 2) := 5][(2, 1) := 6], (2, 0)))
  {
    FirstWalkFromA(g, fuel, rest + 3, m);
    FirstWalkFromB(g, rest + 3, rest, m);
  }

  /** The first walk, from the left neighbour of `S`. */
  lemma FirstWalk(g: Tiles, fuel: nat, rest: nat)
    requires RingCells(g) && fuel == rest + 7
    ensures Walk(g, (1, 0), (0, 0), 0, fuel, map[]) == Ok((map[(1, 0) := 0, (0, 0) := 1, (0, 1) := 2, (0, 2) := 3, (1, 2) := 4, (2, 2) := 5, (2, 1) := 6], (2, 0)))
  {
    FirstWalkFrom(g, fuel, rest, map[]);
  }

  // As written, the second walk starts at the right neighbour with
  // `previous` on that same cell, steps back to `S` at once and records the
  // neighbour at 0.

  lemma AsWrittenSecondFrom(g: Tiles, fuel: nat, rest: nat, m: map<Pos, int>)
    requires RingCells(g) && fuel == rest + 1
    requires (2, 0) !in m
    ensures Walk(g, (2, 0), (2, 0), 0, fuel, m) == Ok((m[(2, 0) := 0], (2, 0)))
  {
    StepNew(g, (2, 0), (2, 0), '7', 0, rest + 1, rest, m, (1, 0));
    Arrived(g, (2, 0), (1, 0), 1, rest, m[(2, 0) := 0]);
  }

  /** The second walk as written, from the right neighbour with `previous` on
      that same cell. */
  lemma AsWrittenSecond(g: Tiles, fuel: nat, rest: nat)
    requires RingCells(g) && fuel == rest + 1
    ensures Walk(g, (2, 0), (2, 0), 0, fuel, map[(1, 0) := 0, (0, 0) := 1, (0, 1) := 2, (0, 2) := 3, (1, 2) := 4, (2, 2) := 5, (2, 1) := 6]) == Ok((map[(1, 0) := 0, (0, 0) := 1, (0, 1) := 2, (0, 2) := 3, (1, 2) := 4, (2, 2) := 5, (2, 1) := 6, (2, 0) := 0], (2, 0)))
  {
    AsWrittenSecondFrom(g, fuel, rest, map[(1, 0) := 0, (0, 0) := 1, (0, 1) := 2, (0, 2) := 3, (1, 2) := 4, (2, 2) := 5, (2, 1) := 6]);
  }

  lemma {:induction false} AsWrittenAll(g: Tiles)
    requires RingCells(g) && Budget(g) >= 8
    ensures WalkAll(g, (1, 0), [(0, 0), (2, 0)], map[]) == Ok(map[(1, 0) := 0, (0, 0) := 1, (0, 1) := 2, (0, 2) := 3, (1, 2) := 4, (2, 2) := 5, (2, 1) := 6, (2, 0) := 0])
  {
    FirstWalk(g, Budget(g), Budget(g) - 7);
    AsWrittenSecond(g, Budget(g), Budget(g) - 1);
    assert [(0, 0), (2, 0)][1..] == [(2, 0)];
  }

  /** As written, on any maze with `Ring`'s cells. */
  lemma {:induction false} AsWrittenWalks(g: Tiles)
    requires RingCells(g) && Budget(g) >= 8
    ensures ScoreMap((1, 0), g) == Ok((map[(1, 0) := 0, (0, 0) := 1, (0, 1) := 2, (0, 2) := 3, (1, 2) := 4, (2, 2) := 5, (2, 1) := 6, (2, 0) := 0], '-'))
  {
    StartOfRing(g);
    AsWrittenAll(g);
  }

  lemma AsWrittenRingLargest()
    ensures IsLargest(map[(1, 0) := 0, (0, 0) := 1, (0, 1) := 2, (0, 2) := 3, (1, 2) := 4, (2, 2) := 5, (2, 1) := 6, (2, 0) := 0], 6)
  {
    var final := map[(1, 0) := 0, (0, 0) := 1, (0, 1) := 2, (0, 2) := 3, (1, 2) := 4, (2, 2) := 5, (2, 1) := 6, (2, 0) := 0];
    assert final[(2, 1)] in final.Values;
  }

  /** As written the largest score on `Ring` is 6, on a loop of 8 cells. */
  lemma AsWrittenRing()
    ensures ScoreMap((1, 0), Ring) == Ok((map[(1, 0) := 0, (0, 0) := 1, (0, 1) := 2, (0, 2) := 3, (1, 2) := 4, (2, 2) := 5, (2, 1) := 6, (2, 0) := 0], '-'))
    ensures IsLargest(map[(1, 0) := 0, (0, 0) := 1, (0, 1) := 2, (0, 2) := 3, (1, 2) := 4, (2, 2) := 5, (2, 1) := 6, (2, 0) := 0], 6)
  {
    RingStart();
    AsWrittenWalks(Ring);
    AsWrittenRingLargest();
  }

  // Corrected, the second walk goes the whole way round the other way.

  lemma SecondWalkFromAAA(g: Tiles, fuel: nat, rest: nat, m: map<Pos, int>)
    requires RingCells(g) && fuel == rest + 1
    requires (1, 0) in m && m[(1, 0)] <= 0
    ensures Walk(g, (1, 0), (2, 0), 0, fuel, m) == Walk(g, (2, 0), (2, 1), 1, rest, m)
  {
    StepHigher(g, (1, 0), (2, 0), '7', 0, rest + 1, rest, m, (2, 1));
  }

  lemma SecondWalkFromAAB(g: Tiles, fuel: nat, rest: nat, m: map<Pos, int>)
    requires RingCells(g) && fuel == rest + 1
    requires (2, 0) !in m
    ensures Walk(g, (2, 0), (2, 1), 1, fuel, m) == Walk(g, (2, 1), (2, 2), 2, rest, m[(2, 0) := 1])
  {
    StepNew(g, (2, 0), (2, 1), '|', 1, rest + 1, rest, m, (2, 2));
  }

  lemma SecondWalkFromAA(g: Tiles, fuel: nat, rest: nat, m: map<Pos, int>)
    requires RingCells(g) && fuel == rest + 2
    requires (1, 0) in m && m[(1, 0)] <= 0 && (2, 0) !in m
    ensures Walk(g, (1, 0), (2, 0), 0, fuel, m) == Walk(g, (2, 1), (2, 2), 2, rest, m[(2, 0) := 1])
  {
    SecondWalkFromAAA(g, fuel, rest + 1, m);
    SecondWalkFromAAB(g, rest + 1, rest, m);
  }

  lemma SecondWalkFromABA(g: Tiles, fuel: nat, rest: nat, m: map<Pos, int>)
    requires RingCells(g) && fuel == rest + 1
    requires (2, 1) in m && 2 <= m[(2, 1)]
    ensures Walk(g, (2, 1), (2, 2), 2, fuel, m[(2, 0) := 1]) == Walk(g, (2, 2), (1, 2), 3, rest, m[(2, 0) := 1][(2, 1) := 2])
  {
    StepLower(g, (2, 1), (2, 2), 'J', 2, rest + 1, rest, m[(2, 0) := 1], (1, 2));
  }

  lemma SecondWalkFromABB(g: Tiles, fuel: nat, rest: nat, m: map<Pos, int>)
    requires RingCells(g) && fuel == rest + 1
    requires (2, 2) in m && 3 <= m[(2, 2)]
    ensures Walk(g, (2, 2), (1, 2), 3, fuel, m[(2, 0) := 1][(2, 1) := 2]) == Walk(g, (1, 2), (0, 2), 4, rest, m[(2, 0) := 1][(2, 1) := 2][(2, 2) := 3])
  {
    StepLower(g, (2, 2), (1, 2), '-', 3, rest + 1, rest, m[(2, 0) := 1][(2, 1) := 2], (0, 2));
  }

  lemma SecondWalkFromAB(g: Tiles, fuel: nat, rest: nat, m: map<Pos, int>)
    requires RingCells(g) && fuel == rest + 2
    requires (2, 1) in m && 2 <= m[(2, 1)] && (2, 2) in m && 3 <= m[(2, 2)]
    ensures Walk(g, (2, 1), (2, 2), 2, fuel, m[(2, 0) := 1]) == Walk(g, (1, 2), (0, 2), 4, rest, m[(2, 0) := 1][(2, 1) := 2][(2, 2) := 3])
  {
    SecondWalkFromABA(g, fuel, rest + 1, m);
    SecondWalkFromABB(g, rest + 1, rest, m);
  }

  lemma SecondWalkFromA(g: Tiles, fuel: nat, rest: nat, m: map<Pos, int>)
    requires RingCells(g) && fuel == rest + 4
    requires (1, 0) in m && m[(1, 0)] <= 0 && (2, 0) !in m && (2, 1) in m && 2 <= m[(2, 1)] && (2, 2) in m && 3 <= m[(2, 2)]
    ensures Walk(g, (1, 0), (2, 0), 0, fuel, m) == Walk(g, (1, 2), (0, 2), 4, rest, m[(2, 0) := 1][(2, 1) := 2][(2, 2) := 3])
  {
    SecondWalkFromAA(g, fuel, rest + 2, m);
    SecondWalkFromAB(g, rest + 2, rest, m);
  }

  lemma SecondWalkFromBAA(g: Tiles, fuel: nat, rest: nat, m: map<Pos, int>)
    requires RingCells(g) && fuel == rest + 1
    requires (1, 2) in m && m[(1, 2)] <= 4
    ensures Walk(g, (1, 2), (0, 2), 4, fuel, m[(2, 0) := 1][(2, 1) := 2][(2, 2) := 3]) == Walk(g, (0, 2), (0, 1), 5, rest, m[(2, 0) := 1][(2, 1) := 2][(2, 2) := 3])
  {
    StepHigher(g, (1, 2), (0, 2), 'L', 4, rest + 1, rest, m[(2, 0) := 1][(2, 1) := 2][(2, 2) := 3], (0, 1));
  }

  lemma SecondWalkFromBAB(g: Tiles, fuel: nat, rest: nat, m: map<Pos, int>)
    requires RingCells(g) && fuel == rest + 1
    requires (0, 2) in m && m[(0, 2)] <= 5
    ensures Walk(g, (0, 2), (0, 1), 5, fuel, m[(2, 0) := 1][(2, 1) := 2][(2, 2) := 3]) == Walk(g, (0, 1), (0, 0), 6, rest, m[(2, 0) := 1][(2, 1) := 2][(2, 2) := 3])
  {
    StepHigher(g, (0, 2), (0, 1), '|', 5, rest + 1, rest, m[(2, 0) := 1][(2, 1) := 2][(2, 2) := 3], (0, 0));
  }

  lemma SecondWalkFromBA(g: Tiles, fuel: nat, rest: nat, m: map<Pos, int>)
    requires RingCells(g) && fuel == rest + 2
    requires (1, 2) in m && m[(1, 2)] <= 4 && (0, 2) in m && m[(0, 2)] <= 5
    ensures Walk(g, (1, 2), (0, 2), 4, fuel, m[(2, 0) := 1][(2, 1) := 2][(2, 2) := 3]) == Walk(g, (0, 1), (0, 0), 6, rest, m[(2, 0) := 1][(2, 1) := 2][(2, 2) := 3])
  {
    SecondWalkFromBAA(g, fuel, rest + 1, m);
    SecondWalkFromBAB(g, rest + 1, rest, m);
  }

  lemma SecondWalkFromBB(g: Tiles, fuel: nat, rest: nat, m: map<Pos, int>)
    requires RingCells(g) && fuel == rest + 1
    requires (0, 1) in m && m[(0, 1)] <= 6
    ensures Walk(g, (0, 1), (0, 0), 6, fuel, m[(2, 0) := 1][(2, 1) := 2][(2, 2) := 3]) == Ok((m[(2, 0) := 1][(2, 1) := 2][(2, 2) := 3], (0, 0)))
  {
    StepHigher(g, (0, 1), (0, 0), 'F', 6, rest + 1, rest, m[(2, 0) := 1][(2, 1) := 2][(2, 2) := 3], (1, 0));
    Arrived(g, (0, 0), (1, 0), 7, rest, m[(2, 0) := 1][(2, 1) := 2][(2, 2) := 3]);
  }

  lemma SecondWalkFromB(g: Tiles, fuel: nat, rest: nat, m: map<Pos, int>)
    requires RingCells(g) && fuel == rest + 3
    requires (1, 2) in m && m[(1, 2)] <= 4 && (0, 2) in m && m[(0, 2)] <= 5 && (0, 1) in m && m[(0, 1)] <= 6
    ensures Walk(g, (1, 2), (0, 2), 4, fuel, m[(2, 0) := 1][(2, 1) := 2][(2, 2) := 3]) == Ok((m[(2, 0) := 1][(2, 1) := 2][(2, 2) := 3], (0, 0)))
  {
    SecondWalkFromBA(g, fuel, rest + 1, m);
    SecondWalkFromBB(g, rest + 1, rest, m);
  }

  lemma SecondWalkFrom(g: Tiles, fuel: nat, rest: nat, m: map<Pos, int>)
    requires RingCells(g) && fuel == rest + 7
    requires (1, 0) in m && m[(1, 0)] <= 0 && (2, 0) !in m && (2, 1) in m && 2 <= m[(2, 1)] && (2, 2) in m && 3 <= m[(2, 2)] && (1, 2) in m && m[(1, 2)] <= 4 && (0, 2) in m && m[(0, 2)] <= 5 && (0, 1) in m && m[(0, 1)] <= 6
    ensures Walk(g, (1, 0), (2, 0), 0, fuel, m) == Ok((m[(2, 0) := 1][(2, 1) := 2][(2, 2) := 3], (0, 0)))
  {
    SecondWalkFromA(g, fuel, rest + 3, m);
    SecondWalkFromB(g, rest + 3, rest, m);
  }

  /** The corrected second walk, from the right neighbour of `S`. */
  lemma SecondWalk(g: Tiles, fuel: nat, rest: nat)
    requires RingCells(g) && fuel == rest + 7
    ensures Walk(g, (1, 0), (2, 0), 0, fuel, map[(1, 0) := 0, (0, 0) := 1, (0, 1) := 2, (0, 2) := 3, (1, 2) := 4, (2, 2) := 5, (2, 1) := 6]) == Ok((map[(1, 0) := 0, (0, 0) := 1, (0, 1) := 2, (0, 2) := 3, (1, 2) := 4, (2, 2) := 3, (2, 1) := 2, (2, 0) := 1], (0, 0)))
  {
    SecondWalkFrom(g, fuel, rest, map[(1, 0) := 0, (0, 0) := 1, (0, 1) := 2, (0, 2) := 3, (1, 2) := 4, (2, 2) := 5, (2, 1) := 6]);
    assert map[(1, 0) := 0, (0, 0) := 1, (0, 1) := 2, (0, 2) := 3, (1, 2) := 4, (2, 2) := 5, (2, 1) := 6, (2, 0) := 1, (2, 1) := 2, (2, 2) := 3] == map[(1, 0) := 0, (0, 0) := 1, (0, 1) := 2, (0, 2) := 3, (1, 2) := 4, (2, 2) := 3, (2, 1) := 2, (2, 0) := 1];
  }

  lemma {:induction false} CorrectedAll(g: Tiles)
    requires RingCells(g) && Budget(g) >= 8
    ensures WalkEach(g, (1, 0), [(0, 0), (2, 0)], map[]) == Ok(map[(1, 0) := 0, (0, 0) := 1, (0, 1) := 2, (0, 2) := 3, (1, 2) := 4, (2, 2) := 3, (2, 1) := 2, (2, 0) := 1])
  {
    FirstWalk(g, Budget(g), Budget(g) - 7);
    SecondWalk(g, Budget(g), Budget(g) - 7);
    assert [(0, 0), (2, 0)][1..] == [(2, 0)];
  }

  /** Corrected, on any maze with `Ring`'s cells: every cell keeps its
      distance from `S` along the shorter way. */
  lemma {:induction false} CorrectedWalks(g: Tiles)
    requires RingCells(g) && Budget(g) >= 8
    ensures ScoreMapFromStart((1, 0), g) == Ok((map[(1, 0) := 0, (0, 0) := 1, (0, 1) := 2, (0, 2) := 3, (1, 2) := 4, (2, 2) := 3, (2, 1) := 2, (2, 0) := 1], '-'))
  {
    StartOfRing(g);
    CorrectedAll(g);
  }

  lemma CorrectedRingLargest()
    ensures IsLargest(map[(1, 0) := 0, (0, 0) := 1, (0, 1) := 2, (0, 2) := 3, (1, 2) := 4, (2, 2) := 3, (2, 1) := 2, (2, 0) := 1], 4)
  {
    var final := map[(1, 0) := 0, (0, 0) := 1, (0, 1) := 2, (0, 2) := 3, (1, 2) := 4, (2, 2) := 3, (2, 1) := 2, (2, 0) := 1];
    assert final[(1, 2)] in final.Values;
  }

  /** Corrected, the largest score on `Ring` is 4, half the loop. */
  lemma CorrectedRing()
    ensures ScoreMapFromStart((1, 0), Ring) == Ok((map[(1, 0) := 0, (0, 0) := 1, (0, 1) := 2, (0, 2) := 3, (1, 2) := 4, (2, 2) := 3, (2, 1) := 2, (2, 0) := 1], '-'))
    ensures IsLargest(map[(1, 0) := 0, (0, 0) := 1, (0, 1) := 2, (0, 2) := 3, (1, 2) := 4, (2, 2) := 3, (2, 1) := 2, (2, 0) := 1], 4)
  {
    RingStart();
    CorrectedWalks(Ring);
    CorrectedRingLargest();
  }
}
