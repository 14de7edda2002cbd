/** Hot springs (src/bin/12.rs): each row is a record of springs, `#`
    damaged, `.` operational, `?` unknown, and the sizes of the groups of
    damaged springs; `solve1` counts the ways of filling in the unknowns. */
module Day12 {
  import opened Common

  // ---------------------------------------------------------------------
  // The counting recursion

  /** `solve1(records, counts, num_in_group)`: the arrangements of the rest of
      the record, with a group of `g` damaged springs already open. An
      unknown spring is tried first as operational, then as damaged. */
  function Solve1(records: string, counts: seq<nat>, g: nat): nat
    decreases |records|, 1
  {
    if records == [] then (if counts == [] && g == 0 then 1 else 0)
    else if records[0] == '?' then Branch('.', records[1..], counts, g) + Branch('#', records[1..], counts, g)
    else Branch(records[0], records[1..], counts, g)
  }

  /** One pass of the `for c in next` loop: the first spring taken to be
      `c`. A damaged spring extends the open group; any other spring closes
      it, which is only allowed when it is exactly the next expected size. */
  function Branch(c: char, rest: string, counts: seq<nat>, g: nat): nat
    decreases |rest| + 1, 0
  {
    if c == '#' then Solve1(rest, counts, g + 1)
    else if g > 0 then
      (if counts != [] && counts[0] == g then Solve1(rest, counts[1..], 0) else 0)
    else Solve1(rest, counts, 0)
  }

  // ---------------------------------------------------------------------
  // The reference count: completions whose groups are the expected ones

  /** `a` is `r` with every unknown filled in as `.` or `#`. */
  predicate Fills(a: string, r: string)
  {
    |a| == |r| && forall i | 0 <= i < |r| ::
      if r[i] == '?' then a[i] == '.' || a[i] == '#' else a[i] == r[i]
  }

  function Prefixed(c: char, xs: seq<string>): (ys: seq<string>)
    ensures |ys| == |xs| && forall i | 0 <= i < |xs| :: ys[i] == [c] + xs[i]
  {
    seq(|xs|, i requires 0 <= i < |xs| => [c] + xs[i])
  }

  /** No string occurs twice in `xs`. */
  predicate Distinct(xs: seq<string>)
  {
    forall i, j | 0 <= i < j < |xs| :: xs[i] != xs[j]
  }

  lemma PrefixedDistinct(c: char, xs: seq<string>)
    requires Distinct(xs)
    ensures Distinct(Prefixed(c, xs))
  {
    var ys := Prefixed(c, xs);
    forall i, j | 0 <= i < j < |ys| ensures ys[i] != ys[j] {
      assert ys[i][1..] == xs[i] && ys[j][1..] == xs[j];
    }
  }

  /** Strings that start with '.' never meet strings that start with '#'. */
  lemma SplitDistinct(xs: seq<string>)
    requires Distinct(xs)
    ensures Distinct(Prefixed('.', xs) + Prefixed('#', xs))
  {
    var dots, hashes := Prefixed('.', xs), Prefixed('#', xs);
    PrefixedDistinct('.', xs);
    PrefixedDistinct('#', xs);
    var ys := dots + hashes;
    forall i, j | 0 <= i < j < |ys| ensures ys[i] != ys[j] {
      if j < |dots| {
        assert ys[i] == dots[i] && ys[j] == dots[j];
      } else if i >= |dots| {
        assert ys[i] == hashes[i - |dots|] && ys[j] == hashes[j - |dots|];
      } else {
        assert ys[i][0] == '.' && ys[j][0] == '#';
      }
    }
  }

  /** Every way of filling in the unknowns of `r`, each once. */
  function Completions(r: string): (cs: seq<string>)
    ensures forall i | 0 <= i < |cs| :: Fills(cs[i], r)
    ensures Distinct(cs)
    decreases |r|
  {
    if r == [] then [[]]
    else
      var rest := Completions(r[1..]);
      if r[0] == '?' then
        SplitDistinct(rest);
        Prefixed('.', rest) + Prefixed('#', rest)
      else
        PrefixedDistinct(r[0], rest);
        Prefixed(r[0], rest)
  }

  /** Every filling of the unknowns is among the completions. */
  lemma {:induction false} CompletionsComplete(a: string, r: string)
    requires Fills(a, r)
    ensures a in Completions(r)
    decreases |r|
  {
    if r != [] {
      FillsTail(a, r);
      CompletionsComplete(a[1..], r[1..]);
      var rest := Completions(r[1..]);
      PrefixedIn(a[0], rest, a[1..]);
      assert a == [a[0]] + a[1..];
    }
  }

  lemma FillsTail(a: string, r: string)
    requires Fills(a, r) && r != []
    ensures Fills(a[1..], r[1..]) && (if r[0] == '?' then a[0] == '.' || a[0] == '#' else a[0] == r[0])
  {
    assert forall i | 0 <= i < |r| - 1 :: a[1..][i] == a[i + 1] && r[1..][i] == r[i + 1];
  }

  lemma PrefixedIn(c: char, xs: seq<string>, x: string)
    requires x in xs
    ensures [c] + x in Prefixed(c, xs)
  {
    var i :| 0 <= i < |xs| && xs[i] == x;
    assert Prefixed(c, xs)[i] == [c] + x;
  }

  /** The group sizes a filled-in row shows to `solve1`, which closes a group
      only at a following non-damaged spring: `None` when the row ends in an
      open group. */
  function Runs(a: string, g: nat): Option<seq<nat>>
    decreases |a|
  {
    if a == [] then (if g == 0 then Some([]) else None)
    else if a[0] == '#' then Runs(a[1..], g + 1)
    else if g > 0 then
      match Runs(a[1..], 0)
      case Some(l) => Some([g] + l)
      case None => None
    else Runs(a[1..], 0)
  }

  /** The sizes of the maximal groups of damaged springs, the last one
      included. */
  function Groups(a: string, g: nat): seq<nat>
    decreases |a|
  {
    if a == [] then (if g > 0 then [g] else [])
    else if a[0] == '#' then Groups(a[1..], g + 1)
    else (if g > 0 then [g] else []) + Groups(a[1..], 0)
  }

  /** The trailing `.` the callers append closes the last group, so that
      `solve1` sees exactly the groups of the row. */
  lemma {:induction false} TrailingDotCloses(a: string, g: nat)
    ensures Runs(a + ".", g) == Some(Groups(a, g))
    decreases |a|
  {
    if a == [] {
      assert a + "." == "." && "."[0] == '.' && "."[1..] == [];
      assert Runs([], 0) == Some([]) && [g] + [] == [g];
    } else {
      assert (a + ".")[0] == a[0] && (a + ".")[1..] == a[1..] + ".";
      TrailingDotCloses(a[1..], if a[0] == '#' then g + 1 else 0);
      if a[0] != '#' && g == 0 {
        assert Groups(a, g) == [] + Groups(a[1..], 0) == Groups(a[1..], 0);
      }
    }
  }

  function Matches(a: string, counts: seq<nat>, g: nat): nat
  {
    if Runs(a, g) == Some(counts) then 1 else 0
  }

  /** How many of `xs` show exactly the groups `counts`. */
  function CountMatches(xs: seq<string>, counts: seq<nat>, g: nat): nat
  {
    if xs == [] then 0 else Matches(xs[0], counts, g) + CountMatches(xs[1..], counts, g)
  }

  lemma {:induction false} CountConcat(xs: seq<string>, ys: seq<string>, counts: seq<nat>, g: nat)
    ensures CountMatches(xs + ys, counts, g) == CountMatches(xs, counts, g) + CountMatches(ys, counts, g)
  {
    if xs == [] {
      assert xs + ys == ys;
    } else {
      assert (xs + ys)[1..] == xs[1..] + ys;
      CountConcat(xs[1..], ys, counts, g);
    }
  }

  /** Putting `c` in front of every row does what one branch of `solve1`
      does to the expected groups. */
  lemma {:induction false} CountPrefixed(c: char, xs: seq<string>, counts: seq<nat>, g: nat)
    ensures CountMatches(Prefixed(c, xs), counts, g) ==
      if c == '#' then CountMatches(xs, counts, g + 1)
      else if g > 0 then (if counts != [] && counts[0] == g then CountMatches(xs, counts[1..], 0) else 0)
      else CountMatches(xs, counts, 0)
  {
    if xs != [] {
      var a := xs[0];
      assert ([c] + a)[1..] == a;
      assert Prefixed(c, xs)[1..] == Prefixed(c, xs[1..]);
      CountPrefixed(c, xs[1..], counts, g);
      if c != '#' && g > 0 {
        if counts != [] && counts[0] == g {
          assert counts == [g] + counts[1..];
        }
      }
    }
  }

  /** `solve1` counts exactly the completions of the record whose groups, as
      it reads them, are `counts`. */
  lemma {:induction false} Solve1Counts(r: string, counts: seq<nat>, g: nat)
    ensures Solve1(r, counts, g) == CountMatches(Completions(r), counts, g)
    decreases |r|
  {
    if r == [] {
      assert CountMatches([[]], counts, g) == Matches([], counts, g);
    } else {
      var rest := r[1..];
      var cs := Completions(rest);
      Solve1Counts(rest, counts, g + 1);
      Solve1Counts(rest, counts, 0);
      if counts != [] {
        Solve1Counts(rest, counts[1..], 0);
      }
      if r[0] == '?' {
        CountConcat(Prefixed('.', cs), Prefixed('#', cs), counts, g);
        CountPrefixed('.', cs, counts, g);
        CountPrefixed('#', cs, counts, g);
      } else {
        CountPrefixed(r[0], cs, counts, g);
      }
    }
  }

  /** For a record closed by the trailing `.`, a completion is counted
      exactly when its groups of damaged springs are `counts`. */
  lemma ClosedRecordCounts(r: string, counts: seq<nat>)
    ensures Solve1(r + ".", counts, 0) == CountMatches(Completions(r + "."), counts, 0)
    ensures forall a | Fills(a, r) :: a + "." in Completions(r + ".") && Runs(a + ".", 0) == Some(Groups(a, 0))
  {
    Solve1Counts(r + ".", counts, 0);
    forall a | Fills(a, r)
      ensures a + "." in Completions(r + ".") && Runs(a + ".", 0) == Some(Groups(a, 0))
    {
      assert Fills(a + ".", r + ".");
      CompletionsComplete(a + ".", r + ".");
      TrailingDotCloses(a, 0);
    }
  }

  /** A row with no unknowns has one arrangement if its groups are `counts`
      and none otherwise. */
  lemma KnownRow(a: string, counts: seq<nat>)
    requires '?' !in a
    ensures Solve1(a + ".", counts, 0) == if Groups(a, 0) == counts then 1 else 0
  {
    var r := a + ".";
    assert '?' !in r;
    Solve1Counts(r, counts, 0);
    CompletionsOfKnown(r);
    TrailingDotCloses(a, 0);
    assert CountMatches([r], counts, 0) == Matches(r, counts, 0);
  }

  lemma {:induction false} CompletionsOfKnown(r: string)
    requires '?' !in r
    ensures Completions(r) == [r]
    decreases |r|
  {
    if r != [] {
      assert '?' !in r[1..];
      CompletionsOfKnown(r[1..]);
      assert [r[0]] + r[1..] == r;
    }
  }

  // ---------------------------------------------------------------------
  // Rows and the two parts

  datatype Row = Row(records: string, groups: seq<nat>)

  /** One line: the record, a space, then the group sizes separated by
      commas; a line without a space or with a bad size panics. */
  function ParseRow(line: string): (r: Result<Row>)
    ensures r.Ok? <==> SplitOnce(line, " ").Some? && AllOk(Split(SplitOnce(line, " ").value.1, ","), ParseUsize).Ok?
    ensures r.Ok? ==> line == r.value.records + " " + Join(Split(SplitOnce(line, " ").value.1, ","), ",")
  {
    match SplitOnce(line, " ")
    case None => Panic("called `Option::unwrap()` on a `None` value")
    case Some((records, sizes)) =>
      JoinSplit(sizes, ",");
      var groups :- AllOk(Split(sizes, ","), ParseUsize);
      Ok(Row(records, groups))
  }

  function ParseRows(input: string): Result<seq<Row>>
  {
    AllOk(Lines(Trim(input)), ParseRow)
  }

  /** `records.cycle().take(5).join("?")`. */
  function Unfold(records: string): (u: string)
    ensures u == records + "?" + records + "?" + records + "?" + records + "?" + records
  {
    var copies := [records, records, records, records, records];
    assert Join(copies[4..], "?") == records;
    assert Join(copies[3..], "?") == records + "?" + records;
    assert Join(copies[2..], "?") == records + "?" + records + "?" + records;
    assert Join(copies[1..], "?") == records + "?" + records + "?" + records + "?" + records;
    Join(copies, "?")
  }

  /** `groups.repeat(5)`. */
  function Repeat5(groups: seq<nat>): (g: seq<nat>)
    ensures |g| == 5 * |groups|
    ensures g[..|groups|] == groups
    ensures forall i | |groups| <= i < |g| :: g[i] == g[i - |groups|]
  {
    groups + groups + groups + groups + groups
  }

  /** The number of arrangements of a row, the trailing `.` appended. */
  function Arrangements(row: Row): (n: nat)
    ensures n == CountMatches(Completions(row.records + "."), row.groups, 0)
  {
    Solve1Counts(row.records + ".", row.groups, 0);
    Solve1(row.records + ".", row.groups, 0)
  }

  /** The row of part two: five copies of the record joined by unknowns,
      five copies of the groups. */
  function Unfolded(row: Row): (u: Row)
    ensures |u.records| == 5 * |row.records| + 4 && |u.groups| == 5 * |row.groups|
  {
    Row(Unfold(row.records), Repeat5(row.groups))
  }

  function ArrangementsOf(rows: seq<Row>): (ns: seq<int>)
    ensures |ns| == |rows| && forall k | 0 <= k < |rows| :: ns[k] == Arrangements(rows[k])
  {
    seq(|rows|, k requires 0 <= k < |rows| => Arrangements(rows[k]))
  }

  function UnfoldAll(rows: seq<Row>): (us: seq<Row>)
    ensures |us| == |rows| && forall k | 0 <= k < |rows| :: us[k] == Unfolded(rows[k])
  {
    seq(|rows|, k requires 0 <= k < |rows| => Unfolded(rows[k]))
  }

  /** `part_one`: the arrangements of every row, summed; a malformed line
      panics. */
  function PartOne(input: string): (r: Result<int>)
    ensures r.Panic? <==> ParseRows(input).Panic?
    ensures r.Ok? ==> r.value >= 0 && r.value == Sum(ArrangementsOf(ParseRows(input).value))
  {
    match ParseRows(input)
    case Panic(why) => Panic(why)
    case Ok(rows) =>
      SumNonNeg(ArrangementsOf(rows));
      Ok(Sum(ArrangementsOf(rows)))
  }

  /** `part_two`: the same on the unfolded rows. */
  function PartTwo(input: string): (r: Result<int>)
    ensures r.Panic? <==> ParseRows(input).Panic?
    ensures r.Ok? ==> r.value >= 0 && r.value == Sum(ArrangementsOf(UnfoldAll(ParseRows(input).value)))
  {
    match ParseRows(input)
    case Panic(why) => Panic(why)
    case Ok(rows) =>
      SumNonNeg(ArrangementsOf(UnfoldAll(rows)));
      Ok(Sum(ArrangementsOf(UnfoldAll(rows))))
  }
}
