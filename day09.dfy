/** Day 9: Mirage Maintenance (`src/bin/09.rs`). Each line is a sequence of
    readings; its rows of differences are taken until a row has no non-zero
    entry, and the sequence is extrapolated one step forwards (part one) or
    backwards (part two) from the ends of those rows. */
module Day09 {
  import opened Common

  // ---------------------------------------------------------------------
  // Rows of differences

  /** The differences `b - a` of neighbouring entries (`tuple_windows`). */
  function Differences(xs: seq<int>): (d: seq<int>)
    ensures |d| == if xs == [] then 0 else |xs| - 1
    ensures forall i | 0 <= i < |d| :: d[i] == xs[i + 1] - xs[i]
  {
    if |xs| <= 1 then [] else [xs[1] - xs[0]] + Differences(xs[1..])
  }

  /** No entry is non-zero: the loop condition of `generate_rows` fails. */
  predicate AllZero(xs: seq<int>)
  {
    forall i | 0 <= i < |xs| :: xs[i] == 0
  }

  /** Row `i + 1` is the differences of row `i`. */
  predicate DifferenceRows(rows: seq<seq<int>>)
  {
    forall i | 0 <= i < |rows| - 1 :: rows[i + 1] == Differences(rows[i])
  }

  /** The rows `generate_rows` builds from `xs`: `xs` itself, then the
      differences of the last row while it has a non-zero entry. */
  function Rows(xs: seq<int>): (rows: seq<seq<int>>)
    ensures |rows| >= 1 && rows[0] == xs
    decreases |xs|
  {
    if AllZero(xs) then [xs] else [xs] + Rows(Differences(xs))
  }

  /** Each row is the differences of the one before; every row but the
      last has a non-zero entry, and the last has none. */
  lemma {:induction false} RowsShape(xs: seq<int>)
    ensures var rows := Rows(xs);
      DifferenceRows(rows) && AllZero(rows[|rows| - 1]) &&
      forall i | 0 <= i < |rows| - 1 :: !AllZero(rows[i])
    decreases |xs|
  {
    if !AllZero(xs) {
      var rest := Rows(Differences(xs));
      RowsShape(Differences(xs));
      var rows := [xs] + rest;
      assert forall i | 1 <= i < |rows| :: rows[i] == rest[i - 1];
    }
  }

  /** One push of the loop below keeps the rows pushed so far, followed by
      the rows still to come, equal to all the rows. */
  lemma TableStep(all: seq<seq<int>>, numbers: seq<int>)
    requires |all| >= 1 && !AllZero(all[|all| - 1])
    requires all[..|all| - 1] + Rows(all[|all| - 1]) == Rows(numbers)
    ensures var next := all + [Differences(all[|all| - 1])];
      next[..|next| - 1] + Rows(next[|next| - 1]) == Rows(numbers)
  {
    var last := all[|all| - 1];
    var d := Differences(last);
    var next := all + [d];
    var front := all[..|all| - 1];
    assert Rows(last) == [last] + Rows(d);
    assert next[|next| - 1] == d;
    assert next[..|next| - 1] == all;
    assert all == front + [last];
    Reassociate(front, [last], Rows(d));
  }

  lemma Reassociate(a: seq<seq<int>>, b: seq<seq<int>>, c: seq<seq<int>>)
    ensures a + (b + c) == (a + b) + c
  {
  }

  /** When the last row has no non-zero entry, the rows are complete. */
  lemma TableDone(all: seq<seq<int>>, numbers: seq<int>)
    requires |all| >= 1 && AllZero(all[|all| - 1])
    requires all[..|all| - 1] + Rows(all[|all| - 1]) == Rows(numbers)
    ensures all == Rows(numbers)
  {
    assert Rows(all[|all| - 1]) == [all[|all| - 1]];
    assert all == all[..|all| - 1] + [all[|all| - 1]];
  }

  /** `generate_rows` after the numbers are read: the `while` loop that
      pushes the differences of the last row. */
  method DifferenceTable(numbers: seq<int>) returns (all: seq<seq<int>>)
    ensures all == Rows(numbers)
  {
    all := [numbers];
    while !AllZero(all[|all| - 1])
      invariant |all| >= 1 && all[..|all| - 1] + Rows(all[|all| - 1]) == Rows(numbers)
      decreases |all[|all| - 1]|
    {
      TableStep(all, numbers);
      all := all + [Differences(all[|all| - 1])];
    }
    TableDone(all, numbers);
  }

  /** `split_whitespace` and `parse::<i64>().unwrap()`. */
  function ParseNumber(s: string): (r: Result<int>)
    ensures r.Ok? <==> ParseInt(s).Some?
    ensures r.Ok? ==> r.value == ParseInt(s).value
  {
    match ParseInt(s)
    case Some(v) => Ok(v)
    case None => Panic(UnwrapErr)
  }

  function ParseLine(line: string): Result<seq<int>>
  {
    AllOk(Words(line), ParseNumber)
  }

  /** `generate_rows`. */
  method GenerateRows(line: string) returns (r: Result<seq<seq<int>>>)
    ensures ParseLine(line).Panic? ==> r == ParseLine(line).PropagateFailure()
    ensures ParseLine(line).Ok? ==> r == Ok(Rows(ParseLine(line).value))
  {
    var numbers :- ParseLine(line);
    var all := DifferenceTable(numbers);
    r := Ok(all);
  }

  // ---------------------------------------------------------------------
  // Extrapolating

  /** Adding up the last entries, from the bottom row upwards; a row
      without entries has no `last` and panics. */
  function NextValue(rows: seq<seq<int>>): Result<int>
  {
    if rows == [] then Ok(0)
    else
      var below :- NextValue(rows[1..]);
      if rows[0] == [] then Panic(UnwrapNone) else Ok(rows[0][|rows[0]| - 1] + below)
  }

  /** Subtracting from the first entries, from the bottom row upwards. */
  function PreviousValue(rows: seq<seq<int>>): Result<int>
  {
    if rows == [] then Ok(0)
    else
      var below :- PreviousValue(rows[1..]);
      if rows[0] == [] then Panic(UnwrapNone) else Ok(rows[0][0] - below)
  }

  predicate NoEmptyRow(rows: seq<seq<int>>)
  {
    forall i | 0 <= i < |rows| :: rows[i] != []
  }

  /** `interpolate_end`: the rows are visited bottom up, each adding its
      last entry to the value carried up from below. */
  method InterpolateEnd(all: seq<seq<int>>) returns (r: Result<int>)
    ensures r == NextValue(all)
  {
    var prev := 0;
    var newLast := 0;
    var k := |all|;
    while k > 0
      invariant 0 <= k <= |all|
      invariant NextValue(all[k..]) == Ok(prev) && newLast == prev
    {
      k := k - 1;
      assert all[k..][1..] == all[k + 1..];
      if all[k] == [] {
        NextValuePanicSticks(all, k);
        return Panic(UnwrapNone);
      }
      newLast := all[k][|all[k]| - 1] + prev;
      prev := newLast;
    }
    assert all[0..] == all;
    r := Ok(newLast);
  }

  /** `interpolate_begin`: the rows are visited bottom up, each subtracting
      the value carried up from below from its first entry. */
  method InterpolateBegin(all: seq<seq<int>>) returns (r: Result<int>)
    ensures r == PreviousValue(all)
  {
    var prev := 0;
    var newFirst := 0;
    var k := |all|;
    while k > 0
      invariant 0 <= k <= |all|
      invariant PreviousValue(all[k..]) == Ok(prev) && newFirst == prev
    {
      k := k - 1;
      assert all[k..][1..] == all[k + 1..];
      if all[k] == [] {
        PreviousValuePanicSticks(all, k);
        return Panic(UnwrapNone);
      }
      newFirst := all[k][0] - prev;
      prev := newFirst;
    }
    assert all[0..] == all;
    r := Ok(newFirst);
  }

  /** A row without entries panics whatever the rows above it hold. */
  lemma {:induction false} NextValuePanicSticks(rows: seq<seq<int>>, k: nat)
    requires k < |rows| && rows[k] == []
    ensures NextValue(rows) == Panic(UnwrapNone)
    decreases k
  {
    if k > 0 {
      assert rows[1..][k - 1] == rows[k];
      NextValuePanicSticks(rows[1..], k - 1);
    } else if NextValue(rows[1..]).Panic? {
      NextValueReason(rows[1..]);
    }
  }

  lemma {:induction false} NextValueReason(rows: seq<seq<int>>)
    ensures NextValue(rows).Panic? ==> NextValue(rows) == Panic(UnwrapNone)
    decreases |rows|
  {
    if rows != [] {
      NextValueReason(rows[1..]);
    }
  }

  lemma {:induction false} PreviousValuePanicSticks(rows: seq<seq<int>>, k: nat)
    requires k < |rows| && rows[k] == []
    ensures PreviousValue(rows) == Panic(UnwrapNone)
    decreases k
  {
    if k > 0 {
      assert rows[1..][k - 1] == rows[k];
      PreviousValuePanicSticks(rows[1..], k - 1);
    } else if PreviousValue(rows[1..]).Panic? {
      PreviousValueReason(rows[1..]);
    }
  }

  lemma {:induction false} PreviousValueReason(rows: seq<seq<int>>)
    ensures PreviousValue(rows).Panic? ==> PreviousValue(rows) == Panic(UnwrapNone)
    decreases |rows|
  {
    if rows != [] {
      PreviousValueReason(rows[1..]);
    }
  }

  /** The extrapolations panic exactly when some row has no entries. */
  lemma {:induction false} ValuesDefined(rows: seq<seq<int>>)
    ensures NextValue(rows).Ok? <==> NoEmptyRow(rows)
    ensures PreviousValue(rows).Ok? <==> NoEmptyRow(rows)
    decreases |rows|
  {
    if rows != [] {
      ValuesDefined(rows[1..]);
      assert NoEmptyRow(rows) <==> rows[0] != [] && NoEmptyRow(rows[1..]) by {
        assert forall i | 1 <= i < |rows| :: rows[i] == rows[1..][i - 1];
      }
    }
  }

  // ---------------------------------------------------------------------
  // What the extrapolations are

  function Lasts(rows: seq<seq<int>>): (ls: seq<int>)
    requires NoEmptyRow(rows)
    ensures |ls| == |rows| && forall i | 0 <= i < |rows| :: ls[i] == rows[i][|rows[i]| - 1]
  {
    seq(|rows|, i requires 0 <= i < |rows| => rows[i][|rows[i]| - 1])
  }

  function Firsts(rows: seq<seq<int>>): (fs: seq<int>)
    requires NoEmptyRow(rows)
    ensures |fs| == |rows| && forall i | 0 <= i < |rows| :: fs[i] == rows[i][0]
  {
    seq(|rows|, i requires 0 <= i < |rows| => rows[i][0])
  }

  /** `first(r0) - first(r1) + first(r2) - ...` */
  function AlternatingSum(xs: seq<int>): int
  {
    if xs == [] then 0
    else AlternatingSum(xs[..|xs| - 1]) + (if (|xs| - 1) % 2 == 0 then xs[|xs| - 1] else -xs[|xs| - 1])
  }

  lemma {:induction false} SumFront(xs: seq<int>)
    requires xs != []
    ensures Sum(xs) == xs[0] + Sum(xs[1..])
    decreases |xs|
  {
    if |xs| > 1 {
      SumFront(xs[..|xs| - 1]);
      assert xs[..|xs| - 1][1..] == xs[1..][..|xs| - 2];
    } else {
      assert xs[..0] == [] && xs[1..] == [];
    }
  }

  lemma {:induction false} AlternatingSumFront(xs: seq<int>)
    requires xs != []
    ensures AlternatingSum(xs) == xs[0] - AlternatingSum(xs[1..])
    decreases |xs|
  {
    if |xs| > 1 {
      AlternatingSumFront(xs[..|xs| - 1]);
      assert xs[..|xs| - 1][1..] == xs[1..][..|xs| - 2];
    } else {
      assert xs[..0] == [] && xs[1..] == [];
    }
  }

  /** `interpolate_end` is the sum of the last entries of all rows. */
  lemma {:induction false} NextIsSumOfLasts(rows: seq<seq<int>>)
    requires NoEmptyRow(rows)
    ensures NextValue(rows) == Ok(Sum(Lasts(rows)))
    decreases |rows|
  {
    ValuesDefined(rows);
    if rows != [] {
      NextIsSumOfLasts(rows[1..]);
      assert Lasts(rows)[1..] == Lasts(rows[1..]);
      SumFront(Lasts(rows));
    }
  }

  /** `interpolate_begin` is the alternating sum of the first entries. */
  lemma {:induction false} PreviousIsAlternatingSum(rows: seq<seq<int>>)
    requires NoEmptyRow(rows)
    ensures PreviousValue(rows) == Ok(AlternatingSum(Firsts(rows)))
    decreases |rows|
  {
    ValuesDefined(rows);
    if rows != [] {
      PreviousIsAlternatingSum(rows[1..]);
      assert Firsts(rows)[1..] == Firsts(rows[1..]);
      AlternatingSumFront(Firsts(rows));
    }
  }

  /** A single non-zero reading panics: its differences are an empty row,
      which has no `last` or `first`. */
  lemma SingleReading(x: int)
    requires x != 0
    ensures Rows([x]) == [[x], []]
    ensures NextValue(Rows([x])).Panic? && PreviousValue(Rows([x])).Panic?
  {
    assert !AllZero([x]);
    assert Differences([x]) == [];
  }

  /** Readings without a non-zero entry are their own single row, and both
      extrapolations are 0. */
  lemma Zeros(xs: seq<int>)
    requires xs != [] && AllZero(xs)
    ensures Rows(xs) == [xs]
    ensures NextValue(Rows(xs)) == Ok(0) && PreviousValue(Rows(xs)) == Ok(0)
  {
  }

  // ---------------------------------------------------------------------
  // The parts

  /** The value `part_one` takes from one line. */
  function LineNext(line: string): Result<int>
  {
    var numbers :- ParseLine(line);
    NextValue(Rows(numbers))
  }

  /** The value `part_two` takes from one line. */
  function LinePrevious(line: string): Result<int>
  {
    var numbers :- ParseLine(line);
    PreviousValue(Rows(numbers))
  }

  /** A line's next value is the sum of the last entries of its rows, and
      it is defined exactly when the numbers parse and no row is empty. */
  lemma LineNextValue(line: string)
    ensures LineNext(line).Ok? <==> ParseLine(line).Ok? && NoEmptyRow(Rows(ParseLine(line).value))
    ensures LineNext(line).Ok? ==> LineNext(line).value == Sum(Lasts(Rows(ParseLine(line).value)))
  {
    if ParseLine(line).Ok? {
      var rows := Rows(ParseLine(line).value);
      ValuesDefined(rows);
      if NoEmptyRow(rows) {
        NextIsSumOfLasts(rows);
      }
    }
  }

  /** A line's previous value is the alternating sum of the first entries
      of its rows, defined exactly when the numbers parse and no row is
      empty. */
  lemma LinePreviousValue(line: string)
    ensures LinePrevious(line).Ok? <==> ParseLine(line).Ok? && NoEmptyRow(Rows(ParseLine(line).value))
    ensures LinePrevious(line).Ok? ==> LinePrevious(line).value == AlternatingSum(Firsts(Rows(ParseLine(line).value)))
  {
    if ParseLine(line).Ok? {
      var rows := Rows(ParseLine(line).value);
      ValuesDefined(rows);
      if NoEmptyRow(rows) {
        PreviousIsAlternatingSum(rows);
      }
    }
  }

  /** The closure of `part_one`: `generate_rows` then `interpolate_end`. */
  method ExtrapolateEnd(line: string) returns (r: Result<int>)
    ensures r == LineNext(line)
  {
    var all :- GenerateRows(line);
    r := InterpolateEnd(all);
  }

  /** The closure of `part_two`: `generate_rows` then `interpolate_begin`. */
  method ExtrapolateBegin(line: string) returns (r: Result<int>)
    ensures r == LinePrevious(line)
  {
    var all :- GenerateRows(line);
    r := InterpolateBegin(all);
  }

  /** The sum over the lines of the trimmed input; the first line that
      panics stops it. */
  function SumLines(input: string, f: string -> Result<int>): (r: Result<int>)
    ensures r.Ok? <==> forall k | 0 <= k < |Lines(Trim(input))| :: f(Lines(Trim(input))[k]).Ok?
  {
    var values :- AllOk(Lines(Trim(input)), f);
    Ok(Sum(values))
  }

  function PartOne(input: string): Result<int>
  {
    SumLines(input, LineNext)
  }

  function PartTwo(input: string): Result<int>
  {
    SumLines(input, LinePrevious)
  }

  /** Part one has an answer exactly when every line parses and its table
      has no empty row (a line of one non-zero reading, or an empty line,
      makes `last().unwrap()` panic). */
  lemma PartOneDefined(input: string)
    ensures var ls := Lines(Trim(input));
      PartOne(input).Ok? <==>
        forall k | 0 <= k < |ls| :: ParseLine(ls[k]).Ok? && NoEmptyRow(Rows(ParseLine(ls[k]).value))
  {
    var ls := Lines(Trim(input));
    forall k | 0 <= k < |ls|
      ensures LineNext(ls[k]).Ok? <==> ParseLine(ls[k]).Ok? && NoEmptyRow(Rows(ParseLine(ls[k]).value))
    {
      LineNextValue(ls[k]);
    }
  }

  /** Part two has an answer on exactly the same inputs as part one. */
  lemma PartTwoDefined(input: string)
    ensures PartTwo(input).Ok? <==> PartOne(input).Ok?
  {
    var ls := Lines(Trim(input));
    forall k | 0 <= k < |ls|
      ensures LinePrevious(ls[k]).Ok? <==> LineNext(ls[k]).Ok?
    {
      LineNextValue(ls[k]);
      LinePreviousValue(ls[k]);
    }
  }
}
