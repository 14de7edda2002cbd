/** Day 6: boat races. Holding the button for `t` of a race's `time`
    milliseconds makes the boat travel `t * (time - t)`; a hold time wins
    when that beats the record `distance`. */
module Day06 {
  import opened Common
  import opened Nom

  /** The message `expect("Error")` panics with when a line does not parse
      (the nom error printed after it is not modelled). */
  const ParsePanic := "Error"

  // ---------------------------------------------------------------------
  // Counting the ways to win

  predicate Beats(time: int, distance: int, t: int)
  {
    t * (time - t) > distance
  }

  /** The winning hold times below `k`. */
  function WinningBelow(time: int, distance: int, k: nat): set<int>
  {
    set t | 0 <= t < k && Beats(time, distance, t)
  }

  /** How many hold times below `k` win. */
  function CountBelow(time: int, distance: int, k: nat): (n: nat)
    ensures n <= k
  {
    if k == 0 then 0
    else CountBelow(time, distance, k - 1) + (if Beats(time, distance, k - 1) then 1 else 0)
  }

  /** `ways_to_win`: the hold times in `0..time` that win, counted. */
  function WaysToWin(time: int, distance: int): (n: nat)
    ensures n <= if time > 0 then time else 0
  {
    if time <= 0 then 0 else CountBelow(time, distance, time)
  }

  lemma {:induction false} CountBelowCounts(time: int, distance: int, k: nat)
    ensures CountBelow(time, distance, k) == |WinningBelow(time, distance, k)|
  {
    if k > 0 {
      CountBelowCounts(time, distance, k - 1);
      var before := WinningBelow(time, distance, k - 1);
      if Beats(time, distance, k - 1) {
        assert WinningBelow(time, distance, k) == before + {k - 1};
      } else {
        assert WinningBelow(time, distance, k) == before;
      }
    }
  }

  /** `ways_to_win` is the number of winning hold times in `0..time`. */
  lemma WaysToWinCounts(time: int, distance: int)
    ensures WaysToWin(time, distance) == |set t | 0 <= t < time && Beats(time, distance, t)|
  {
    if time <= 0 {
      assert (set t | 0 <= t < time && Beats(time, distance, t)) == {};
    } else {
      CountBelowCounts(time, distance, time);
    }
  }

  /** Holding for `t` and holding for `time - t` travel the same distance. */
  lemma Mirror(time: int, distance: int, t: int)
    requires 0 < t < time
    ensures Beats(time, distance, t) <==> Beats(time, distance, time - t)
  {
    assert (time - t) * (time - (time - t)) == t * (time - t);
  }

  lemma MulNonNeg(a: int, b: int)
    requires a >= 0 && b >= 0
    ensures a * b >= 0
  {
  }

  /** The winning hold times form one run: a time between two winning
      times wins too. */
  lemma WinningRun(time: int, distance: int, t1: int, t2: int, t3: int)
    requires t1 <= t2 <= t3
    requires Beats(time, distance, t1) && Beats(time, distance, t3)
    ensures Beats(time, distance, t2)
  {
    if t1 + t2 <= time {
      assert t2 * (time - t2) - t1 * (time - t1) == (t2 - t1) * (time - t1 - t2);
      MulNonNeg(t2 - t1, time - t1 - t2);
    } else {
      assert t2 * (time - t2) - t3 * (time - t3) == (t3 - t2) * (t2 + t3 - time);
      MulNonNeg(t3 - t2, t2 + t3 - time);
    }
  }

  /** Up to the middle of the race, holding longer goes further. */
  lemma Rising(time: int, t1: int, t2: int)
    requires 0 <= t1 <= t2 && t1 + t2 <= time
    ensures t1 * (time - t1) <= t2 * (time - t2)
  {
    assert t2 * (time - t2) - t1 * (time - t1) == (t2 - t1) * (time - t1 - t2);
    MulNonNeg(t2 - t1, time - t1 - t2);
  }

  /** Counting hold times that win exactly on `lo..hi`. */
  lemma {:induction false} CountRun(time: int, distance: int, lo: nat, hi: nat, k: nat)
    requires lo <= hi
    requires forall t | 0 <= t < k :: Beats(time, distance, t) <==> lo <= t < hi
    ensures CountBelow(time, distance, k) == if k <= lo then 0 else if k <= hi then k - lo else hi - lo
  {
    if k > 0 {
      CountRun(time, distance, lo, hi, k - 1);
    }
  }

  /** When `lo` is the first winning hold time at or before the middle and
      `hi - 1` the last one at or after it, there are `hi - lo` ways to
      win. */
  lemma WaysFromRun(time: int, distance: int, lo: nat, hi: nat)
    requires 1 <= lo < hi <= time
    requires 2 * (lo - 1) <= time <= 2 * hi
    requires !Beats(time, distance, lo - 1) && Beats(time, distance, lo)
    requires Beats(time, distance, hi - 1) && !Beats(time, distance, hi)
    ensures WaysToWin(time, distance) == hi - lo
  {
    forall t | 0 <= t < time
      ensures Beats(time, distance, t) <==> lo <= t < hi
    {
      if t < lo {
        Rising(time, t, lo - 1);
      } else if t < hi {
        WinningRun(time, distance, lo, t, hi - 1);
      } else {
        Rising(time, time - t, time - hi);
        assert (time - t) * (time - (time - t)) == t * (time - t);
        assert (time - hi) * (time - (time - hi)) == hi * (time - hi);
      }
    }
    CountRun(time, distance, lo, hi, time);
  }

  // ---------------------------------------------------------------------
  // Parsing

  /** `character::complete::i64`: an optional `-` or `+`, then digits
      (its overflow check aside). */
  function SignedInt(s: string): (r: Option<(string, int)>)
    ensures r.Some? ==> |r.value.0| < |s|
  {
    var signed := s != [] && (s[0] == '-' || s[0] == '+');
    var digits := if signed then s[1..] else s;
    match Digit1Text(digits)
    case None => None
    case Some((rest, text)) =>
      var n: int := DigitsValue(text);
      Some((rest, if signed && s[0] == '-' then -n else n))
  }

  /** The rest of `separated_list1(space1, i64)`: as long as blanks are
      followed by a number, take it; otherwise stop before the blanks. */
  function IntsTail(s: string): (r: (string, seq<int>))
    ensures |r.0| <= |s|
    decreases |s|
  {
    match Space1(s)
    case None => (s, [])
    case Some(after) =>
      match SignedInt(after)
      case None => (s, [])
      case Some((rest, n)) =>
        var tail := IntsTail(rest);
        (tail.0, [n] + tail.1)
  }

  /** The rest of `separated_list1(space1, digit1)`. */
  function GroupsTail(s: string): (r: (string, seq<string>))
    ensures |r.0| <= |s|
    ensures forall i | 0 <= i < |r.1| :: |r.1[i]| >= 1 && AllDigits(r.1[i])
    decreases |s|
  {
    match Space1(s)
    case None => (s, [])
    case Some(after) =>
      match Digit1Text(after)
      case None => (s, [])
      case Some((rest, text)) =>
        var tail := GroupsTail(rest);
        (tail.0, [text] + tail.1)
  }

  /** `parse_to_int_vec`: skip to the first digit, then read numbers
      separated by blanks; a line without a number panics. */
  function ParseIntVec(line: string): (r: Result<seq<int>>)
    ensures r.Ok? ==> |r.value| >= 1
  {
    var start := line[Leading(line, NonDigits)..];
    match SignedInt(start)
    case None => Panic(ParsePanic)
    case Some((rest, n)) => Ok([n] + IntsTail(rest).1)
  }

  /** `parse_to_str_vec`: the same, keeping each number's digits. */
  function ParseStrVec(line: string): (r: Result<seq<string>>)
    ensures r.Ok? ==> |r.value| >= 1
    ensures r.Ok? ==> forall i | 0 <= i < |r.value| :: |r.value[i]| >= 1 && AllDigits(r.value[i])
  {
    var start := line[Leading(line, NonDigits)..];
    match Digit1Text(start)
    case None => Panic(ParsePanic)
    case Some((rest, text)) => Ok([text] + GroupsTail(rest).1)
  }

  /** A line without sign characters. */
  predicate Unsigned(s: string)
  {
    forall i | 0 <= i < |s| :: s[i] != '-' && s[i] != '+'
  }

  /** Each integer is the value of the digit group in the same place. */
  predicate ReadAlike(ints: seq<int>, groups: seq<string>)
  {
    |ints| == |groups|
    && forall i | 0 <= i < |ints| :: AllDigits(groups[i]) && ints[i] == DigitsValue(groups[i])
  }

  lemma UnsignedSuffix(a: string, b: string)
    requires Unsigned(a + b)
    ensures Unsigned(b)
  {
    assert forall i | 0 <= i < |b| :: b[i] == (a + b)[|a| + i];
  }

  lemma UnsignedDrop(s: string, k: nat)
    requires Unsigned(s) && k <= |s|
    ensures Unsigned(s[k..])
  {
    assert forall i | 0 <= i < |s| - k :: s[k..][i] == s[k + i];
  }

  lemma ReadAlikeCons(n: int, text: string, ints: seq<int>, groups: seq<string>)
    requires AllDigits(text) && n == DigitsValue(text) && ReadAlike(ints, groups)
    ensures ReadAlike([n] + ints, [text] + groups)
  {
    assert forall i | 1 <= i < |ints| + 1 :: ([n] + ints)[i] == ints[i - 1] && ([text] + groups)[i] == groups[i - 1];
  }

  /** Without a sign, `i64` reads what `digit1` reads. */
  lemma SignedUnsigned(s: string)
    requires Unsigned(s)
    ensures SignedInt(s).Some? <==> Digit1Text(s).Some?
    ensures SignedInt(s).Some? ==>
              SignedInt(s).value.0 == Digit1Text(s).value.0
              && SignedInt(s).value.1 == DigitsValue(Digit1Text(s).value.1)
    ensures Digit1Text(s).Some? ==> Unsigned(Digit1Text(s).value.0)
  {
    if Digit1Text(s).Some? {
      UnsignedSuffix(Digit1Text(s).value.1, Digit1Text(s).value.0);
    }
  }

  /** On a text without signs, the rests of the two lists are read alike. */
  lemma {:induction false} TailsAlike(s: string)
    requires Unsigned(s)
    ensures IntsTail(s).0 == GroupsTail(s).0
    ensures ReadAlike(IntsTail(s).1, GroupsTail(s).1)
    decreases |s|
  {
    match Space1(s)
    case None =>
    case Some(after) =>
      UnsignedDrop(s, |s| - |after|);
      SignedUnsigned(after);
      match Digit1Text(after)
      case None =>
      case Some((rest, text)) =>
        TailsAlike(rest);
        ReadAlikeCons(DigitsValue(text), text, IntsTail(rest).1, GroupsTail(rest).1);
  }

  /** `parse_to_int_vec` and `parse_to_str_vec` agree on a line without
      signs: both panic, or the numbers are the values of the groups. */
  lemma ParseVecsAlike(line: string)
    requires Unsigned(line)
    ensures ParseIntVec(line).Ok? <==> ParseStrVec(line).Ok?
    ensures ParseIntVec(line).Ok? ==> ReadAlike(ParseIntVec(line).value, ParseStrVec(line).value)
  {
    var start := line[Leading(line, NonDigits)..];
    UnsignedDrop(line, Leading(line, NonDigits));
    SignedUnsigned(start);
    match Digit1Text(start)
    case None =>
    case Some((rest, text)) =>
      TailsAlike(rest);
      ReadAlikeCons(DigitsValue(text), text, IntsTail(rest).1, GroupsTail(rest).1);
  }

  // ---------------------------------------------------------------------
  // The two parts

  /** The ways to win each race, the times and records zipped. */
  function Ways(times: seq<int>, distances: seq<int>): (ways: seq<nat>)
    ensures |ways| == if |times| < |distances| then |times| else |distances|
  {
    seq(if |times| < |distances| then |times| else |distances|,
        i requires 0 <= i < |times| && 0 <= i < |distances| => WaysToWin(times[i], distances[i]))
  }

  /** A product of naturals is a natural, and it is 0 exactly when a
      factor is. */
  lemma {:induction false} ProductOfNats(xs: seq<int>)
    requires forall i | 0 <= i < |xs| :: xs[i] >= 0
    ensures Product(xs) >= 0
    ensures Product(xs) == 0 <==> exists i | 0 <= i < |xs| :: xs[i] == 0
  {
    if xs != [] {
      var front := xs[..|xs| - 1];
      ProductOfNats(front);
      assert forall i | 0 <= i < |front| :: front[i] == xs[i];
      MulNonNeg(Product(front), xs[|xs| - 1]);
      if Product(xs) == 0 {
        if Product(front) == 0 {
          var i :| 0 <= i < |front| && front[i] == 0;
          assert xs[i] == 0;
        } else {
          assert xs[|xs| - 1] == 0;
        }
      }
    }
  }

  /** The races of the two lines, and the product of the ways to win
      them; a line without a number panics. */
  function RacesProduct(time: string, distance: string): (r: Result<nat>)
    ensures r.Panic? <==> ParseIntVec(time).Panic? || ParseIntVec(distance).Panic?
    ensures r.Panic? ==> r.reason == ParsePanic
    ensures r.Ok? ==> r.value == Product(Ways(ParseIntVec(time).value, ParseIntVec(distance).value))
  {
    var times :- ParseIntVec(time);
    var distances :- ParseIntVec(distance);
    var ways := Ways(times, distances);
    ProductOfNats(ways);
    Ok(Product(ways))
  }

  /** `part_one`: the first line of the trimmed input holds the times, the
      rest the records. */
  function PartOne(input: string): (r: Result<nat>)
    ensures Find(Trim(input), "\n").None? <==> r == Panic(UnwrapNone)
    ensures SplitOnce(Trim(input), "\n").Some? ==>
      var (time, distance) := SplitOnce(Trim(input), "\n").value;
      r == RacesProduct(time, distance)
  {
    match SplitOnce(Trim(input), "\n")
    case None => Panic(UnwrapNone)
    case Some((time, distance)) => RacesProduct(time, distance)
  }

  /** The product of the ways to win is 0 exactly when some race cannot be
      won. */
  lemma WaysProductZero(times: seq<int>, distances: seq<int>)
    ensures Product(Ways(times, distances)) >= 0
    ensures Product(Ways(times, distances)) == 0
      <==> exists i | 0 <= i < |times| && i < |distances| :: WaysToWin(times[i], distances[i]) == 0
  {
    var ways := Ways(times, distances);
    ProductOfNats(ways);
    if Product(ways) == 0 {
      var i :| 0 <= i < |ways| && ways[i] == 0;
      assert WaysToWin(times[i], distances[i]) == 0;
    }
    if exists i | 0 <= i < |times| && i < |distances| :: WaysToWin(times[i], distances[i]) == 0 {
      var i :| 0 <= i < |times| && i < |distances| && WaysToWin(times[i], distances[i]) == 0;
      assert ways[i] == 0;
    }
  }

  function Pow10(k: nat): (p: nat)
    ensures p >= 1
  {
    if k == 0 then 1 else 10 * Pow10(k - 1)
  }

  /** Digits written after digits: the first number shifted left by the
      length of the second, plus the second. */
  lemma {:induction false} DigitsConcat(a: string, b: string)
    requires AllDigits(a) && AllDigits(b)
    ensures AllDigits(a + b)
    ensures DigitsValue(a + b) == DigitsValue(a) * Pow10(|b|) + DigitsValue(b)
    decreases |b|
  {
    AllDigitsConcat(a, b);
    if b == [] {
      assert a + b == a;
    } else {
      var front := b[..|b| - 1];
      DigitsConcat(a, front);
      ConcatFront(a, b);
      ShiftStep(DigitsValue(a), Pow10(|front|), DigitsValue(front), DigitValue(b[|b| - 1]));
    }
  }

  lemma AllDigitsConcat(a: string, b: string)
    requires AllDigits(a) && AllDigits(b)
    ensures AllDigits(a + b)
  {
    assert forall i | 0 <= i < |a + b| :: (a + b)[i] == if i < |a| then a[i] else b[i - |a|];
  }

  lemma ConcatFront(a: string, b: string)
    requires b != []
    ensures (a + b)[..|a + b| - 1] == a + b[..|b| - 1]
    ensures (a + b)[|a + b| - 1] == b[|b| - 1]
  {
  }

  lemma ShiftStep(x: int, p: int, y: int, d: int)
    ensures 10 * (x * p + y) + d == x * (10 * p) + (10 * y + d)
  {
  }

  /** `join("")` of digit groups is a digit string. */
  lemma {:induction false} JoinDigits(parts: seq<string>)
    requires |parts| >= 1
    requires forall i | 0 <= i < |parts| :: |parts[i]| >= 1 && AllDigits(parts[i])
    ensures |Join(parts, "")| >= 1 && AllDigits(Join(parts, ""))
  {
    if |parts| > 1 {
      JoinDigits(parts[1..]);
      var rest := Join(parts[1..], "");
      assert Join(parts, "") == parts[0] + rest;
      DigitsConcat(parts[0], rest);
    }
  }

  /** The number part two reads from the groups of a line: the first
      group's value shifted past the digits of the others, plus theirs. */
  lemma JoinedValue(parts: seq<string>)
    requires |parts| >= 2
    requires forall i | 0 <= i < |parts| :: |parts[i]| >= 1 && AllDigits(parts[i])
    ensures AllDigits(Join(parts, "")) && AllDigits(Join(parts[1..], ""))
    ensures DigitsValue(Join(parts, ""))
      == DigitsValue(parts[0]) * Pow10(|Join(parts[1..], "")|) + DigitsValue(Join(parts[1..], ""))
  {
    var tail := parts[1..];
    assert forall i | 0 <= i < |tail| :: tail[i] == parts[i + 1];
    JoinDigits(tail);
    JoinHead(parts);
    DigitsConcat(parts[0], Join(tail, ""));
  }

  lemma JoinHead(parts: seq<string>)
    requires |parts| >= 2
    ensures Join(parts, "") == parts[0] + Join(parts[1..], "")
  {
    assert parts[0] + "" == parts[0];
  }

  /** The one race of part two: each line's digit groups joined into one
      number. */
  function KernedRace(time: string, distance: string): (r: Result<nat>)
    ensures r.Panic? <==> ParseStrVec(time).Panic? || ParseStrVec(distance).Panic?
    ensures r.Panic? ==> r.reason == ParsePanic
    ensures r.Ok? ==>
      && AllDigits(Join(ParseStrVec(time).value, "")) && AllDigits(Join(ParseStrVec(distance).value, ""))
      && r.value == |set t | 0 <= t < DigitsValue(Join(ParseStrVec(time).value, ""))
                          && Beats(DigitsValue(Join(ParseStrVec(time).value, "")),
                                   DigitsValue(Join(ParseStrVec(distance).value, "")), t)|
  {
    var timeGroups :- ParseStrVec(time);
    var distanceGroups :- ParseStrVec(distance);
    JoinDigits(timeGroups);
    JoinDigits(distanceGroups);
    WaysToWinCounts(DigitsValue(Join(timeGroups, "")), DigitsValue(Join(distanceGroups, "")));
    Ok(WaysToWin(DigitsValue(Join(timeGroups, "")), DigitsValue(Join(distanceGroups, ""))))
  }

  /** `part_two`. */
  function PartTwo(input: string): (r: Result<nat>)
    ensures Find(Trim(input), "\n").None? <==> r == Panic(UnwrapNone)
    ensures SplitOnce(Trim(input), "\n").Some? ==>
      var (time, distance) := SplitOnce(Trim(input), "\n").value;
      r == KernedRace(time, distance)
  {
    match SplitOnce(Trim(input), "\n")
    case None => Panic(UnwrapNone)
    case Some((time, distance)) => KernedRace(time, distance)
  }

  // ---------------------------------------------------------------------
  // The races of the source's example

  /** The three races of the source's example: 4, 8 and 9 ways, 288 in
      all. */
  lemma SampleRaces()
    ensures WaysToWin(7, 9) == 4 && WaysToWin(15, 40) == 8 && WaysToWin(30, 200) == 9
    ensures Product(Ways([7, 15, 30], [9, 40, 200])) == 288
  {
    WaysFromRun(7, 9, 2, 6);
    WaysFromRun(15, 40, 4, 12);
    WaysFromRun(30, 200, 11, 20);
    var ways := Ways([7, 15, 30], [9, 40, 200]);
    assert ways == [4, 8, 9];
    assert ways[..2] == [4, 8] && ways[..2][..1] == [4] && ways[..2][..1][..0] == [];
    assert Product(ways[..2][..1]) == 4;
    assert Product(ways[..2]) == 32;
  }

  // ---------------------------------------------------------------------
  // The line the source's tests parse

  lemma DropPrefix(w: string, t: string)
    ensures (w + t)[|w|..] == t && (w + t)[..|w|] == w
  {
  }

  /** `digit1` as text reads back a run of digits. */
  lemma Digit1TextRun(d: string, rest: string)
    requires |d| >= 1 && AllDigits(d) && (rest == [] || !IsDigit(rest[0]))
    ensures Digit1Text(d + rest) == Some((rest, d))
  {
    LeadingRun(d, rest, Digits);
    DropPrefix(d, rest);
  }

  /** Blanks, then a group of digits, then something that is not a
      digit: the list goes on with that group. */
  lemma GroupStep(blanks: string, d: string, rest: string)
    requires |blanks| >= 1 && forall i | 0 <= i < |blanks| :: IsBlank(blanks[i])
    requires |d| >= 1 && AllDigits(d) && (rest == [] || !IsDigit(rest[0]))
    ensures GroupsTail(blanks + (d + rest)) == (GroupsTail(rest).0, [d] + GroupsTail(rest).1)
  {
    LeadingRun(blanks, d + rest, Blanks);
    DropPrefix(blanks, d + rest);
    Digit1TextRun(d, rest);
  }

  /** Digit groups, each after its own run of blanks, then `t`. */
  function Spaced(gaps: seq<string>, groups: seq<string>, t: string): string
    requires |gaps| == |groups|
  {
    if groups == [] then t else gaps[0] + (groups[0] + Spaced(gaps[1..], groups[1..], t))
  }

  predicate Blanks1(s: string)
  {
    |s| >= 1 && forall i | 0 <= i < |s| :: IsBlank(s[i])
  }

  predicate Groups(groups: seq<string>)
  {
    forall i | 0 <= i < |groups| :: |groups[i]| >= 1 && AllDigits(groups[i])
  }

  predicate Gaps(gaps: seq<string>)
  {
    forall i | 0 <= i < |gaps| :: Blanks1(gaps[i])
  }

  /** What follows a group neither starts another group nor leads into
      one. */
  predicate Ends(t: string)
  {
    t == [] || (!IsBlank(t[0]) && !IsDigit(t[0]))
  }

  lemma SpacedStart(gaps: seq<string>, groups: seq<string>, t: string)
    requires |gaps| == |groups| && Gaps(gaps) && Ends(t)
    ensures var s := Spaced(gaps, groups, t); s == [] || !IsDigit(s[0])
  {
    if groups != [] {
      assert Blanks1(gaps[0]);
      assert Spaced(gaps, groups, t)[0] == gaps[0][0];
    }
  }

  lemma GroupsTailFirst(gaps: seq<string>, groups: seq<string>, t: string)
    requires |gaps| == |groups| && groups != [] && Gaps(gaps) && Groups(groups) && Ends(t)
    requires GroupsTail(Spaced(gaps[1..], groups[1..], t)) == (t, groups[1..])
    ensures GroupsTail(Spaced(gaps, groups, t)) == (t, groups)
  {
    assert Blanks1(gaps[0]);
    SpacedStart(gaps[1..], groups[1..], t);
    GroupStep(gaps[0], groups[0], Spaced(gaps[1..], groups[1..], t));
    HeadTail(groups);
  }

  lemma HeadTail(groups: seq<string>)
    requires groups != []
    ensures [groups[0]] + groups[1..] == groups
  {
  }

  /** The rest of `separated_list1(space1, digit1)` reads back every group
      after its blanks, and stops before whatever follows. */
  lemma {:induction false} GroupsTailRoundTrip(gaps: seq<string>, groups: seq<string>, t: string)
    requires |gaps| == |groups| && Gaps(gaps) && Groups(groups) && Ends(t)
    ensures GroupsTail(Spaced(gaps, groups, t)) == (t, groups)
    decreases |groups|
  {
    if groups == [] {
      assert Leading(t, Blanks) == 0;
    } else {
      GroupsTailRoundTrip(gaps[1..], groups[1..], t);
      GroupsTailFirst(gaps, groups, t);
    }
  }

  /** `parse_to_str_vec` reads back a heading without digits followed by
      digit groups separated by blanks, such as "Time:      7  15   30". */
  lemma ParseStrVecRoundTrip(heading: string, first: string, gaps: seq<string>, groups: seq<string>, t: string)
    requires forall i | 0 <= i < |heading| :: !IsDigit(heading[i])
    requires |first| >= 1 && AllDigits(first)
    requires |gaps| == |groups| && Gaps(gaps) && Groups(groups) && Ends(t)
    ensures ParseStrVec(heading + (first + Spaced(gaps, groups, t))) == Ok([first] + groups)
  {
    var rest := Spaced(gaps, groups, t);
    LeadingRun(heading, first + rest, NonDigits);
    DropPrefix(heading, first + rest);
    SpacedStart(gaps, groups, t);
    Digit1TextRun(first, rest);
    GroupsTailRoundTrip(gaps, groups, t);
  }
}
