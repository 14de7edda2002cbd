/** Day 4: scratchcards. Each card lists the numbers it has and the
    winning numbers; the matches score points (part one) or win copies of
    the cards that follow (part two). */
module Day04 {
  import opened Common

  /** The members of a sequence, duplicates collapsed. */
  function Members(ns: seq<nat>): (s: set<nat>)
    ensures forall k | 0 <= k < |ns| :: ns[k] in s
    ensures forall n | n in s :: exists k | 0 <= k < |ns| :: ns[k] == n
  {
    set k | 0 <= k < |ns| :: ns[k]
  }

  /** `get_numbers`: the whitespace-separated numbers, collected into a
      set. */
  function GetNumbers(text: string): (r: Result<set<nat>>)
    ensures r.Ok? <==> forall k | 0 <= k < |Words(text)| :: ParseU32(Words(text)[k]).Ok?
    ensures r.Ok? ==> forall k | 0 <= k < |Words(text)| :: ParseU32(Words(text)[k]).value in r.value
    ensures r.Ok? ==> forall n | n in r.value ::
      exists k | 0 <= k < |Words(text)| :: ParseU32(Words(text)[k]) == Ok(n)
  {
    var words := Words(text);
    var parsed := AllOk(words, ParseU32);
    if parsed.Panic? then
      var k :| 0 <= k < |words| && ParseU32(words[k]).Panic?;
      assert !ParseU32(Words(text)[k]).Ok?;
      Panic(parsed.reason)
    else
      MembersParsed(words, parsed.value);
      Ok(Members(parsed.value))
  }

  lemma MembersParsed(words: seq<string>, ns: seq<nat>)
    requires |words| == |ns| && forall k | 0 <= k < |ns| :: ParseU32(words[k]) == Ok(ns[k])
    ensures forall n | n in Members(ns) :: exists k | 0 <= k < |words| :: ParseU32(words[k]) == Ok(n)
  {
    forall n | n in Members(ns)
      ensures exists k | 0 <= k < |words| :: ParseU32(words[k]) == Ok(n)
    {
      var k :| 0 <= k < |ns| && ns[k] == n;
      assert ParseU32(words[k]) == Ok(n);
    }
  }

  /** A subset is no larger than its superset. */
  lemma {:induction false} SubsetSize(a: set<nat>, b: set<nat>)
    requires a <= b
    ensures |a| <= |b|
    decreases |b|
  {
    if b != {} {
      var x :| x in b;
      SubsetSize(a - {x}, b - {x});
    }
  }

  /** The count of numbers on both lists, as `intersection().count()`. */
  function Matches(mine: set<nat>, winning: set<nat>): (n: nat)
    ensures n <= |mine| && n <= |winning|
    ensures n == |winning * mine|
  {
    SubsetSize(mine * winning, mine);
    SubsetSize(mine * winning, winning);
    assert mine * winning == winning * mine;
    |mine * winning|
  }

  /** The two number lists of a card, either side of the first `|`. */
  function Halves(rest: string): (r: Result<(set<nat>, set<nat>)>)
    ensures SplitOnce(rest, "|").None? ==> r == Panic(UnwrapNone)
    ensures r.Ok? <==> (SplitOnce(rest, "|").Some? &&
      GetNumbers(SplitOnce(rest, "|").value.0).Ok? && GetNumbers(SplitOnce(rest, "|").value.1).Ok?)
  {
    var (mine, winning) :- (match SplitOnce(rest, "|")
      case Some(p) => Ok(p)
      case None => Panic(UnwrapNone));
    var mine :- GetNumbers(mine);
    var winning :- GetNumbers(winning);
    Ok((mine, winning))
  }

  /** One line of `calculate_winning`: after the first `:` come the numbers
      held, then a `|`, then the winning numbers. */
  function CardWins(line: string): (r: Result<nat>)
    ensures SplitOnce(line, ":").None? ==> r == Panic(UnwrapNone)
    ensures r.Ok? <==> SplitOnce(line, ":").Some? && Halves(SplitOnce(line, ":").value.1).Ok?
    ensures r.Ok? ==> var (mine, winning) := Halves(SplitOnce(line, ":").value.1).value;
      r.value == |mine * winning|
  {
    var (_, rest) :- (match SplitOnce(line, ":")
      case Some(p) => Ok(p)
      case None => Panic(UnwrapNone));
    var (mine, winning) :- Halves(rest);
    Ok(Matches(mine, winning))
  }

  /** `calculate_winning`, collected: the first line that panics stops it. */
  function Wins(input: string): (r: Result<seq<nat>>)
    ensures r.Ok? ==> |r.value| == |Lines(Trim(input))|
    ensures r.Panic? <==> exists k | 0 <= k < |Lines(Trim(input))| :: CardWins(Lines(Trim(input))[k]).Panic?
  {
    AllOk(Lines(Trim(input)), CardWins)
  }

  // ---------------------------------------------------------------------
  // Part one

  function Pow2(e: nat): (p: nat)
    ensures p >= 1
  {
    if e == 0 then 1 else 2 * Pow2(e - 1)
  }

  /** The points of a card: none without a match, then 1, doubling for
      every further match. */
  function Points(count: nat): nat
  {
    if count == 0 then 0 else Pow2(count - 1)
  }

  lemma PointsDouble(count: nat)
    requires count >= 1
    ensures Points(count + 1) == 2 * Points(count)
    ensures Points(1) == 1 && Points(0) == 0
  {
  }

  /** A card scores exactly when it has a match, and never scores less
      than its number of matches. */
  lemma {:induction false} PointsBound(count: nat)
    ensures Points(count) > 0 <==> count > 0
    ensures Points(count) >= count
  {
    if count > 1 {
      PointsBound(count - 1);
    }
  }

  function TotalPoints(wins: seq<nat>): (total: nat)
    ensures total >= |wins| - CountZero(wins)
  {
    if wins == [] then 0
    else
      PointsBound(wins[|wins| - 1]);
      TotalPoints(wins[..|wins| - 1]) + Points(wins[|wins| - 1])
  }

  function CountZero(wins: seq<nat>): (n: nat)
    ensures n <= |wins|
  {
    if wins == [] then 0
    else CountZero(wins[..|wins| - 1]) + (if wins[|wins| - 1] == 0 then 1 else 0)
  }

  /** `part_one`: the sum of the points of all cards. */
  function PartOne(input: string): (r: Result<nat>)
    ensures r.Ok? <==> Wins(input).Ok?
    ensures r.Ok? ==> r.value == TotalPoints(Wins(input).value)
  {
    var wins :- Wins(input);
    Ok(TotalPoints(wins))
  }

  // ---------------------------------------------------------------------
  // Part two

  /** Card `i` wins copies of cards `i + 1` to `i + wins[i]`; this card
      reaches past the last card (and so indexes out of bounds). */
  predicate SpillsAt(wins: seq<nat>, i: nat)
    requires i < |wins|
  {
    wins[i] > 0 && i + wins[i] >= |wins|
  }

  predicate Spills(wins: seq<nat>)
  {
    exists i | 0 <= i < |wins| :: SpillsAt(wins, i)
  }

  /** The number of copies of card `i`: the original, plus every copy of
      each earlier card whose winnings reach card `i`. */
  function Copies(wins: seq<nat>, i: nat): nat
    requires i < |wins|
    decreases i, 1
  {
    1 + Gifts(wins, i, i)
  }

  /** The copies of card `i` won by cards `0` to `j - 1`. */
  function Gifts(wins: seq<nat>, i: nat, j: nat): nat
    requires i < |wins| && j <= |wins|
    decreases i, 0, j
  {
    if j == 0 then 0
    else Gifts(wins, i, j - 1) + (if j - 1 < i <= j - 1 + wins[j - 1] then Copies(wins, j - 1) else 0)
  }

  /** Copies only accumulate as more cards are processed. */
  lemma {:induction false} GiftsGrow(wins: seq<nat>, i: nat, j: nat, k: nat)
    requires i < |wins| && j <= k <= |wins|
    ensures Gifts(wins, i, j) <= Gifts(wins, i, k)
    decreases k - j
  {
    if j < k {
      GiftsGrow(wins, i, j, k - 1);
    }
  }

  /** Cards from `i` on win no copies of card `i`: its count is final when
      it is reached. */
  lemma {:induction false} GiftsSettled(wins: seq<nat>, i: nat, k: nat)
    requires i <= k <= |wins| && i < |wins|
    ensures Gifts(wins, i, k) == Gifts(wins, i, i)
    decreases k - i
  {
    if i < k {
      GiftsSettled(wins, i, k - 1);
    }
  }

  function IndexPanic(len: nat): string
  {
    "index out of bounds: the len is " + Decimal(len) + " but the index is " + Decimal(len)
  }

  /** The nested loops of `part_two` over the `card_count` vector. */
  method CopyCards(wins: seq<nat>) returns (r: Result<seq<nat>>)
    ensures r.Panic? <==> Spills(wins)
    ensures r.Panic? ==> r.reason == IndexPanic(|wins|)
    ensures r.Ok? ==> r.value == AllCopies(wins)
  {
    var n := |wins|;
    var count := new nat[n](_ => 1);
    for i := 0 to n
      invariant forall j | 0 <= j < i :: !SpillsAt(wins, j)
      invariant forall y | 0 <= y < n :: count[y] == 1 + Gifts(wins, y, i)
    {
      GiftsSettled(wins, i, i);
      var x := i + 1;
      while x <= i + wins[i]
        invariant i + 1 <= x <= i + wins[i] + 1 && x <= n
        invariant count[i] == Copies(wins, i)
        invariant forall y | 0 <= y < n ::
          count[y] == 1 + Gifts(wins, y, i) + (if i < y < x then Copies(wins, i) else 0)
      {
        if x >= n {
          assert SpillsAt(wins, i);
          return Panic(IndexPanic(n));
        }
        count[x] := count[x] + count[i];
        x := x + 1;
      }
    }
    forall i | 0 <= i < n
      ensures count[i] == Copies(wins, i)
    {
      GiftsSettled(wins, i, n);
    }
    r := Ok(count[..]);
  }

  /** The final copy count of every card. */
  function AllCopies(wins: seq<nat>): (counts: seq<nat>)
    ensures |counts| == |wins|
    ensures forall i | 0 <= i < |wins| :: counts[i] == Copies(wins, i) >= 1
  {
    seq(|wins|, i requires 0 <= i < |wins| => Copies(wins, i))
  }

  /** The total of `part_two` once the copies are known. */
  function TotalCards(wins: seq<nat>): (r: Result<nat>)
    ensures r.Panic? <==> Spills(wins)
    ensures r.Ok? ==> r.value >= |wins|
  {
    if Spills(wins) then Panic(IndexPanic(|wins|))
    else
      CopiesTotal(AllCopies(wins));
      Ok(Sum(AllCopies(wins)))
  }

  /** Positive counts add up to at least their number. */
  lemma {:induction false} CopiesTotal(counts: seq<nat>)
    requires forall i | 0 <= i < |counts| :: counts[i] >= 1
    ensures Sum(counts) >= |counts|
  {
    if counts != [] {
      CopiesTotal(counts[..|counts| - 1]);
    }
  }

  /** `part_two`: the total number of cards held at the end. */
  method PartTwo(input: string) returns (r: Result<nat>)
    ensures Wins(input).Panic? ==> r == Wins(input).PropagateFailure()
    ensures Wins(input).Ok? ==> r == TotalCards(Wins(input).value)
  {
    var parsed := Wins(input);
    if parsed.Panic? {
      return Panic(parsed.reason);
    }
    r := CountCards(parsed.value);
  }

  /** The nested loops, then the sum of the counts. */
  method CountCards(wins: seq<nat>) returns (r: Result<nat>)
    ensures r == TotalCards(wins)
  {
    var counts :- CopyCards(wins);
    SumNonNeg(counts);
    r := Ok(Sum(counts));
  }

  /** The six sample cards win 4, 2, 2, 1, 0 and 0 matches: 13 points. */
  lemma SamplePoints()
    ensures TotalPoints([4, 2, 2, 1, 0, 0]) == 13
  {
    var w := [4, 2, 2, 1, 0, 0];
    assert Points(4) == 8 && Points(2) == 2 && Points(1) == 1;
    assert w[..5] == [4, 2, 2, 1, 0] && w[..5][..4] == [4, 2, 2, 1];
    assert [4, 2, 2, 1][..3] == [4, 2, 2] && [4, 2, 2][..2] == [4, 2] && [4, 2][..1] == [4];
    assert TotalPoints([4, 2]) == 10;
  }

  /** The sample cards end with 1, 2, 4, 8, 14 and 1 copies. */
  lemma SampleCopies()
    ensures AllCopies([4, 2, 2, 1, 0, 0]) == [1, 2, 4, 8, 14, 1]
  {
    var w := [4, 2, 2, 1, 0, 0];
    assert Copies(w, 0) == 1;
    assert Copies(w, 1) == 2;
    assert Copies(w, 2) == 4;
    assert Copies(w, 3) == 8;
    assert Copies(w, 4) == 14;
    assert Copies(w, 5) == 1;
  }

  /** ... 30 cards in all. */
  lemma SampleCards()
    ensures TotalCards([4, 2, 2, 1, 0, 0]) == Ok(30)
  {
    var w := [4, 2, 2, 1, 0, 0];
    SampleCopies();
    assert !SpillsAt(w, 0) && !SpillsAt(w, 1) && !SpillsAt(w, 2) && !SpillsAt(w, 3);
    assert !Spills(w);
    var c := [1, 2, 4, 8, 14, 1];
    assert c[..5] == [1, 2, 4, 8, 14] && c[..5][..4] == [1, 2, 4, 8];
    assert [1, 2, 4, 8][..3] == [1, 2, 4] && [1, 2, 4][..2] == [1, 2] && [1, 2][..1] == [1];
    assert Sum([1, 2]) == 3;
    assert Sum(c) == 30;
  }
}
