/** Day 7: Camel Cards (`src/bin/07.rs`). A hand's pattern is the sorted list
    of how often each of its cards occurs; the pattern gives the hand's
    type, jokers upgrade it in the wild game, and hands are ordered by type
    and then card by card. The winnings are the bids weighted by rank. */
module Day07 {
  import opened Common

  datatype Ordering = Less | Equal | Greater

  function Flip(o: Ordering): Ordering
  {
    match o
    case Less => Greater
    case Equal => Equal
    case Greater => Less
  }

  function CompareNat(a: nat, b: nat): (o: Ordering)
    ensures o == Equal <==> a == b
    ensures o == Less <==> a < b
  {
    if a < b then Less else if a > b then Greater else Equal
  }

  // ---------------------------------------------------------------------
  // The rank tables `CARD_RANK1` and `CARD_RANK2`

  /** The rank of a card; `J` is a jack (11) normally and a joker (1) in
      the wild game. No other character has a rank. */
  function Rank(c: char, wild: bool): (r: Option<nat>)
    ensures r.Some? <==> c in "AKQJT98765432"
    ensures r.Some? ==> 1 <= r.value <= 14
    ensures c == 'J' ==> r == Some(if wild then 1 else 11)
  {
    match c
    case 'A' => Some(14)
    case 'K' => Some(13)
    case 'Q' => Some(12)
    case 'J' => if wild then Some(1) else Some(11)
    case 'T' => Some(10)
    case _ => if '2' <= c <= '9' then Some(c as int - '0' as int) else None
  }

  /** Different cards have different ranks in either table. */
  lemma RankInjective(c: char, d: char, wild: bool)
    requires Rank(c, wild).Some? && Rank(c, wild) == Rank(d, wild)
    ensures c == d
  {
  }

  // ---------------------------------------------------------------------
  // The pattern

  function Occurrences(s: string, c: char): (n: nat)
    ensures n <= |s|
    ensures n == 0 <==> c !in s
  {
    if s == [] then 0 else Occurrences(s[..|s| - 1], c) + (if s[|s| - 1] == c then 1 else 0)
  }

  /** `s` without any `c`. */
  function Without(s: string, c: char): (t: string)
    ensures |t| == |s| - Occurrences(s, c)
    ensures forall d :: d in t <==> d in s && d != c
    ensures forall d | d != c :: Occurrences(t, d) == Occurrences(s, d)
  {
    if s == [] then []
    else
      var front := Without(s[..|s| - 1], c);
      assert s == s[..|s| - 1] + [s[|s| - 1]];
      if s[|s| - 1] == c then front else front + [s[|s| - 1]]
  }

  /** How often each different card occurs, one entry per card: the sizes
      of the groups of the sorted cards, in the order of first occurrence
      rather than of the cards (the pattern sorts them anyway). */
  function Multiplicities(s: string): (ms: seq<nat>)
    ensures forall i | 0 <= i < |ms| :: ms[i] >= 1
    ensures forall c | c in s :: Occurrences(s, c) in ms
    decreases |s|
  {
    if s == [] then []
    else [Occurrences(s, s[0])] + Multiplicities(Without(s, s[0]))
  }

  /** The groups cover the cards: their sizes add up to the number of
      cards. */
  lemma {:induction false} MultiplicitiesSum(s: string)
    ensures Sum(Multiplicities(s)) == |s|
    decreases |s|
  {
    if s != [] {
      var rest := Without(s, s[0]);
      MultiplicitiesSum(rest);
      SumCons(Occurrences(s, s[0]), Multiplicities(rest));
    }
  }

  lemma {:induction false} SumCons(x: int, xs: seq<int>)
    ensures Sum([x] + xs) == x + Sum(xs)
    decreases |xs|
  {
    if xs != [] {
      var ys := [x] + xs;
      assert ys[..|ys| - 1] == [x] + xs[..|xs| - 1];
      SumCons(x, xs[..|xs| - 1]);
    }
  }

  /** Each entry is at most the next. */
  predicate Ascending(xs: seq<nat>)
  {
    forall i | 0 < i < |xs| :: xs[i - 1] <= xs[i]
  }

  /** `xs` with `x` inserted before the first larger entry. */
  function InsertNat(x: nat, xs: seq<nat>): (r: seq<nat>)
    ensures |r| == |xs| + 1
    ensures multiset(r) == multiset(xs) + multiset{x}
  {
    if xs == [] then [x]
    else if x <= xs[0] then [x] + xs
    else
      assert xs == [xs[0]] + xs[1..];
      [xs[0]] + InsertNat(x, xs[1..])
  }

  /** Inserting keeps a list ascending. */
  lemma {:induction false} InsertNatAscending(x: nat, xs: seq<nat>)
    requires Ascending(xs)
    ensures Ascending(InsertNat(x, xs))
    ensures InsertNat(x, xs)[0] == if xs == [] || x <= xs[0] then x else xs[0]
    decreases |xs|
  {
    if xs != [] && x > xs[0] {
      var rest := InsertNat(x, xs[1..]);
      InsertNatAscending(x, xs[1..]);
      assert InsertNat(x, xs) == [xs[0]] + rest;
      assert rest[0] == x || rest[0] == xs[1];
      ConsAscending(xs[0], rest);
    }
  }

  lemma ConsAscending(h: nat, xs: seq<nat>)
    requires Ascending(xs) && (xs != [] ==> h <= xs[0])
    ensures Ascending([h] + xs)
  {
    var r := [h] + xs;
    forall i | 0 < i < |r|
      ensures r[i - 1] <= r[i]
    {
      if i > 1 {
        assert r[i - 1] == xs[i - 2] && r[i] == xs[i - 1];
      }
    }
  }

  /** Inserting adds the entry to the sum. */
  lemma {:induction false} InsertNatSum(x: nat, xs: seq<nat>)
    ensures Sum(InsertNat(x, xs)) == Sum(xs) + x
    decreases |xs|
  {
    if xs == [] {
      assert InsertNat(x, xs) == [x];
      SumCons(x, []);
    } else if x <= xs[0] {
      SumCons(x, xs);
    } else {
      InsertNatSum(x, xs[1..]);
      assert xs == [xs[0]] + xs[1..];
      SumCons(xs[0], xs[1..]);
      SumCons(xs[0], InsertNat(x, xs[1..]));
    }
  }

  /** `Vec::sort` on the multiplicities. */
  function SortNats(xs: seq<nat>): (r: seq<nat>)
    ensures Ascending(r) && multiset(r) == multiset(xs) && Sum(r) == Sum(xs)
  {
    if xs == [] then []
    else
      var front := SortNats(xs[..|xs| - 1]);
      assert xs == xs[..|xs| - 1] + [xs[|xs| - 1]];
      InsertNatAscending(xs[|xs| - 1], front);
      InsertNatSum(xs[|xs| - 1], front);
      InsertNat(xs[|xs| - 1], front)
  }

  /** The pattern of `Hand::new` before any joker upgrade: it sorts the
      group sizes, so it adds up to the number of cards. */
  function Pattern(cards: string): (p: seq<nat>)
    ensures Ascending(p) && Sum(p) == |cards|
    ensures forall c | c in cards :: Occurrences(cards, c) in p
    ensures forall i | 0 <= i < |p| :: p[i] >= 1
  {
    var ms := Multiplicities(cards);
    MultiplicitiesSum(cards);
    var p := SortNats(ms);
    forall c | c in cards
      ensures Occurrences(cards, c) in p
    {
      assert Occurrences(cards, c) in multiset(ms);
    }
    forall i | 0 <= i < |p|
      ensures p[i] >= 1
    {
      assert p[i] in multiset(ms);
    }
    p
  }

  lemma SumPrefix(p: seq<int>, k: nat)
    requires k < |p|
    ensures Sum(p[..k + 1]) == Sum(p[..k]) + p[k]
  {
    assert p[..k + 1][..k] == p[..k];
  }

  /** The sum of at most five entries, written out. */
  lemma SumSmall(p: seq<int>)
    requires |p| <= 5
    ensures |p| == 0 ==> Sum(p) == 0
    ensures |p| == 1 ==> Sum(p) == p[0]
    ensures |p| == 2 ==> Sum(p) == p[0] + p[1]
    ensures |p| == 3 ==> Sum(p) == p[0] + p[1] + p[2]
    ensures |p| == 4 ==> Sum(p) == p[0] + p[1] + p[2] + p[3]
    ensures |p| == 5 ==> Sum(p) == p[0] + p[1] + p[2] + p[3] + p[4]
  {
    assert p[..0] == [] && p[..|p|] == p;
    if |p| > 0 {
      SumPrefix(p, 0);
    }
    if |p| > 1 {
      SumPrefix(p, 1);
    }
    if |p| > 2 {
      SumPrefix(p, 2);
    }
    if |p| > 3 {
      SumPrefix(p, 3);
    }
    if |p| > 4 {
      SumPrefix(p, 4);
    }
  }

  predicate Positive(p: seq<nat>)
  {
    forall i | 0 <= i < |p| :: p[i] >= 1
  }

  /** The seven patterns, written out. */
  predicate Known(p: seq<nat>)
  {
    p == [5] || p == [1, 4] || p == [2, 3] || p == [1, 1, 3] || p == [1, 2, 2] || p == [1, 1, 1, 2] || p == [1, 1, 1, 1, 1]
  }

  /** The seven patterns are exactly the ascending lists of positive counts
      adding up to five. */
  lemma FivePatterns(p: seq<nat>)
    ensures Positive(p) && Ascending(p) && Sum(p) == 5 <==> Known(p)
  {
    if Known(p) {
      SumSmall(p);
    } else if Positive(p) && Ascending(p) && Sum(p) == 5 {
      PositiveSumAtLeastLength(p);
      SumSmall(p);
      OnlyKnown(p);
    }
  }

  lemma OnlyKnown(p: seq<nat>)
    requires 0 < |p| <= 5 && Positive(p) && Ascending(p)
    requires |p| == 1 ==> p[0] == 5
    requires |p| == 2 ==> p[0] + p[1] == 5
    requires |p| == 3 ==> p[0] + p[1] + p[2] == 5
    requires |p| == 4 ==> p[0] + p[1] + p[2] + p[3] == 5
    requires |p| == 5 ==> p[0] + p[1] + p[2] + p[3] + p[4] == 5
    ensures Known(p)
  {
    if |p| == 1 {
      assert p == [5];
    } else if |p| == 2 {
      assert p[0] <= p[1];
      assert p == [p[0], p[1]];
    } else if |p| == 3 {
      assert p[0] <= p[1] <= p[2];
      assert p == [p[0], p[1], p[2]];
    } else if |p| == 4 {
      assert p[0] <= p[1] <= p[2] <= p[3];
      assert p == [1, 1, 1, 2];
    } else {
      assert p == [1, 1, 1, 1, 1];
    }
  }

  lemma {:induction false} PositiveSumAtLeastLength(p: seq<nat>)
    requires Positive(p)
    ensures Sum(p) >= |p|
  {
    if p != [] {
      PositiveSumAtLeastLength(p[..|p| - 1]);
    }
  }

  // ---------------------------------------------------------------------
  // The type of a hand

  /** `Hand::score`: the patterns of five cards, from five of a kind (7)
      down to high card (1); any other pattern panics. */
  function Score(pattern: seq<nat>): (r: Result<nat>)
    ensures r.Ok? ==> 1 <= r.value <= 7
    ensures r.Ok? ==> (r.value == 7 <==> pattern == [5])
  {
    if pattern == [5] then Ok(7)
    else if pattern == [1, 4] then Ok(6)
    else if pattern == [2, 3] then Ok(5)
    else if pattern == [1, 1, 3] then Ok(4)
    else if pattern == [1, 2, 2] then Ok(3)
    else if pattern == [1, 1, 1, 2] then Ok(2)
    else if pattern == [1, 1, 1, 1, 1] then Ok(1)
    else Panic("ohno")
  }

  /** The patterns with a type are exactly those of five cards: ascending
      positive counts adding up to five. */
  lemma ScoreFive(pattern: seq<nat>)
    ensures Score(pattern).Ok? <==> Positive(pattern) && Ascending(pattern) && Sum(pattern) == 5
  {
    FivePatterns(pattern);
  }

  /** The types are ordered by the largest group first and the number of
      groups second. */
  lemma {:induction false} ScoreOrder(p: seq<nat>, q: seq<nat>)
    requires Score(p).Ok? && Score(q).Ok?
    ensures Score(p).value < Score(q).value <==> p[|p| - 1] < q[|q| - 1] || (p[|p| - 1] == q[|q| - 1] && |p| > |q|)
  {
    FivePatterns(p);
    FivePatterns(q);
  }

  /** The joker upgrade of `Hand::new` for `jokers` jokers, in the order of
      the source's match arms. An upgrade keeps five cards and never lowers
      the type; it raises it unless the hand is all jokers. */
  function Upgrade(jokers: nat, pattern: seq<nat>): (r: Result<seq<nat>>)
    ensures r.Ok? ==> Score(pattern).Ok? && Score(r.value).Ok?
    ensures r.Ok? ==> Sum(r.value) == Sum(pattern) == 5
    ensures r.Ok? ==> Score(r.value).value >= Score(pattern).value
    ensures r.Ok? && pattern != [5] ==> Score(r.value).value > Score(pattern).value
  {
    var r :=
      if jokers == 1 && pattern == [1, 1, 1, 1, 1] then Ok([1, 1, 1, 2])
      else if pattern == [1, 1, 1, 2] then Ok([1, 1, 3])
      else if jokers == 1 && pattern == [1, 2, 2] then Ok([2, 3])
      else if jokers == 2 && pattern == [1, 2, 2] then Ok([1, 4])
      else if pattern == [1, 1, 3] then Ok([1, 4])
      else if pattern == [2, 3] then Ok([5])
      else if pattern == [1, 4] then Ok([5])
      else if jokers == 5 && pattern == [5] then Ok([5])
      else Panic("Unknown");
    FivePatterns(pattern);
    if r.Ok? then FivePatterns(r.value); r else r
  }

  /** The upgrade is defined whenever the jokers are one of the groups of a
      five-card pattern. */
  lemma UpgradeDefined(jokers: nat, pattern: seq<nat>)
    requires Score(pattern).Ok? && jokers in pattern
    ensures Upgrade(jokers, pattern).Ok?
  {
    FivePatterns(pattern);
  }

  datatype Hand = Hand(cards: string, bid: nat, wild: bool, pattern: seq<nat>)

  /** `Hand::new`. */
  function NewHand(cards: string, bid: nat, wild: bool): (r: Result<Hand>)
    ensures r.Ok? ==> r.value.cards == cards && r.value.bid == bid && r.value.wild == wild
    ensures r.Ok? && !(wild && 'J' in cards) ==> r.value.pattern == Pattern(cards)
    ensures r.Panic? <==> wild && 'J' in cards && Upgrade(Occurrences(cards, 'J'), Pattern(cards)).Panic?
    ensures r.Ok? && wild && 'J' in cards ==> r.value.pattern == Upgrade(Occurrences(cards, 'J'), Pattern(cards)).value
  {
    var pattern := Pattern(cards);
    if wild && Occurrences(cards, 'J') > 0 then
      match Upgrade(Occurrences(cards, 'J'), pattern)
      case Panic(why) => Panic(why)
      case Ok(upgraded) => Ok(Hand(cards, bid, wild, upgraded))
    else Ok(Hand(cards, bid, wild, pattern))
  }

  /** Every hand of five cards is made in either game and has a type; in
      the wild game the type is at least that of the cards taken as they
      are. */
  lemma FiveCards(cards: string, bid: nat, wild: bool)
    requires |cards| == 5
    ensures NewHand(cards, bid, wild).Ok?
    ensures Score(NewHand(cards, bid, wild).value.pattern).Ok?
    ensures Score(NewHand(cards, bid, wild).value.pattern).value >= Score(Pattern(cards)).value
  {
    FivePatterns(Pattern(cards));
    if wild && 'J' in cards {
      UpgradeDefined(Occurrences(cards, 'J'), Pattern(cards));
    }
  }

  // ---------------------------------------------------------------------
  // Comparing hands

  /** The card-by-card loop of `cmp`: the first pair of different ranks
      decides; a card without a rank is `unwrap`ped and panics. */
  function CompareCards(s: string, o: string, wild: bool): Result<Ordering>
  {
    if s == [] || o == [] then Ok(Equal)
    else match (Rank(s[0], wild), Rank(o[0], wild))
      case (None, _) => Panic("called `Option::unwrap()` on a `None` value")
      case (_, None) => Panic("called `Option::unwrap()` on a `None` value")
      case (Some(a), Some(b)) => if a == b then CompareCards(s[1..], o[1..], wild) else Ok(CompareNat(a, b))
  }

  /** `Ord::cmp`: by type, then card by card under the table of `self`. */
  function Cmp(a: Hand, b: Hand): Result<Ordering>
  {
    var sa :- Score(a.pattern);
    var sb :- Score(b.pattern);
    if sa != sb then Ok(CompareNat(sa, sb)) else CompareCards(a.cards, b.cards, a.wild)
  }

  /** The cards agree, rank for rank, as far as both go. */
  predicate SameRanks(s: string, o: string, wild: bool)
  {
    forall i | 0 <= i < |s| && i < |o| :: Rank(s[i], wild).Some? && Rank(s[i], wild) == Rank(o[i], wild)
  }

  /** The card loop finds the hands equal exactly when the ranks agree
      pairwise. */
  lemma {:induction false} CompareCardsEqual(s: string, o: string, wild: bool)
    ensures CompareCards(s, o, wild) == Ok(Equal) <==> SameRanks(s, o, wild)
    decreases |s|
  {
    if s != [] && o != [] {
      CompareCardsEqual(s[1..], o[1..], wild);
      if SameRanks(s, o, wild) {
        assert Rank(s[0], wild).Some? && Rank(s[0], wild) == Rank(o[0], wild);
        assert SameRanks(s[1..], o[1..], wild) by {
          forall i | 0 <= i < |s| - 1 && i < |o| - 1
            ensures Rank(s[1..][i], wild).Some? && Rank(s[1..][i], wild) == Rank(o[1..][i], wild)
          {
            assert s[1..][i] == s[i + 1] && o[1..][i] == o[i + 1];
          }
        }
      }
      if CompareCards(s, o, wild) == Ok(Equal) {
        forall i | 0 <= i < |s| && i < |o|
          ensures Rank(s[i], wild).Some? && Rank(s[i], wild) == Rank(o[i], wild)
        {
          if i > 0 {
            assert s[1..][i - 1] == s[i] && o[1..][i - 1] == o[i];
          }
        }
      }
    }
  }

  /** `cmp` is `Equal` exactly when the types are equal and the cards agree
      rank for rank. */
  lemma CmpEqual(a: Hand, b: Hand)
    ensures Cmp(a, b) == Ok(Equal) <==>
      Score(a.pattern).Ok? && Score(b.pattern).Ok? && Score(a.pattern) == Score(b.pattern) && SameRanks(a.cards, b.cards, a.wild)
  {
    CompareCardsEqual(a.cards, b.cards, a.wild);
  }

  /** The card loop is antisymmetric: comparing the other way round flips
      the answer, and a panic is a panic either way. */
  lemma {:induction false} CompareCardsFlip(s: string, o: string, wild: bool)
    ensures CompareCards(o, s, wild).Ok? <==> CompareCards(s, o, wild).Ok?
    ensures CompareCards(s, o, wild).Ok? ==> CompareCards(o, s, wild).value == Flip(CompareCards(s, o, wild).value)
    decreases |s|
  {
    if s != [] && o != [] {
      CompareCardsFlip(s[1..], o[1..], wild);
    }
  }

  /** `cmp` is antisymmetric on hands of the same game. */
  lemma CmpFlip(a: Hand, b: Hand)
    requires a.wild == b.wild
    ensures Cmp(b, a).Ok? <==> Cmp(a, b).Ok?
    ensures Cmp(a, b).Ok? ==> Cmp(b, a).value == Flip(Cmp(a, b).value)
  {
    CompareCardsFlip(a.cards, b.cards, a.wild);
  }

  // ---------------------------------------------------------------------
  // The order as a key

  /** A hand `cmp` can order without panicking: it has a type and every
      card has a rank. */
  predicate Valid(h: Hand)
  {
    Score(h.pattern).Ok? && forall i | 0 <= i < |h.cards| :: Rank(h.cards[i], h.wild).Some?
  }

  /** The rank of each card, 0 standing for a card without one. */
  function Ranks(s: string, wild: bool): (r: seq<nat>)
    ensures |r| == |s|
    ensures forall i | 0 <= i < |s| && Rank(s[i], wild).Some? :: r[i] == Rank(s[i], wild).value
  {
    seq(|s|, i requires 0 <= i < |s| => match Rank(s[i], wild) case Some(v) => v case None => 0)
  }

  /** What `cmp` looks at: the type, then the rank of each card (0 where
      `cmp` would panic). */
  function Key(h: Hand): (k: seq<nat>)
    ensures |k| == |h.cards| + 1
  {
    [match Score(h.pattern) case Ok(v) => v case Panic(_) => 0] + Ranks(h.cards, h.wild)
  }

  /** Lexicographic comparison, as far as the shorter list goes. */
  function LexCmp(a: seq<nat>, b: seq<nat>): Ordering
  {
    if a == [] || b == [] then Equal
    else if a[0] != b[0] then CompareNat(a[0], b[0])
    else LexCmp(a[1..], b[1..])
  }

  lemma {:induction false} CompareCardsLex(s: string, o: string, wild: bool)
    requires forall i | 0 <= i < |s| :: Rank(s[i], wild).Some?
    requires forall i | 0 <= i < |o| :: Rank(o[i], wild).Some?
    ensures CompareCards(s, o, wild) == Ok(LexCmp(Ranks(s, wild), Ranks(o, wild)))
    decreases |s|
  {
    if s != [] && o != [] {
      assert Ranks(s, wild)[1..] == Ranks(s[1..], wild);
      assert Ranks(o, wild)[1..] == Ranks(o[1..], wild);
      CompareCardsLex(s[1..], o[1..], wild);
    }
  }

  /** On hands that can be compared, `cmp` is the lexicographic order of
      their keys. */
  lemma CmpIsKeyOrder(a: Hand, b: Hand)
    requires Valid(a) && Valid(b) && a.wild == b.wild
    ensures Cmp(a, b) == Ok(LexCmp(Key(a), Key(b)))
  {
    assert Key(a)[1..] == Ranks(a.cards, a.wild);
    assert Key(b)[1..] == Ranks(b.cards, b.wild);
    CompareCardsLex(a.cards, b.cards, a.wild);
  }

  lemma {:induction false} LexFlip(a: seq<nat>, b: seq<nat>)
    ensures LexCmp(b, a) == Flip(LexCmp(a, b))
    decreases |a|
  {
    if a != [] && b != [] && a[0] == b[0] {
      LexFlip(a[1..], b[1..]);
    }
  }

  lemma {:induction false} LexReflexive(a: seq<nat>)
    ensures LexCmp(a, a) == Equal
    decreases |a|
  {
    if a != [] {
      LexReflexive(a[1..]);
    }
  }

  /** On keys of one length, "not greater" is transitive, so `cmp` is a
      total order on the hands of a game. */
  lemma {:induction false} LexTransitive(a: seq<nat>, b: seq<nat>, c: seq<nat>)
    requires |a| == |b| == |c|
    requires LexCmp(a, b) != Greater && LexCmp(b, c) != Greater
    ensures LexCmp(a, c) != Greater
    ensures LexCmp(a, b) == Less || LexCmp(b, c) == Less ==> LexCmp(a, c) == Less
    decreases |a|
  {
    if a != [] && a[0] == b[0] == c[0] {
      LexTransitive(a[1..], b[1..], c[1..]);
    }
  }

  /** Equal keys of one length are equal lists. */
  lemma {:induction false} LexEqual(a: seq<nat>, b: seq<nat>)
    requires |a| == |b|
    ensures LexCmp(a, b) == Equal <==> a == b
    decreases |a|
  {
    if a != [] && a[0] == b[0] {
      LexEqual(a[1..], b[1..]);
      assert a == [a[0]] + a[1..] && b == [b[0]] + b[1..];
    }
  }

  /** A hand that has a type has five cards, so all keys of a game have the
      same length; and two such hands compare `Equal` exactly when their
      cards are the same. */
  lemma MadeHandFive(h: Hand)
    requires NewHand(h.cards, h.bid, h.wild) == Ok(h) && Score(h.pattern).Ok?
    ensures |h.cards| == 5
  {
    ScoreFive(h.pattern);
  }

  lemma MadeHands(a: Hand, b: Hand)
    requires NewHand(a.cards, a.bid, a.wild) == Ok(a) && NewHand(b.cards, b.bid, b.wild) == Ok(b)
    requires Valid(a) && Valid(b) && a.wild == b.wild
    ensures |a.cards| == |b.cards| == 5
    ensures Cmp(a, b) == Ok(Equal) <==> a.cards == b.cards
  {
    MadeHandFive(a);
    MadeHandFive(b);
    CmpIsKeyOrder(a, b);
    LexEqual(Key(a), Key(b));
    if Key(a) == Key(b) {
      forall i | 0 <= i < 5
        ensures a.cards[i] == b.cards[i]
      {
        assert Key(a)[i + 1] == Key(b)[i + 1];
        RankInjective(a.cards[i], b.cards[i], a.wild);
      }
    }
  }

  // ---------------------------------------------------------------------
  // Sorting and winnings

  predicate AllValid(hs: seq<Hand>)
  {
    forall i | 0 <= i < |hs| :: Valid(hs[i])
  }

  /** Each entry's key is at most the next one's. */
  predicate SortedBy<T>(xs: seq<T>, key: T -> seq<nat>)
  {
    forall i | 0 < i < |xs| :: LexCmp(key(xs[i - 1]), key(xs[i])) != Greater
  }

  /** `x` placed after every entry whose key is not greater than its own. */
  function InsertBy<T(==)>(x: T, xs: seq<T>, key: T -> seq<nat>): (r: seq<T>)
    ensures multiset(r) == multiset(xs) + multiset{x}
    ensures |r| > 0 && (r[|r| - 1] == x || (xs != [] && r[|r| - 1] == xs[|xs| - 1]))
  {
    if xs == [] then [x]
    else
      var last := xs[|xs| - 1];
      assert xs == xs[..|xs| - 1] + [last];
      if LexCmp(key(last), key(x)) == Greater then InsertBy(x, xs[..|xs| - 1], key) + [last]
      else xs + [x]
  }

  lemma {:induction false} InsertBySorted<T>(x: T, xs: seq<T>, key: T -> seq<nat>)
    requires SortedBy(xs, key)
    ensures SortedBy(InsertBy(x, xs, key), key)
    decreases |xs|
  {
    if xs != [] {
      var last := xs[|xs| - 1];
      var front := xs[..|xs| - 1];
      if LexCmp(key(last), key(x)) == Greater {
        assert SortedBy(front, key) by {
          forall i | 0 < i < |front|
            ensures LexCmp(key(front[i - 1]), key(front[i])) != Greater
          {
            assert front[i - 1] == xs[i - 1] && front[i] == xs[i];
          }
        }
        InsertBySorted(x, front, key);
        var ins := InsertBy(x, front, key);
        var r := ins + [last];
        LexFlip(key(last), key(x));
        assert LexCmp(key(ins[|ins| - 1]), key(last)) != Greater;
        forall i | 0 < i < |r|
          ensures LexCmp(key(r[i - 1]), key(r[i])) != Greater
        {
          if i < |ins| {
            assert r[i - 1] == ins[i - 1] && r[i] == ins[i];
          }
        }
      } else {
        var r := xs + [x];
        forall i | 0 < i < |r|
          ensures LexCmp(key(r[i - 1]), key(r[i])) != Greater
        {
          if i < |xs| {
            assert r[i - 1] == xs[i - 1] && r[i] == xs[i];
          }
        }
      }
    }
  }

  /** `sort()`: a stable sort by key, here an insertion sort that takes
      the entries from the front. */
  function SortBy<T(==)>(xs: seq<T>, key: T -> seq<nat>): (r: seq<T>)
    ensures SortedBy(r, key) && multiset(r) == multiset(xs)
  {
    if xs == [] then []
    else
      var front := SortBy(xs[..|xs| - 1], key);
      assert xs == xs[..|xs| - 1] + [xs[|xs| - 1]];
      InsertBySorted(xs[|xs| - 1], front, key);
      InsertBy(xs[|xs| - 1], front, key)
  }

  /** The entries with key `k`, in order. */
  function WithKey<T>(xs: seq<T>, key: T -> seq<nat>, k: seq<nat>): seq<T>
  {
    if xs == [] then []
    else WithKey(xs[..|xs| - 1], key, k) + (if key(xs[|xs| - 1]) == k then [xs[|xs| - 1]] else [])
  }

  lemma WithKeySnoc<T>(xs: seq<T>, x: T, key: T -> seq<nat>, k: seq<nat>)
    ensures WithKey(xs + [x], key, k) == WithKey(xs, key, k) + (if key(x) == k then [x] else [])
  {
    assert (xs + [x])[..|xs|] == xs;
  }

  lemma {:induction false} InsertByStable<T>(x: T, xs: seq<T>, key: T -> seq<nat>, k: seq<nat>)
    ensures WithKey(InsertBy(x, xs, key), key, k) == WithKey(xs, key, k) + (if key(x) == k then [x] else [])
    decreases |xs|
  {
    if xs == [] {
      WithKeySnoc([], x, key, k);
      assert [] + [x] == [x];
    } else {
      var last := xs[|xs| - 1];
      var front := xs[..|xs| - 1];
      assert xs == front + [last];
      WithKeySnoc(front, last, key, k);
      if LexCmp(key(last), key(x)) == Greater {
        InsertByStable(x, front, key, k);
        var ins := InsertBy(x, front, key);
        assert InsertBy(x, xs, key) == ins + [last];
        WithKeySnoc(ins, last, key, k);
        LexReflexive(key(x));
        if key(x) == k {
          assert key(last) != k;
          assert WithKey(xs, key, k) == WithKey(front, key, k);
          assert WithKey(ins + [last], key, k) == WithKey(front, key, k) + [x];
        } else {
          assert WithKey(ins, key, k) == WithKey(front, key, k) + [];
        }
      } else {
        assert InsertBy(x, xs, key) == xs + [x];
        WithKeySnoc(xs, x, key, k);
      }
    }
  }

  /** The sort is stable: the entries of any one key keep their order. */
  lemma {:induction false} SortByStable<T>(xs: seq<T>, key: T -> seq<nat>, k: seq<nat>)
    ensures WithKey(SortBy(xs, key), key, k) == WithKey(xs, key, k)
    decreases |xs|
  {
    if xs != [] {
      var front := xs[..|xs| - 1];
      var last := xs[|xs| - 1];
      var sorted := SortBy(front, key);
      assert SortBy(xs, key) == InsertBy(last, sorted, key);
      SortByStable(front, key, k);
      InsertByStable(last, sorted, key, k);
      assert WithKey(SortBy(xs, key), key, k) == WithKey(front, key, k) + (if key(last) == k then [last] else []);
    }
  }

  /** The total winnings: each bid times its rank, the rank counting from
      one at the weakest hand. */
  function Winnings(hs: seq<Hand>): nat
  {
    if hs == [] then 0 else Winnings(hs[..|hs| - 1]) + |hs| * hs[|hs| - 1].bid
  }

  // ---------------------------------------------------------------------
  // Parsing and solving

  /** One line: cards, a space and the bid, a `u32`. */
  function ParseHand(line: string, wild: bool): (r: Result<Hand>)
    ensures r.Ok? ==> r.value.wild == wild && r.value.bid < 0x1_0000_0000
    ensures r.Ok? ==> NewHand(r.value.cards, r.value.bid, wild) == r
  {
    match SplitOnce(line, " ")
    case None => Panic("Should be two")
    case Some((cards, bid)) =>
      match ParseU32(bid)
      case Panic(m) => Panic(m)
      case Ok(n) => NewHand(cards, n, wild)
  }

  function ParseHands(input: string, wild: bool): (r: Result<seq<Hand>>)
    ensures r.Ok? ==> forall i | 0 <= i < |r.value| :: r.value[i].wild == wild
  {
    var lines := Lines(Trim(input));
    HandsOfGame(lines, wild);
    AllOk(lines, line => ParseHand(line, wild))
  }

  /** Every hand read from the lines of a game is of that game. */
  lemma HandsOfGame(lines: seq<string>, wild: bool)
    ensures var r := AllOk(lines, line => ParseHand(line, wild));
      r.Ok? ==> forall i | 0 <= i < |r.value| :: r.value[i].wild == wild
  {
    var r := AllOk(lines, line => ParseHand(line, wild));
    if r.Ok? {
      forall i | 0 <= i < |r.value|
        ensures r.value[i].wild == wild
      {
        assert ParseHand(lines[i], wild) == Ok(r.value[i]);
      }
    }
  }

  /** `solve`: a sort of two or more hands compares every hand, so a hand
      without a type panics; the winnings of the sorted hands are cut to
      32 bits. */
  method Solve(input: string, wild: bool) returns (r: Result<nat>)
    ensures ParseHands(input, wild).Panic? ==> r == ParseHands(input, wild).PropagateFailure()
    ensures ParseHands(input, wild).Ok? ==>
      var hands := ParseHands(input, wild).value;
      if |hands| <= 1 then r == Ok(Winnings(hands) % 0x1_0000_0000)
      else if exists i | 0 <= i < |hands| :: Score(hands[i].pattern).Panic? then r == Panic("ohno")
      else if !AllValid(hands) then r == Panic("called `Option::unwrap()` on a `None` value")
      else r == Ok(Winnings(SortBy(hands, Key)) % 0x1_0000_0000)
  {
    var hands :- ParseHands(input, wild);
    var sorted := hands;
    if |hands| > 1 {
      if exists i | 0 <= i < |hands| :: Score(hands[i].pattern).Panic? {
        return Panic("ohno");
      }
      if !AllValid(hands) {
        return Panic("called `Option::unwrap()` on a `None` value");
      }
      sorted := SortBy(hands, Key);
    }
    var total := TotalWinnings(sorted);
    r := Ok(total % 0x1_0000_0000);
  }

  /** The `enumerate().map().sum()` over the sorted hands. */
  method TotalWinnings(hs: seq<Hand>) returns (total: nat)
    ensures total == Winnings(hs)
  {
    total := 0;
    for i := 0 to |hs|
      invariant total == Winnings(hs[..i])
    {
      assert hs[..i + 1][..i] == hs[..i];
      total := total + (i + 1) * hs[i].bid;
    }
    assert hs[..|hs|] == hs;
  }

  /** Part one: `solve` with J a plain card. */
  method PartOne(input: string) returns (r: Result<nat>)
    ensures ParseHands(input, false).Panic? ==> r == ParseHands(input, false).PropagateFailure()
    ensures ParseHands(input, false).Ok? ==>
      var hands := ParseHands(input, false).value;
      if |hands| <= 1 then r == Ok(Winnings(hands) % 0x1_0000_0000)
      else if exists i | 0 <= i < |hands| :: Score(hands[i].pattern).Panic? then r == Panic("ohno")
      else if !AllValid(hands) then r == Panic("called `Option::unwrap()` on a `None` value")
      else r == Ok(Winnings(SortBy(hands, Key)) % 0x1_0000_0000)
  {
    r := Solve(input, false);
  }

  /** Part two: `solve` with J the joker. */
  method PartTwo(input: string) returns (r: Result<nat>)
    ensures ParseHands(input, true).Panic? ==> r == ParseHands(input, true).PropagateFailure()
    ensures ParseHands(input, true).Ok? ==>
      var hands := ParseHands(input, true).value;
      if |hands| <= 1 then r == Ok(Winnings(hands) % 0x1_0000_0000)
      else if exists i | 0 <= i < |hands| :: Score(hands[i].pattern).Panic? then r == Panic("ohno")
      else if !AllValid(hands) then r == Panic("called `Option::unwrap()` on a `None` value")
      else r == Ok(Winnings(SortBy(hands, Key)) % 0x1_0000_0000)
  {
    r := Solve(input, true);
  }
}
