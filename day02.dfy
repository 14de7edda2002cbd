/** Day 2: cube conundrum. Each game lists rounds of cubes drawn from a bag;
    part one adds the ids of the games possible with 12 red, 13 green and
    14 blue cubes, part two the powers of the fewest cubes each game needs. */
module Day02 {
  import opened Common

  /** `CubeCollection`: how many cubes of each colour. */
  datatype CubeCollection = CubeCollection(red: nat, green: nat, blue: nat)

  /** `Game`: its id and the cubes shown in each round. */
  datatype Game = Game(id: nat, rounds: seq<CubeCollection>)

  datatype Colour = Red | Green | Blue

  /** `panic!("wtf")`, for a colour that is none of the three. */
  const Wtf := "wtf"
  /** `todo!()`, for an item without a space. */
  const Todo := "not yet implemented"

  const Empty := CubeCollection(0, 0, 0)

  function ColourOf(name: string): Option<Colour>
  {
    if name == "red" then Some(Red)
    else if name == "green" then Some(Green)
    else if name == "blue" then Some(Blue)
    else None
  }

  function Count(cc: CubeCollection, colour: Colour): nat
  {
    match colour
    case Red => cc.red
    case Green => cc.green
    case Blue => cc.blue
  }

  // ---------------------------------------------------------------------
  // One round: `CubeCollection::from`

  /** Each piece with its surrounding blanks trimmed. */
  function TrimAll(pieces: seq<string>): (r: seq<string>)
    ensures |r| == |pieces| && forall i | 0 <= i < |r| :: r[i] == Trim(pieces[i])
  {
    seq(|pieces|, i requires 0 <= i < |pieces| => Trim(pieces[i]))
  }

  /** The comma-separated items of a round, trimmed. */
  function Gems(value: string): seq<string>
  {
    TrimAll(Split(Trim(value), ","))
  }

  /** One item, `"<count> <colour>"`: its colour and count, or the panic
      it raises (no space; a colour that is none of the three; a count that
      is not a `u32`). */
  function Item(gem: string): Result<(Colour, nat)>
  {
    match SplitOnce(gem, " ")
    case None => Panic(Todo)
    case Some((v, name)) =>
      match ColourOf(name)
      case None => Panic(Wtf)
      case Some(colour) =>
        var n :- ParseU32(v);
        Ok((colour, n))
  }

  /** The cubes of `colour` over the items. */
  function Counted(items: seq<(Colour, nat)>, colour: Colour): nat
  {
    if items == [] then 0
    else
      var item := items[|items| - 1];
      Counted(items[..|items| - 1], colour) + (if item.0 == colour then item.1 else 0)
  }

  function Tally(items: seq<(Colour, nat)>): CubeCollection
  {
    CubeCollection(Counted(items, Red), Counted(items, Green), Counted(items, Blue))
  }

  /** What `CubeCollection::from` makes of a round: the cubes of each colour
      added up over its items, or the panic of the first item that
      panics. */
  function Cubes(value: string): Result<CubeCollection>
  {
    TallyOf(Gems(value))
  }

  lemma TallyStep(items: seq<(Colour, nat)>, colour: Colour, n: nat)
    ensures Tally(items + [(colour, n)]) == match colour
      case Red => Tally(items).(red := Tally(items).red + n)
      case Green => Tally(items).(green := Tally(items).green + n)
      case Blue => Tally(items).(blue := Tally(items).blue + n)
  {
    assert (items + [(colour, n)])[..|items|] == items;
  }

  /** The items' counts added up by colour, or the panic of the first item
      that panics. */
  function TallyOf(gems: seq<string>): Result<CubeCollection>
  {
    var items :- AllOk(gems, Item);
    Ok(Tally(items))
  }

  /** The loop of `CubeCollection::from`: start from no cubes and add each
      item's count to its colour. */
  method AddItems(gems: seq<string>) returns (r: Result<CubeCollection>)
    ensures r == TallyOf(gems)
  {
    var cc := Empty;
    for i := 0 to |gems|
      invariant AllOk(gems[..i], Item).Ok? && cc == Tally(AllOk(gems[..i], Item).value)
    {
      ghost var items := AllOk(gems[..i], Item).value;
      var split := SplitOnce(gems[i], " ");
      if split.None? {
        AllOkPrefixPanic(gems, i, Item);
        return Panic(Todo);
      }
      var v, name := split.value.0, split.value.1;
      var n := ParseU32(v);
      if name == "red" || name == "green" || name == "blue" {
        if n.Panic? {
          AllOkPrefixPanic(gems, i, Item);
          return Panic(n.reason);
        }
        AllOkStep(gems, i, Item);
        TallyStep(items, ColourOf(name).value, n.value);
      }
      if name == "red" {
        cc := cc.(red := cc.red + n.value);
      } else if name == "green" {
        cc := cc.(green := cc.green + n.value);
      } else if name == "blue" {
        cc := cc.(blue := cc.blue + n.value);
      } else {
        AllOkPrefixPanic(gems, i, Item);
        return Panic(Wtf);
      }
    }
    assert gems[..|gems|] == gems;
    return Ok(cc);
  }

  /** `CubeCollection::from`: the trimmed items of the round, added up. */
  method CubesFrom(value: string) returns (r: Result<CubeCollection>)
    ensures r == Cubes(value)
  {
    r := AddItems(Gems(value));
  }

  /** A colour no item names stays at 0. */
  lemma {:induction false} CountedAbsent(items: seq<(Colour, nat)>, colour: Colour)
    requires forall i | 0 <= i < |items| :: items[i].0 != colour
    ensures Counted(items, colour) == 0
  {
    if items != [] {
      var front := items[..|items| - 1];
      assert forall i | 0 <= i < |front| :: front[i] == items[i];
      CountedAbsent(front, colour);
    }
  }

  /** Counts add up across any split of the items, so items naming the
      same colour add up wherever they stand. */
  lemma {:induction false} CountedAppend(a: seq<(Colour, nat)>, b: seq<(Colour, nat)>, colour: Colour)
    ensures Counted(a + b, colour) == Counted(a, colour) + Counted(b, colour)
  {
    if b != [] {
      var front := b[..|b| - 1];
      CountedAppend(a, front, colour);
      assert (a + b)[..|a + b| - 1] == a + front;
      assert (a + b)[|a + b| - 1] == b[|b| - 1];
    } else {
      assert a + b == a;
    }
  }

  /** An item whose colour is none of the three panics with `"wtf"`
      once the items before it are well formed. */
  lemma UnknownColour(value: string, i: nat, v: string, name: string)
    requires i < |Gems(value)| && SplitOnce(Gems(value)[i], " ") == Some((v, name))
    requires name != "red" && name != "green" && name != "blue"
    requires forall j | 0 <= j < i :: Item(Gems(value)[j]).Ok?
    ensures Cubes(value) == Panic(Wtf)
  {
    AllOkFirstPanic(Gems(value), i, Item);
  }

  // ---------------------------------------------------------------------
  // One game: `Game::from`

  /** `Game::from`: `"Game <id>: <round>; <round>; ..."`. The rounds are
      read before the id. */
  function GameFrom(value: string): Result<Game>
  {
    match SplitOnce(value, ":")
    case None => Panic(UnwrapNone)
    case Some((game, cubes)) =>
      match SplitOnce(game, " ")
      case None => Panic(UnwrapNone)
      case Some((_, id)) =>
        var rounds :- AllOk(Split(Trim(cubes), ";"), Cubes);
        var n :- ParseU32(id);
        Ok(Game(n, rounds))
  }

  /** A game reads as the id after the first space before the `':'`, and
      one collection of cubes per `';'`-separated round after it; without
      a `':'` it panics. */
  lemma GameFromSpec(value: string)
    ensures SplitOnce(value, ":").None? ==> GameFrom(value) == Panic(UnwrapNone)
    ensures GameFrom(value).Ok? ==>
              && SplitOnce(value, ":").Some?
              && var (game, cubes) := SplitOnce(value, ":").value;
                 && SplitOnce(game, " ").Some?
                 && ParseU32(SplitOnce(game, " ").value.1) == Ok(GameFrom(value).value.id)
                 && |GameFrom(value).value.rounds| == |Split(Trim(cubes), ";")|
                 && forall k | 0 <= k < |GameFrom(value).value.rounds| ::
                      Cubes(Split(Trim(cubes), ";")[k]) == Ok(GameFrom(value).value.rounds[k])
  {
  }

  // ---------------------------------------------------------------------
  // Part one

  /** The bag of part one. */
  const Limits := CubeCollection(12, 13, 14)

  /** A round shows more cubes of some colour than the bag holds. */
  predicate Exceeds(round: CubeCollection)
  {
    round.green > Limits.green || round.red > Limits.red || round.blue > Limits.blue
  }

  /** What a game adds to part one: its id when no round exceeds the bag,
      otherwise 0. */
  function IdIfPossible(game: Game): (v: nat)
    ensures v == game.id <==> game.id == 0 || forall k | 0 <= k < |game.rounds| :: !Exceeds(game.rounds[k])
    ensures v == 0 || v == game.id
  {
    if exists k | 0 <= k < |game.rounds| :: Exceeds(game.rounds[k]) then 0 else game.id
  }

  function GameOf(line: string): Result<Game>
  {
    GameFrom(Trim(line))
  }

  /** The games of the input, one per `'\n'`-separated line of the trimmed
      text, or the panic of the first line that is not a game. */
  function Games(input: string): Result<seq<Game>>
  {
    AllOk(SplitLines(input), GameOf)
  }

  function IdSum(games: seq<Game>): nat
  {
    if games == [] then 0 else IdSum(games[..|games| - 1]) + IdIfPossible(games[|games| - 1])
  }

  /** `part_one`: every line is a game, and the ids of the possible ones
      add up. */
  function PartOne(input: string): (r: Result<nat>)
    ensures r.Ok? <==> Games(input).Ok?
    ensures r.Ok? ==> r.value == IdSum(Games(input).value)
  {
    var games :- Games(input);
    Ok(IdSum(games))
  }

  /** Part one adds at most every id, and exactly every id when no game
      exceeds the bag. */
  lemma {:induction false} IdSumBounds(games: seq<Game>)
    ensures IdSum(games) <= IdTotal(games)
    ensures (forall g, k | g in games && 0 <= k < |g.rounds| :: !Exceeds(g.rounds[k])) ==> IdSum(games) == IdTotal(games)
  {
    if games != [] {
      var front := games[..|games| - 1];
      assert forall g | g in front :: g in games;
      IdSumBounds(front);
    }
  }

  function IdTotal(games: seq<Game>): nat
  {
    if games == [] then 0 else IdTotal(games[..|games| - 1]) + games[|games| - 1].id
  }

  // ---------------------------------------------------------------------
  // Part two

  /** The most cubes of `colour` any round shows (0 when there is no
      round). */
  function Most(rounds: seq<CubeCollection>, colour: Colour): (m: nat)
  {
    if rounds == [] then 0
    else Max(Most(rounds[..|rounds| - 1], colour), Count(rounds[|rounds| - 1], colour))
  }

  /** The most is at least every round's count, and some round shows
      exactly that many (unless it is 0). */
  lemma {:induction false} MostSpec(rounds: seq<CubeCollection>, colour: Colour)
    ensures forall k | 0 <= k < |rounds| :: Count(rounds[k], colour) <= Most(rounds, colour)
    ensures Most(rounds, colour) == 0 || exists k | 0 <= k < |rounds| :: Count(rounds[k], colour) == Most(rounds, colour)
  {
    if rounds != [] {
      var front := rounds[..|rounds| - 1];
      MostSpec(front, colour);
      assert forall k | 0 <= k < |front| :: front[k] == rounds[k];
    }
  }

  /** The fewest cubes of each colour that make every round possible. */
  function Fewest(rounds: seq<CubeCollection>): CubeCollection
  {
    CubeCollection(Most(rounds, Red), Most(rounds, Green), Most(rounds, Blue))
  }

  function PowerOf(cc: CubeCollection): nat
  {
    cc.red * cc.green * cc.blue
  }

  lemma MostStep(rounds: seq<CubeCollection>, i: nat, colour: Colour)
    requires i < |rounds|
    ensures Most(rounds[..i + 1], colour)
      == Max(Most(rounds[..i], colour), Count(rounds[i], colour))
  {
    assert rounds[..i + 1][..i] == rounds[..i];
  }

  function Max(a: nat, b: nat): nat
  {
    if a < b then b else a
  }

  /** The closure of `part_two`: the largest count of each colour over the
      rounds, multiplied together. */
  method Power(game: Game) returns (p: nat)
    ensures p == PowerOf(Fewest(game.rounds))
  {
    var max := Empty;
    for i := 0 to |game.rounds|
      invariant max == Fewest(game.rounds[..i])
    {
      var round := game.rounds[i];
      MostStep(game.rounds, i, Red);
      MostStep(game.rounds, i, Green);
      MostStep(game.rounds, i, Blue);
      max := max.(red := Max(max.red, round.red));
      max := max.(green := Max(max.green, round.green));
      max := max.(blue := Max(max.blue, round.blue));
    }
    assert game.rounds[..|game.rounds|] == game.rounds;
    p := PowerOf(max);
  }

  /** No smaller bag will do: a bag holding at least each round's cubes
      holds at least the fewest. */
  lemma FewestIsLeast(rounds: seq<CubeCollection>, bag: CubeCollection, colour: Colour)
    requires forall k | 0 <= k < |rounds| :: Count(rounds[k], colour) <= Count(bag, colour)
    ensures Count(Fewest(rounds), colour) <= Count(bag, colour)
  {
    MostSpec(rounds, colour);
  }

  /** No round of the game shows a cube of `colour`. */
  predicate NeverShown(rounds: seq<CubeCollection>, colour: Colour)
  {
    forall k | 0 <= k < |rounds| :: Count(rounds[k], colour) == 0
  }

  /** The power is 0 exactly when some colour shows no cube in any round. */
  lemma PowerZero(rounds: seq<CubeCollection>)
    ensures PowerOf(Fewest(rounds)) == 0 <==>
      NeverShown(rounds, Red) || NeverShown(rounds, Green) || NeverShown(rounds, Blue)
  {
    MostSpec(rounds, Red);
    MostSpec(rounds, Green);
    MostSpec(rounds, Blue);
    var f := Fewest(rounds);
    assert f.red * f.green * f.blue == 0 <==> f.red == 0 || f.green == 0 || f.blue == 0 by {
      if f.red != 0 && f.green != 0 && f.blue != 0 {
        assert f.red * f.green >= 1;
        assert f.red * f.green * f.blue >= 1;
      }
    }
  }

  function PowerSum(games: seq<Game>): nat
  {
    if games == [] then 0
    else PowerSum(games[..|games| - 1]) + PowerOf(Fewest(games[|games| - 1].rounds))
  }

  /** The powers of the games, added up in order. */
  method PowerTotal(games: seq<Game>) returns (sum: nat)
    ensures sum == PowerSum(games)
  {
    sum := 0;
    for i := 0 to |games|
      invariant sum == PowerSum(games[..i])
    {
      var p := Power(games[i]);
      assert games[..i + 1][..i] == games[..i];
      sum := sum + p;
    }
    assert games[..|games|] == games;
  }

  /** `part_two`: every line is a game, and the powers add up. */
  method PartTwo(input: string) returns (r: Result<nat>)
    ensures r.Ok? <==> Games(input).Ok?
    ensures r.Ok? ==> r.value == PowerSum(Games(input).value)
  {
    var parsed := Games(input);
    if parsed.Panic? {
      return Panic(parsed.reason);
    }
    var sum := PowerTotal(parsed.value);
    return Ok(sum);
  }
}
