/** Day 5: the almanac. A list of seeds and a chain of translation maps,
    each made of ranges `(to, from, length)` that shift a run of values
    from one category to the next; the answer is the lowest location any
    seed reaches. */
module Day05 {
  import opened Common
  import opened Nom

  /** Parsed from digits, so never negative. */
  datatype Range = Range(to: nat, from: nat, length: nat)

  datatype TranslationMap = TranslationMap(name: string, ranges: seq<Range>)

  const I64Max: int := 0x7FFF_FFFF_FFFF_FFFF

  const SeedListPanic := "Couldn't parse seed list"
  const MapsPanic := "Couldn't parse translation maps"

  // ---------------------------------------------------------------------
  // Translating

  /** The test `translate` applies: the upper end is included, so a range
      of length `n` catches `n + 1` values. */
  predicate CoversAsWritten(r: Range, v: int)
  {
    r.from <= v <= r.from + r.length
  }

  /** The `length` values `from`, ..., `from + length - 1` of a range. */
  predicate Covers(r: Range, v: int)
  {
    r.from <= v < r.from + r.length
  }

  /** `TranslationMap::translate` as written: the first range, in list
      order, whose inclusive test passes shifts the value. */
  function TranslateAsWritten(ranges: seq<Range>, v: int): (r: int)
    ensures (forall k | 0 <= k < |ranges| :: !CoversAsWritten(ranges[k], v)) ==> r == v
  {
    if ranges == [] then v
    else if CoversAsWritten(ranges[0], v) then v - (ranges[0].from - ranges[0].to)
    else TranslateAsWritten(ranges[1..], v)
  }

  /** `translate` with the range holding exactly `length` values: the first
      range that covers the value shifts it; a value no range covers is
      returned unchanged. */
  function Translate(ranges: seq<Range>, v: int): (r: int)
    ensures (forall k | 0 <= k < |ranges| :: !Covers(ranges[k], v)) ==> r == v
  {
    if ranges == [] then v
    else if Covers(ranges[0], v) then v - (ranges[0].from - ranges[0].to)
    else Translate(ranges[1..], v)
  }

  /** The first covering range decides, whatever the later ones say. */
  lemma {:induction false} TranslateFirst(ranges: seq<Range>, v: int, k: nat)
    requires k < |ranges| && Covers(ranges[k], v)
    requires forall j | 0 <= j < k :: !Covers(ranges[j], v)
    ensures Translate(ranges, v) == v - ranges[k].from + ranges[k].to
    decreases k
  {
    if k > 0 {
      assert !Covers(ranges[0], v);
      TranslateFirst(ranges[1..], v, k - 1);
    }
  }

  /** A covered value lands inside the destination run of its range, at
      the same offset: `from + i` goes to `to + i`. */
  lemma TranslateInDestination(ranges: seq<Range>, v: int, k: nat)
    requires k < |ranges| && Covers(ranges[k], v)
    requires forall j | 0 <= j < k :: !Covers(ranges[j], v)
    ensures ranges[k].to <= Translate(ranges, v) < ranges[k].to + ranges[k].length
    ensures Translate(ranges, v) - ranges[k].to == v - ranges[k].from
  {
    TranslateFirst(ranges, v, k);
  }

  /** The inclusive test sends the value just past a range to just past
      its destination: with the single range `50 98 2`, the value 100 goes
      to 52, outside the destination run 50, 51, where it should stay 100. */
  lemma AsWrittenOverreach()
    ensures TranslateAsWritten([Range(50, 98, 2)], 100) == 52
    ensures !(50 <= 52 < 50 + 2)
    ensures Translate([Range(50, 98, 2)], 100) == 100
  {
  }

  /** The two tests agree on every value except the one just past a
      range. */
  lemma {:induction false} AsWrittenAgrees(ranges: seq<Range>, v: int)
    requires forall k | 0 <= k < |ranges| :: v != ranges[k].from + ranges[k].length
    ensures TranslateAsWritten(ranges, v) == Translate(ranges, v)
  {
    if ranges != [] {
      AsWrittenAgrees(ranges[1..], v);
    }
  }

  // ---------------------------------------------------------------------
  // Through every map

  /** The location of a seed: the value after every map, in order. */
  function Location(maps: seq<TranslationMap>, seed: int): int
  {
    if maps == [] then seed
    else Translate(maps[|maps| - 1].ranges, Location(maps[..|maps| - 1], seed))
  }

  /** Chaining two lists of maps is running one after the other. */
  lemma {:induction false} LocationAppend(a: seq<TranslationMap>, b: seq<TranslationMap>, seed: int)
    ensures Location(a + b, seed) == Location(b, Location(a, seed))
    decreases |b|
  {
    if b == [] {
      assert a + b == a;
    } else {
      var front := b[..|b| - 1];
      assert (a + b)[..|a + b| - 1] == a + front;
      LocationAppend(a, front, seed);
    }
  }

  /** The inner loop of both parts: `seed = map.translate(seed)` for every
      map. */
  method Locate(maps: seq<TranslationMap>, seed: int) returns (v: int)
    ensures v == Location(maps, seed)
  {
    v := seed;
    for i := 0 to |maps|
      invariant v == Location(maps[..i], seed)
    {
      assert maps[..i + 1][..i] == maps[..i];
      v := Translate(maps[i].ranges, v);
    }
    assert maps[..|maps|] == maps;
  }

  function Min(a: int, b: int): int
  {
    if a <= b then a else b
  }

  // ---------------------------------------------------------------------
  // Part one

  /** The lowest location of the seeds, starting from `i64::MAX`. */
  function MinLocation(seeds: seq<int>, maps: seq<TranslationMap>): int
  {
    if seeds == [] then I64Max
    else Min(MinLocation(seeds[..|seeds| - 1], maps), Location(maps, seeds[|seeds| - 1]))
  }

  /** It is at most every seed's location and is one of them, unless there
      is no seed below `i64::MAX`. */
  lemma {:induction false} MinLocationLeast(seeds: seq<int>, maps: seq<TranslationMap>)
    ensures MinLocation(seeds, maps) <= I64Max
    ensures forall k | 0 <= k < |seeds| :: MinLocation(seeds, maps) <= Location(maps, seeds[k])
    ensures MinLocation(seeds, maps) == I64Max ||
      exists k | 0 <= k < |seeds| :: MinLocation(seeds, maps) == Location(maps, seeds[k])
  {
    if seeds != [] {
      var front := seeds[..|seeds| - 1];
      MinLocationLeast(front, maps);
      assert forall k | 0 <= k < |front| :: front[k] == seeds[k];
    }
  }

  /** The `fold` of `part_one`. */
  method Lowest(seeds: seq<int>, maps: seq<TranslationMap>) returns (acc: int)
    ensures acc == MinLocation(seeds, maps)
  {
    acc := I64Max;
    for i := 0 to |seeds|
      invariant acc == MinLocation(seeds[..i], maps)
    {
      assert seeds[..i + 1][..i] == seeds[..i];
      var seed := Locate(maps, seeds[i]);
      acc := Min(acc, seed);
    }
    assert seeds[..|seeds|] == seeds;
  }

  /** `result as u32`: the low 32 bits. */
  function AsU32(x: int): (r: nat)
    ensures r < 0x1_0000_0000
    ensures 0 <= x < 0x1_0000_0000 ==> r == x
  {
    x % 0x1_0000_0000
  }

  /** Without seeds the fold keeps `i64::MAX`, whose low 32 bits are all
      ones. */
  lemma NoSeeds(maps: seq<TranslationMap>)
    ensures AsU32(MinLocation([], maps)) == 0xFFFF_FFFF
  {
  }

  method PartOne(input: string) returns (r: Result<nat>)
    ensures ParseAll(input).Panic? ==> r == ParseAll(input).PropagateFailure()
    ensures ParseAll(input).Ok? ==> r == Ok(AsU32(MinLocation(ParseAll(input).value.0, ParseAll(input).value.1)))
  {
    var parsed :- ParseAll(input);
    var seeds, maps := parsed.0, parsed.1;
    var acc := Lowest(seeds, maps);
    r := Ok(AsU32(acc));
  }

  // ---------------------------------------------------------------------
  // Part two

  /** `tuples()`: consecutive pairs; an odd last seed is dropped. */
  function Pairs(seeds: seq<int>): (p: seq<(int, int)>)
    ensures |p| == |seeds| / 2
    ensures forall i | 0 <= i < |p| :: p[i] == (seeds[2 * i], seeds[2 * i + 1])
  {
    if |seeds| < 2 then []
    else [(seeds[0], seeds[1])] + Pairs(seeds[2..])
  }

  /** The lowest location of the seeds `start`, ..., `start + len - 1`. */
  function MinRange(maps: seq<TranslationMap>, start: int, len: int): int
    decreases len
  {
    if len <= 0 then I64Max
    else Min(MinRange(maps, start, len - 1), Location(maps, start + len - 1))
  }

  lemma {:induction false} MinRangeLeast(maps: seq<TranslationMap>, start: int, len: int)
    ensures MinRange(maps, start, len) <= I64Max
    ensures forall s | start <= s < start + len :: MinRange(maps, start, len) <= Location(maps, s)
    ensures MinRange(maps, start, len) == I64Max ||
      exists s | start <= s < start + len :: MinRange(maps, start, len) == Location(maps, s)
    decreases len
  {
    if len > 0 {
      MinRangeLeast(maps, start, len - 1);
      var last := start + len - 1;
      if MinRange(maps, start, len) == Location(maps, last) {
        assert start <= last < start + len && MinRange(maps, start, len) == Location(maps, last);
        assert exists s | start <= s < start + len :: MinRange(maps, start, len) == Location(maps, s);
      } else if MinRange(maps, start, len) != I64Max {
        var s :| start <= s < start + len - 1 && MinRange(maps, start, len - 1) == Location(maps, s);
        assert start <= s < start + len;
      }
    }
  }

  /** A seed of part two: one of the `len` seeds from `start` of some
      pair. */
  predicate InPairs(pairs: seq<(int, int)>, s: int)
  {
    exists k | 0 <= k < |pairs| :: pairs[k].0 <= s < pairs[k].0 + pairs[k].1
  }

  function MinPairs(pairs: seq<(int, int)>, maps: seq<TranslationMap>): int
  {
    if pairs == [] then I64Max
    else
      var (start, len) := pairs[|pairs| - 1];
      Min(MinPairs(pairs[..|pairs| - 1], maps), MinRange(maps, start, len))
  }

  /** The lowest location over every seed of every pair. */
  lemma {:induction false} MinPairsLeast(pairs: seq<(int, int)>, maps: seq<TranslationMap>)
    ensures MinPairs(pairs, maps) <= I64Max
    ensures forall s | InPairs(pairs, s) :: MinPairs(pairs, maps) <= Location(maps, s)
    ensures MinPairs(pairs, maps) == I64Max ||
      exists s | InPairs(pairs, s) :: MinPairs(pairs, maps) == Location(maps, s)
  {
    if pairs != [] {
      var front := pairs[..|pairs| - 1];
      var (start, len) := pairs[|pairs| - 1];
      MinPairsLeast(front, maps);
      MinRangeLeast(maps, start, len);
      forall s | InPairs(pairs, s)
        ensures MinPairs(pairs, maps) <= Location(maps, s)
      {
        var k :| 0 <= k < |pairs| && pairs[k].0 <= s < pairs[k].0 + pairs[k].1;
        if k < |front| {
          assert front[k] == pairs[k];
          assert InPairs(front, s);
        }
      }
      if MinPairs(pairs, maps) != I64Max {
        if MinPairs(pairs, maps) == MinPairs(front, maps) {
          var s :| InPairs(front, s) && MinPairs(front, maps) == Location(maps, s);
          var k :| 0 <= k < |front| && front[k].0 <= s < front[k].0 + front[k].1;
          assert pairs[k] == front[k];
          assert InPairs(pairs, s);
        } else {
          var s :| start <= s < start + len && MinRange(maps, start, len) == Location(maps, s);
          assert pairs[|pairs| - 1].0 <= s < pairs[|pairs| - 1].0 + pairs[|pairs| - 1].1;
          assert InPairs(pairs, s);
        }
      }
    }
  }

  /** The `fold_with` of `part_two`, sequentially: every seed of every
      pair, in turn. */
  method LowestInPairs(pairs: seq<(int, int)>, maps: seq<TranslationMap>) returns (acc: int)
    ensures acc == MinPairs(pairs, maps)
  {
    acc := I64Max;
    for i := 0 to |pairs|
      invariant acc == MinPairs(pairs[..i], maps)
    {
      assert pairs[..i + 1][..i] == pairs[..i];
      var start, len := pairs[i].0, pairs[i].1;
      MinPairsLeast(pairs[..i], maps);
      var before := acc;
      var s := start;
      while s < start + len
        invariant len <= 0 ==> s == start
        invariant len > 0 ==> start <= s <= start + len
        invariant acc == Min(before, MinRange(maps, start, s - start))
        decreases start + len - s
      {
        var seed := Locate(maps, s);
        acc := Min(acc, seed);
        s := s + 1;
      }
    }
    assert pairs[..|pairs|] == pairs;
  }

  method PartTwo(input: string) returns (r: Result<nat>)
    ensures ParseAll(input).Panic? ==> r == ParseAll(input).PropagateFailure()
    ensures ParseAll(input).Ok? ==> r == Ok(AsU32(MinPairs(Pairs(ParseAll(input).value.0), ParseAll(input).value.1)))
  {
    var parsed :- ParseAll(input);
    var seeds, maps := parsed.0, parsed.1;
    var acc := LowestInPairs(Pairs(seeds), maps);
    r := Ok(AsU32(acc));
  }

  // ---------------------------------------------------------------------
  // Parsing

  /** `parse_map_name`: the text before the first `:`, then the `:` and
      any whitespace. */
  function ParseMapName(s: string): (r: Option<(string, string)>)
    ensures r.Some? ==> |r.value.0| < |s|
  {
    var n := Leading(s, NotColon);
    if n == 0 then None
    else
      match Tag(s[n..], ":")
      case None => None
      case Some(rest) => Some((Multispace0(rest), s[..n]))
  }

  /** The rest of `separated_list1(space1, digit1)`: as long as blanks are
      followed by a number, take it; otherwise stop before the blanks. */
  function SeparatedTail(s: string): (r: (string, seq<nat>))
    ensures |r.0| <= |s|
    decreases |s|
  {
    match Space1(s)
    case None => (s, [])
    case Some(afterSpace) =>
      match Digit1(afterSpace)
      case None => (s, [])
      case Some((rest, n)) =>
        var (final, more) := SeparatedTail(rest);
        (final, [n] + more)
  }

  /** `parse_space_separated`. */
  function ParseSpaceSeparated(s: string): (r: Option<(string, seq<nat>)>)
    ensures r.Some? ==> |r.value.1| >= 1
  {
    match Digit1(s)
    case None => None
    case Some((rest, n)) =>
      var (final, more) := SeparatedTail(rest);
      Some((final, [n] + more))
  }

  /** `parse_seed_list`. */
  function ParseSeedList(s: string): (r: Option<(string, seq<nat>)>)
  {
    match Tag(s, "seeds: ")
    case None => None
    case Some(rest) => ParseSpaceSeparated(rest)
  }

  /** `terminated(digit1, multispace1)`: a number and the whitespace
      after it. */
  function Terminated(s: string): (r: Option<(string, nat)>)
    ensures r.Some? ==> |r.value.0| < |s|
  {
    match Digit1(s)
    case None => None
    case Some((rest, n)) =>
      match Multispace1(rest)
      case None => None
      case Some(after) => Some((after, n))
  }

  /** `parse_map_range`: three numbers, each followed by whitespace. */
  function ParseMapRange(s: string): (r: Option<(string, Range)>)
    ensures r.Some? ==> |r.value.0| < |s|
  {
    match Terminated(s)
    case None => None
    case Some((s1, to)) =>
      match Terminated(s1)
      case None => None
      case Some((s2, from)) =>
        match Terminated(s2)
        case None => None
        case Some((s3, length)) => Some((s3, Range(to, from, length)))
  }

  /** `many1(parse_map_range)` after its first range. */
  function MoreRanges(s: string): (r: (string, seq<Range>))
    ensures |r.0| <= |s|
    decreases |s|
  {
    match ParseMapRange(s)
    case None => (s, [])
    case Some((rest, range)) =>
      var (final, more) := MoreRanges(rest);
      (final, [range] + more)
  }

  /** `parse_map`: a name, then one or more ranges. */
  function ParseMap(s: string): (r: Option<(string, TranslationMap)>)
    ensures r.Some? ==> |r.value.0| < |s| && |r.value.1.ranges| >= 1
  {
    match ParseMapName(s)
    case None => None
    case Some((s1, name)) =>
      match ParseMapRange(s1)
      case None => None
      case Some((s2, first)) =>
        var (rest, more) := MoreRanges(s2);
        Some((rest, TranslationMap(name, [first] + more)))
  }

  /** `many1(parse_map)` after its first map. */
  function MoreMaps(s: string): (r: (string, seq<TranslationMap>))
    ensures |r.0| <= |s|
    decreases |s|
  {
    match ParseMap(s)
    case None => (s, [])
    case Some((rest, m)) =>
      var (final, more) := MoreMaps(rest);
      (final, [m] + more)
  }

  /** `parse_all`: the seeds, then one or more maps; whatever follows the
      last map is ignored. */
  function ParseAll(input: string): (r: Result<(seq<int>, seq<TranslationMap>)>)
    ensures ParseSeedList(input).None? ==> r == Panic(SeedListPanic)
    ensures r.Ok? ==> |r.value.1| >= 1
  {
    match ParseSeedList(input)
    case None => Panic(SeedListPanic)
    case Some((rest, seeds)) =>
      match ParseMap(rest)
      case None => Panic(MapsPanic)
      case Some((s, first)) =>
        Ok((seeds, [first] + MoreMaps(s).1))
  }

  // ---------------------------------------------------------------------
  // What the parsers read back

  /** A number and one whitespace character, as `parse_map_range`
      expects. */
  lemma TerminatedDigits(d: string, end: char, t: string)
    requires |d| >= 1 && AllDigits(d)
    requires IsMultispace(end) && (t == [] || !IsMultispace(t[0]))
    ensures Terminated(d + ([end] + t)) == Some((t, DigitsValue(d)))
  {
    Digit1Digits(d, [end] + t);
    SpaceThenRest(end, t);
    TerminatedFromParts(d + ([end] + t), [end] + t, t, DigitsValue(d));
  }

  /** `multispace1` takes one whitespace character before a text that
      does not start with whitespace. */
  lemma SpaceThenRest(end: char, t: string)
    requires IsMultispace(end) && (t == [] || !IsMultispace(t[0]))
    ensures Multispace1([end] + t) == Some(t)
  {
    LeadingRun([end], t, Whitespace);
    assert ([end] + t)[1..] == t;
  }

  lemma TerminatedFromParts(s: string, rest: string, after: string, v: nat)
    requires Digit1(s) == Some((rest, v)) && Multispace1(rest) == Some(after)
    ensures Terminated(s) == Some((after, v))
  {
  }

  /** A range as the almanac prints it: three numbers, blank-separated,
      and the character that ends the line. */
  function RangeText(r: Range, end: char): string
  {
    Decimal(r.to) + (" " + (Decimal(r.from) + (" " + (Decimal(r.length) + [end]))))
  }

  /** `parse_map_range` reads back three numbers, blank-separated, and
      the whitespace character after them. */
  lemma ParseMapRangeDigits(d1: string, d2: string, d3: string, end: char, t: string)
    requires |d1| >= 1 && AllDigits(d1) && |d2| >= 1 && AllDigits(d2) && |d3| >= 1 && AllDigits(d3)
    requires IsMultispace(end) && (t == [] || !IsMultispace(t[0]))
    ensures ParseMapRange(d1 + (" " + (d2 + (" " + (d3 + ([end] + t))))))
      == Some((t, Range(DigitsValue(d1), DigitsValue(d2), DigitsValue(d3))))
  {
    var s2 := d3 + ([end] + t);
    TerminatedDigits(d3, end, t);
    FirstTwoRange(d1, d2, s2, t, DigitsValue(d3));
  }

  /** The first two numbers of a range, in front of a third already read. */
  lemma FirstTwoRange(d1: string, d2: string, s2: string, t: string, v3: nat)
    requires |d1| >= 1 && AllDigits(d1) && |d2| >= 1 && AllDigits(d2)
    requires s2 != [] && IsDigit(s2[0]) && Terminated(s2) == Some((t, v3))
    ensures ParseMapRange(d1 + (" " + (d2 + (" " + s2))))
      == Some((t, Range(DigitsValue(d1), DigitsValue(d2), v3)))
  {
    var s1 := d2 + (" " + s2);
    TerminatedBlank(d2, s2);
    TerminatedBlank(d1, s1);
    RangeFromParts(d1 + (" " + s1), s1, s2, t, DigitsValue(d1), DigitsValue(d2), v3);
  }

  /** A number, one blank and the next number. */
  lemma TerminatedBlank(d: string, s: string)
    requires |d| >= 1 && AllDigits(d) && s != [] && IsDigit(s[0])
    ensures Terminated(d + (" " + s)) == Some((s, DigitsValue(d)))
  {
    assert " " == [' '];
    TerminatedDigits(d, ' ', s);
  }

  lemma RangeFromParts(s: string, s1: string, s2: string, s3: string, v1: nat, v2: nat, v3: nat)
    requires Terminated(s) == Some((s1, v1)) && Terminated(s1) == Some((s2, v2))
    requires Terminated(s2) == Some((s3, v3))
    ensures ParseMapRange(s) == Some((s3, Range(v1, v2, v3)))
  {
  }

  /** `parse_map_range` reads back a printed range. */
  lemma ParseMapRangeRoundTrip(r: Range, end: char, t: string)
    requires IsMultispace(end) && (t == [] || !IsMultispace(t[0]))
    ensures ParseMapRange(RangeText(r, end) + t) == Some((t, r))
  {
    RangeTextAppend(r, end, t);
    ParseMapRangeDigits(Decimal(r.to), Decimal(r.from), Decimal(r.length), end, t);
    DecimalValue(r.to);
    DecimalValue(r.from);
    DecimalValue(r.length);
  }

  lemma RangeTextAppend(r: Range, end: char, t: string)
    ensures RangeText(r, end) + t
      == Decimal(r.to) + (" " + (Decimal(r.from) + (" " + (Decimal(r.length) + ([end] + t)))))
  {
  }

  /** `parse_map_name` returns a name without `:`, and skips the `:` and
      the whitespace after it. */
  lemma ParseMapNameRoundTrip(name: string, ws: string, t: string)
    requires |name| >= 1 && forall i | 0 <= i < |name| :: name[i] != ':'
    requires forall i | 0 <= i < |ws| :: IsMultispace(ws[i])
    requires t == [] || !IsMultispace(t[0])
    ensures ParseMapName(name + (":" + (ws + t))) == Some((t, name))
  {
    var after := ":" + (ws + t);
    LeadingRun(name, after, NotColon);
    assert (name + after)[|name|..] == after && (name + after)[..|name|] == name;
    assert after[1..] == ws + t;
    LeadingRun(ws, t, Whitespace);
    assert (ws + t)[|ws|..] == t;
  }

  /** Numbers printed with a blank before each, followed by `t`. */
  function SpacedThen(ns: seq<nat>, t: string): string
  {
    if ns == [] then t else " " + (Decimal(ns[0]) + SpacedThen(ns[1..], t))
  }

  /** Numbers printed with a blank between neighbours, followed by `t`. */
  function Spelled(ns: seq<nat>, t: string): string
    requires |ns| >= 1
  {
    Decimal(ns[0]) + SpacedThen(ns[1..], t)
  }

  /** What follows a printed number does not start with a digit. */
  lemma SpacedStart(ns: seq<nat>, t: string)
    requires t == [] || !IsDigit(t[0])
    ensures var s := SpacedThen(ns, t); s == [] || !IsDigit(s[0])
  {
  }

  /** `space1` skips the blank in front of a printed number. */
  lemma SpacedBlank(n: nat, rest: string)
    ensures Space1(" " + (Decimal(n) + rest)) == Some(Decimal(n) + rest)
  {
    var s := Decimal(n) + rest;
    var b := " " + s;
    assert s[0] == Decimal(n)[0];
    LeadingRun(" ", s, Blanks);
    assert b[1..] == s;
  }

  lemma SeparatedTailCons(s: string, after: string, rest: string, n: nat, final: string, more: seq<nat>)
    requires Space1(s) == Some(after) && Digit1(after) == Some((rest, n))
    requires SeparatedTail(rest) == (final, more)
    ensures SeparatedTail(s) == (final, [n] + more)
  {
  }

  lemma SeparatedTailStop(t: string)
    requires t == [] || !IsBlank(t[0])
    ensures SeparatedTail(t) == (t, [])
  {
    assert Leading(t, Blanks) == 0;
  }

  /** One more number, printed after a blank, in front of what the rest
      of the list reads. */
  lemma SeparatedTailStep(n: nat, rest: string, t: string, more: seq<nat>)
    requires rest == [] || !IsDigit(rest[0])
    requires SeparatedTail(rest) == (t, more)
    ensures SeparatedTail(" " + (Decimal(n) + rest)) == (t, [n] + more)
  {
    Digit1Decimal(n, rest);
    SpacedBlank(n, rest);
    SeparatedTailCons(" " + (Decimal(n) + rest), Decimal(n) + rest, rest, n, t, more);
  }

  /** The rest of `separated_list1(space1, digit1)` reads back every
      number printed after a blank, and stops before whatever follows. */
  lemma {:induction false} SeparatedTailRoundTrip(ns: seq<nat>, t: string)
    requires t == [] || (!IsBlank(t[0]) && !IsDigit(t[0]))
    ensures SeparatedTail(SpacedThen(ns, t)) == (t, ns)
    decreases |ns|
  {
    if ns == [] {
      SeparatedTailStop(t);
    } else {
      SeparatedTailRoundTrip(ns[1..], t);
      SeparatedTailFirst(ns, t);
    }
  }

  lemma SeparatedTailFirst(ns: seq<nat>, t: string)
    requires ns != [] && (t == [] || !IsDigit(t[0]))
    requires SeparatedTail(SpacedThen(ns[1..], t)) == (t, ns[1..])
    ensures SeparatedTail(SpacedThen(ns, t)) == (t, ns)
  {
    SpacedStart(ns[1..], t);
    SeparatedTailStep(ns[0], SpacedThen(ns[1..], t), t, ns[1..]);
    HeadTail(ns);
  }

  lemma HeadTail(ns: seq<nat>)
    requires ns != []
    ensures [ns[0]] + ns[1..] == ns
  {
  }

  /** `parse_space_separated` reads back numbers printed with single
      blanks between them, and stops before whatever follows. */
  lemma ParseSpaceSeparatedRoundTrip(ns: seq<nat>, t: string)
    requires |ns| >= 1
    requires t == [] || (!IsBlank(t[0]) && !IsDigit(t[0]))
    ensures ParseSpaceSeparated(Spelled(ns, t)) == Some((t, ns))
  {
    var rest := SpacedThen(ns[1..], t);
    SpacedStart(ns[1..], t);
    Digit1Decimal(ns[0], rest);
    SeparatedTailRoundTrip(ns[1..], t);
    assert [ns[0]] + ns[1..] == ns;
  }

  /** `parse_seed_list` reads back the seeds line. */
  lemma ParseSeedListRoundTrip(ns: seq<nat>, t: string)
    requires |ns| >= 1
    requires t == [] || (!IsBlank(t[0]) && !IsDigit(t[0]))
    ensures ParseSeedList("seeds: " + Spelled(ns, t)) == Some((t, ns))
  {
    var s := "seeds: " + Spelled(ns, t);
    assert s[|"seeds: "|..] == Spelled(ns, t);
    assert "seeds: " <= s;
    ParseSpaceSeparatedRoundTrip(ns, t);
  }

  // ---------------------------------------------------------------------
  // The cases the source's tests spell out

  lemma SampleMapRange()
    ensures ParseMapRange("50 98 2 ") == Some(("", Range(50, 98, 2)))
  {
    ParseMapRangeDigits("50", "98", "2", ' ', "");
    SampleRangeText();
    SampleDigits();
  }

  lemma SampleRangeText()
    ensures "50" + (" " + ("98" + (" " + ("2" + ([' '] + ""))))) == "50 98 2 "
  {
  }

  lemma SampleDigits()
    ensures DigitsValue("50") == 50 && DigitsValue("98") == 98 && DigitsValue("2") == 2
  {
    assert "50"[..1] == "5" && "98"[..1] == "9" && "2"[..0] == "";
  }

  /** `multispace0` and `multispace1` skip only space, tab, carriage
      return and newline: a map name followed by a character outside those
      and outside the digits (a form feed, a vertical tab, a no-break
      space) leaves no range to read, so `parse_all` panics. */
  lemma OtherWhitespaceStopsMaps(ns: seq<nat>, name: string, c: char, rest: string)
    requires |ns| >= 1 && |name| >= 1 && name[0] == '\n' && ':' !in name
    requires !IsMultispace(c) && !IsDigit(c)
    ensures ParseAll("seeds: " + Spelled(ns, name + (":" + ([c] + rest)))) == Panic(MapsPanic)
  {
    var t := name + (":" + ([c] + rest));
    assert t[0] == '\n';
    ParseSeedListRoundTrip(ns, t);
    OtherWhitespaceNoMap(name, c, rest);
  }

  /** The first map of that text already fails: its name is read, and
      no number follows. */
  lemma OtherWhitespaceNoMap(name: string, c: char, rest: string)
    requires |name| >= 1 && ':' !in name
    requires !IsMultispace(c) && !IsDigit(c)
    ensures ParseMap(name + (":" + ([c] + rest))) == None
  {
    ParseMapNameRoundTrip(name, "", [c] + rest);
    assert "" + ([c] + rest) == [c] + rest;
    assert Digit1([c] + rest) == None;
  }

  /** The same for a single number ended by anything outside those four. */
  lemma OtherWhitespaceEndsNoNumber(d: string, c: char, rest: string)
    requires |d| >= 1 && AllDigits(d) && !IsMultispace(c) && !IsDigit(c)
    ensures Terminated(d + ([c] + rest)) == None
  {
    Digit1Digits(d, [c] + rest);
  }

  /** Example: a form feed, a vertical tab and a no-break space are
      Unicode white space but none of nom's four, so the lemmas above
      apply to each of them. */
  lemma FormFeedIsNotMultispace()
    ensures !IsMultispace('\U{C}') && !IsMultispace('\U{B}') && !IsMultispace('\U{A0}')
    ensures IsSpace('\U{C}') && IsSpace('\U{B}') && IsSpace('\U{A0}')
  {
  }

  lemma SampleMapName()
    ensures ParseMapName("seed-to-soil map:") == Some(("", "seed-to-soil map"))
  {
    ParseMapNameRoundTrip("seed-to-soil map", "", "");
    assert "seed-to-soil map" + (":" + ("" + "")) == "seed-to-soil map:";
  }

  lemma SampleSeedList()
    ensures ParseSeedList("seeds: 79 14 55 13") == Some(("", [79, 14, 55, 13]))
  {
    ParseSeedListRoundTrip([79, 14, 55, 13], "");
    SampleSpelled();
    SeedsPrefix();
  }

  lemma SeedsPrefix()
    ensures "seeds: " + "79 14 55 13" == "seeds: 79 14 55 13"
  {
  }

  lemma SampleSpelled()
    ensures Spelled([79, 14, 55, 13], "") == "79 14 55 13"
  {
    TwoDigits(79);
    SampleSpacedThen();
    var ns: seq<nat> := [79, 14, 55, 13];
    assert ns[1..] == [14, 55, 13];
    assert [DigitChar(7), DigitChar(9)] + " 14 55 13" == "79 14 55 13";
  }

  lemma SampleSpacedThen()
    ensures SpacedThen([14, 55, 13], "") == " 14 55 13"
  {
    TwoDigits(14);
    TwoDigits(55);
    TwoDigits(13);
    var ns: seq<nat> := [14, 55, 13];
    assert ns[1..] == [55, 13] && ns[1..][1..] == [13] && ns[1..][1..][1..] == [];
  }

  lemma TwoDigits(n: nat)
    requires 10 <= n < 100
    ensures Decimal(n) == [DigitChar(n / 10), DigitChar(n % 10)]
  {
  }
}
