/** Day 3: gear ratios. The schematic is a grid of characters; every run
    of digits is a part number, and the symbols around it decide whether it
    counts (part one) or whether a `'*'` between exactly two of them is a
    gear (part two). */
module Day03 {
  import opened Common

  /** `PartNumber`: a run of digits from column `x1` to column `x2` of row
      `y`, and its value. */
  datatype PartNumber = PartNumber(x1: int, x2: int, y: int, value: nat)

  /** `PartNumber::default()`. */
  const Blank := PartNumber(0, 0, 0, 0)

  /** A position `(x, y)`: column, then row. */
  type Pos = (int, int)

  function Max(a: int, b: int): int
  {
    if a < b then b else a
  }

  // ---------------------------------------------------------------------
  // The part numbers of one row

  /** The column where the run of digits through column `i` starts. */
  function RunStart(line: string, i: nat): (s: nat)
    requires i < |line| && IsDigit(line[i])
    ensures s <= i && (s == 0 || !IsDigit(line[s - 1]))
    ensures forall k | s <= k <= i :: IsDigit(line[k])
  {
    if i > 0 && IsDigit(line[i - 1]) then RunStart(line, i - 1) else i
  }

  /** `line[s..e]` is a whole run of digits: nothing but digits, and no
      digit just before or just after it. */
  predicate RunAt(line: string, s: int, e: int)
  {
    && 0 <= s < e <= |line|
    && (forall k | s <= k < e :: IsDigit(line[k]))
    && (s == 0 || !IsDigit(line[s - 1]))
    && (e == |line| || !IsDigit(line[e]))
  }

  /** The part whose run of digits ends at column `e - 1`, closed by the
      character at column `e`. */
  function Closing(line: string, y: int, e: nat): PartNumber
    requires 1 <= e <= |line| && IsDigit(line[e - 1])
  {
    var s := RunStart(line, e - 1);
    assert AllDigits(line[s..e]);
    PartNumber(s, e - 1, y, DigitsValue(line[s..e]))
  }

  /** The parts of row `y` that a character before column `x` has closed,
      left to right. */
  function Closed(line: string, y: int, x: nat): seq<PartNumber>
    requires x <= |line|
  {
    if x == 0 then []
    else Closed(line, y, x - 1)
         + (if x >= 2 && IsDigit(line[x - 2]) && !IsDigit(line[x - 1]) then [Closing(line, y, x - 1)] else [])
  }

  /** Every part of row `y`, each ending at its own last digit; a run still
      open at the end of the row ends at the row's last column. */
  function LineParts(line: string, y: int): seq<PartNumber>
  {
    Closed(line, y, |line|)
    + (if |line| > 0 && IsDigit(line[|line| - 1]) then [Closing(line, y, |line|)] else [])
  }

  /** Each part closed inside the row is a whole run of digits, spanning
      `x1` to `x2` of row `y`, worth the decimal value of those digits;
      and they come left to right. */
  lemma {:induction false} ClosedSound(line: string, y: int, x: nat)
    requires x <= |line|
    ensures forall p | p in Closed(line, y, x) ::
      && p.y == y && RunAt(line, p.x1, p.x2 + 1) && p.x2 + 1 < x
      && AllDigits(line[p.x1..p.x2 + 1]) && p.value == DigitsValue(line[p.x1..p.x2 + 1])
    ensures forall i, j | 0 <= i < j < |Closed(line, y, x)| ::
      Closed(line, y, x)[i].x2 < Closed(line, y, x)[j].x1
  {
    if x > 0 {
      ClosedSound(line, y, x - 1);
      if x >= 2 && IsDigit(line[x - 2]) && !IsDigit(line[x - 1]) {
        var p := Closing(line, y, x - 1);
        assert RunAt(line, p.x1, p.x2 + 1);
      }
    }
  }

  /** Every whole run of digits that a later character closes is one of
      the parts. */
  lemma {:induction false} ClosedComplete(line: string, y: int, x: nat, s: nat, e: nat)
    requires x <= |line| && RunAt(line, s, e) && e < x
    ensures exists p | p in Closed(line, y, x) :: p.x1 == s && p.x2 == e - 1
  {
    if e + 1 == x {
      assert RunStart(line, e - 1) == s by {
        RunStartOfRun(line, s, e - 1);
      }
      assert Closing(line, y, e) in Closed(line, y, x);
    } else {
      ClosedComplete(line, y, x - 1, s, e);
      var p :| p in Closed(line, y, x - 1) && p.x1 == s && p.x2 == e - 1;
      assert p in Closed(line, y, x);
    }
  }

  lemma {:induction false} RunStartOfRun(line: string, s: nat, i: nat)
    requires s <= i < |line| && (s == 0 || !IsDigit(line[s - 1]))
    requires forall k | s <= k <= i :: IsDigit(line[k])
    ensures RunStart(line, i) == s
    decreases i
  {
    if i > s {
      RunStartOfRun(line, s, i - 1);
    }
  }

  // ---------------------------------------------------------------------
  // Extracting the parts and the map

  /** `token` records, on top of `before`, every character of row `y`
      before column `x`. */
  ghost predicate RowRecorded(token: map<Pos, char>, before: map<Pos, char>, line: string, y: int, x: int)
    requires x <= |line|
  {
    && (forall k :: k in token <==> k in before || (k.1 == y && 0 <= k.0 < x))
    && (forall k | k in token :: token[k] == if k.1 == y && 0 <= k.0 < x then line[k.0] else before[k])
  }

  lemma RowStep(token: map<Pos, char>, before: map<Pos, char>, line: string, y: int, x: nat)
    requires x < |line| && RowRecorded(token, before, line, y, x)
    ensures RowRecorded(token[(x, y) := line[x]], before, line, y, x + 1)
  {
  }

  /** The state of the scan of a row before column `x`: `ongoing` when
      the character before is a digit, and then `part` starts where that
      run starts and `digits` holds the run so far; `digits` is empty
      otherwise. */
  ghost predicate Open(line: string, y: int, x: nat, ongoing: bool, part: PartNumber, digits: string)
    requires x <= |line|
  {
    && (ongoing <==> x > 0 && IsDigit(line[x - 1]))
    && (ongoing ==> part.x1 == RunStart(line, x - 1) && part.y == y && digits == line[part.x1..x])
    && (!ongoing ==> digits == [])
  }

  lemma StartRun(line: string, y: int, x: nat, part: PartNumber, digits: string)
    requires x < |line| && IsDigit(line[x]) && Open(line, y, x, false, part, digits)
    ensures Open(line, y, x + 1, true, part.(x1 := x, y := y), digits + [line[x]])
    ensures Closed(line, y, x + 1) == Closed(line, y, x)
  {
    assert digits + [line[x]] == line[x..x + 1];
  }

  lemma ContinueRun(line: string, y: int, x: nat, part: PartNumber, digits: string)
    requires x < |line| && IsDigit(line[x]) && Open(line, y, x, true, part, digits)
    ensures Open(line, y, x + 1, true, part, digits + [line[x]])
    ensures Closed(line, y, x + 1) == Closed(line, y, x)
  {
    assert line[part.x1..x] + [line[x]] == line[part.x1..x + 1];
  }

  lemma CloseRun(line: string, y: int, x: nat, part: PartNumber, digits: string)
    requires x < |line| && !IsDigit(line[x]) && Open(line, y, x, true, part, digits)
    ensures Open(line, y, x + 1, false, Blank, [])
    ensures AllDigits(digits) && part.(x2 := x - 1, value := DigitsValue(digits)) == Closing(line, y, x)
    ensures Closed(line, y, x + 1) == Closed(line, y, x) + [Closing(line, y, x)]
  {
  }

  lemma Idle(line: string, y: int, x: nat, part: PartNumber, digits: string)
    requires x < |line| && !IsDigit(line[x]) && Open(line, y, x, false, part, digits)
    ensures Open(line, y, x + 1, false, part, digits)
    ensures Closed(line, y, x + 1) == Closed(line, y, x)
  {
  }

  lemma EndRow(line: string, y: int, ongoing: bool, part: PartNumber, digits: string)
    requires Open(line, y, |line|, ongoing, part, digits)
    ensures ongoing ==>
              && AllDigits(digits)
              && LineParts(line, y)
                 == Closed(line, y, |line|) + [part.(x2 := |line| - 1, value := DigitsValue(digits))]
    ensures !ongoing ==> LineParts(line, y) == Closed(line, y, |line|)
  {
  }

  /** The inner loop of `extract_parts_and_map`: one row, character by
      character, with `ongoing` telling whether a run of digits is open.
      A run still open at the end of the row ends at the row's last column
      (the source ends it at `maxx - 1`; see `AsWrittenParts`). */
  method ScanLine(line: string, y: int, token: map<Pos, char>, parts: seq<PartNumber>, maxx: nat)
    returns (token': map<Pos, char>, parts': seq<PartNumber>, maxx': nat)
    ensures RowRecorded(token', token, line, y, |line|)
    ensures maxx' == if |line| == 0 then maxx else Max(maxx, |line| - 1)
    ensures parts' == parts + LineParts(line, y)
  {
    token', parts', maxx' := token, parts, maxx;
    var ongoing := false;
    var digits: string := [];
    var part := Blank;
    for x := 0 to |line|
      invariant RowRecorded(token', token, line, y, x)
      invariant maxx' == if x == 0 then maxx else Max(maxx, x - 1)
      invariant Open(line, y, x, ongoing, part, digits)
      invariant parts' == parts + Closed(line, y, x)
    {
      var c := line[x];
      if IsDigit(c) && !ongoing {
        StartRun(line, y, x, part, digits);
        digits := digits + [c];
        part := part.(x1 := x, y := y);
        ongoing := true;
      } else if IsDigit(c) && ongoing {
        ContinueRun(line, y, x, part, digits);
        digits := digits + [c];
      } else if ongoing {
        CloseRun(line, y, x, part, digits);
        part := part.(x2 := x - 1, value := DigitsValue(digits));
        ongoing := false;
        parts' := parts' + [part];
        part := Blank;
        digits := [];
      } else {
        Idle(line, y, x, part, digits);
      }
      RowStep(token', token, line, y, x);
      token' := token'[(x, y) := c];
      maxx' := if maxx' < x then x else maxx';
    }
    EndRow(line, y, ongoing, part, digits);
    if ongoing {
      part := part.(x2 := |line| - 1, value := DigitsValue(digits));
      parts' := parts' + [part];
      digits := [];
    }
  }

  /** The widest column among the first `n` rows (0 when there is none). */
  function Widest(lines: seq<string>, n: nat): nat
    requires n <= |lines|
  {
    if n == 0 then 0
    else if |lines[n - 1]| == 0 then Widest(lines, n - 1)
    else Max(Widest(lines, n - 1), |lines[n - 1]| - 1)
  }

  /** The parts of the first `n` rows, row by row. */
  function AllParts(lines: seq<string>, n: nat): seq<PartNumber>
    requires n <= |lines|
  {
    if n == 0 then [] else AllParts(lines, n - 1) + LineParts(lines[n - 1], n - 1)
  }

  /** `token` holds every character of the first `n` rows at its column
      and row. */
  ghost predicate Cells(token: map<Pos, char>, lines: seq<string>, n: nat)
    requires n <= |lines|
  {
    && (forall k :: k in token <==> 0 <= k.1 < n && 0 <= k.0 < |lines[k.1]|)
    && (forall k | k in token :: token[k] == lines[k.1][k.0])
  }

  /** The rows fix the map: two maps holding every character of the same
      rows are equal. */
  lemma CellsUnique(a: map<Pos, char>, b: map<Pos, char>, lines: seq<string>, n: nat)
    requires n <= |lines| && Cells(a, lines, n) && Cells(b, lines, n)
    ensures a == b
  {
    assert a.Keys == b.Keys;
  }

  lemma CellsStep(token: map<Pos, char>, before: map<Pos, char>, lines: seq<string>, y: nat)
    requires y < |lines| && Cells(before, lines, y) && RowRecorded(token, before, lines[y], y, |lines[y]|)
    ensures Cells(token, lines, y + 1)
  {
  }

  /** `extract_parts_and_map`: the map of every character of the
      schematic, and its part numbers row by row. */
  method ExtractPartsAndMap(input: string) returns (token: map<Pos, char>, parts: seq<PartNumber>)
    ensures Cells(token, Lines(input), |Lines(input)|)
    ensures parts == AllParts(Lines(input), |Lines(input)|)
  {
    var lines := Lines(input);
    token, parts := map[], [];
    var maxx: nat := 0;
    for y := 0 to |lines|
      invariant Cells(token, lines, y)
      invariant maxx == Widest(lines, y)
      invariant parts == AllParts(lines, y)
    {
      ghost var before := token;
      token, parts, maxx := ScanLine(lines[y], y, token, parts, maxx);
      CellsStep(token, before, lines, y);
    }
  }

  // ---------------------------------------------------------------------
  // Part one

  /** A symbol: neither a digit nor `'.'`. */
  predicate Symbol(c: char)
  {
    !IsDigit(c) && c != '.'
  }

  predicate SymbolAt(token: map<Pos, char>, x: int, y: int)
  {
    (x, y) in token && Symbol(token[(x, y)])
  }

  /** Some cell of the box around the part, one row above to one row
      below and one column left to one column right, holds a symbol. */
  ghost predicate NearSymbol(part: PartNumber, token: map<Pos, char>)
  {
    exists x, y | part.y - 1 <= y <= part.y + 1 && part.x1 - 1 <= x <= part.x2 + 1 :: SymbolAt(token, x, y)
  }

  /** `check_vicinity`: the part's value when a symbol is near it. */
  method CheckVicinity(part: PartNumber, token: map<Pos, char>) returns (r: Option<nat>)
    ensures r.Some? <==> NearSymbol(part, token)
    ensures r.Some? ==> r.value == part.value
  {
    var y := part.y - 1;
    while y <= part.y + 1
      invariant part.y - 1 <= y <= part.y + 2
      invariant forall yy, xx | part.y - 1 <= yy < y && part.x1 - 1 <= xx <= part.x2 + 1 :: !SymbolAt(token, xx, yy)
      decreases part.y + 2 - y
    {
      var x := part.x1 - 1;
      while x <= part.x2 + 1
        invariant part.x1 - 1 <= x <= Max(part.x1 - 1, part.x2 + 2)
        invariant forall xx | part.x1 - 1 <= xx < x :: !SymbolAt(token, xx, y)
        decreases part.x2 + 2 - x
      {
        if (x, y) in token {
          var c := token[(x, y)];
          if !IsDigit(c) && c != '.' {
            assert SymbolAt(token, x, y);
            return Some(part.value);
          }
        }
        x := x + 1;
      }
      y := y + 1;
    }
    return None;
  }

  /** The sum of the values of the parts near a symbol. */
  ghost function NearSum(parts: seq<PartNumber>, token: map<Pos, char>): nat
  {
    if parts == [] then 0
    else
      var last := parts[|parts| - 1];
      NearSum(parts[..|parts| - 1], token) + (if NearSymbol(last, token) then last.value else 0)
  }

  lemma NearStep(parts: seq<PartNumber>, i: nat, token: map<Pos, char>)
    requires i < |parts|
    ensures NearSum(parts[..i + 1], token)
      == NearSum(parts[..i], token) + (if NearSymbol(parts[i], token) then parts[i].value else 0)
  {
    assert parts[..i + 1][..i] == parts[..i];
  }

  /** `part_one`: the sum of the part numbers near a symbol. */
  method PartOne(input: string) returns (r: Option<int>, ghost token: map<Pos, char>)
    ensures Cells(token, Lines(input), |Lines(input)|)
    ensures r == Some(NearSum(AllParts(Lines(input), |Lines(input)|), token))
    ensures forall t | Cells(t, Lines(input), |Lines(input)|) ::
      r == Some(NearSum(AllParts(Lines(input), |Lines(input)|), t))
  {
    var cells, parts := ExtractPartsAndMap(input);
    token := cells;
    var sum := 0;
    for i := 0 to |parts|
      invariant sum == NearSum(parts[..i], cells)
    {
      var near := CheckVicinity(parts[i], cells);
      NearStep(parts, i, cells);
      if near.Some? {
        sum := sum + near.value;
      }
    }
    assert parts[..|parts|] == parts;
    forall t | Cells(t, Lines(input), |Lines(input)|)
      ensures t == cells
    {
      CellsUnique(t, cells, Lines(input), |Lines(input)|);
    }
    return Some(sum), token;
  }

  // ---------------------------------------------------------------------
  // Part two

  function Abs(v: int): nat
  {
    if v < 0 then -v else v
  }

  /** The part is next to column `x` of row `y`: at most one row away, and
      `x` within one column of its digits. */
  predicate Adjacent(part: PartNumber, x: int, y: int)
  {
    Abs(part.y - y) <= 1 && part.x1 - 1 <= x <= part.x2 + 1
  }

  /** The values of the parts next to `(x, y)`, in the order of `parts`. */
  function AdjacentValues(parts: seq<PartNumber>, x: int, y: int): (adj: seq<nat>)
    ensures |adj| <= |parts|
  {
    if parts == [] then []
    else
      var last := parts[|parts| - 1];
      AdjacentValues(parts[..|parts| - 1], x, y) + (if Adjacent(last, x, y) then [last.value] else [])
  }

  /** The adjacent values are exactly the values of the parts next to
      `(x, y)`. */
  lemma {:induction false} AdjacentValuesSpec(parts: seq<PartNumber>, x: int, y: int)
    ensures forall v :: v in AdjacentValues(parts, x, y) <==>
      exists i | 0 <= i < |parts| :: Adjacent(parts[i], x, y) && parts[i].value == v
  {
    if parts != [] {
      var front := parts[..|parts| - 1];
      AdjacentValuesSpec(front, x, y);
      forall v | (exists i | 0 <= i < |parts| :: Adjacent(parts[i], x, y) && parts[i].value == v)
        ensures v in AdjacentValues(parts, x, y)
      {
        var i :| 0 <= i < |parts| && Adjacent(parts[i], x, y) && parts[i].value == v;
        if i < |front| {
          assert front[i] == parts[i];
        }
      }
      forall v | v in AdjacentValues(front, x, y)
        ensures exists i | 0 <= i < |parts| :: Adjacent(parts[i], x, y) && parts[i].value == v
      {
        var i :| 0 <= i < |front| && Adjacent(front[i], x, y) && front[i].value == v;
        assert parts[i] == front[i];
      }
    }
  }

  /** A part next to a `'*'` is near a symbol, so every part of a gear
      also counts in part one. */
  lemma GearPartIsNear(part: PartNumber, token: map<Pos, char>, x: int, y: int)
    requires (x, y) in token && token[(x, y)] == '*' && Adjacent(part, x, y)
    ensures NearSymbol(part, token)
  {
    assert SymbolAt(token, x, y);
  }

  /** What a `'*'` at `(x, y)` adds: the product of the values of the two
      parts next to it when there are exactly two, otherwise nothing. */
  function GearRatio(parts: seq<PartNumber>, x: int, y: int): nat
  {
    var adj := AdjacentValues(parts, x, y);
    if |adj| == 2 then adj[0] * adj[1] else 0
  }

  /** The gear ratios over the cells visited in `order`. */
  function GearSum(order: seq<Pos>, token: map<Pos, char>, parts: seq<PartNumber>): nat
  {
    if order == [] then 0
    else
      var k := order[|order| - 1];
      GearSum(order[..|order| - 1], token, parts)
      + (if k in token && token[k] == '*' then GearRatio(parts, k.0, k.1) else 0)
  }

  lemma GearStep(order: seq<Pos>, k: Pos, token: map<Pos, char>, parts: seq<PartNumber>)
    ensures GearSum(order + [k], token, parts)
      == GearSum(order, token, parts) + (if k in token && token[k] == '*' then GearRatio(parts, k.0, k.1) else 0)
  {
    assert (order + [k])[..|order|] == order;
  }

  ghost predicate Enumerates(order: seq<Pos>, s: set<Pos>)
  {
    (forall i, j | 0 <= i < j < |order| :: order[i] != order[j])
    && (forall k :: k in s <==> k in order)
  }

  /** The inner loop of `part_two`: the values of the parts next to
      `(x, y)`. */
  method CollectAdjacent(parts: seq<PartNumber>, x: int, y: int) returns (adj: seq<nat>)
    ensures adj == AdjacentValues(parts, x, y)
  {
    adj := [];
    for i := 0 to |parts|
      invariant adj == AdjacentValues(parts[..i], x, y)
    {
      var part := parts[i];
      assert parts[..i + 1][..i] == parts[..i];
      if Abs(part.y - y) > 1 {
        continue;
      }
      if x >= part.x1 - 1 && x <= part.x2 + 1 {
        adj := adj + [part.value];
      }
    }
    assert parts[..|parts|] == parts;
  }

  /** `part_two`: visit the cells of the map in its own order, and add the
      ratio of every gear. */
  /** A gear sum computed over one enumeration of the map of the rows is
      the gear sum of some enumeration of any such map. */
  lemma GearSumOfRows(r: Option<nat>, cells: map<Pos, char>, order: seq<Pos>, lines: seq<string>)
    requires Cells(cells, lines, |lines|) && Enumerates(order, cells.Keys)
    requires r == Some(GearSum(order, cells, AllParts(lines, |lines|)))
    ensures forall t | Cells(t, lines, |lines|) ::
      exists o :: Enumerates(o, t.Keys) && r == Some(GearSum(o, t, AllParts(lines, |lines|)))
  {
    forall t | Cells(t, lines, |lines|)
      ensures exists o :: Enumerates(o, t.Keys) && r == Some(GearSum(o, t, AllParts(lines, |lines|)))
    {
      CellsUnique(t, cells, lines, |lines|);
      assert Enumerates(order, t.Keys);
    }
  }

  method PartTwo(input: string) returns (r: Option<nat>, ghost token: map<Pos, char>, ghost order: seq<Pos>)
    ensures Cells(token, Lines(input), |Lines(input)|)
    ensures Enumerates(order, token.Keys)
    ensures r == Some(GearSum(order, token, AllParts(Lines(input), |Lines(input)|)))
    ensures forall t | Cells(t, Lines(input), |Lines(input)|) ::
      exists o :: Enumerates(o, t.Keys) && r == Some(GearSum(o, t, AllParts(Lines(input), |Lines(input)|)))
  {
    var cells, parts := ExtractPartsAndMap(input);
    token := cells;
    var sum: int := 0;
    var todo := cells.Keys;
    order := [];
    while todo != {}
      invariant todo <= cells.Keys
      invariant forall i, j | 0 <= i < j < |order| :: order[i] != order[j]
      invariant forall k :: k in cells.Keys <==> k in order || k in todo
      invariant forall k | k in order :: k !in todo
      invariant sum == GearSum(order, cells, parts)
      decreases |todo|
    {
      var k :| k in todo;
      GearStep(order, k, cells, parts);
      todo := todo - {k};
      order := order + [k];
      if cells[k] != '*' {
        continue;
      }
      var adj := CollectAdjacent(parts, k.0, k.1);
      if |adj| == 2 {
        sum := sum + adj[0] * adj[1];
      }
    }
    GearSumOfRows(Some(sum), cells, order, Lines(input));
    return Some(sum), token, order;
  }

  // ---------------------------------------------------------------------
  // A run of digits that ends its row

  /** The parts of a row as written: a run still open at the end of the
      row ends at column `maxx - 1`, where `maxx` is the widest column seen
      so far in the whole schematic. */
  function LinePartsAsWritten(line: string, y: int, maxx: int): seq<PartNumber>
  {
    Closed(line, y, |line|)
    + (if |line| > 0 && IsDigit(line[|line| - 1])
       then [Closing(line, y, |line|).(x2 := maxx - 1)]
       else [])
  }

  /** The parts of the first `n` rows as written. */
  function AsWrittenParts(lines: seq<string>, n: nat): seq<PartNumber>
    requires n <= |lines|
  {
    if n == 0 then [] else AsWrittenParts(lines, n - 1) + LinePartsAsWritten(lines[n - 1], n - 1, Widest(lines, n))
  }

  /** Every part of a row spans exactly a whole run of digits, the run
      that ends the row included. */
  lemma LinePartsSound(line: string, y: int)
    ensures forall p | p in LineParts(line, y) ::
      && p.y == y && RunAt(line, p.x1, p.x2 + 1)
      && AllDigits(line[p.x1..p.x2 + 1]) && p.value == DigitsValue(line[p.x1..p.x2 + 1])
  {
    ClosedSound(line, y, |line|);
    if |line| > 0 && IsDigit(line[|line| - 1]) {
      var p := Closing(line, y, |line|);
      assert RunAt(line, p.x1, p.x2 + 1);
    }
  }

  /** The schematic of two rows, `12` above `..*`. */
  const Corner: seq<string> := ["12", "..*"]

  lemma CornerParts()
    ensures AsWrittenParts(Corner, 2) == [PartNumber(0, 0, 0, 12)]
    ensures AllParts(Corner, 2) == [PartNumber(0, 1, 0, 12)]
  {
    assert Corner[0] == "12" && Corner[1] == "..*";
    assert Widest(Corner, 2) == 2;
    assert RunStart("12", 1) == 0;
    assert DigitsValue("12") == 12 by {
      assert "12"[..1] == "1";
    }
    assert Closed("12", 0, 2) == [];
    assert Closed("..*", 1, 3) == [];
  }

  /** As written, the `12` ending the first row is taken to end at column
      0 (`maxx` is 1 there), so the `'*'` diagonally below its `2` is not
      near it and part one leaves it out; ended at its own last column it
      is near the `'*'`. */
  lemma AsWrittenMissesCorner(token: map<Pos, char>)
    requires Cells(token, Corner, 2)
    ensures AsWrittenParts(Corner, 2) == [PartNumber(0, 0, 0, 12)]
    ensures !NearSymbol(PartNumber(0, 0, 0, 12), token)
    ensures AllParts(Corner, 2) == [PartNumber(0, 1, 0, 12)]
    ensures NearSymbol(PartNumber(0, 1, 0, 12), token)
  {
    CornerParts();
    assert Corner[0] == "12" && Corner[1] == "..*";
    assert SymbolAt(token, 2, 1);
    forall x, y | -1 <= y <= 1 && -1 <= x <= 1
      ensures !SymbolAt(token, x, y)
    {
      if (x, y) in token {
        assert token[(x, y)] == Corner[y][x];
      }
    }
  }
}
