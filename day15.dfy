/** Lens library (src/bin/15.rs): the HASH fold over a step's bytes, 256
    boxes of lenses updated in place by insert-or-replace and remove
    commands, and the focusing power of the final arrangement. */
module Day15 {
  import opened Common

  const Boxes: int := 256
  const U32: int := 0x1_0000_0000

  // ---------------------------------------------------------------------
  // HASH

  /** The fold of `hash` from accumulator `acc`: add the byte, multiply by
      17, keep the remainder modulo 256. */
  function HashFrom(acc: int, s: string): (h: int)
    ensures s != [] ==> 0 <= h < 256
    ensures s == [] ==> h == acc
    decreases |s|
  {
    if s == [] then acc else HashFrom((acc + s[0] as int) * 17 % 256, s[1..])
  }

  /** `hash`: the fold from 0. */
  function Hash(s: string): (h: int)
    ensures 0 <= h < 256
    ensures s == [] ==> h == 0
  {
    HashFrom(0, s)
  }

  /** The fold over a concatenation is the fold over the second part,
      started from the fold over the first. */
  lemma {:induction false} HashFromConcat(acc: int, s: string, t: string)
    ensures HashFrom(acc, s + t) == HashFrom(HashFrom(acc, s), t)
    decreases |s|
  {
    if s == [] {
      assert s + t == t;
    } else {
      assert (s + t)[1..] == s[1..] + t;
      HashFromConcat((acc + s[0] as int) * 17 % 256, s[1..], t);
    }
  }

  /** Appending one character is one more step of the fold. */
  lemma HashSnoc(s: string, c: char)
    ensures Hash(s + [c]) == (Hash(s) + c as int) * 17 % 256
  {
    HashFromConcat(0, s, [c]);
  }

  /** The worked example of the puzzle statement. */
  lemma HashOfHASH()
    ensures Hash("HASH") == 52
  {
    assert "HASH"[1..] == "ASH" && "ASH"[1..] == "SH" && "SH"[1..] == "H" && "H"[1..] == [];
    assert HashFrom(172, "H") == 52;
    assert HashFrom(153, "SH") == 52;
    assert HashFrom(200, "ASH") == 52;
  }

  // ---------------------------------------------------------------------
  // Lenses and commands

  /** A labelled lens; `==` on lenses in the source looks at the name only. */
  datatype Lens = Lens(name: string, count: int)

  datatype Command = Insert(box: int, lens: Lens) | Remove(box: int, lens: Lens)

  /** Slot `i` holds the first lens of the box named `name`. */
  predicate FirstNamed(b: seq<Lens>, name: string, i: int)
  {
    0 <= i < |b| && b[i].name == name && forall j | 0 <= j < i :: b[j].name != name
  }

  predicate Unnamed(b: seq<Lens>, name: string)
  {
    forall j | 0 <= j < |b| :: b[j].name != name
  }

  /** `find_lens_index`: the position of the first lens equal (by name). */
  function FindLensIndex(b: seq<Lens>, lens: Lens): (r: Option<nat>)
    ensures r.Some? <==> !Unnamed(b, lens.name)
    ensures r.Some? ==> FirstNamed(b, lens.name, r.value)
  {
    if b == [] then None
    else if b[0].name == lens.name then Some(0)
    else
      match FindLensIndex(b[1..], lens)
      case None => None
      case Some(k) => Some(k + 1)
  }

  /** The box after one command: an insert replaces the first lens of that
      name in its slot or goes to the back; a remove takes the first lens of
      that name out. */
  function Applied(b: seq<Lens>, cmd: Command): seq<Lens>
  {
    match cmd
    case Insert(_, lens) =>
      (match FindLensIndex(b, lens)
       case Some(i) => b[i := lens]
       case None => b + [lens])
    case Remove(_, lens) =>
      (match FindLensIndex(b, lens)
       case Some(i) => b[..i] + b[i + 1..]
       case None => b)
  }

  predicate DistinctNames(b: seq<Lens>)
  {
    forall i, j | 0 <= i < j < |b| :: b[i].name != b[j].name
  }

  /** Insert with a name already in the box replaces that lens in its slot:
      the length and every other slot stay as they were. */
  lemma InsertExisting(b: seq<Lens>, k: int, lens: Lens, i: int)
    requires FirstNamed(b, lens.name, i)
    ensures var r := Applied(b, Insert(k, lens));
      |r| == |b| && r[i] == lens && forall j | 0 <= j < |b| && j != i :: r[j] == b[j]
  {
    FirstNamedUnique(b, lens.name, i, FindLensIndex(b, lens).value);
  }

  /** Insert with a new name puts the lens at the back. */
  lemma InsertNew(b: seq<Lens>, k: int, lens: Lens)
    requires Unnamed(b, lens.name)
    ensures var r := Applied(b, Insert(k, lens));
      |r| == |b| + 1 && r[..|b|] == b && r[|b|] == lens
  {
  }

  /** Remove deletes the first lens of that name and keeps the others in
      their order; an absent name changes nothing. */
  lemma RemoveEffect(b: seq<Lens>, k: int, lens: Lens)
    ensures var r := Applied(b, Remove(k, lens));
      && (Unnamed(b, lens.name) ==> r == b)
      && (forall i | FirstNamed(b, lens.name, i) ::
            |r| == |b| - 1 && r[..i] == b[..i] && r[i..] == b[i + 1..])
  {
    forall i | FirstNamed(b, lens.name, i)
      ensures var r := Applied(b, Remove(k, lens)); |r| == |b| - 1 && r[..i] == b[..i] && r[i..] == b[i + 1..]
    {
      FirstNamedUnique(b, lens.name, i, FindLensIndex(b, lens).value);
    }
  }

  lemma FirstNamedUnique(b: seq<Lens>, name: string, i: int, j: int)
    requires FirstNamed(b, name, i) && FirstNamed(b, name, j)
    ensures i == j
  {
  }

  /** Names within a box stay distinct, and afterwards an insert's lens is
      in the box while a removed name is gone. */
  lemma AppliedDistinct(b: seq<Lens>, cmd: Command)
    requires DistinctNames(b)
    ensures DistinctNames(Applied(b, cmd))
    ensures cmd.Insert? ==> cmd.lens in Applied(b, cmd)
    ensures cmd.Remove? ==> Unnamed(Applied(b, cmd), cmd.lens.name)
  {
    var r := Applied(b, cmd);
    match FindLensIndex(b, cmd.lens)
    case None =>
      if cmd.Insert? {
        assert r[|b|] == cmd.lens;
      }
    case Some(i) =>
      if cmd.Remove? {
        forall p, q | 0 <= p < q < |r|
          ensures r[p].name != r[q].name
        {
          var p', q' := if p < i then p else p + 1, if q < i then q else q + 1;
          assert r[p] == b[p'] && r[q] == b[q'];
        }
        forall p | 0 <= p < |r|
          ensures r[p].name != cmd.lens.name
        {
          var p' := if p < i then p else p + 1;
          assert r[p] == b[p'];
        }
      } else {
        assert r[i] == cmd.lens;
      }
  }

  // ---------------------------------------------------------------------
  // The 256 boxes

  /** The store of `perform_commands`: 256 boxes, changed in place. */
  class LensBoxes {
    var boxes: seq<seq<Lens>>

    ghost predicate Valid()
      reads this
    {
      |boxes| == Boxes
    }

    /** `vec![VecDeque::with_capacity(10); 256]` */
    constructor ()
      ensures Valid() && boxes == Empty()
    {
      boxes := Empty();
    }

    /** One step of the `for command in commands` loop: only the box the
        command names changes, as `Applied` says. */
    method Perform(cmd: Command)
      requires Valid() && 0 <= cmd.box < Boxes
      modifies this
      ensures Valid()
      ensures boxes == old(boxes)[cmd.box := Applied(old(boxes)[cmd.box], cmd)]
    {
      var k := cmd.box;
      var found := FindLensIndex(boxes[k], cmd.lens);
      match cmd
      case Insert(_, lens) =>
        if found.Some? {
          boxes := boxes[k := boxes[k][found.value := lens]];
        } else {
          boxes := boxes[k := boxes[k] + [lens]];
        }
      case Remove(_, _) =>
        if found.Some? {
          var i := found.value;
          boxes := boxes[k := boxes[k][..i] + boxes[k][i + 1..]];
        }
    }
  }

  function Empty(): (s: seq<seq<Lens>>)
    ensures |s| == Boxes && forall k | 0 <= k < Boxes :: s[k] == []
  {
    seq(Boxes, _ => [])
  }

  predicate InRange(cmds: seq<Command>)
  {
    forall k | 0 <= k < |cmds| :: 0 <= cmds[k].box < Boxes
  }

  /** The boxes after the commands, in order, starting from 256 empty ones. */
  function Performed(cmds: seq<Command>): (s: seq<seq<Lens>>)
    requires InRange(cmds)
    ensures |s| == Boxes
  {
    if cmds == [] then Empty()
    else
      var prev := Performed(cmds[..|cmds| - 1]);
      var cmd := cmds[|cmds| - 1];
      prev[cmd.box := Applied(prev[cmd.box], cmd)]
  }

  /** After any sequence of commands the names within each box are
      distinct. */
  lemma {:induction false} PerformedDistinct(cmds: seq<Command>)
    requires InRange(cmds)
    ensures forall k | 0 <= k < Boxes :: DistinctNames(Performed(cmds)[k])
  {
    if cmds != [] {
      var prev := Performed(cmds[..|cmds| - 1]);
      var cmd := cmds[|cmds| - 1];
      PerformedDistinct(cmds[..|cmds| - 1]);
      AppliedDistinct(prev[cmd.box], cmd);
    }
  }

  /** `perform_commands` */
  method PerformCommands(cmds: seq<Command>) returns (boxes: seq<seq<Lens>>)
    requires InRange(cmds)
    ensures boxes == Performed(cmds)
  {
    var store := new LensBoxes();
    for n := 0 to |cmds|
      invariant store.Valid() && store.boxes == Performed(cmds[..n])
    {
      assert cmds[..n + 1][..n] == cmds[..n];
      store.Perform(cmds[n]);
    }
    assert cmds[..|cmds|] == cmds;
    boxes := store.boxes;
  }

  // ---------------------------------------------------------------------
  // Focusing power

  /** The power of the lenses of box `b`: (b + 1) * (slot + 1) * count. */
  function BoxPower(b: int, box: seq<Lens>): int
  {
    if box == [] then 0 else BoxPower(b, box[..|box| - 1]) + (b + 1) * |box| * box[|box| - 1].count
  }

  /** `calculate_focus_power` */
  function FocusPower(boxes: seq<seq<Lens>>): int
  {
    if boxes == [] then 0 else FocusPower(boxes[..|boxes| - 1]) + BoxPower(|boxes| - 1, boxes[|boxes| - 1])
  }

  /** Replacing the lens in slot `i` changes the power by the slot's weight
      times the change in its count. */
  lemma {:induction false} BoxPowerReplace(b: int, box: seq<Lens>, i: int, l: Lens)
    requires 0 <= i < |box|
    ensures BoxPower(b, box[i := l]) == BoxPower(b, box) + (b + 1) * (i + 1) * (l.count - box[i].count)
  {
    var r := box[i := l];
    if i < |box| - 1 {
      assert r[..|r| - 1] == box[..|box| - 1][i := l];
      BoxPowerReplace(b, box[..|box| - 1], i, l);
    } else {
      assert r[..|r| - 1] == box[..|box| - 1];
    }
  }

  /** A lens put at the back adds its count times the box and slot weights. */
  lemma BoxPowerAppend(b: int, box: seq<Lens>, l: Lens)
    ensures BoxPower(b, box + [l]) == BoxPower(b, box) + (b + 1) * (|box| + 1) * l.count
  {
    assert (box + [l])[..|box|] == box;
  }

  /** Changing one box changes the total by that box's change only. */
  lemma {:induction false} FocusPowerUpdate(boxes: seq<seq<Lens>>, k: int, box: seq<Lens>)
    requires 0 <= k < |boxes|
    ensures FocusPower(boxes[k := box]) == FocusPower(boxes) - BoxPower(k, boxes[k]) + BoxPower(k, box)
  {
    var r := boxes[k := box];
    if k < |boxes| - 1 {
      assert r[..|r| - 1] == boxes[..|boxes| - 1][k := box];
      FocusPowerUpdate(boxes[..|boxes| - 1], k, box);
    } else {
      assert r[..|r| - 1] == boxes[..|boxes| - 1];
    }
  }

  lemma {:induction false} BoxPowerNonNeg(b: int, box: seq<Lens>)
    requires b >= 0 && forall j | 0 <= j < |box| :: box[j].count >= 0
    ensures BoxPower(b, box) >= 0
  {
    if box != [] {
      BoxPowerNonNeg(b, box[..|box| - 1]);
    }
  }

  /** With no box holding a lens the power is 0. */
  lemma {:induction false} FocusPowerEmpty(n: int)
    requires 0 <= n <= Boxes
    ensures FocusPower(Empty()[..n]) == 0
  {
    if n > 0 {
      assert Empty()[..n][..n - 1] == Empty()[..n - 1];
      FocusPowerEmpty(n - 1);
    }
  }

  // ---------------------------------------------------------------------
  // Parsing and the two parts

  /** `str::parse::<u32>`. */
  function ParseU32(s: string): (r: Option<int>)
    ensures r.Some? ==> 0 <= r.value < U32
    ensures r.Some? <==> ParseNat(s).Some? && ParseNat(s).value < U32
  {
    match ParseNat(s)
    case Some(v) => if v < U32 then Some(v) else None
    case None => None
  }

  /** One step of the sequence: `name=count` inserts, anything else is a
      remove whose last character is dropped; a bad count, or an empty step
      (whose length minus one underflows), panics. */
  function ParseStep(line: string): (r: Result<Command>)
    ensures r.Ok? ==> r.value.box == Hash(r.value.lens.name) && 0 <= r.value.box < Boxes
    ensures r.Ok? && r.value.Remove? ==> '=' !in line && |line| > 0 && line == r.value.lens.name + [line[|line| - 1]] && r.value.lens.count == 0
    ensures r.Ok? && r.value.Insert? ==> '=' in line && '=' !in r.value.lens.name && 0 <= r.value.lens.count < U32
    ensures r.Panic? <==> line == [] || (CountText(line).Some? && ParseU32(CountText(line).value).None?)
  {
    if '=' in line then
      EqualsFound(line);
      var (name, value) := SplitOnce(line, "=").value;
      NameBeforeFirstEquals(line);
      match ParseU32(value)
      case None => Panic("called `Result::unwrap()` on an `Err` value")
      case Some(v) => Ok(Insert(Hash(name), Lens(name, v)))
    else if line == [] then Panic("attempt to subtract with overflow")
    else
      var name := line[..|line| - 1];
      assert line == name + [line[|line| - 1]];
      Ok(Remove(Hash(name), Lens(name, 0)))
  }

  /** The text after the first `=`, if there is one. */
  function CountText(line: string): (r: Option<string>)
    ensures r.Some? <==> '=' in line
  {
    if '=' in line then
      EqualsFound(line);
      Some(SplitOnce(line, "=").value.1)
    else
      NoEquals(line);
      None
  }

  lemma NoEquals(line: string)
    requires '=' !in line
    ensures SplitOnce(line, "=").None?
  {
    FindAbsent(line, '=');
  }

  lemma EqualsFound(line: string)
    requires '=' in line
    ensures SplitOnce(line, "=").Some?
  {
    var k :| 0 <= k < |line| && line[k] == '=';
    assert OccursAt(line, "=", k);
  }

  lemma NameBeforeFirstEquals(line: string)
    requires SplitOnce(line, "=").Some?
    ensures '=' !in SplitOnce(line, "=").value.0
  {
    var name := SplitOnce(line, "=").value.0;
    forall j | 0 <= j < |name|
      ensures name[j] != '='
    {
      assert !OccursAt(line, "=", j);
      assert line[j..j + 1] == [line[j]];
    }
  }

  /** The two kinds of step round-trip through the parser. */
  lemma ParseStepRoundTrip(name: string, count: nat)
    requires '=' !in name && count < U32
    ensures ParseStep(name + "=" + Decimal(count)) == Ok(Insert(Hash(name), Lens(name, count)))
    ensures ParseStep(name + "-") == Ok(Remove(Hash(name), Lens(name, 0)))
  {
    var line := name + "=" + Decimal(count);
    FindCharAfter(name, '=', Decimal(count));
    assert line == name + ['='] + Decimal(count);
    ParseNatDecimal(count);
    var minus := name + "-";
    assert '=' !in minus;
    assert minus[..|minus| - 1] == name;
  }

  /** The steps of the trimmed input, split on commas. */
  function Steps(input: string): seq<string>
  {
    Split(Trim(input), ",")
  }

  /** The commands of the steps, or the first panic; every command names
      one of the 256 boxes. */
  function ParseSteps(steps: seq<string>): (r: Result<seq<Command>>)
    ensures r.Ok? ==> InRange(r.value)
    ensures r.Ok? ==> |r.value| == |steps| && forall k | 0 <= k < |steps| :: ParseStep(steps[k]) == Ok(r.value[k])
    ensures r.Panic? <==> exists k | 0 <= k < |steps| :: ParseStep(steps[k]).Panic?
  {
    AllOk(steps, ParseStep)
  }

  /** `part_one`: the sum of the hashes of the steps. */
  function PartOne(input: string): (r: int)
    ensures 0 <= r <= 255 * |Steps(input)|
  {
    HashSumBounds(Steps(input));
    Sum(HashAll(Steps(input)))
  }

  function HashAll(steps: seq<string>): (hs: seq<int>)
    ensures |hs| == |steps| && forall k | 0 <= k < |steps| :: hs[k] == Hash(steps[k])
  {
    seq(|steps|, k requires 0 <= k < |steps| => Hash(steps[k]))
  }

  lemma {:induction false} HashSumBounds(steps: seq<string>)
    ensures 0 <= Sum(HashAll(steps)) <= 255 * |steps|
  {
    if steps != [] {
      var front := steps[..|steps| - 1];
      assert HashAll(steps)[..|steps| - 1] == HashAll(front);
      HashSumBounds(front);
    }
  }

  /** `part_two`: the focusing power after the commands, cast to `u32`. */
  method PartTwo(input: string) returns (r: Result<int>)
    ensures r.Panic? <==> ParseSteps(Steps(input)).Panic?
    ensures r.Ok? ==> r.value == FocusPower(Performed(ParseSteps(Steps(input)).value)) % U32
  {
    var cmds :- ParseSteps(Steps(input));
    var boxes := PerformCommands(cmds);
    var power := FocusPower(boxes);
    return Ok(power % U32);
  }
}
