/** Day 8: haunted wasteland. A line of `L`/`R` instructions, repeated
    for ever, walks a network of nodes, each with a left and a right
    successor; part one counts the steps from `AAA` to `ZZZ`. */
module Day08 {
  import opened Common

  type Name = string

  /** `get_map`'s result: each node's left and right successor. */
  type Network = map<Name, (Name, Name)>

  /** `rest.len() - 1` on an empty `rest`. */
  const SubtractOverflow := "attempt to subtract with overflow"
  /** `rest[1..0]`, on a one-character `rest`. */
  const SliceBackwards := "slice index starts at 1 but ends at 0"
  /** The `panic!` of an instruction that is neither `L` nor `R`. */
  const UnknownPath := "unknown path option"
  /** The `panic!` after the loop, reached only when there are no
      instructions to cycle through. */
  const Unsolvable := "unsolvable"

  // ---------------------------------------------------------------------
  // The network: `get_map`

  /** One line, `"NAME = (LEFT, RIGHT)"`: split at the first `" = "`, drop
      the first and last character of the rest and split at the first
      `", "`. */
  function ParseNode(line: string): Result<(Name, Name, Name)>
  {
    match SplitOnce(line, " = ")
    case None => Panic(UnwrapNone)
    case Some((name, rest)) =>
      if |rest| == 0 then Panic(SubtractOverflow)
      else if |rest| == 1 then Panic(SliceBackwards)
      else
        match SplitOnce(rest[1..|rest| - 1], ", ")
        case None => Panic(UnwrapNone)
        case Some((left, right)) => Ok((name, left, right))
  }

  /** How a node is written in the puzzle input. */
  function NodeLine(name: Name, left: Name, right: Name): string
  {
    name + " = (" + left + ", " + right + ")"
  }

  /** Reading a written node gives it back, when the name has no blank
      and the left successor no comma. */
  lemma ParseNodeLine(name: Name, left: Name, right: Name)
    requires ' ' !in name && ',' !in left
    ensures ParseNode(NodeLine(name, left, right)) == Ok((name, left, right))
  {
    var rest := "(" + left + ", " + right + ")";
    assert NodeLine(name, left, right) == name + " = " + rest;
    SplitOnceAfter(name, " = ", rest);
    assert rest[1..|rest| - 1] == left + ", " + right;
    SplitOnceAfter(left, ", ", right);
  }

  /** The network of the parsed lines, inserted in order, so that a later
      line naming the same node replaces an earlier one. */
  function Build(nodes: seq<(Name, Name, Name)>): Network
  {
    if nodes == [] then map[]
    else
      var (name, left, right) := nodes[|nodes| - 1];
      Build(nodes[..|nodes| - 1])[name := (left, right)]
  }

  /** Every parsed node is in the network, and nothing else is. */
  lemma {:induction false} BuildKeys(nodes: seq<(Name, Name, Name)>)
    ensures Build(nodes).Keys == set i | 0 <= i < |nodes| :: nodes[i].0
  {
    if nodes != [] {
      var front := nodes[..|nodes| - 1];
      BuildKeys(front);
      var last := nodes[|nodes| - 1].0;
      var names := set i | 0 <= i < |nodes| :: nodes[i].0;
      var frontNames := set i | 0 <= i < |front| :: front[i].0;
      forall n | n in names ensures n in frontNames + {last} {
        var i :| 0 <= i < |nodes| && nodes[i].0 == n;
        if i < |front| {
          assert front[i].0 == n;
        }
      }
      forall n | n in frontNames ensures n in names {
        var i :| 0 <= i < |front| && front[i].0 == n;
        assert nodes[i].0 == n;
      }
    }
  }

  /** A node that no later line names again has the successors of its
      line. */
  lemma {:induction false} BuildValues(nodes: seq<(Name, Name, Name)>, i: nat)
    requires i < |nodes| && forall j | i < j < |nodes| :: nodes[j].0 != nodes[i].0
    ensures nodes[i].0 in Build(nodes) && Build(nodes)[nodes[i].0] == (nodes[i].1, nodes[i].2)
  {
    if i < |nodes| - 1 {
      var front := nodes[..|nodes| - 1];
      assert front[i] == nodes[i];
      forall j | i < j < |front| ensures front[j].0 != front[i].0 {
        assert front[j] == nodes[j];
      }
      BuildValues(front, i);
    }
  }

  /** `get_map`: every line of the text is a node, or the first line that
      is not panics. */
  function GetMap(text: string): Result<Network>
  {
    var nodes :- AllOk(Lines(text), ParseNode);
    Ok(Build(nodes))
  }

  /** The lines of written nodes, one per node. */
  function NodeLines(nodes: seq<(Name, Name, Name)>): (ls: seq<string>)
    ensures |ls| == |nodes|
    ensures forall i | 0 <= i < |nodes| :: ls[i] == NodeLine(nodes[i].0, nodes[i].1, nodes[i].2)
  {
    seq(|nodes|, i requires 0 <= i < |nodes| => NodeLine(nodes[i].0, nodes[i].1, nodes[i].2))
  }

  /** Well-formed names: no blank or line break in a node's name, no comma
      or line break in either successor. */
  predicate Writable(nodes: seq<(Name, Name, Name)>)
  {
    forall i | 0 <= i < |nodes| ::
      && ' ' !in nodes[i].0 && '\n' !in nodes[i].0
      && ',' !in nodes[i].1 && '\n' !in nodes[i].1 && '\n' !in nodes[i].2
  }

  /** Writing the nodes one per line and reading them back builds their
      network. */
  lemma GetMapNodeLines(nodes: seq<(Name, Name, Name)>)
    requires nodes != [] && Writable(nodes)
    ensures GetMap(Join(NodeLines(nodes), "\n")) == Ok(Build(nodes))
  {
    var ls := NodeLines(nodes);
    forall i | 0 <= i < |ls| ensures '\n' !in ls[i] {
      var n := nodes[i];
      assert ls[i] == n.0 + " = (" + n.1 + ", " + n.2 + ")";
    }
    assert ls[|ls| - 1] != "";
    LinesJoin(ls);
    forall i | 0 <= i < |ls| ensures ParseNode(ls[i]) == Ok(nodes[i]) {
      ParseNodeLine(nodes[i].0, nodes[i].1, nodes[i].2);
    }
    AllOkValues(ls, nodes, ParseNode);
  }

  // ---------------------------------------------------------------------
  // Walking the network: `solve_path`

  /** The node step `i` (counting from 0) leads to from `current`: look the
      node up, then follow instruction `i`, the instructions repeating. */
  function Step(path: string, nodes: Network, current: Name, i: nat): Result<Name>
    requires path != []
  {
    if current !in nodes then Panic(UnwrapNone)
    else
      var (left, right) := nodes[current];
      var c := path[i % |path|];
      if c == 'R' then Ok(right)
      else if c == 'L' then Ok(left)
      else Panic(UnknownPath)
  }

  /** Where `n` steps from `start` lead, or the panic on the way. */
  function Walk(path: string, nodes: Network, start: Name, n: nat): Result<Name>
    requires path != []
  {
    if n == 0 then Ok(start)
    else
      var current :- Walk(path, nodes, start, n - 1);
      Step(path, nodes, current, n - 1)
  }

  /** What `solve_path` comes to within `limit` steps. */
  datatype Outcome = Steps(n: nat) | Panicked(reason: string) | Unfinished

  /** Steps `i` to `limit - 1` of the walk, from `current`. */
  function SolveFrom(path: string, nodes: Network, current: Name, goal: Name -> bool, i: nat, limit: nat): Outcome
    requires path != []
    decreases limit - i
  {
    if i >= limit then Unfinished
    else
      match Step(path, nodes, current, i)
      case Panic(e) => Panicked(e)
      case Ok(next) => if goal(next) then Steps(i + 1) else SolveFrom(path, nodes, next, goal, i + 1, limit)
  }

  /** `solve_path`, cut off after `limit` steps. */
  function Solve(path: string, nodes: Network, start: Name, goal: Name -> bool, limit: nat): Outcome
  {
    if path == [] then Panicked(Unsolvable) else SolveFrom(path, nodes, start, goal, 0, limit)
  }

  /** The first `i` steps went through and none reached the goal. */
  ghost predicate Unreached(path: string, nodes: Network, start: Name, goal: Name -> bool, i: nat)
    requires path != []
  {
    forall k | 1 <= k <= i :: Walk(path, nodes, start, k).Ok? && !goal(Walk(path, nodes, start, k).value)
  }

  lemma {:induction false} SolveFromSpec(path: string, nodes: Network, start: Name, goal: Name -> bool,
                                          current: Name, i: nat, limit: nat)
    requires path != [] && i <= limit
    requires Walk(path, nodes, start, i) == Ok(current) && Unreached(path, nodes, start, goal, i)
    ensures var r := SolveFrom(path, nodes, current, goal, i, limit);
      && (r.Steps? ==> i < r.n <= limit && Unreached(path, nodes, start, goal, r.n - 1)
                       && Walk(path, nodes, start, r.n).Ok? && goal(Walk(path, nodes, start, r.n).value))
      && (r.Unfinished? <==> Unreached(path, nodes, start, goal, limit))
      && (r.Panicked? ==> exists k | i < k <= limit ::
                            && Unreached(path, nodes, start, goal, k - 1)
                            && Walk(path, nodes, start, k) == Panic(r.reason))
    decreases limit - i
  {
    if i < limit {
      var w := Walk(path, nodes, start, i + 1);
      assert w == Step(path, nodes, current, i);
      if w.Ok? && !goal(w.value) {
        assert Unreached(path, nodes, start, goal, i + 1);
        SolveFromSpec(path, nodes, start, goal, w.value, i + 1, limit);
      } else if w.Panic? {
        assert !Unreached(path, nodes, start, goal, limit);
      } else {
        assert !Unreached(path, nodes, start, goal, limit);
      }
    }
  }

  /** Solving finds the first step, counting from 1, after which the goal
      holds (the start itself is never tested); it panics with the first
      panic of the walk, and within the limit finds nothing exactly when
      every step goes through without reaching the goal. With no
      instructions it panics with `"unsolvable"`. */
  lemma SolveSpec(path: string, nodes: Network, start: Name, goal: Name -> bool, limit: nat)
    ensures path == [] ==> Solve(path, nodes, start, goal, limit) == Panicked(Unsolvable)
    ensures path != [] ==>
      var r := Solve(path, nodes, start, goal, limit);
      && (r.Steps? ==> 1 <= r.n <= limit && Unreached(path, nodes, start, goal, r.n - 1)
                       && Walk(path, nodes, start, r.n).Ok? && goal(Walk(path, nodes, start, r.n).value))
      && (r.Unfinished? <==> Unreached(path, nodes, start, goal, limit))
      && (r.Panicked? ==> exists k | 1 <= k <= limit ::
                            && Unreached(path, nodes, start, goal, k - 1)
                            && Walk(path, nodes, start, k) == Panic(r.reason))
  {
    if path != [] {
      SolveFromSpec(path, nodes, start, goal, start, 0, limit);
    }
  }

  /** An answer found within a limit is found within any larger one. */
  lemma {:induction false} SolveFromLonger(path: string, nodes: Network, current: Name, goal: Name -> bool,
                                            i: nat, limit: nat, longer: nat)
    requires path != [] && limit <= longer
    requires !SolveFrom(path, nodes, current, goal, i, limit).Unfinished?
    ensures SolveFrom(path, nodes, current, goal, i, longer) == SolveFrom(path, nodes, current, goal, i, limit)
    decreases limit - i
  {
    var s := Step(path, nodes, current, i);
    if s.Ok? && !goal(s.value) {
      SolveFromLonger(path, nodes, s.value, goal, i + 1, limit, longer);
    }
  }

  lemma SolveLonger(path: string, nodes: Network, start: Name, goal: Name -> bool, limit: nat, longer: nat)
    requires limit <= longer && !Solve(path, nodes, start, goal, limit).Unfinished?
    ensures Solve(path, nodes, start, goal, longer) == Solve(path, nodes, start, goal, limit)
  {
    if path != [] {
      SolveFromLonger(path, nodes, start, goal, 0, limit, longer);
    }
  }

  /** `solve_path`: follow the instructions round and round, looking each
      node up, until a step ends where `goal` holds; stop after `limit`
      steps. */
  method SolvePath(path: string, nodes: Network, start: Name, goal: Name -> bool, limit: nat) returns (r: Outcome)
    ensures r == Solve(path, nodes, start, goal, limit)
  {
    if path == [] {
      return Panicked(Unsolvable);
    }
    var current := start;
    var i := 0;
    while i < limit
      invariant i <= limit
      invariant SolveFrom(path, nodes, current, goal, i, limit) == Solve(path, nodes, start, goal, limit)
      decreases limit - i
    {
      if current !in nodes {
        return Panicked(UnwrapNone);
      }
      var (left, right) := nodes[current];
      var c := path[i % |path|];
      if c == 'R' {
        current := right;
      } else if c == 'L' {
        current := left;
      } else {
        return Panicked(UnknownPath);
      }
      if goal(current) {
        return Steps(i + 1);
      }
      i := i + 1;
    }
    return Unfinished;
  }

  // ---------------------------------------------------------------------
  // Part one

  predicate IsEnd(name: Name)
  {
    name == "ZZZ"
  }

  /** What `part_one` comes to: the instructions before the first blank
      line, the network after it, walked from `AAA` to `ZZZ`. */
  function PartOneOutcome(input: string, limit: nat): Outcome
  {
    match SplitOnce(Trim(input), "\n\n")
    case None => Panicked(UnwrapNone)
    case Some((path, text)) =>
      match GetMap(text)
      case Panic(e) => Panicked(e)
      case Ok(nodes) => Solve(path, nodes, "AAA", IsEnd, limit)
  }

  method PartOne(input: string, limit: nat) returns (r: Outcome)
    ensures r == PartOneOutcome(input, limit)
  {
    var split := SplitOnce(Trim(input), "\n\n");
    if split.None? {
      return Panicked(UnwrapNone);
    }
    var (path, text) := split.value;
    var nodes := GetMap(text);
    if nodes.Panic? {
      return Panicked(nodes.reason);
    }
    r := SolvePath(path, nodes.value, "AAA", IsEnd, limit);
  }
}
