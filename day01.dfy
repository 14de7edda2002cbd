/** Day 1: trebuchet calibration. Every line's value is ten times its first
    digit plus its last; part one counts ASCII digits only, part two also
    the spelt-out words "one" to "nine". */
module Day01 {
  import opened Common

  // ---------------------------------------------------------------------
  // Part one

  /** The ASCII digits of a line, in order. */
  function DigitChars(line: string): (ds: string)
    ensures AllDigits(ds) && |ds| <= |line|
  {
    if line == [] then []
    else (if IsDigit(line[0]) then [line[0]] else []) + DigitChars(line[1..])
  }

  predicate HasDigit(line: string)
  {
    exists i | 0 <= i < |line| :: IsDigit(line[i])
  }

  /** A line keeps some digit exactly when it has one. */
  lemma {:induction false} DigitCharsEmpty(line: string)
    ensures DigitChars(line) == [] <==> !HasDigit(line)
  {
    if line != [] {
      DigitCharsEmpty(line[1..]);
      if HasDigit(line[1..]) {
        var i :| 0 <= i < |line[1..]| && IsDigit(line[1..][i]);
        assert IsDigit(line[i + 1]);
      }
      if HasDigit(line) && !IsDigit(line[0]) {
        var i :| 0 <= i < |line| && IsDigit(line[i]);
        assert line[1..][i - 1] == line[i];
      }
    }
  }

  /** The first digit kept is the line's first digit. */
  lemma {:induction false} DigitCharsFirst(line: string, i: nat)
    requires i < |line| && IsDigit(line[i])
    requires forall j | 0 <= j < i :: !IsDigit(line[j])
    ensures DigitChars(line) != [] && DigitChars(line)[0] == line[i]
  {
    if i > 0 {
      DigitCharsFirst(line[1..], i - 1);
    }
  }

  /** The last digit kept is the line's last digit. */
  lemma {:induction false} DigitCharsLast(line: string, j: nat)
    requires j < |line| && IsDigit(line[j])
    requires forall k | j < k < |line| :: !IsDigit(line[k])
    ensures DigitChars(line) != [] && DigitChars(line)[|DigitChars(line)| - 1] == line[j]
  {
    if j == 0 {
      DigitCharsEmpty(line[1..]);
      assert !HasDigit(line[1..]) by {
        forall k | 0 <= k < |line[1..]|
          ensures !IsDigit(line[1..][k])
        {
          assert line[1..][k] == line[k + 1];
        }
      }
    } else {
      DigitCharsLast(line[1..], j - 1);
    }
  }

  /** Two digits written side by side parse as a two-digit number. */
  lemma ParseTwoDigits(a: char, b: char)
    requires IsDigit(a) && IsDigit(b)
    ensures ParseU32([a, b]) == Ok(DigitValue(a) * 10 + DigitValue(b))
  {
    assert AllDigits([a, b]);
    assert [a, b][..1] == [a] && [a][..0] == [];
    assert DigitsValue([a]) == DigitValue(a);
  }

  /** The closure of `part_one`: the first and last digit written one after
      the other and parsed; a line without a digit panics. */
  function CalibrationOne(line: string): (r: Result<nat>)
    ensures r.Ok? <==> HasDigit(line)
    ensures r.Ok? ==> r.value <= 99
  {
    DigitCharsEmpty(line);
    var ds := DigitChars(line);
    if ds == [] then Panic(UnwrapNone)
    else
      ParseTwoDigits(ds[0], ds[|ds| - 1]);
      ParseU32([ds[0], ds[|ds| - 1]])
  }

  /** A line with a digit is worth ten times its first digit plus its
      last. */
  lemma CalibrationOneSpec(line: string)
    ensures CalibrationOne(line).Ok? ==>
              exists i, j | 0 <= i <= j < |line| ::
                && IsDigit(line[i]) && IsDigit(line[j])
                && (forall k | 0 <= k < i :: !IsDigit(line[k]))
                && (forall k | j < k < |line| :: !IsDigit(line[k]))
                && CalibrationOne(line).value == 10 * DigitValue(line[i]) + DigitValue(line[j])
  {
    DigitCharsEmpty(line);
    var ds := DigitChars(line);
    if ds != [] {
      ParseTwoDigits(ds[0], ds[|ds| - 1]);
      var i := FirstDigit(line);
      var j := LastDigit(line);
      DigitCharsFirst(line, i);
      DigitCharsLast(line, j);
    }
  }

  /** Where the first digit of a line stands. */
  lemma FirstDigit(line: string) returns (i: nat)
    requires HasDigit(line)
    ensures i < |line| && IsDigit(line[i]) && forall k | 0 <= k < i :: !IsDigit(line[k])
  {
    i := 0;
    while !IsDigit(line[i])
      invariant i < |line| && HasDigit(line[i..])
      invariant forall k | 0 <= k < i :: !IsDigit(line[k])
      decreases |line| - i
    {
      var d :| 0 <= d < |line[i..]| && IsDigit(line[i..][d]);
      assert d != 0;
      assert IsDigit(line[i + 1..][d - 1]);
      i := i + 1;
    }
  }

  /** Where the last digit of a line stands. */
  lemma LastDigit(line: string) returns (j: nat)
    requires HasDigit(line)
    ensures j < |line| && IsDigit(line[j]) && forall k | j < k < |line| :: !IsDigit(line[k])
  {
    j := |line| - 1;
    while !IsDigit(line[j])
      invariant j < |line| && HasDigit(line[..j + 1])
      invariant forall k | j < k < |line| :: !IsDigit(line[k])
      decreases j
    {
      var d :| 0 <= d < |line[..j + 1]| && IsDigit(line[..j + 1][d]);
      assert d != j;
      assert IsDigit(line[..j][d]);
      j := j - 1;
    }
  }

  /** `part_one`: every line's value, added up, or the first panic. */
  function PartOne(input: string): Result<int>
  {
    var values :- AllOk(SplitLines(input), CalibrationOne);
    Ok(Sum(values))
  }

  /** Part one panics exactly when a line has no digit, and each line
      adds at most 99. */
  lemma PartOneSpec(input: string)
    ensures PartOne(input).Ok? <==> forall k | 0 <= k < |SplitLines(input)| :: HasDigit(SplitLines(input)[k])
    ensures PartOne(input).Ok? ==> 0 <= PartOne(input).value <= 99 * |SplitLines(input)|
  {
    var ls := SplitLines(input);
    var values := AllOk(ls, CalibrationOne);
    if values.Ok? {
      SumBounded(values.value, 99);
    }
  }

  /** A sum of terms between 0 and `bound` is between 0 and `bound` times
      their number. */
  lemma {:induction false} SumBounded(xs: seq<int>, bound: nat)
    requires forall k | 0 <= k < |xs| :: 0 <= xs[k] <= bound
    ensures 0 <= Sum(xs) <= bound * |xs|
  {
    if xs != [] {
      SumBounded(xs[..|xs| - 1], bound);
    }
  }

  // ---------------------------------------------------------------------
  // Part two

  /** The keys of `part_two`'s map; `Words[k]` stands for `k + 1`. */
  const Words: seq<string> := ["one", "two", "three", "four", "five", "six", "seven", "eight", "nine"]

  /** `&check[1..]` on a text whose first character takes more than one
      byte. */
  const NotCharBoundary := "byte index 1 is not a char boundary"

  /** The value of the first word, from `Words[k]` on, that `s` starts with. */
  function WordFrom(s: string, k: nat): (r: Option<nat>)
    requires k <= |Words|
    ensures r.Some? ==> k < r.value <= |Words| && Words[r.value - 1] <= s
    ensures r.None? ==> forall m | k <= m < |Words| :: !(Words[m] <= s)
    decreases |Words| - k
  {
    if k == |Words| then None
    else if Words[k] <= s then Some(k + 1)
    else WordFrom(s, k + 1)
  }

  /** The value of the digit word `s` starts with, if any. */
  function WordAt(s: string): Option<nat>
  {
    WordFrom(s, 0)
  }

  /** No text starts with two different words: each pair differs within
      its first two letters. */
  lemma WordsExclusive(a: nat, b: nat, s: string)
    requires a < b < |Words|
    ensures Words[a] <= s ==> !(Words[b] <= s)
  {
    if Words[a] <= s {
      assert s[0] == Words[a][0] && s[1] == Words[a][1];
    }
  }

  /** At most one word starts any text, so whatever order the map hands
      its keys out in, the word found is the same. */
  lemma WordAtUnique(s: string, k: nat)
    requires k < |Words| && Words[k] <= s
    ensures WordAt(s) == Some(k + 1)
  {
    var m := WordAt(s).value - 1;
    if m < k {
      WordsExclusive(m, k, s);
      assert false;
    } else if k < m {
      WordsExclusive(k, m, s);
      assert false;
    }
  }

  /** The digit, written or spelt out, that `s` starts with. */
  function DigitAt(s: string): Option<nat>
    requires s != []
  {
    if IsDigit(s[0]) then Some(DigitValue(s[0])) else WordAt(s)
  }

  /** What one position adds: its digit, or nothing. */
  function Found(s: string): (ds: seq<nat>)
    requires s != []
    ensures |ds| <= 1 && forall k | 0 <= k < |ds| :: ds[k] <= 9
  {
    match DigitAt(s)
    case Some(d) => [d]
    case None => []
  }

  /** What the loop of `part_two` collects from each position of `s` in
      turn, or its panic at a character of more than one byte. */
  function ScanDigits(s: string): (r: Result<seq<nat>>)
    ensures r.Ok? ==> forall k | 0 <= k < |r.value| :: r.value[k] <= 9
    decreases |s|
  {
    if s == [] then Ok([])
    else if s[0] as int >= 0x80 then Panic(NotCharBoundary)
    else
      var rest :- ScanDigits(s[1..]);
      Ok(Found(s) + rest)
  }

  /** The digits collected so far, followed by those of the rest of the
      text, are those of the whole line. */
  ghost predicate Scanned(line: string, check: string, digits: seq<nat>)
  {
    && (ScanDigits(check).Ok? ==> ScanDigits(line) == Ok(digits + ScanDigits(check).value))
    && (ScanDigits(check).Panic? ==> ScanDigits(line) == ScanDigits(check))
  }

  lemma ScanStep(line: string, check: string, digits: seq<nat>)
    requires check != [] && check[0] as int < 0x80 && Scanned(line, check, digits)
    ensures Scanned(line, check[1..], digits + Found(check))
  {
    if ScanDigits(check[1..]).Ok? {
      assert digits + (Found(check) + ScanDigits(check[1..]).value)
          == (digits + Found(check)) + ScanDigits(check[1..]).value;
    }
  }

  /** The `while let` loop of `part_two`: look for a digit or a word at
      each position, then step one character on. */
  method LineDigits(line: string) returns (r: Result<seq<nat>>)
    ensures r == ScanDigits(line)
  {
    var digits: seq<nat> := [];
    var check := line;
    assert ScanDigits(line).Ok? ==> digits + ScanDigits(line).value == ScanDigits(line).value;
    while check != []
      invariant Scanned(line, check, digits)
      decreases |check|
    {
      var c := check[0];
      ghost var before := digits;
      if IsDigit(c) {
        digits := digits + [DigitValue(c)];
      } else {
        var a := WordAt(check);
        if a.Some? {
          digits := digits + [a.value];
        }
      }
      assert digits == before + Found(check);
      if c as int >= 0x80 {
        return Panic(NotCharBoundary);
      }
      ScanStep(line, check, before);
      check := check[1..];
    }
    assert digits + [] == digits;
    return Ok(digits);
  }

  /** The closure of `part_two`: ten times the first digit found plus the
      last; a line without any panics. */
  function CalibrationTwo(line: string): (r: Result<nat>)
    ensures r.Ok? ==> r.value <= 99
  {
    var ds :- ScanDigits(line);
    if ds == [] then Panic(UnwrapNone) else Ok(ds[0] * 10 + ds[|ds| - 1])
  }

  method LineValue(line: string) returns (r: Result<nat>)
    ensures r == CalibrationTwo(line)
  {
    var digits := LineDigits(line);
    if digits.Panic? {
      return Panic(digits.reason);
    }
    var ds := digits.value;
    if ds == [] {
      return Panic(UnwrapNone);
    }
    return Ok(ds[0] * 10 + ds[|ds| - 1]);
  }

  /** `part_two`: every line's value, added up, or the first panic. */
  function PartTwoSum(input: string): Result<int>
  {
    var values :- AllOk(SplitLines(input), CalibrationTwo);
    Ok(Sum(values))
  }

  method PartTwo(input: string) returns (r: Result<int>)
    ensures r == PartTwoSum(input)
  {
    var ls := SplitLines(input);
    var sum := 0;
    for i := 0 to |ls|
      invariant AllOk(ls[..i], CalibrationTwo).Ok?
      invariant sum == Sum(AllOk(ls[..i], CalibrationTwo).value)
    {
      var v := LineValue(ls[i]);
      if v.Panic? {
        AllOkPrefixPanic(ls, i, CalibrationTwo);
        return Panic(v.reason);
      }
      ghost var before := AllOk(ls[..i], CalibrationTwo).value;
      AllOkStep(ls, i, CalibrationTwo);
      assert (before + [v.value])[..i] == before;
      sum := sum + v.value;
    }
    assert ls[..|ls|] == ls;
    return Ok(sum);
  }

  /** What the scan collects from the positions before `i`. */
  function Before(s: string, i: nat): seq<nat>
    requires i <= |s|
  {
    if i == 0 then [] else Before(s, i - 1) + Found(s[i - 1..])
  }

  /** The scan reads each position on its own: what it collects is what the
      positions before `i` give, then what the text from `i` on gives. */
  lemma {:induction false} ScanAt(s: string, i: nat)
    requires i <= |s| && ScanDigits(s).Ok?
    ensures ScanDigits(s[i..]).Ok? && ScanDigits(s).value == Before(s, i) + ScanDigits(s[i..]).value
  {
    if i == 0 {
      assert s[0..] == s;
    } else {
      ScanAt(s, i - 1);
      var t := s[i - 1..];
      assert t[1..] == s[i..];
      var rest := ScanDigits(s[i..]).value;
      assert Before(s, i - 1) + (Found(t) + rest) == Before(s, i) + rest;
    }
  }

  /** A position where a word starts gives that word's value. */
  lemma FoundWord(s: string, a: nat)
    requires a < |Words| && Words[a] <= s
    ensures s != [] && Found(s) == [a + 1]
  {
    WordAtUnique(s, a);
    assert Words[a][0] in "otfsen";
    assert s[0] == Words[a][0];
  }

  /** The first position's digit leads whatever the scan collects. */
  lemma {:induction false} BeforeFirst(s: string, i: nat)
    requires 0 < i <= |s| && Found(s) != []
    ensures Before(s, i) != [] && Before(s, i)[0] == Found(s)[0]
  {
    if i > 1 {
      BeforeFirst(s, i - 1);
    } else {
      assert s[0..] == s;
    }
  }

  /** Overlapping words both count: a word starting inside another, as
      "two" does inside "eightwo", is collected after it. */
  lemma Overlapping(s: string, i: nat, a: nat, b: nat)
    requires 0 < i < |s| && a < |Words| && b < |Words|
    requires Words[a] <= s && Words[b] <= s[i..]
    requires ScanDigits(s).Ok?
    ensures exists p, q | 0 <= p < q < |ScanDigits(s).value| ::
              ScanDigits(s).value[p] == a + 1 && ScanDigits(s).value[q] == b + 1
  {
    FoundWord(s, a);
    FoundWord(s[i..], b);
    ScanAt(s, i);
    BeforeFirst(s, i);
    var v := ScanDigits(s).value;
    assert v[0] == a + 1;
    assert v[|Before(s, i)|] == b + 1;
  }

  // ---------------------------------------------------------------------
  // The two parts agree on lines without words

  /** No digit word starts anywhere in the line. */
  predicate NoWords(line: string)
  {
    forall i | 0 <= i < |line| :: WordAt(line[i..]).None?
  }

  predicate Ascii(line: string)
  {
    forall i | 0 <= i < |line| :: line[i] as int < 0x80
  }

  /** The values of a string of digits. */
  function Values(ds: string): (vs: seq<nat>)
    requires AllDigits(ds)
    ensures |vs| == |ds| && forall k | 0 <= k < |ds| :: vs[k] == DigitValue(ds[k])
  {
    if ds == [] then [] else [DigitValue(ds[0])] + Values(ds[1..])
  }

  /** The tail of a wordless ASCII line is one too. */
  lemma TailPlain(line: string)
    requires line != [] && Ascii(line) && NoWords(line)
    ensures Ascii(line[1..]) && NoWords(line[1..]) && WordAt(line).None?
  {
    var rest := line[1..];
    forall i | 0 <= i < |rest|
      ensures rest[i] as int < 0x80 && WordAt(rest[i..]).None?
    {
      assert rest[i] == line[i + 1] && rest[i..] == line[i + 1..];
    }
    assert line[0..] == line;
  }

  lemma ValuesAppend(a: string, b: string)
    requires AllDigits(a) && AllDigits(b)
    ensures AllDigits(a + b) && Values(a + b) == Values(a) + Values(b)
  {
  }

  /** Without words, part two's scan finds the digits part one keeps. */
  lemma {:induction false} ScanWithoutWords(line: string)
    requires Ascii(line) && NoWords(line)
    ensures ScanDigits(line) == Ok(Values(DigitChars(line)))
  {
    if line != [] {
      TailPlain(line);
      ScanWithoutWords(line[1..]);
      var head := if IsDigit(line[0]) then [line[0]] else [];
      assert Found(line) == Values(head);
      ValuesAppend(head, DigitChars(line[1..]));
    }
  }

  /** Part one's value of a line, from the values of its digits. */
  lemma CalibrationOneOf(line: string, vs: seq<nat>)
    requires vs == Values(DigitChars(line)) && vs != []
    ensures CalibrationOne(line) == Ok(vs[0] * 10 + vs[|vs| - 1])
  {
    var ds := DigitChars(line);
    ParseTwoDigits(ds[0], ds[|ds| - 1]);
  }

  /** Part two's value of a line, from the digits its scan finds. */
  lemma CalibrationTwoOf(line: string, vs: seq<nat>)
    requires ScanDigits(line) == Ok(vs) && vs != []
    ensures CalibrationTwo(line) == Ok(vs[0] * 10 + vs[|vs| - 1])
  {
  }

  /** On an ASCII line where no word appears, both parts give the same
      value, or the same panic. */
  lemma PartsAgree(line: string)
    requires Ascii(line) && NoWords(line)
    ensures CalibrationTwo(line) == CalibrationOne(line)
  {
    ScanWithoutWords(line);
    SameDigits(line, Values(DigitChars(line)));
  }

  /** When the scan finds the digits part one keeps, the values agree. */
  lemma SameDigits(line: string, vs: seq<nat>)
    requires ScanDigits(line) == Ok(vs) && vs == Values(DigitChars(line))
    ensures CalibrationTwo(line) == CalibrationOne(line)
  {
    if vs != [] {
      CalibrationOneOf(line, vs);
      CalibrationTwoOf(line, vs);
    }
  }
}
