/** Shared vocabulary of the puzzle solvers: outcomes (a value, or the panic
    the Rust code would raise), decimal digits and numbers, and the handful of
    `str` operations the solvers parse their input with (`trim`, `split`,
    `split_once`, `lines`, `split_whitespace`, `parse`). */
module Common {

  datatype Option<T> = None | Some(value: T)

  /** The outcome of a Rust computation that may panic (`unwrap` on `None`,
      `panic!`, an index out of bounds). */
  datatype Result<T> = Ok(value: T) | Panic(reason: string) {
    predicate IsFailure() { Panic? }
    function PropagateFailure<U>(): Result<U>
      requires Panic?
    {
      Panic(reason)
    }
    function Extract(): T
      requires Ok?
    {
      value
    }
  }

  // ---------------------------------------------------------------------
  // Characters

  predicate IsDigit(c: char) { '0' <= c <= '9' }

  /** `char::is_whitespace`: the Unicode White_Space characters, the
      controls tab to carriage return among them. */
  predicate IsSpace(c: char)
  {
    || c == ' ' || '\t' <= c <= '\r' || c == '\U{85}' || c == '\U{A0}' || c == '\U{1680}'
    || '\U{2000}' <= c <= '\U{200A}' || c == '\U{2028}' || c == '\U{2029}'
    || c == '\U{202F}' || c == '\U{205F}' || c == '\U{3000}'
  }

  predicate AllDigits(s: string) { forall i | 0 <= i < |s| :: IsDigit(s[i]) }

  function DigitValue(c: char): (d: nat)
    requires IsDigit(c)
    ensures d <= 9
  {
    c as int - '0' as int
  }

  function DigitChar(d: nat): (c: char)
    requires d <= 9
    ensures IsDigit(c) && DigitValue(c) == d
  {
    ('0' as int + d) as char
  }

  // ---------------------------------------------------------------------
  // Decimal numbers

  /** The value of a string of decimal digits, most significant first. */
  function DigitsValue(s: string): nat
    requires AllDigits(s)
  {
    if s == [] then 0 else 10 * DigitsValue(s[..|s| - 1]) + DigitValue(s[|s| - 1])
  }

  /** The shortest decimal spelling of `n`. */
  function Decimal(n: nat): (s: string)
    ensures |s| >= 1 && AllDigits(s)
  {
    if n < 10 then [DigitChar(n)] else Decimal(n / 10) + [DigitChar(n % 10)]
  }

  lemma {:induction false} DecimalValue(n: nat)
    ensures DigitsValue(Decimal(n)) == n
  {
    if n >= 10 {
      DecimalValue(n / 10);
      var s := Decimal(n);
      assert s[..|s| - 1] == Decimal(n / 10);
    }
  }

  /** Rust's `str::parse::<u32>()` (width aside): an optional `+`, then one
      or more decimal digits and nothing else. */
  function ParseNat(s: string): (r: Option<nat>)
    ensures r.Some? <==> (|s| >= 1 && AllDigits(s)) || (|s| >= 2 && s[0] == '+' && AllDigits(s[1..]))
  {
    if |s| >= 1 && AllDigits(s) then Some(DigitsValue(s))
    else if |s| >= 2 && s[0] == '+' && AllDigits(s[1..]) then Some(DigitsValue(s[1..]))
    else None
  }

  /** Rust's `str::parse::<i64>()` (width aside): an optional sign, then one
      or more decimal digits and nothing else. */
  function ParseInt(s: string): (r: Option<int>)
    ensures r.Some? <==> ParseNat(s).Some? || (|s| >= 2 && s[0] == '-' && AllDigits(s[1..]))
  {
    if |s| >= 2 && s[0] == '-' && AllDigits(s[1..]) then
      var v: int := 0 - DigitsValue(s[1..]) as int;
      Some(v)
    else match ParseNat(s)
      case Some(n) => Some(n)
      case None => None
  }

  /** The decimal spelling of an integer, with a leading `-` when negative. */
  function IntDecimal(i: int): (s: string)
  {
    if i < 0 then "-" + Decimal(-i) else Decimal(i)
  }

  /** Printing a number and parsing it back gives the number. */
  lemma ParseNatDecimal(n: nat)
    ensures ParseNat(Decimal(n)) == Some(n)
  {
    DecimalValue(n);
  }

  lemma ParseIntDecimal(i: int)
    ensures ParseInt(IntDecimal(i)) == Some(i)
  {
    if i < 0 {
      var s := IntDecimal(i);
      assert s[1..] == Decimal(-i);
      DecimalValue(-i);
    } else {
      DecimalValue(i);
    }
  }

  // ---------------------------------------------------------------------
  // Trimming

  function TrimStart(s: string): (t: string)
    ensures |t| <= |s| && t == s[|s| - |t|..]
    ensures forall i | 0 <= i < |s| - |t| :: IsSpace(s[i])
    ensures t == [] || !IsSpace(t[0])
  {
    if s != [] && IsSpace(s[0]) then TrimStart(s[1..]) else s
  }

  function TrimEnd(s: string): (t: string)
    ensures |t| <= |s| && t == s[..|t|]
    ensures forall i | |t| <= i < |s| :: IsSpace(s[i])
    ensures t == [] || !IsSpace(t[|t| - 1])
  {
    if s != [] && IsSpace(s[|s| - 1]) then TrimEnd(s[..|s| - 1]) else s
  }

  /** `str::trim`. */
  function Trim(s: string): string
  {
    TrimEnd(TrimStart(s))
  }

  // ---------------------------------------------------------------------
  // Splitting on a separator

  predicate OccursAt(s: string, sep: string, k: int)
  {
    0 <= k && k + |sep| <= |s| && s[k..k + |sep|] == sep
  }

  /** Position of the first occurrence of `sep` in `s`. */
  function Find(s: string, sep: string): (r: Option<nat>)
    requires |sep| > 0
    ensures r.Some? ==> OccursAt(s, sep, r.value) && forall j | 0 <= j < r.value :: !OccursAt(s, sep, j)
    ensures r.None? ==> forall j | 0 <= j <= |s| :: !OccursAt(s, sep, j)
  {
    FindFrom(s, sep, 0)
  }

  function FindFrom(s: string, sep: string, i: nat): (r: Option<nat>)
    requires |sep| > 0
    ensures r.Some? ==> i <= r.value && OccursAt(s, sep, r.value) && forall j | i <= j < r.value :: !OccursAt(s, sep, j)
    ensures r.None? ==> forall j | i <= j <= |s| :: !OccursAt(s, sep, j)
    decreases |s| - i
  {
    if i + |sep| > |s| then None
    else if s[i..i + |sep|] == sep then Some(i)
    else FindFrom(s, sep, i + 1)
  }

  /** `str::split_once(sep)`: the text before and after the first `sep`. */
  function SplitOnce(s: string, sep: string): (r: Option<(string, string)>)
    requires |sep| > 0
    ensures r.None? <==> Find(s, sep).None?
    ensures r.Some? ==> s == r.value.0 + sep + r.value.1 && |r.value.0| == Find(s, sep).value
  {
    match Find(s, sep)
    case None => None
    case Some(k) =>
      assert s == s[..k] + sep + s[k + |sep|..] by {
        assert s[k..k + |sep|] == sep;
      }
      Some((s[..k], s[k + |sep|..]))
  }

  /** `str::split(sep)`: the pieces between successive occurrences of `sep`,
      scanning left to right; there is always at least one piece. */
  function Split(s: string, sep: string): (parts: seq<string>)
    requires |sep| > 0
    ensures |parts| >= 1
    decreases |s|
  {
    match Find(s, sep)
    case None => [s]
    case Some(k) => [s[..k]] + Split(s[k + |sep|..], sep)
  }

  /** `join(sep)`: the pieces with `sep` between neighbours. */
  function Join(parts: seq<string>, sep: string): string
  {
    if |parts| == 0 then ""
    else if |parts| == 1 then parts[0]
    else parts[0] + sep + Join(parts[1..], sep)
  }

  /** Joining what was split gives back the text. */
  lemma {:induction false} JoinSplit(s: string, sep: string)
    requires |sep| > 0
    ensures Join(Split(s, sep), sep) == s
    decreases |s|
  {
    var f := Find(s, sep);
    if f.Some? {
      var k := f.value;
      var rest := s[k + |sep|..];
      var tail := Split(rest, sep);
      JoinSplit(rest, sep);
      assert Split(s, sep) == [s[..k]] + tail;
      assert Join([s[..k]] + tail, sep) == s[..k] + sep + Join(tail, sep) by {
        assert ([s[..k]] + tail)[1..] == tail;
      }
      assert s == s[..k] + s[k..k + |sep|] + rest;
    }
  }

  /** Splitting on a one-character separator that none of the pieces contains
      gives back the pieces. */
  lemma {:induction false} SplitJoin(parts: seq<string>, c: char)
    requires |parts| >= 1
    requires forall i | 0 <= i < |parts| :: c !in parts[i]
    ensures Split(Join(parts, [c]), [c]) == parts
  {
    var s := Join(parts, [c]);
    if |parts| == 1 {
      FindAbsent(s, c);
    } else {
      var p := parts[0];
      var rest := Join(parts[1..], [c]);
      assert s == p + [c] + rest;
      assert OccursAt(s, [c], |p|) by { assert s[|p|..|p| + 1] == [c]; }
      var f := Find(s, [c]);
      FindCharAfter(p, c, rest);
      assert s[|p| + 1..] == rest;
      assert s[..|p|] == p;
      SplitJoin(parts[1..], c);
    }
  }

  lemma FindAbsent(s: string, c: char)
    requires c !in s
    ensures forall j | 0 <= j <= |s| :: !OccursAt(s, [c], j)
  {
    forall j | 0 <= j <= |s| ensures !OccursAt(s, [c], j) {
      if j < |s| {
        assert s[j..j + 1] == [s[j]];
      }
    }
  }

  /** A character that does not occur in `p` is first found right after `p`. */
  lemma FindCharAfter(p: string, c: char, rest: string)
    requires c !in p
    ensures Find(p + [c] + rest, [c]) == Some(|p|)
  {
    var s := p + [c] + rest;
    assert s[|p|..|p| + 1] == [c];
    assert OccursAt(s, [c], |p|);
    forall j | 0 <= j < |p| ensures !OccursAt(s, [c], j) {
      assert s[j..j + 1] == [p[j]];
    }
    var r := Find(s, [c]);
    assert r.Some?;
    assert !(r.value < |p|);
    assert !(|p| < r.value);
  }

  /** A separator whose first character does not occur in `p` is first
      found right after `p`. */
  lemma FindAfter(p: string, sep: string, rest: string)
    requires |sep| > 0 && sep[0] !in p
    ensures Find(p + sep + rest, sep) == Some(|p|)
  {
    var s := p + sep + rest;
    assert s[|p|..|p| + |sep|] == sep;
    assert OccursAt(s, sep, |p|);
    forall j | 0 <= j < |p| ensures !OccursAt(s, sep, j) {
      assert s[j] == p[j];
    }
    var r := Find(s, sep);
    assert !(r.value < |p|);
    assert !(|p| < r.value);
  }

  /** Splitting once at such a separator gives back both sides. */
  lemma SplitOnceAfter(p: string, sep: string, rest: string)
    requires |sep| > 0 && sep[0] !in p
    ensures SplitOnce(p + sep + rest, sep) == Some((p, rest))
  {
    FindAfter(p, sep, rest);
    var r := SplitOnce(p + sep + rest, sep).value;
    assert r.0 == (p + sep + rest)[..|p|] == p;
    assert r.1 == (p + sep + rest)[|p| + |sep|..] == rest;
  }

  /** `input.trim().split('\n')`: every line of the trimmed text, an empty
      one included. */
  function SplitLines(input: string): (ls: seq<string>)
    ensures |ls| >= 1
  {
    Split(Trim(input), "\n")
  }

  /** The `'\r'` of a `"\r\n"` line ending, dropped when present. */
  function StripCr(piece: string): (line: string)
    ensures piece == line || piece == line + ['\r']
  {
    if piece != [] && piece[|piece| - 1] == '\r' then piece[..|piece| - 1] else piece
  }

  /** `str::lines`: the text split at newlines, where a final empty line
      (the text ends with a newline, or is empty) is not a line, and a line
      ended by `"\r\n"` loses its `'\r'` as well. A last line that no
      newline ends keeps a final `'\r'`. */
  function Lines(s: string): (ls: seq<string>)
    ensures forall i | 0 <= i < |ls| :: '\n' !in ls[i]
  {
    var parts := Split(s, "\n");
    SplitPiecesAvoid(s, '\n');
    var ended := seq(|parts| - 1, i requires 0 <= i < |parts| - 1 => StripCr(parts[i]));
    if parts[|parts| - 1] == "" then ended else ended + [parts[|parts| - 1]]
  }

  /** Line `i` is piece `i` between the newlines, less the `'\r'` of a
      `"\r\n"` ending. */
  lemma LinesOfPieces(s: string)
    ensures var parts := Split(s, "\n");
      && |Lines(s)| == (if parts[|parts| - 1] == "" then |parts| - 1 else |parts|)
      && (forall i | 0 <= i < |parts| - 1 :: Lines(s)[i] == StripCr(parts[i]))
      && (parts[|parts| - 1] != "" ==> Lines(s)[|parts| - 1] == parts[|parts| - 1])
  {
  }

  /** Lines written out with a newline after each but the last are read
      back as the same lines. */
  lemma {:induction false} LinesJoin(ls: seq<string>)
    requires |ls| >= 1 && ls[|ls| - 1] != ""
    requires forall i | 0 <= i < |ls| :: '\n' !in ls[i] && (ls[i] == [] || ls[i][|ls[i]| - 1] != '\r')
    ensures Lines(Join(ls, "\n")) == ls
  {
    var text := Join(ls, "\n");
    SplitJoin(ls, '\n');
    assert Split(text, "\n") == ls;
    LinesOfPieces(text);
    var lines := Lines(text);
    forall i | 0 <= i < |ls| ensures lines[i] == ls[i] {
      if i < |ls| - 1 {
        assert StripCr(ls[i]) == ls[i];
      }
    }
  }

  /** The same lines written with `"\r\n"` endings are read back alike. */
  lemma {:induction false} LinesJoinCrlf(ls: seq<string>)
    requires |ls| >= 1 && ls[|ls| - 1] != ""
    requires forall i | 0 <= i < |ls| :: '\n' !in ls[i]
    ensures Lines(Join(ls, "\r\n")) == ls
  {
    var text := Join(ls, "\r\n");
    var pieces := CrEnded(ls);
    JoinCrlf(ls);
    CrEndedSplit(ls);
    LinesOfSplit(text, pieces);
    var lines := Lines(text);
    forall i | 0 <= i < |ls| - 1 ensures lines[i] == ls[i] {
      StripCrAdded(ls[i]);
    }
  }

  lemma {:induction false} LinesOfSplit(text: string, pieces: seq<string>)
    requires Split(text, "\n") == pieces && pieces[|pieces| - 1] != ""
    ensures |Lines(text)| == |pieces| && Lines(text)[|pieces| - 1] == pieces[|pieces| - 1]
    ensures forall i | 0 <= i < |pieces| - 1 :: Lines(text)[i] == StripCr(pieces[i])
  {
    LinesOfPieces(text);
  }

  lemma StripCrAdded(line: string)
    ensures StripCr(line + ['\r']) == line
  {
    assert (line + ['\r'])[..|line|] == line;
  }

  lemma {:induction false} CrEndedSplit(ls: seq<string>)
    requires |ls| >= 1 && forall i | 0 <= i < |ls| :: '\n' !in ls[i]
    ensures Split(Join(CrEnded(ls), "\n"), "\n") == CrEnded(ls)
  {
    CrEndedAvoids(ls);
    SplitJoin(CrEnded(ls), '\n');
  }

  /** The pieces between the newlines of `"\r\n"`-ended lines. */
  function CrEnded(ls: seq<string>): (pieces: seq<string>)
    requires |ls| >= 1
    ensures |pieces| == |ls| && pieces[|ls| - 1] == ls[|ls| - 1]
    ensures forall i | 0 <= i < |ls| - 1 :: pieces[i] == ls[i] + ['\r']
  {
    seq(|ls| - 1, i requires 0 <= i < |ls| - 1 => ls[i] + ['\r']) + [ls[|ls| - 1]]
  }

  lemma {:induction false} CrEndedAvoids(ls: seq<string>)
    requires |ls| >= 1 && forall i | 0 <= i < |ls| :: '\n' !in ls[i]
    ensures forall i | 0 <= i < |ls| :: '\n' !in CrEnded(ls)[i]
  {
    var pieces := CrEnded(ls);
    forall i | 0 <= i < |ls| ensures '\n' !in pieces[i] {
      if i < |ls| - 1 {
        assert pieces[i] == ls[i] + ['\r'];
      }
    }
  }

  lemma {:induction false} JoinCrlf(ls: seq<string>)
    requires |ls| >= 1
    ensures Join(ls, "\r\n") == Join(CrEnded(ls), "\n")
  {
    var pieces := CrEnded(ls);
    if |ls| > 1 {
      JoinCrlf(ls[1..]);
      assert pieces[1..] == CrEnded(ls[1..]);
      assert Join(ls, "\r\n") == ls[0] + "\r\n" + Join(ls[1..], "\r\n");
      assert Join(pieces, "\n") == pieces[0] + "\n" + Join(pieces[1..], "\n");
      assert ls[0] + "\r\n" == ls[0] + ['\r'] + "\n";
    }
  }

  lemma {:induction false} SplitPiecesAvoid(s: string, c: char)
    ensures forall i | 0 <= i < |Split(s, [c])| :: c !in Split(s, [c])[i]
    decreases |s|
  {
    var parts := Split(s, [c]);
    match Find(s, [c])
    case None =>
      forall j | 0 <= j < |s| ensures s[j] != c {
        assert !OccursAt(s, [c], j);
        assert s[j..j + 1] == [s[j]];
      }
    case Some(k) =>
      SplitPiecesAvoid(s[k + 1..], c);
      forall j | 0 <= j < k ensures s[j] != c {
        assert !OccursAt(s, [c], j);
        assert s[j..j + 1] == [s[j]];
      }
  }

  // ---------------------------------------------------------------------
  // Words

  /** Length of the leading run of non-whitespace characters. */
  function WordLength(s: string): (n: nat)
    ensures n <= |s|
    ensures forall i | 0 <= i < n :: !IsSpace(s[i])
    ensures n == |s| || IsSpace(s[n])
  {
    if s == [] || IsSpace(s[0]) then 0 else 1 + WordLength(s[1..])
  }

  /** `str::split_whitespace`: the maximal runs of non-whitespace characters. */
  function Words(s: string): (ws: seq<string>)
    ensures forall i | 0 <= i < |ws| :: |ws[i]| > 0 && forall j | 0 <= j < |ws[i]| :: !IsSpace(ws[i][j])
    decreases |s|
  {
    if s == [] then []
    else if IsSpace(s[0]) then Words(s[1..])
    else
      var n := WordLength(s);
      [s[..n]] + Words(s[n..])
  }

  /** Words written out with single spaces between them are read back as
      the same words. */
  lemma {:induction false} WordsJoin(ws: seq<string>)
    requires forall i | 0 <= i < |ws| :: |ws[i]| > 0 && forall j | 0 <= j < |ws[i]| :: !IsSpace(ws[i][j])
    ensures Words(Join(ws, " ")) == ws
  {
    if |ws| == 1 {
      var w := ws[0];
      WordLengthAll(w);
      assert w[..|w|] == w;
      assert w[|w|..] == [];
      assert Words(w) == [w] + Words([]);
    } else if |ws| > 1 {
      assert Join(ws, " ") == ws[0] + " " + Join(ws[1..], " ");
      WordsAfterWord(ws[0], Join(ws[1..], " "));
      WordsJoin(ws[1..]);
    }
  }

  /** A word followed by a space is read as that word, then the rest. */
  lemma {:induction false} WordsAfterWord(w: string, rest: string)
    requires |w| > 0 && forall j | 0 <= j < |w| :: !IsSpace(w[j])
    ensures Words(w + " " + rest) == [w] + Words(rest)
  {
    var s := w + " " + rest;
    WordLengthPrefix(w, " " + rest);
    assert s == w + (" " + rest);
    assert s[..|w|] == w;
    assert s[|w|..] == " " + rest;
    assert (" " + rest)[1..] == rest;
  }

  lemma {:induction false} WordLengthAll(w: string)
    requires forall j | 0 <= j < |w| :: !IsSpace(w[j])
    ensures WordLength(w) == |w|
  {
    if w != [] {
      WordLengthAll(w[1..]);
    }
  }

  lemma {:induction false} WordLengthPrefix(w: string, t: string)
    requires forall j | 0 <= j < |w| :: !IsSpace(w[j])
    requires t != [] && IsSpace(t[0])
    ensures WordLength(w + t) == |w|
  {
    if w != [] {
      assert (w + t)[1..] == w[1..] + t;
      WordLengthPrefix(w[1..], t);
    } else {
      assert w + t == t;
    }
  }

  // ---------------------------------------------------------------------
  // Sums

  function Sum(xs: seq<int>): int
  {
    if xs == [] then 0 else Sum(xs[..|xs| - 1]) + xs[|xs| - 1]
  }

  function Product(xs: seq<int>): int
  {
    if xs == [] then 1 else Product(xs[..|xs| - 1]) * xs[|xs| - 1]
  }

  /** A sum of non-negative terms is non-negative. */
  lemma {:induction false} SumNonNeg(xs: seq<int>)
    requires forall i | 0 <= i < |xs| :: xs[i] >= 0
    ensures Sum(xs) >= 0
  {
    if xs != [] {
      SumNonNeg(xs[..|xs| - 1]);
    }
  }

  // ---------------------------------------------------------------------
  // Collecting results

  /** `.map(f).collect::<Result<Vec<_>>>()` and, equally, a `map` whose
      closure unwraps: every value when every call succeeds, otherwise the
      first panic. */
  function AllOk<A, B>(xs: seq<A>, f: A -> Result<B>): (r: Result<seq<B>>)
    ensures r.Ok? ==> |r.value| == |xs| && forall k | 0 <= k < |xs| :: f(xs[k]) == Ok(r.value[k])
    ensures r.Panic? <==> exists k | 0 <= k < |xs| :: f(xs[k]).Panic?
  {
    if xs == [] then Ok([])
    else
      var front := AllOk(xs[..|xs| - 1], f);
      var last := f(xs[|xs| - 1]);
      if front.Panic? then
        var k :| 0 <= k < |xs| - 1 && f(xs[..|xs| - 1][k]).Panic?;
        assert xs[..|xs| - 1][k] == xs[k];
        front.PropagateFailure()
      else if last.Panic? then last.PropagateFailure()
      else
        assert forall k | 0 <= k < |xs| - 1 :: xs[..|xs| - 1][k] == xs[k];
        Ok(front.value + [last.value])
  }

  /** Collecting one element more: its value joins the others. */
  lemma AllOkStep<A, B>(xs: seq<A>, i: nat, f: A -> Result<B>)
    requires i < |xs| && AllOk(xs[..i], f).Ok? && f(xs[i]).Ok?
    ensures AllOk(xs[..i + 1], f) == Ok(AllOk(xs[..i], f).value + [f(xs[i]).value])
  {
    assert xs[..i + 1][..i] == xs[..i];
  }

  /** When every element gives a value, those values are collected. */
  lemma {:induction false} AllOkValues<A, B>(xs: seq<A>, ys: seq<B>, f: A -> Result<B>)
    requires |xs| == |ys| && forall i | 0 <= i < |xs| :: f(xs[i]) == Ok(ys[i])
    ensures AllOk(xs, f) == Ok(ys)
  {
    if xs != [] {
      var n := |xs| - 1;
      assert forall i | 0 <= i < n :: xs[..n][i] == xs[i] && ys[..n][i] == ys[i];
      AllOkValues(xs[..n], ys[..n], f);
      assert ys[..n] + [ys[n]] == ys;
    }
  }

  /** The panic of a collection is that of its first element that panics. */
  lemma {:induction false} AllOkFirstPanic<A, B>(xs: seq<A>, i: nat, f: A -> Result<B>)
    requires i < |xs| && f(xs[i]).Panic?
    requires forall j | 0 <= j < i :: f(xs[j]).Ok?
    ensures AllOk(xs, f) == Panic(f(xs[i]).reason)
    decreases |xs|
  {
    var front := xs[..|xs| - 1];
    if i == |xs| - 1 {
      assert forall j | 0 <= j < |front| :: front[j] == xs[j];
    } else {
      assert front[i] == xs[i];
      assert forall j | 0 <= j < i :: front[j] == xs[j];
      AllOkFirstPanic(front, i, f);
    }
  }

  /** The same, once the elements before it are known to be collected. */
  lemma AllOkPrefixPanic<A, B>(xs: seq<A>, i: nat, f: A -> Result<B>)
    requires i < |xs| && AllOk(xs[..i], f).Ok? && f(xs[i]).Panic?
    ensures AllOk(xs, f) == Panic(f(xs[i]).reason)
  {
    assert forall j | 0 <= j < i :: xs[..i][j] == xs[j];
    AllOkFirstPanic(xs, i, f);
  }

  const UnwrapNone := "called `Option::unwrap()` on a `None` value"
  const UnwrapErr := "called `Result::unwrap()` on an `Err` value"

  /** `str::parse::<u32>().unwrap()`: numbers past `u32::MAX` do not parse. */
  function ParseU32(s: string): (r: Result<nat>)
    ensures r.Ok? <==> ParseNat(s).Some? && ParseNat(s).value < 0x1_0000_0000
    ensures r.Ok? ==> r.value == ParseNat(s).value
  {
    match ParseNat(s)
    case Some(n) => if n < 0x1_0000_0000 then Ok(n) else Panic(UnwrapErr)
    case None => Panic(UnwrapErr)
  }

  /** `str::parse::<usize>().unwrap()` on a piece (the width of `usize`
      aside). */
  function ParseUsize(s: string): (r: Result<nat>)
    ensures r.Ok? <==> ParseNat(s).Some?
    ensures r.Ok? ==> r.value == ParseNat(s).value
  {
    match ParseNat(s)
    case Some(n) => Ok(n)
    case None => Panic(UnwrapErr)
  }
}
