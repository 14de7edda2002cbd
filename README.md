# Advent of Code 2023, days 1 to 16, in Dafny

A model of the puzzle solvers of an Advent of Code 2023 repository written in Rust: the shared grid helpers of `src/lib.rs` and the sixteen solvers `src/bin/01.rs` to `src/bin/16.rs`, with proofs of what each one computes.

Each source file has its own module:

- `common.dfy` (`Common`): the string and number helpers from the Rust standard library that the solvers call, with `Result`/`Option` values standing for panics: `str::parse`, `trim`, `split`, `split_once`, `lines`, `split_whitespace`, and collecting an iterator of results.
- `nom.dfy` (`Nom`): the few `nom` combinators that days 5 and 6 use, on the grammar those days read.
- `lib_grid.dfy` (`SharedGrid`): `src/lib.rs`, that is the generic `Grid<T>` with bounds-checked access, its two constructors, and `Point` addition.
- `day01.dfy` to `day16.dfy` (`Day01` … `Day16`): one solver each. Day 14 is split in two. `day14_spec.dfy` (`Day14Spec`) holds the platform as a value, and `day14.dfy` (`Day14`) holds the in-place `Platform` class proved to compute it. The modules `Day10Findings` (`day10_findings.dfy`) and `Day14Findings` (in `day14.dfy`) hold the findings below.

The model follows each file's own form:

- Pure code is written as functions and lemmas.
- Code that updates things step by step is written as methods with loops and invariants. Examples: the platform tilting of day 14, the lens boxes of day 15, the beam queue of day 16, the pipe walk and scan line of day 10, the card copies of day 4, the difference rows of day 9, and the part-number state machine of day 3.
- Every such method is proved to compute a specification function, and the puzzle's promises are proved about that function.
- A panic (`unwrap` of `None`, `panic!`, an index out of bounds, a failed parse) is a `Panic` result, never a precondition. One exception: `SharedGrid.Grid.Get` and `SharedGrid.Grid.Set` require a well-formed grid (`Valid`), which stands for the index panic of `self.grid[y][x]` on a row shorter than the width; their one caller, day 16, panics on such rows up front (see `Day16.Contraption` under "Left out").
- Parts one and two of each day return `Result` values, and their contracts say exactly when they panic.

## Model

| member | source | states |
|---|---|---|
| Common.ParseNat | src/bin/02.rs:27 | `str::parse` of an unsigned number succeeds exactly on a non-empty run of decimal digits, optionally after one `+` |
| Common.ParseInt | src/bin/09.rs:28 | `str::parse::<i64>` additionally accepts one leading `-` before the digits, and nothing else |
| Common.ParseNatDecimal | src/bin/02.rs:27 | parsing the decimal text of a number gives that number back |
| Common.ParseIntDecimal | src/bin/09.rs:28 | parsing the signed decimal text of an integer gives that integer back |
| Common.DecimalValue | src/bin/01.rs:13-15 | the digits written for a number have that number as their value |
| Common.TrimStart | src/bin/01.rs:6 | `trim` drops exactly the leading whitespace: what remains is a suffix that starts with a non-space (whitespace as `char::is_whitespace` has it: the Unicode White_Space characters, vertical tab and form feed included) |
| Common.TrimEnd | src/bin/01.rs:6 | `trim` drops exactly the trailing whitespace: what remains is a prefix that ends with a non-space (whitespace as `char::is_whitespace` has it: the Unicode White_Space characters, vertical tab and form feed included) |
| Common.Find | src/bin/02.rs:48 | the index found is the first place the separator occurs; none is found only when it occurs nowhere |
| Common.SplitOnce | src/bin/02.rs:48 | `split_once` fails exactly when the separator is absent, and otherwise cuts the text at its first occurrence so that the halves and the separator rebuild it |
| Common.SplitOnceAfter | src/bin/02.rs:48 | a text built as head, separator, rest (the head free of the separator's first character) splits back into that head and rest |
| Common.Split | src/bin/01.rs:7 | `split` always yields at least one piece |
| Common.JoinSplit | src/bin/01.rs:7 | joining the pieces of `split` with the separator gives the text back |
| Common.SplitJoin | src/bin/15.rs:76 | splitting pieces joined by a character they do not contain gives the pieces back |
| Common.SplitPiecesAvoid | src/bin/15.rs:76 | no piece of `split` contains the separator |
| Common.StripCr | src/bin/04.rs:15 | a line ended by "\r\n" loses exactly one '\r', and only a '\r' |
| Common.Lines | src/bin/04.rs:15 | no line of `lines` contains a newline |
| Common.LinesOfPieces | src/bin/04.rs:15 | line i is the i-th piece between newlines less the '\r' of a "\r\n" ending; a final empty piece is not a line |
| Common.LinesJoin | src/bin/04.rs:15 | lines written with a newline after each but the last (none ending in '\r', the last non-empty) are read back unchanged |
| Common.LinesJoinCrlf | src/bin/04.rs:15 | the same lines written with "\r\n" endings are read back unchanged: `lines` strips the '\r' |
| Common.WordLength | src/bin/04.rs:9 | the first word of a text is its longest prefix of non-space characters (whitespace as `char::is_whitespace` has it: the Unicode White_Space characters, vertical tab and form feed included) |
| Common.Words | src/bin/04.rs:9 | `split_whitespace` yields only non-empty words free of whitespace (whitespace as `char::is_whitespace` has it: the Unicode White_Space characters, vertical tab and form feed included) |
| Common.WordsJoin | src/bin/04.rs:9 | words joined by single spaces are split back into the same words |
| Common.WordsAfterWord | src/bin/04.rs:9 | a word followed by a space is read as that word, then the words of the rest |
| Common.AllOk | src/bin/09.rs:24-31 | collecting results of a fallible map panics exactly when some element's map panics; otherwise it holds each element's value in order |
| Common.AllOkFirstPanic | src/bin/09.rs:24-31 | the panic reported is the first element's that panics |
| Common.ParseU32 | src/bin/04.rs:10 | `parse::<u32>` succeeds exactly on digit text whose value is below 2^32, with that value |
| Common.ParseUsize | src/bin/12.rs:112 | `parse::<usize>` succeeds exactly on digit text, with its value (the width of usize is not modelled) |
| Nom.LeadingSpec | src/bin/05.rs:56 | the prefix a character-class parser takes is all of that class and is followed by no further character of the class |
| Nom.LeadingRun | src/bin/05.rs:56 | a run of the class followed by a character outside it is taken whole |
| Nom.Digit1 | src/bin/05.rs:67 | nom's `digit1` (mapped to a number) succeeds exactly when the input starts with a digit |
| Nom.Digit1Text | src/bin/06.rs:39 | `digit1` splits off a non-empty prefix of digits, leaves the rest, and the numeric parser reads the value of that prefix |
| Nom.Digit1Digits | src/bin/05.rs:67 | digits followed by a non-digit parse to their value and leave exactly the rest |
| Nom.Digit1Decimal | src/bin/05.rs:67 | the decimal text of a number parses back to that number |
| Nom.Space1 | src/bin/05.rs:67 | `space1` either fails or consumes at least one character |
| Nom.Multispace0 | src/bin/05.rs:56 | `multispace0` drops a suffix-preserving prefix made only of space, tab, carriage return and newline, and stops at the first character outside those four |
| Nom.Multispace1 | src/bin/05.rs:72-74 | `multispace1` fails exactly when the input is empty or starts outside space, tab, carriage return and newline, and otherwise skips what `multispace0` skips |
| SharedGrid.AddAssign | src/lib.rs:95-100 | bumping a point's two coordinates in place gives the sum of the two points, and adding the negated offset undoes it |
| SharedGrid.AddLaws | src/lib.rs:84-93 | point addition is commutative and associative with the origin as unit |
| SharedGrid.Grid.Get | src/lib.rs:25-35 | `get` returns a cell exactly for positions inside width and height, and then the cell at that row and column |
| SharedGrid.Grid.Set | src/lib.rs:37-47 | writing through `get_mut` changes only the cell at an in-bounds position and keeps the grid's shape |
| SharedGrid.GridOfLines | src/lib.rs:50-60 | `parse_to_vec_vec_grid` panics exactly on an input with no lines; otherwise height is the number of lines, width the first line's length, and each cell is the mapped character |
| SharedGrid.GridOfLinesValid | src/lib.rs:50-60 | the parsed grid can be indexed without panicking exactly when no line is shorter than the first |
| SharedGrid.GridWithDefault | src/lib.rs:62-70 | `vec_vec_grid_with_type` builds a rectangular width-by-height grid whose every cell is the default value |
| Day01.DigitChars | src/bin/01.rs:9-12 | the digits kept from a line are all digits and no more than the line's characters |
| Day01.DigitCharsEmpty | src/bin/01.rs:9-12 | no digit is kept exactly when the line holds no digit |
| Day01.DigitCharsFirst | src/bin/01.rs:13 | the first digit kept is the line's leftmost digit |
| Day01.DigitCharsLast | src/bin/01.rs:13 | the last digit kept is the line's rightmost digit |
| Day01.ParseTwoDigits | src/bin/01.rs:13-15 | the two-character text formatted from two digits parses to ten times the first plus the second |
| Day01.CalibrationOne | src/bin/01.rs:9-16 | a line's calibration value exists exactly when the line has a digit (the `unwrap` on `first()` panics otherwise) and is at most 99 |
| Day01.CalibrationOneSpec | src/bin/01.rs:9-16 | the value is ten times the leftmost digit plus the rightmost digit of the line |
| Day01.FirstDigit | src/bin/01.rs:13 | a line with a digit has a leftmost digit |
| Day01.LastDigit | src/bin/01.rs:13 | a line with a digit has a rightmost digit |
| Day01.PartOneSpec | src/bin/01.rs:4-21 | part one succeeds exactly when every line of the trimmed input has a digit, and its sum is at most 99 per line |
| Day01.WordFrom | src/bin/01.rs:24-37 | the search over the nine digit words returns a word that starts the text, and returns none only when no remaining word does |
| Day01.WordsExclusive | src/bin/01.rs:47 | no two digit words can both start the same text, so the filter keeps at most one key |
| Day01.WordAtUnique | src/bin/01.rs:47-49 | whenever a digit word starts the text it is the one found, whatever order the `HashMap` yields its keys in |
| Day01.Found | src/bin/01.rs:43-50 | each position contributes at most one digit, and it is at most 9 |
| Day01.ScanDigits | src/bin/01.rs:42-53 | every digit collected by the scan is at most 9 |
| Day01.ScanStep | src/bin/01.rs:42-53 | one turn of the loop appends what the current position contributes and moves past one character |
| Day01.LineDigits | src/bin/01.rs:40-53 | the loop collects exactly the digits the scan specification finds, and panics as slicing past a non-ASCII first character does |
| Day01.CalibrationTwo | src/bin/01.rs:54 | a line's value in part two is at most 99 |
| Day01.LineValue | src/bin/01.rs:39-55 | the per-line closure returns the first digit found times ten plus the last, and panics on a line where none is found |
| Day01.PartTwo | src/bin/01.rs:23-58 | part two sums the per-line values of the trimmed input's lines, panicking when any line panics |
| Day01.ScanAt | src/bin/01.rs:42-53 | the digits of a line are those found before a position followed by those found from it on |
| Day01.FoundWord | src/bin/01.rs:47-49 | a position where a digit word starts contributes that word's value |
| Day01.Overlapping | src/bin/01.rs:42-53 | overlapping words ("oneight") both count: the scan moves one character at a time, so a word starting inside another is found after it |
| Day01.ScanWithoutWords | src/bin/01.rs:42-53 | on an ASCII line without digit words, part two's scan finds exactly part one's digits |
| Day01.PartsAgree | src/bin/01.rs:9-16 | on an ASCII line containing no digit word, part two's calibration value equals part one's |
| Day02.TrimAll | src/bin/02.rs:21 | each piece of the round is trimmed, in order |
| Day02.TallyStep | src/bin/02.rs:24-39 | adding one item raises only the count of its own colour, by its number |
| Day02.AddItems | src/bin/02.rs:23-40 | the loop over the items of a round gives the per-colour totals of the round's specification, and panics as the unknown colour, the missing space or a bad number does |
| Day02.CubesFrom | src/bin/02.rs:19-42 | `CubeCollection::from` splits the round on commas, trims each item and tallies it |
| Day02.CountedAppend | src/bin/02.rs:24-39 | a colour's tally over two lists of items is the sum of its tallies over each |
| Day02.CountedAbsent | src/bin/02.rs:24-39 | a colour named by no item has a tally of 0 |
| Day02.UnknownColour | src/bin/02.rs:36 | an item whose colour word is not red, green or blue makes the round panic with "wtf" once the items before it are good |
| Day02.GameFromSpec | src/bin/02.rs:45-58 | `Game::from` panics without a ':'; when it succeeds the id is the number after the first space of the header and there is one round per ';'-separated piece, each tallied by `CubeCollection::from` |
| Day02.IdIfPossible | src/bin/02.rs:65-72 | a game contributes its id exactly when no round shows more than 12 red, 13 green or 14 blue cubes (or the id is 0), and otherwise 0 |
| Day02.PartOne | src/bin/02.rs:60-75 | part one succeeds exactly when every line parses as a game, and then is the sum of the ids of the possible games |
| Day02.IdSumBounds | src/bin/02.rs:60-75 | the sum of the possible ids is at most the sum of all ids, and equals it when no round exceeds the limits |
| Day02.MostSpec | src/bin/02.rs:83-87 | the running maximum of a colour is at least that colour's count in every round and is attained by one of them (or is 0) |
| Day02.MostStep | src/bin/02.rs:84-86 | one more round raises the maximum to that round's count if it is larger |
| Day02.Power | src/bin/02.rs:81-89 | the loop computes the product of the three per-colour maxima |
| Day02.FewestIsLeast | src/bin/02.rs:81-87 | the per-colour maxima are the fewest cubes that make the game possible: any bag that holds every round has at least as many of each colour |
| Day02.PowerZero | src/bin/02.rs:89 | a game's power is 0 exactly when some colour is never shown |
| Day02.PowerTotal | src/bin/02.rs:78-92 | the sum over the games is the sum of their powers |
| Day02.PartTwo | src/bin/02.rs:77-95 | part two succeeds exactly when every line parses as a game, and then is the sum of the games' powers |
| Day03.RunStart | src/bin/03.rs:77-84 | the column where the run of digits through a given column starts: every column from it on is a digit and the one before it is not |
| Day03.RunStartOfRun | src/bin/03.rs:77-84 | any column after a run's start, still inside the run, leads back to that start |
| Day03.ClosedSound | src/bin/03.rs:85-92 | every part number closed by a non-digit is a whole maximal run of digits on its row, its value is the value of those digits, and the parts are in left-to-right order without overlap |
| Day03.ClosedComplete | src/bin/03.rs:85-92 | every maximal run of digits followed by a non-digit becomes a part number |
| Day03.RowStep | src/bin/03.rs:93 | recording one more character adds exactly its position and character to the map |
| Day03.StartRun | src/bin/03.rs:78-82 | a digit after a non-digit opens a run at its column |
| Day03.ContinueRun | src/bin/03.rs:83-84 | a digit inside a run extends the digits collected |
| Day03.CloseRun | src/bin/03.rs:85-92 | a non-digit after a run closes it: the part ends one column to the left and holds the digits' value |
| Day03.Idle | src/bin/03.rs:77-95 | a non-digit outside a run changes nothing but the map |
| Day03.EndRow | src/bin/03.rs:96-101 | corrected: a run still open at the end of the row ends at the row's last column (the corrected end, see Findings) |
| Day03.ScanLine | src/bin/03.rs:69-101 | corrected: the loop over a row records every character at its position, appends exactly the row's part numbers, and raises `maxx` to the row's last column |
| Day03.CellsStep | src/bin/03.rs:68-102 | after each row the map holds exactly the characters of the rows read so far |
| Day03.CellsUnique | src/bin/03.rs:68-102 | the rows determine the character map completely: any two maps holding exactly the rows' characters are equal |
| Day03.ExtractPartsAndMap | src/bin/03.rs:63-104 | corrected: the map holds every character of the input at its (column, row) and nothing else, and the parts are the runs of every row in reading order |
| Day03.CheckVicinity | src/bin/03.rs:13-24 | a part's value is returned exactly when some cell of the box around it (one cell wider on each side) holds a character that is neither a digit nor '.' |
| Day03.NearStep | src/bin/03.rs:29-34 | one more part adds its value to the sum exactly when it is next to a symbol |
| Day03.PartOne | src/bin/03.rs:26-36 | corrected: part one is the sum of the values of the part numbers next to a symbol, measured against any map holding exactly the schematic's characters |
| Day03.AdjacentValues | src/bin/03.rs:47-55 | at most one value per part is collected |
| Day03.AdjacentValuesSpec | src/bin/03.rs:47-55 | a value is collected exactly when some part within one row and one column of the gear has it |
| Day03.CollectAdjacent | src/bin/03.rs:47-55 | the inner loop collects the values of the parts adjacent to a position, in order |
| Day03.GearPartIsNear | src/bin/03.rs:13-24 | a part adjacent to a '*' is next to a symbol, so every gear part also counts in part one |
| Day03.GearStep | src/bin/03.rs:42-59 | one more map entry adds the product of its two adjacent values exactly when it is a '*' with exactly two of them |
| Day03.PartTwo | src/bin/03.rs:38-61 | corrected: part two is the sum over the map's entries, in the map's own order, of the gear ratios of the '*' cells with exactly two adjacent parts; for any map of the schematic's characters some enumeration of it gives that sum |
| Day03.GearSumOfRows | src/bin/03.rs:38-61 | a gear sum over one enumeration of the character map is a gear sum over some enumeration of every map of the same rows |
| Day03.LinePartsSound | src/bin/03.rs:96-101 | with the corrected end of row, every part of a row is a whole run of digits and carries their value |
| Day03.CornerParts | src/bin/03.rs:96-97 | on the rows "12" and "..*" the code as written records the part as ending at column 0, the corrected code at column 1 |
| Day03.AsWrittenMissesCorner | src/bin/03.rs:96-97 | as written the part "12" is not next to the '*' below and to the right of its last digit; with the corrected end it is |
| Day04.Members | src/bin/04.rs:11 | collecting into a `HashSet` keeps every number and adds none |
| Day04.GetNumbers | src/bin/04.rs:7-12 | the set holds exactly the numbers of the whitespace-separated words, and the call panics exactly when some word is not a u32 |
| Day04.SubsetSize | src/bin/04.rs:20 | a subset is no larger than its superset, which bounds the size of an intersection |
| Day04.Matches | src/bin/04.rs:20 | a card's number of matches is the size of the intersection of its two sets, no more than either set |
| Day04.Halves | src/bin/04.rs:17-19 | the part after the ':' panics without a vertical bar and otherwise yields the two sets, panicking when either holds a bad number |
| Day04.CardWins | src/bin/04.rs:15-21 | a card line panics without a ':' and otherwise counts the numbers common to its two halves |
| Day04.Wins | src/bin/04.rs:14-23 | one count per line of the trimmed input, panicking exactly when some line panics |
| Day04.Pow2 | src/bin/04.rs:28 | powers of two are positive |
| Day04.PointsDouble | src/bin/04.rs:28 | a card with no match is worth 0, one match 1, and each further match doubles its worth |
| Day04.PointsBound | src/bin/04.rs:28 | a card is worth something exactly when it has a match, and at least as much as its number of matches |
| Day04.TotalPoints | src/bin/04.rs:28-29 | the total is at least the number of winning cards |
| Day04.PartOne | src/bin/04.rs:25-31 | part one panics exactly when reading the cards does, and otherwise sums the cards' points |
| Day04.GiftsGrow | src/bin/04.rs:36-40 | a card's count never decreases as the loop goes on |
| Day04.GiftsSettled | src/bin/04.rs:36-40 | a card's count is final once the loop reaches it: later cards only give to cards after themselves |
| Day04.CopyCards | src/bin/04.rs:35-40 | the nested loops give every card its number of copies by the recurrence, and panic with an index error exactly when some winning card would give copies past the last card |
| Day04.AllCopies | src/bin/04.rs:35-40 | every card ends with at least one copy, its own |
| Day04.TotalCards | src/bin/04.rs:41 | the total panics exactly when the copying does and otherwise is at least the number of cards |
| Day04.CopiesTotal | src/bin/04.rs:41 | a sum of counts each at least one is at least their number |
| Day04.CountCards | src/bin/04.rs:34-41 | copying then summing gives the total number of cards |
| Day04.PartTwo | src/bin/04.rs:33-42 | part two panics when reading the cards does, and otherwise is the total number of cards after copying |
| Day04.SamplePoints | src/bin/04.rs:48-52 | the puzzle's sample cards (4, 2, 2, 1, 0 and 0 matches) are worth 13 points |
| Day04.SampleCopies | src/bin/04.rs:54-58 | the sample cards end with 1, 2, 4, 8, 14 and 1 copies |
| Day04.SampleCards | src/bin/04.rs:54-58 | the sample ends with 30 cards |
| Day05.TranslateAsWritten | src/bin/05.rs:26-33 | as written: a value no range covers (bounds inclusive at both ends) is returned unchanged |
| Day05.Translate | src/bin/05.rs:26-33 | corrected: a value outside every half-open source range is returned unchanged |
| Day05.TranslateFirst | src/bin/05.rs:27-30 | the first range covering the value decides it: the value is shifted by that range's destination minus its source |
| Day05.TranslateInDestination | src/bin/05.rs:28-29 | corrected: a value covered by a range lands inside that range's destination, at the same offset |
| Day05.AsWrittenOverreach | src/bin/05.rs:28 | as written, the range (50, 98, 2) maps 100, one past its end, to 52, outside its destination 50..51; the corrected translation leaves 100 alone |
| Day05.AsWrittenAgrees | src/bin/05.rs:28 | the two readings differ only at a value exactly one past the end of some range |
| Day05.LocationAppend | src/bin/05.rs:105-107 | passing a seed through a list of maps is passing it through the first part and then the rest |
| Day05.Locate | src/bin/05.rs:105-107 | corrected: the loop over the maps gives the seed's location |
| Day05.MinLocationLeast | src/bin/05.rs:104-109 | the fold from `i64::MAX` is at most every seed's location and is one of them, unless there are no seeds |
| Day05.Lowest | src/bin/05.rs:104-109 | corrected: the fold computes the least location of the seeds |
| Day05.AsU32 | src/bin/05.rs:110 | `as u32` keeps the low 32 bits: below 2^32, and the value itself when it fits |
| Day05.NoSeeds | src/bin/05.rs:104-110 | with no seeds the answer is `i64::MAX as u32`, 0xFFFFFFFF |
| Day05.PartOne | src/bin/05.rs:102-111 | corrected: part one panics as parsing does, and otherwise is the least seed location cut to 32 bits |
| Day05.Pairs | src/bin/05.rs:115 | `tuples()` pairs the seeds two by two in order and drops an odd last one |
| Day05.MinRangeLeast | src/bin/05.rs:117-122 | the inner loop's minimum is at most the location of every seed of the range and is one of them, unless the range is empty |
| Day05.MinPairsLeast | src/bin/05.rs:116-124 | the minimum over all pairs is at most the location of every seed of every range and is attained |
| Day05.LowestInPairs | src/bin/05.rs:116-124 | corrected: the nested loops compute the least location over all seed ranges |
| Day05.PartTwo | src/bin/05.rs:113-126 | corrected: part two panics as parsing does, and otherwise is the least location over the seed ranges cut to 32 bits |
| Day05.ParseMapName | src/bin/05.rs:54-58 | the map-name parser consumes at least the name and the ':' |
| Day05.ParseMapNameRoundTrip | src/bin/05.rs:54-58 | a name without ':' followed by ':' and space, tab, carriage return or newline characters is read back as that name, leaving the text after the whitespace |
| Day05.SeparatedTail | src/bin/05.rs:66-68 | the repeated "space then number" part of `separated_list1` never lengthens the input |
| Day05.SeparatedTailRoundTrip | src/bin/05.rs:66-68 | numbers each written after a space are read back, leaving the text that follows |
| Day05.ParseSpaceSeparated | src/bin/05.rs:66-68 | `separated_list1` yields at least one number |
| Day05.ParseSpaceSeparatedRoundTrip | src/bin/05.rs:66-68 | a non-empty list of numbers written with single spaces is read back exactly |
| Day05.ParseSeedListRoundTrip | src/bin/05.rs:60-64 | "seeds: " followed by numbers written with single spaces is read back as those seeds |
| Day05.Terminated | src/bin/05.rs:72 | a number followed by space, tab, carriage return or newline consumes at least one character |
| Day05.TerminatedDigits | src/bin/05.rs:72 | digits followed by whitespace read as their value, leaving the text after the whitespace |
| Day05.ParseMapRange | src/bin/05.rs:70-86 | a range line consumes at least one character |
| Day05.ParseMapRangeRoundTrip | src/bin/05.rs:70-86 | three numbers separated by single spaces and ended by one space, tab, carriage return or newline read back as that range, leaving the text after it |
| Day05.OtherWhitespaceStopsMaps | src/bin/05.rs:48-74 | a map name followed by a character that is neither a digit nor one of nom's four whitespace characters leaves no range, so `parse_all` panics |
| Day05.OtherWhitespaceEndsNoNumber | src/bin/05.rs:72 | a number followed by a character outside the digits and nom's four whitespace characters is not a terminated number |
| Day05.FormFeedIsNotMultispace | src/bin/05.rs:72-74 | example: form feed, vertical tab and no-break space are Unicode white space but not what `multispace1` skips, so `OtherWhitespaceStopsMaps` applies to them |
| Day05.ParseMap | src/bin/05.rs:88-100 | a map consumes input and holds at least one range |
| Day05.ParseAll | src/bin/05.rs:48-52 | parsing panics with "Couldn't parse seed list" when the seed list does not parse, and otherwise yields at least one map |
| Day05.SampleMapRange | src/bin/05.rs:159-162 | "50 98 2 " parses to the range (50, 98, 2) with nothing left |
| Day05.SampleMapName | src/bin/05.rs:165-168 | "seed-to-soil map:" parses to the name "seed-to-soil map" with nothing left |
| Day05.SampleSeedList | src/bin/05.rs:171-182 | "seeds: 79 14 55 13" parses to the seeds 79, 14, 55, 13 with nothing left |
| Day06.CountBelow | src/bin/06.rs:43-51 | counting the winning hold times below a bound counts at most that many |
| Day06.WaysToWin | src/bin/06.rs:42-52 | a race has at most as many ways to win as it has hold times |
| Day06.CountBelowCounts | src/bin/06.rs:43-51 | the count below a bound is the size of the set of winning hold times below it |
| Day06.WaysToWinCounts | src/bin/06.rs:42-52 | the ways to win are exactly the hold times t in 0..time whose distance t*(time-t) beats the record |
| Day06.Mirror | src/bin/06.rs:45 | holding t and holding time-t go equally far, so they both win or both lose |
| Day06.WinningRun | src/bin/06.rs:45 | the winning hold times form one unbroken run: any time between two winners wins |
| Day06.Rising | src/bin/06.rs:45 | the distance grows with the hold time up to half the race |
| Day06.CountRun | src/bin/06.rs:43-51 | when the winners are exactly a run lo..hi, the count below k is the part of the run below k |
| Day06.WaysFromRun | src/bin/06.rs:42-52 | the number of ways is hi - lo for the run's first winner lo and first loser hi after it |
| Day06.SignedInt | src/bin/06.rs:35 | nom's `i64` parser consumes at least one character when it succeeds |
| Day06.IntsTail | src/bin/06.rs:35 | the "space then number" repetition never lengthens the input |
| Day06.GroupsTail | src/bin/06.rs:39 | every group the repetition collects is a non-empty run of digits |
| Day06.ParseIntVec | src/bin/06.rs:14-22 | a line's numbers, at least one of them, after the text before its first digit |
| Day06.ParseStrVec | src/bin/06.rs:24-32 | a line's digit groups, at least one, each a non-empty run of digits |
| Day06.SignedUnsigned | src/bin/06.rs:35-39 | on text without signs the `i64` parser and `digit1` stop at the same place and read the same value |
| Day06.TailsAlike | src/bin/06.rs:35-39 | on text without signs both repetitions leave the same rest and read the same numbers |
| Day06.ParseVecsAlike | src/bin/06.rs:14-32 | on a line without signs the two parsers succeed together, and the numbers are the values of the digit groups |
| Day06.Ways | src/bin/06.rs:59-62 | `zip` pairs the races up to the shorter list |
| Day06.ProductOfNats | src/bin/06.rs:63 | a product of counts is never negative, and is 0 exactly when one count is 0 |
| Day06.RacesProduct | src/bin/06.rs:56-63 | panics with "Error" exactly when either line has no number, and otherwise multiplies the ways to win of the paired races |
| Day06.PartOne | src/bin/06.rs:54-66 | panics exactly when the trimmed input has no second line, and otherwise is the product of the ways to win of the races |
| Day06.WaysProductZero | src/bin/06.rs:59-63 | the product is 0 exactly when some paired race cannot be won |
| Day06.DigitsConcat | src/bin/06.rs:70 | the value of two digit texts written together is the first shifted left by the second's length plus the second |
| Day06.JoinDigits | src/bin/06.rs:70 | joining digit groups gives a non-empty digit text, which parses |
| Day06.JoinedValue | src/bin/06.rs:70-71 | the number the joined groups spell is the first group shifted left past the rest, plus the number the rest spell |
| Day06.KernedRace | src/bin/06.rs:69-73 | panics exactly when either line has no digit group; otherwise counts the winning hold times of the single race whose time and record are the numbers spelled by each line's groups joined together |
| Day06.PartTwo | src/bin/06.rs:68-74 | panics exactly when the trimmed input has no second line, and otherwise is that single race's count |
| Day06.SampleRaces | src/bin/06.rs:92-96 | the example's races (7, 9), (15, 40) and (30, 200) have 4, 8 and 9 ways to win, 288 in all |
| Day06.ParseStrVecRoundTrip | src/bin/06.rs:86-90 | a heading without digits, then digit groups separated by blanks, is read back as exactly those groups (the tested line "Time:      7  15   30" is one instance) |
| Day07.CompareNat | src/bin/07.rs:83 | `u32::cmp`: Equal exactly on equal numbers, Less exactly when the first is smaller |
| Day07.Rank | src/bin/07.rs:7-47 | a card has a rank exactly when it is one of AKQJT98765432, ranks lie in 1..14, and J ranks 11 in part one and 1 (below every other card) in part two |
| Day07.RankInjective | src/bin/07.rs:7-47 | within one table no two cards share a rank |
| Day07.Occurrences | src/bin/07.rs:124 | a card's count is 0 exactly when the hand does not hold it |
| Day07.Without | src/bin/07.rs:115 | taking one card value out of a hand removes all its copies and keeps every other card's count |
| Day07.Multiplicities | src/bin/07.rs:115-120 | grouping the cards gives one positive count per distinct card, and every card's count appears |
| Day07.MultiplicitiesSum | src/bin/07.rs:115-120 | the group counts add up to the number of cards |
| Day07.InsertNat | src/bin/07.rs:121 | inserting into the sorted list adds exactly that element |
| Day07.InsertNatAscending | src/bin/07.rs:121 | inserting into an ascending list keeps it ascending |
| Day07.SortNats | src/bin/07.rs:121 | `sort` gives an ascending permutation of the counts |
| Day07.Pattern | src/bin/07.rs:115-121 | a hand's pattern is its card counts in ascending order: positive, adding up to the hand's size, every card's count present |
| Day07.FivePatterns | src/bin/07.rs:65-74 | the seven patterns `score` knows are exactly the ascending lists of positive counts adding up to 5 |
| Day07.Score | src/bin/07.rs:64-75 | a known pattern scores between 1 and 7, and 7 exactly for five of a kind |
| Day07.ScoreFive | src/bin/07.rs:64-75 | `score` panics with "ohno" exactly on patterns that are not five positive ascending counts, as any pattern of a hand not of five cards is |
| Day07.ScoreOrder | src/bin/07.rs:64-75 | hand types order by their largest group, and on a tie the hand with fewer groups is stronger |
| Day07.Upgrade | src/bin/07.rs:123-137 | the joker rule only applies to known patterns, keeps five cards, never weakens the hand, and strictly strengthens every hand that is not already five of a kind |
| Day07.UpgradeDefined | src/bin/07.rs:126-136 | for a known pattern and a joker count that is one of its group counts (as it always is) the rule table has an entry |
| Day07.NewHand | src/bin/07.rs:113-147 | `Hand::new` keeps the cards, bid and flag; without jokers in part two the pattern is the card counts, with jokers it is the upgraded pattern, and it panics exactly when the table has no entry |
| Day07.FiveCards | src/bin/07.rs:113-147 | every hand of five cards is built without panicking, has a type, and jokers never lower it |
| Day07.CompareCardsEqual | src/bin/07.rs:91-100 | the card-by-card loop finds two hands equal exactly when all their paired cards have equal ranks |
| Day07.CmpEqual | src/bin/07.rs:78-105 | `cmp` says Equal exactly when the two hands have the same type and the same ranks card by card |
| Day07.CompareCardsFlip | src/bin/07.rs:91-100 | comparing the cards the other way round gives the opposite answer |
| Day07.CmpFlip | src/bin/07.rs:78-105 | `cmp` is antisymmetric: swapping the hands flips the answer |
| Day07.Ranks | src/bin/07.rs:92-93 | the rank of every card, in order |
| Day07.Key | src/bin/07.rs:78-105 | a hand's sort key is its score followed by its cards' ranks |
| Day07.CompareCardsLex | src/bin/07.rs:91-100 | on cards that all have ranks, the loop is the lexicographic order of the ranks |
| Day07.CmpIsKeyOrder | src/bin/07.rs:78-105 | on hands with a type and ranked cards, `cmp` is the lexicographic order of their keys |
| Day07.LexFlip | src/bin/07.rs:78-105 | the key order is antisymmetric |
| Day07.LexReflexive | src/bin/07.rs:78-105 | every key is equal to itself |
| Day07.LexTransitive | src/bin/07.rs:78-105 | the key order is transitive, strictly when either step is strict, so `sort` has a total order to work with |
| Day07.LexEqual | src/bin/07.rs:78-105 | two keys of the same length compare Equal exactly when they are the same |
| Day07.MadeHands | src/bin/07.rs:78-111 | for two built hands with a type, `cmp` says Equal exactly when they hold the same cards |
| Day07.InsertBy | src/bin/07.rs:158 | inserting a hand into the sorted list adds exactly that hand |
| Day07.InsertBySorted | src/bin/07.rs:158 | inserting into a list sorted by key keeps it sorted |
| Day07.SortBy | src/bin/07.rs:158 | `sort` gives a permutation of the hands in ascending key order |
| Day07.InsertByStable | src/bin/07.rs:158 | inserting after every entry whose key is not greater keeps equal-key entries in their original order |
| Day07.SortByStable | src/bin/07.rs:158 | `sort` is stable: the hands with any one key keep their input order |
| Day07.ParseHand | src/bin/07.rs:153-156 | a line parses to the hand `Hand::new` builds from its cards and u32 bid |
| Day07.ParseHands | src/bin/07.rs:150-157 | every hand of the list carries the part's joker flag |
| Day07.Solve | src/bin/07.rs:149-167 | `solve` panics as parsing does; with two or more hands it panics with "ohno" when a hand has no type and on an unranked card; otherwise it sums rank times bid over the hands sorted by key, cut to 32 bits |
| Day07.TotalWinnings | src/bin/07.rs:160-164 | the loop sums each hand's bid times its 1-based position |
| Day07.PartOne | src/bin/07.rs:169-171 | part one is `solve` without jokers, with all of its cases: it panics as parsing does; zero or one hand gives that hand's winnings cut to 32 bits; with two or more hands a hand without a type panics with "ohno" and an unranked card with the unwrap panic; otherwise it is the winnings of the hands sorted by key, cut to 32 bits |
| Day07.PartTwo | src/bin/07.rs:173-175 | part two is `solve` with jokers wild, with the same cases as part one: parse panic, zero or one hand, "ohno", unranked card, and otherwise the sorted winnings cut to 32 bits |
| Day08.ParseNodeLine | src/bin/08.rs:36-38 | a line written "NAME = (LEFT, RIGHT)" is read back as that node and its two successors |
| Day08.BuildKeys | src/bin/08.rs:33-40 | collecting the parsed lines into a `HashMap` gives a network whose nodes are exactly the names read |
| Day08.BuildValues | src/bin/08.rs:33-40 | a node's successors are those of the last line naming it |
| Day08.NodeLines | src/bin/08.rs:36-38 | the written form of each node, in order |
| Day08.GetMapNodeLines | src/bin/08.rs:32-42 | `get_map` of well-formed node lines joined by newlines builds exactly their network |
| Day08.SolveFromSpec | src/bin/08.rs:18-28 | from any point of the walk, the loop either stops at a step whose node meets the goal with no earlier step meeting it, or panics at a step reached without meeting it, or runs out of the step budget exactly when no step within it meets the goal |
| Day08.SolveSpec | src/bin/08.rs:12-30 | `solve_path` panics with "unsolvable" on an empty instruction line; otherwise it returns the number of the first step (counting from 1) that ends on a goal node, the start node itself never being tested, or the panic of the first failing lookup or unknown instruction before that |
| Day08.SolveFromLonger | src/bin/08.rs:18-28 | once the walk has stopped within a budget, a larger budget gives the same answer |
| Day08.SolveLonger | src/bin/08.rs:12-30 | the answer does not depend on the step budget once the budget is large enough to reach it |
| Day08.SolvePath | src/bin/08.rs:12-30 | the loop computes the walk's outcome: it looks each node up (panicking on a missing one), follows L or R of the repeating instructions (panicking on any other letter), and returns i + 1 at the first goal node |
| Day08.PartOne | src/bin/08.rs:5-10 | part one splits the instructions from the network at the first blank line (panicking without one) and walks from AAA to ZZZ |
| Day09.Differences | src/bin/09.rs:34-39 | `tuple_windows().map(b - a)`: one element shorter than the row, each the difference of two neighbours |
| Day09.Rows | src/bin/09.rs:31-42 | the table starts with the readings themselves |
| Day09.RowsShape | src/bin/09.rs:32-41 | each row of the table is the differences of the one before, the last row is all zeros, and no earlier row is |
| Day09.DifferenceTable | src/bin/09.rs:31-42 | the while loop pushes difference rows until the last is all zeros, building exactly the table |
| Day09.ParseNumber | src/bin/09.rs:28 | a word parses as an i64 exactly when it is an optionally signed run of digits |
| Day09.GenerateRows | src/bin/09.rs:25-43 | `generate_rows` panics when a word is not a number and otherwise builds the difference table of the line's readings |
| Day09.InterpolateEnd | src/bin/09.rs:5-13 | the backwards loop adding each row's last element computes the next value, panicking on an empty row |
| Day09.InterpolateBegin | src/bin/09.rs:15-23 | the backwards loop subtracting from each row's first element computes the previous value, panicking on an empty row |
| Day09.NextValuePanicSticks | src/bin/09.rs:9 | an empty row anywhere in the table makes the extrapolation panic with the `unwrap` of `None` |
| Day09.NextValueReason | src/bin/09.rs:9 | the only panic of the forward extrapolation is that `unwrap` |
| Day09.PreviousValuePanicSticks | src/bin/09.rs:19 | an empty row anywhere makes the backward extrapolation panic |
| Day09.PreviousValueReason | src/bin/09.rs:19 | the only panic of the backward extrapolation is that `unwrap` |
| Day09.ValuesDefined | src/bin/09.rs:5-23 | both extrapolations succeed exactly when no row of the table is empty |
| Day09.Lasts | src/bin/09.rs:9 | the last element of every row |
| Day09.Firsts | src/bin/09.rs:19 | the first element of every row |
| Day09.NextIsSumOfLasts | src/bin/09.rs:5-13 | the next value is the sum of the last elements of all rows |
| Day09.PreviousIsAlternatingSum | src/bin/09.rs:15-23 | the previous value is the alternating sum of the rows' first elements, first minus second plus third and so on |
| Day09.SingleReading | src/bin/09.rs:31-41 | a line of one non-zero reading gets an empty second row, so both parts panic on it |
| Day09.Zeros | src/bin/09.rs:31-41 | readings that are all zero form a one-row table, extrapolated to 0 both ways |
| Day09.LineNextValue | src/bin/09.rs:46-49 | a line's next value exists exactly when it parses and its table has no empty row, and it is the sum of the rows' last elements |
| Day09.LinePreviousValue | src/bin/09.rs:55-58 | a line's previous value exists on the same lines and is the alternating sum of the rows' first elements |
| Day09.ExtrapolateEnd | src/bin/09.rs:46-49 | the per-line closure of part one computes the line's next value |
| Day09.ExtrapolateBegin | src/bin/09.rs:55-58 | the per-line closure of part two computes the line's previous value |
| Day09.SumLines | src/bin/09.rs:46-51 | the sum over the trimmed input's lines exists exactly when every line's value does |
| Day09.PartOneDefined | src/bin/09.rs:45-52 | part one has an answer exactly when every line parses and its table has no empty row |
| Day09.PartTwoDefined | src/bin/09.rs:54-61 | part two has an answer on exactly the inputs part one has |
| Day10.Min | src/bin/10.rs:74 | `score.min(v)`: no larger than either, and one of them |
| Day10.Ends | src/bin/10.rs:44-54 | exactly the six pipe characters have a pair of connected sides |
| Day10.PipeEnds | src/bin/10.rs:44-54 | each pipe connects two different sides, each one of the four directions |
| Day10.AcceptedMeansConnected | src/bin/10.rs:9-19 | each direction's allowed set holds exactly the pipes that have an end pointing back at `S` |
| Day10.Accepted | src/bin/10.rs:24-32 | at most one accepted direction per side |
| Day10.AcceptedSides | src/bin/10.rs:24-32 | the directions are tried in the order left, right, up, down |
| Day10.AcceptedExactly | src/bin/10.rs:24-32 | a direction is accepted exactly when its neighbour is in the maze and is one of that direction's allowed pipes |
| Day10.Neighbours | src/bin/10.rs:25-28 | the neighbour of `S` in each accepted direction, in order |
| Day10.StartPiece | src/bin/10.rs:34-42 | the piece inferred for `S` connects exactly the two accepted directions |
| Day10.StartPieceFound | src/bin/10.rs:34-42 | a piece is found exactly when two directions are accepted (any other number panics with "ohnoes", as do none of the six listed orders being impossible) |
| Day10.Record | src/bin/10.rs:72-75 | the `entry().and_modify().or_insert()` adds the position, keeps the smaller of its old and new score, and leaves every other entry alone |
| Day10.NextIsOtherEnd | src/bin/10.rs:68-79 | the walk leaves a pipe by the end it did not come in through, never going back |
| Day10.WalkKeepsMinimum | src/bin/10.rs:59-82 | a walk only adds positions and never raises a recorded score |
| Day10.FindNexts | src/bin/10.rs:21-32 | the loop over the four directions collects the accepted directions and the neighbours they lead to, in order |
| Day10.WalkFrom | src/bin/10.rs:60-81 | the while loop records, step by step, the position it came from at the current score, moves to the pipe's other end, and stops at `S` or off the maze, panicking on a cell that is not a pipe |
| Day10.GenerateScoreMap | src/bin/10.rs:56-83 | as written: the walks from each neighbour share one `previous`, which the second walk inherits from the first |
| Day10.GenerateScores | src/bin/10.rs:56-83 | corrected: `previous` starts at `S` for each walk; the score map keeps, for each cell, the least score either walk gave it (the corrected walks give 4 on the ring, as Day10Findings.CorrectedRing shows) |
| Day10.TilesOf | src/bin/10.rs:90-97 | the maze map holds exactly the input's characters at their (column, row) positions |
| Day10.LastIndex | src/bin/10.rs:93-95 | the last column of a row holding `S` |
| Day10.StartOf | src/bin/10.rs:88-97 | `start` is the last `S` in reading order, and (0, 0) when there is none |
| Day10.Widest | src/bin/10.rs:108-119 | `width` is the largest column index of any row |
| Day10.MaxValue | src/bin/10.rs:101 | `values().max().unwrap()` panics exactly on an empty map and is otherwise its largest score |
| Day10.PartOne | src/bin/10.rs:86-102 | corrected: part one is the largest score of the corrected score map of the maze, and panics when the map is empty or the walks panic |
| Day10.Transit | src/bin/10.rs:161-175 | the run after an `F` or `L` is a row of `-` ended by the closing pipe: `inside` flips exactly when that pipe is the one that crosses the row, and the run panics with "not possible" on anything else or at the end of the row |
| Day10.CheckTransitions | src/bin/10.rs:161-175 | the loop popping the row's front computes that run: the column after it, the rest of the row and the new `inside` |
| Day10.ScanRow | src/bin/10.rs:126-156 | the scan of one row counts exactly what the row's scan specification counts |
| Day10.LinkedAt | src/bin/10.rs:138-149 | on a closed loop, a pipe open to the right has a loop cell on its right, and one open to the left a loop pipe on its left |
| Day10.TransitCrosses | src/bin/10.rs:143-149 | after a run, `inside` says whether an odd number of loop cells reaching up lie to the left, and the run's cells enclose nothing |
| Day10.ScanPlainCell | src/bin/10.rs:138-153 | a cell that starts no run adds 1 to the count exactly when it is off the loop and enclosed |
| Day10.ScanRun | src/bin/10.rs:143-149 | a run that starts at an `F` or `L` is passed over without changing what is counted |
| Day10.ScanEncloses | src/bin/10.rs:132-155 | on a row where the loop is closed, the scan counts exactly the cells off the loop that an odd number of upward-reaching loop cells lie left of |
| Day10.ScanRowEncloses | src/bin/10.rs:126-156 | a whole row's count is the number of its enclosed cells |
| Day10.RowCells | src/bin/10.rs:128-130 | the row of columns 0..=width exists exactly when every one of those cells is in the maze (the `unwrap` panics otherwise) |
| Day10.CountRowsEncloses | src/bin/10.rs:127-156 | over rows where the loop is closed, the count is the number of enclosed cells |
| Day10.CountRowsPanicSticks | src/bin/10.rs:127-156 | a panic in one row ends the count |
| Day10.CountLines | src/bin/10.rs:126-156 | the loop over the rows adds each row's count, stopping at the first panic |
| Day10.PartTwo | src/bin/10.rs:104-159 | corrected: part two panics as the corrected walks do, and otherwise scans rows 0..=height of the maze with `S` replaced by its piece and the loop taken to be the scored cells |
| Day10Findings.FirstStepLeavesStart | src/bin/10.rs:56-81 | a walk's first step records `S` at 0 and moves away from it, so a walk that starts with `previous` at `S` runs round the loop |
| Day10Findings.AsWrittenWalks | src/bin/10.rs:56-83 | as written, on the 3 by 3 ring whose rows are `FS7`, then bar-dot-bar, then `L-J` the second walk starts with `previous` on its own start cell, records it at 0 and steps straight back to `S`, so the first walk's scores 1..6 stand |
| Day10Findings.AsWrittenRing | src/bin/10.rs:56 | as written, the ring of eight pipes gets the answer 6 |
| Day10Findings.CorrectedWalks | src/bin/10.rs:56-83 | corrected, the second walk runs round the ring the other way and lowers the scores to the distances 1, 2, 3, 4, 3, 2, 1 |
| Day10Findings.CorrectedRing | src/bin/10.rs:56 | corrected, the ring's farthest point is 4 steps from `S`, half its length |
| Day11.NotInRange | src/bin/11.rs:67-79 | the empty coordinates are exactly those in 0..=size that hold no galaxy |
| Day11.EmptyFromLargest | src/bin/11.rs:61-62 | with the largest galaxy coordinate as the size, every galaxy-free coordinate up to it is listed as empty and no galaxy's coordinate is |
| Day11.ScanSpec | src/bin/11.rs:47-59 | the rows scanned so far hold a galaxy at (x, y) exactly when that cell is `#` |
| Day11.ScanGalaxies | src/bin/11.rs:47-59 | the full scan finds exactly the input's galaxies |
| Day11.ScanLine | src/bin/11.rs:48-58 | the inner loop over a line's characters records each `#`: the map, the widest and highest coordinates and the occupied column and row sets stay in step with the galaxies found |
| Day11.ScanLines | src/bin/11.rs:47-59 | the loop over the rows leaves the map, the largest coordinates and the occupied column and row sets in step with all the galaxies of the image |
| Day11.ParseUniverse | src/bin/11.rs:39-65 | the universe maps exactly the input's galaxies to `#`, and its empty sets are exactly the galaxy-free columns and rows up to the largest used ones |
| Day11.ShiftDistance | src/bin/11.rs:19-25 | after expansion, the distance along one axis grows by `expansion - 1` for each empty line strictly between the two coordinates |
| Day11.ShiftOrder | src/bin/11.rs:19-25 | expansion keeps the order of coordinates, so distinct galaxies stay distinct |
| Day11.ShiftNone | src/bin/11.rs:19-25 | an expansion of 1 moves nothing |
| Day11.ExpandedDistance | src/bin/11.rs:17-34 | the expanded Manhattan distance of two galaxies is their original one plus `expansion - 1` per empty column and per empty row between them |
| Day11.ExpandedCount | src/bin/11.rs:17-29 | expansion maps no two galaxies to the same key, so none is lost from the `expanded` map |
| Day11.PairsCountedOnce | src/bin/11.rs:31-35 | `tuple_combinations` counts each unordered pair once: twice its sum is the sum over all ordered pairs |
| Day11.CalculateDistances | src/bin/11.rs:13-37 | the loops build the expanded galaxy set and sum the Manhattan distance over each pair of it once, in some enumeration order of the set |
| Day11.PartOne | src/bin/11.rs:81-85 | part one sums the pair distances of the input's galaxies with each empty line doubled |
| Day11.PartTwo | src/bin/11.rs:87-91 | part two does the same with each empty line a million lines wide |
| Day12.Completions | src/bin/12.rs:76-80 | every listed completion fills each `?` with `.` or `#` and keeps every other character, and no completion is listed twice, so counting completions counts fillings |
| Day12.CompletionsComplete | src/bin/12.rs:76-80 | every way of filling the unknowns is listed |
| Day12.PrefixedDistinct | src/bin/12.rs:76-80 | putting the same character before distinct strings keeps them distinct |
| Day12.SplitDistinct | src/bin/12.rs:76-80 | the '.' and '#' choices for a '?' give distinct completions that never meet each other |
| Day12.TrailingDotCloses | src/bin/12.rs:110 | with the appended `.`, the groups `solve1` closes are exactly the row's maximal runs of `#`, the last one included |
| Day12.Solve1Counts | src/bin/12.rs:70-99 | `solve1` counts exactly the completions of the record whose closed runs of `#`, continuing an open run of `num_in_group`, are `counts` |
| Day12.ClosedRecordCounts | src/bin/12.rs:109-114 | on a record with `.` appended, `solve1` counts the completions whose groups of damaged springs are the given sizes |
| Day12.KnownRow | src/bin/12.rs:70-99 | a record with no unknowns has one arrangement when its groups are the sizes, and none otherwise |
| Day12.ParseRow | src/bin/12.rs:109-112 | a line parses exactly when it has a space and every comma-separated size after it is a number; the record is the text before the space |
| Day12.Unfold | src/bin/12.rs:131 | `cycle().take(5).join("?")` is five copies of the record separated by unknowns |
| Day12.Repeat5 | src/bin/12.rs:133 | `repeat(5)` is five times as long, starts with the sizes and repeats them with that period |
| Day12.Arrangements | src/bin/12.rs:109-116 | a row's count is the number of its completions whose groups are the row's sizes |
| Day12.PartOne | src/bin/12.rs:102-121 | part one panics exactly when a line is malformed, and is otherwise the sum of every row's arrangements |
| Day12.PartTwo | src/bin/12.rs:123-141 | part two panics exactly when part one does, and is otherwise the sum of the arrangements of the unfolded rows |
| Day13.Transpose | src/bin/13.rs:5-17 | the transpose exists exactly when the grid is non-empty and no row is shorter than the first (otherwise the `assert!` or an iterator's `unwrap` panics); it has the first row's width as height and holds cell (j, i) at (i, j) |
| Day13.TransposeTwice | src/bin/13.rs:5-17 | on a rectangular grid, transposing twice gives the grid back |
| Day13.RowMismatches | src/bin/13.rs:25-29 | a row's count of differing mirrored pairs is at most the reach, and zero exactly when the row reflects at the line |
| Day13.FindMirror | src/bin/13.rs:19-38 | on a non-empty grid whose rows are at least as wide as the first, the search succeeds, and it returns 0 or a line strictly inside the width |
| Day13.FindMirrorFinds | src/bin/13.rs:19-38 | a non-zero answer is a line where the grid's mismatches add up to exactly `end_condition` |
| Day13.FindMirrorFirst | src/bin/13.rs:22-36 | the answer is the first such line: any line with exactly `end_condition` mismatches is at or after it |
| Day13.ExactMirror | src/bin/13.rs:19-38 | with `end_condition` 0, the found vertical line is a true mirror: every row reflects across it as far as the nearer edge |
| Day13.ExactHorizontalMirror | src/bin/13.rs:53 | a line found in the transposed grid is a true horizontal mirror of the original rows |
| Day13.BlockScore | src/bin/13.rs:43-55 | a block scores its vertical line when there is one, and otherwise 100 times the line found in its transpose; it panics with the first search's panic, with the transpose's panic (an empty block or a row shorter than the first), or with the second search's panic |
| Day13.VerticalScores | src/bin/13.rs:49-51 | a rectangular block with a vertical line scores that line, which has exactly `end_condition` mismatches |
| Day13.HorizontalScores | src/bin/13.rs:52-54 | a rectangular block without a vertical line scores 100 times a row line below its height, which has exactly `end_condition` mismatches when non-zero |
| Day13.Summarise | src/bin/13.rs:40-77 | both parts give a sum exactly when no block's score panics |
| Day14Spec.TiltOf | src/bin/14.rs:65-84 | exactly the four unit gravities are accepted, each as the tilt with that direction; any other gravity panics |
| Day14Spec.TiltOfDelta | src/bin/14.rs:65-84 | every tilt's direction is accepted as that tilt |
| Day14Spec.SwappedCells | src/bin/14.rs:33-45 | `swap` exchanges the two cells when both are on the platform, and otherwise changes nothing |
| Day14Spec.Range | src/bin/14.rs:67-81 | `lo..hi` lists the integers from `lo` up to `hi - 1` |
| Day14Spec.RevRange | src/bin/14.rs:70-82 | `(lo..hi).rev()` lists them from `hi - 1` down |
| Day14Spec.RangesCover | src/bin/14.rs:65-84 | a pass visits exactly the cells whose neighbour in the gravity's direction is also on the platform |
| Day14Spec.ScanOrderCovers | src/bin/14.rs:86-110 | each such cell is in the order a pass visits |
| Day14Spec.StepEffect | src/bin/14.rs:113-123 | one `check_update` keeps the number of round rocks, cube rocks and empty cells and the cube rocks' places; it lowers the tilt potential by one when the rock moves and changes nothing otherwise |
| Day14Spec.StepsDecrease | src/bin/14.rs:86-110 | a pass keeps what a step keeps and lowers the potential exactly when it changes the platform |
| Day14Spec.StepsUnchanged | src/bin/14.rs:94-96 | a pass that changes nothing found no rock that could move at any cell it visited |
| Day14Spec.PassFixedIffSettled | src/bin/14.rs:86-110 | a pass leaves the platform as it is exactly when no round rock has an empty cell next to it in the gravity's direction |
| Day14Spec.TiltedSettled | src/bin/14.rs:86-110 | repeating passes until nothing is updated ends on a settled platform with the same rocks |
| Day14Spec.TiltSettledUnchanged | src/bin/14.rs:86-110 | tilting a settled platform changes nothing |
| Day14Spec.TiltIdempotent | src/bin/14.rs:64-111 | tilting twice the same way is tilting once |
| Day14Spec.SpinConserves | src/bin/14.rs:164-167 | a spin cycle keeps the rock counts and where the cube rocks are |
| Day14Spec.SpinNConserves | src/bin/14.rs:163-167 | so do any number of cycles |
| Day14Spec.LoadBounds | src/bin/14.rs:131-147 | the load is between 0 and the height times the number of round rocks |
| Day14Spec.NoRoundRocksNoLoad | src/bin/14.rs:131-147 | a platform without round rocks has load 0 after any number of cycles |
| Day14Spec.IteratePeriodic | src/bin/14.rs:171-176 | once the platform after cycle `a` recurs after cycle `a + p`, the platform after any later cycle `m` is the one after cycle `a + (m - a) % p` |
| Day14Spec.AsWrittenEnd | src/bin/14.rs:172-174 | as written, the picked score index lies from one before the first sighting up to the cycle before the repeat |
| Day14Spec.IntendedEnd | src/bin/14.rs:172-174 | corrected, it lies from the first sighting up to the cycle before the repeat |
| Day14Spec.IntendedEndCorrect | src/bin/14.rs:171-176 | corrected, `scores[end_index]` is the load of the platform after a billion cycles |
| Day14Spec.AsWrittenEndWhenNonZero | src/bin/14.rs:172-174 | as written, the pick is right whenever `(loops - index) % (i - index)` is not 0 |
| Day14Spec.AsWrittenEndWhenZero | src/bin/14.rs:172-174 | as written, when that remainder is 0 the pick is `index - 1`, one period before the intended `i - 1` |
| Day14.MaxLength | src/bin/14.rs:54-57 | the widest row's length, no row longer |
| Day14.ParseGrid | src/bin/14.rs:48-62 | the cells are the trimmed input's lines; the height is the number of lines and the width the widest row's length, each at least 1 |
| Day14.Platform.constructor | src/bin/14.rs:17-23 | the platform holds the given cells and size |
| Day14.Platform.Get | src/bin/14.rs:25-31 | a cell is returned exactly when the position is on the platform, and it is the one there |
| Day14.Platform.Swap | src/bin/14.rs:33-45 | the new cells are the old ones with the two positions exchanged when both are on the platform |
| Day14.Platform.CheckUpdate | src/bin/14.rs:113-123 | reports whether a round rock stood before an empty cell in the gravity's direction, and makes exactly that one step |
| Day14.Platform.ScanLine | src/bin/14.rs:90-92 | the inner loop makes the steps of one line in order; it reports a move exactly when the platform changed, and then the potential dropped |
| Day14.Platform.PassOnce | src/bin/14.rs:87-109 | one pass of the nested loops, in the order of the gravity's branch, is the pass function; `updated` is false only when nothing changed |
| Day14.Platform.HandleGravity | src/bin/14.rs:64-111 | repeating passes until none updates leaves the platform tilted that way |
| Day14.Platform.SpinCycle | src/bin/14.rs:164-167 | north, west, south and east in turn make one spin cycle |
| Day14.Platform.CalcLoad | src/bin/14.rs:131-147 | summing `height - y` over the round rocks column by column gives the load, the same sum taken row by row |
| Day14.PartOne | src/bin/14.rs:149-154 | part one panics exactly when a row is shorter than the width, and otherwise is the load after tilting north |
| Day14.RecordedExtend | src/bin/14.rs:169-182 | adding the new platform at cycle `n` keeps `seen` holding exactly the platforms after each cycle so far, mapped to the cycle |
| Day14.RecordedDistinct | src/bin/14.rs:163-183 | while no repeat is found, the platforms after all cycles so far differ |
| Day14.RecordedRepeat | src/bin/14.rs:171 | the first platform found in `seen` is the first repeat, of the cycle it was recorded at |
| Day14.ScoredExtend | src/bin/14.rs:179-180 | `scores[k]` stays the load after cycle `k + 1` |
| Day14.CycleUntilRepeat | src/bin/14.rs:163-183 | the loop spins until the platform repeats, recording each load; it stops at the first repeat, or after a billion distinct platforms |
| Day14.PartTwo | src/bin/14.rs:156-186 | corrected: part two panics exactly when the platform is not rectangular; a found repeat reports the load after a billion cycles (corrected pick), and `None` only when a billion cycles never repeat |
| Day14Findings.NoRoundRocksSpinFixed | src/bin/14.rs:164-167 | without round rocks a spin cycle changes nothing |
| Day14Findings.FixedPointRepeats | src/bin/14.rs:171 | from an unchanging platform, the first repeat is cycle 1 of cycle 0 |
| Day14Findings.NoRoundRocksTally | src/bin/14.rs:131-147 | a platform without round rocks counts none |
| Day14Findings.AsWrittenWithoutRoundRocks | src/bin/14.rs:171-176 | as written, a workable platform without round rocks picks index `-1` (the `as usize` cast makes it out of bounds, so `part_two` panics) although its load after a billion cycles is 0 |
| Day14Findings.PartTwoWithoutRoundRocks | src/bin/14.rs:156-186 | corrected, part two reports load 0 for such a platform |
| Day14Findings.DotWorkable | src/bin/14.rs:156-186 | the input "." parses to a platform that can be spun and holds no round rock |
| Day14Findings.SingleEmptyCell | src/bin/14.rs:156-186 | corrected, part two of the input "." reports 0 |
| Day15.HashFrom | src/bin/15.rs:30-34 | the fold stays within 0..=255 once it has taken a character, and an empty string leaves the start value |
| Day15.Hash | src/bin/15.rs:29-35 | the HASH of a string is in 0..=255, and 0 for the empty string |
| Day15.HashFromConcat | src/bin/15.rs:30-34 | folding a concatenation folds the second part from the first part's value |
| Day15.HashSnoc | src/bin/15.rs:31-33 | appending a character adds its code to the hash, multiplies by 17 and takes the remainder by 256 |
| Day15.HashOfHASH | src/bin/15.rs:29-35 | the string "HASH" hashes to 52 |
| Day15.FindLensIndex | src/bin/15.rs:37-39 | `position` finds a lens exactly when one with the same name is in the box (lenses compare by name only), and then the first one |
| Day15.InsertExisting | src/bin/15.rs:47-49 | inserting a lens whose name is in the box replaces the first lens of that name in place and leaves the others |
| Day15.InsertNew | src/bin/15.rs:50-52 | inserting a lens with a new name appends it at the back |
| Day15.RemoveEffect | src/bin/15.rs:54-58 | removing deletes the first lens of that name and closes the gap, and changes nothing when there is none |
| Day15.FirstNamedUnique | src/bin/15.rs:38 | there is only one first position of a name |
| Day15.AppliedDistinct | src/bin/15.rs:41-62 | each command keeps the names in a box distinct; after an insert the lens is in the box, after a remove its name is not |
| Day15.LensBoxes.constructor | src/bin/15.rs:44 | the store starts as 256 empty boxes |
| Day15.LensBoxes.Perform | src/bin/15.rs:46-59 | one command changes only its own box, by the effect above |
| Day15.Empty | src/bin/15.rs:44 | 256 boxes, all empty |
| Day15.Performed | src/bin/15.rs:41-62 | the commands in order, applied to the empty store, leave 256 boxes |
| Day15.PerformedDistinct | src/bin/15.rs:41-62 | after any commands no box holds two lenses of the same name |
| Day15.PerformCommands | src/bin/15.rs:41-62 | the loop over the commands leaves the store of the commands applied in order |
| Day15.BoxPowerReplace | src/bin/15.rs:63-73 | replacing a lens in slot `i` of box `b` changes the focusing power by `(b + 1) * (i + 1)` times the change in focal length |
| Day15.BoxPowerAppend | src/bin/15.rs:63-73 | appending a lens adds `(b + 1)` times its slot number times its focal length |
| Day15.FocusPowerUpdate | src/bin/15.rs:63-73 | changing one box changes the total by that box's change alone |
| Day15.BoxPowerNonNeg | src/bin/15.rs:63-73 | focusing power is never negative |
| Day15.FocusPowerEmpty | src/bin/15.rs:63-73 | empty boxes have no focusing power |
| Day15.ParseU32 | src/bin/15.rs:83 | `parse::<u32>()` succeeds exactly on a decimal numeral below 2^32 |
| Day15.CountText | src/bin/15.rs:81-82 | the text after the first `=` exists exactly when the step contains one |
| Day15.NameBeforeFirstEquals | src/bin/15.rs:82 | the label before the first `=` contains none |
| Day15.ParseStep | src/bin/15.rs:80-88 | a step is an insert exactly when it contains `=`, with the label before it and a u32 focal length; otherwise a remove of the step without its last character; the box is the label's hash; it panics exactly on an empty step or a focal length that is not a u32 |
| Day15.ParseStepRoundTrip | src/bin/15.rs:80-88 | `label=n` parses back to inserting lens (label, n) into box `HASH(label)`, and `label-` to removing it |
| Day15.ParseSteps | src/bin/15.rs:80-88 | the commands are the steps parsed one by one, every box index below 256; any step that panics makes the whole parse panic |
| Day15.HashSumBounds | src/bin/15.rs:76 | the sum of the step hashes is between 0 and 255 per step |
| Day15.PartOne | src/bin/15.rs:75-77 | part one, the sum of the hashes of the comma-separated steps, is at most 255 per step (so the `u32` sum cannot overflow on any input shorter than 16 million steps) |
| Day15.PartTwo | src/bin/15.rs:79-93 | part two panics exactly when a step does not parse, and otherwise is the focusing power of the store the commands leave, cut to 32 bits by `as u32` |
| Day16.Dir | src/bin/16.rs:17-28 | each direction is a unit step, vertical exactly for up and down |
| Day16.DirInjective | src/bin/16.rs:17-28 | different directions give different steps, and opposite directions cancel |
| Day16.Stepped | src/bin/16.rs:45-47 | `step` keeps the direction and moves one cell, which the opposite step undoes |
| Day16.CharToObject | src/bin/16.rs:112-121 | exactly the five object characters (vertical bar, dash, slash, backslash, dot) are objects, each read back as its character; anything else panics with "unknown object" |
| Day16.ObjectRoundTrip | src/bin/16.rs:112-121 | every object's character reads back as that object |
| Day16.MirrorsInvolutions | src/bin/16.rs:92-100 | each mirror undoes itself and turns vertical travel horizontal and horizontal travel vertical |
| Day16.Out | src/bin/16.rs:76-101 | a cell sends a ray on in one or two directions: two exactly when a splitter is hit across, the same one through an empty cell |
| Day16.Outs | src/bin/16.rs:76-101 | the rays leaving a cell start at that cell, one per outgoing direction |
| Day16.ReachableStep | src/bin/16.rs:62-103 | a ray that continues a reachable ray is reachable |
| Day16.EveryDirection | src/bin/16.rs:8-14 | the four directions are all there are |
| Day16.EnergizedBound | src/bin/16.rs:104-109 | no more cells are energized than the contraption has |
| Day16.CountAgrees | src/bin/16.rs:104-109 | counting the non-empty direction sets of `visited` counts exactly the cells it marks |
| Day16.Inserted | src/bin/16.rs:71-74 | inserting an unseen direction adds exactly that ray to `visited` and strictly shrinks what is left to see |
| Day16.Enter | src/bin/16.rs:64-74 | entering an unseen in-bounds cell keeps the loop invariant: everything in `visited` is reachable from the start, and every reachable ray is seen or still queued |
| Day16.Drop | src/bin/16.rs:66-73 | stopping a ray that leaves the grid or repeats a seen direction keeps the invariant |
| Day16.Deflected | src/bin/16.rs:76-101 | continuing with the turned ray, or queueing the two split rays, keeps the invariant |
| Day16.Initial | src/bin/16.rs:59-61 | the empty `visited` grid and the queue holding the start ray satisfy the invariant |
| Day16.Complete | src/bin/16.rs:62-103 | once the queue is empty, every ray on a path from the start is in `visited` |
| Day16.Finished | src/bin/16.rs:62-109 | then the count of non-empty cells is the number of cells a reachable ray enters |
| Day16.Deflect | src/bin/16.rs:76-101 | the match sends the ray on in the cell's single outgoing direction, or queues both split rays and ends this one |
| Day16.TraceRay | src/bin/16.rs:63-102 | the inner loop follows one ray until it leaves the grid, repeats or splits, keeping the invariant and seeing at least one new ray unless it stops at once |
| Day16.CalculateScore | src/bin/16.rs:58-110 | the score is the number of cells energized by the start ray, at most the number of cells |
| Day16.Contraption | src/bin/16.rs:112-124 | the grid exists exactly when the input has a line, every character is an object and no line is shorter than the first (the last condition is the model's, see Left out); it is the lines read cell by cell, as wide as the first line |
| Day16.PartOne | src/bin/16.rs:123-127 | part one panics exactly when the contraption does not parse (a line shorter than the first included), and is otherwise the number of cells energized by a beam entering the top-left cell heading right |
| Day16.EdgeStarts | src/bin/16.rs:132-174 | the start rays are the `2 * width + 2 * height` rays just outside the border, one per edge cell and side |
| Day16.PairedMax | src/bin/16.rs:132-152 | the largest of the per-pair maxima is the largest score over both lists |
| Day16.ConcatMax | src/bin/16.rs:176 | the larger of two lists' largest scores is the largest over both |
| Day16.PairedBest | src/bin/16.rs:132-174 | `map(up.max(down)).max()` over a non-empty list of pairs is the largest score of any start ray in them |
| Day16.BestStart | src/bin/16.rs:132-176 | on a grid with a row and a column, the larger of the two sweeps is the largest score over every start ray from the border, and some border ray scores it |
| Day16.PartTwo | src/bin/16.rs:129-177 | part two panics exactly when the contraption does not parse (a line shorter than the first included) or has no row or no column (`max().unwrap()` of an empty range), and otherwise is the largest energized count over all start rays from the border |

## Left out

- Machine integers: `u32`, `i32`, `i64` and `usize` arithmetic is modelled on unbounded integers. Overflow of parsing, sums, products and powers is not modelled, nor is the final `as u32` of each part. Three exceptions are written out: the `as u32` of day 5 (`Day05.AsU32`), the `result as u32` of day 7 (`Day07.Solve`) and the `focus_power as u32` of day 15.
- `Day03.ScanLine`: the `(maxx - 1) as i32` of a run that ends its line is only reached in the as-written definition. With `maxx` 0 it underflows `usize` (a panic in a debug build), and the model takes -1, as a release build would.
- `Day03.EndRow`: a run still open at the end of its row ends at the row's last column, the corrected end of the day 3 finding, not at the source's `maxx - 1`. The source's end is `Day03.LinePartsAsWritten`.
- `Day03.ScanLine`: the parts it appends carry the corrected end of `Day03.EndRow`; on the rows `12` and `..*` the source's part 12 spans columns 0..0 and the model's 0..1.
- `Day03.ExtractPartsAndMap`: its parts are the corrected ones of `Day03.ScanLine`, so they depart from the source on the same rows.
- `Day03.PartOne`: built on the corrected parts, it gives 12 on the input `12` newline `..*`, where the source gives 0.
- `Day03.PartTwo`: built on the corrected parts, it departs from the source in both directions. The source ends a run that ends its row at `maxx - 1`, where `maxx` is the widest column of this and every earlier row. On a row at least as wide as every earlier one, that end is one column short, so a gear diagonal to the run's last digit is adjacent in the model and not in the source. On a row two or more columns shorter than an earlier one, that end lies past the row's last column, so the source can see a gear beyond the run that the model does not.
- `Day05.Locate`: applies the corrected half-open `Day05.Translate`, not the source's inclusive `value <= from + length`; with the single range (50 98 2), seed 100 is located at 100, where the source gives 52.
- `Day05.Lowest`: the least of the corrected locations of `Day05.Locate`.
- `Day05.LowestInPairs`: the least of the corrected locations over the seed ranges.
- `Day05.PartOne`: on the seeds `100` with one map holding the range (50 98 2) the model gives 100, where the source gives 52.
- `Day05.PartTwo`: the least over the corrected locations, departing from the source wherever a seed lies one past the end of a range.
- `Day10.GenerateScores`: resets `previous` to `S` for each walk, the corrected walks of the day 10 finding; the source's shared `previous` is `Day10.GenerateScoreMap`.
- `Day10.PartOne`: the largest corrected score; on the ring `FS7`, bar-dot-bar, `L-J` it gives 4, where the source gives 6.
- `Day10.PartTwo`: takes the loop to be the keys of the corrected score map, where the source takes the keys of its own score map; that the two key sets agree is not proved.
- `Day14.PartTwo`: uses the corrected pick of the day 14 finding; on the input `.` it gives the load 0, where the source's index underflows and `part_two` panics.
- `Day16.Contraption`: a line shorter than the first is a panic up front. The source's grid has ragged rows and panics only when a beam enters a cell missing from its row; on the input `..` newline `.` the source's part one gives 2.
- `Day16.PartOne`: inherits the up-front panic of `Day16.Contraption` on a line shorter than the first.
- `Day16.PartTwo`: inherits the up-front panic of `Day16.Contraption` on a line shorter than the first.
- Non-ASCII text: strings are sequences of characters. The hash of day 15 folds over the UTF-8 bytes of a step (`as_bytes`); the model folds over the characters' code points, which agree with the bytes on ASCII text only. Day 1's `&check[1..]` on a text whose first character takes more than one byte panics, and the model gives that panic (`Day01.LineDigits`). Two other byte slices are modelled on characters and do not panic in the model: day 8's `rest[1..rest.len() - 1]` (a node line whose `rest` starts or ends with a multi-byte character panics in the source) and day 15's `&line[..line.len() - 1]` for a step without `=` (a step whose last character takes more than one byte panics in the source).
- Panic messages: Rust formats numbers and values into some messages (slice bounds in day 13, the tuple in day 7's `panic!`, nom's `expect` errors in days 5 and 6). The model keeps a fixed text for each.
- I/O: the `solution!` macro, reading the example files and the `tests` modules are not modelled. Each test's asserted total needs an example file, which is not part of this model. Where a test asserts something about a literal line, a general round trip covers it (days 5 and 6) or a small example lemma does (days 4, 6 and 15).
- `DefaultHasher` in day 14: the `seen_hashes` map is keyed by the platform itself, so two states are the same exactly when the platforms are equal (a hash collision is not modelled).
- Parallel iterators (`rayon` in days 5, 12 and 16) are modelled as sequential folds, sums and maxima, and `#[memoize]` in day 12 as the plain recursion.
- The `Lazy<Mutex<HashMap>>` rank tables of day 7 are constant functions.
- `HashMap` iteration order: where a sum or a search runs over a map, the model takes an arbitrary enumeration of its keys, returned as a ghost out-parameter.
- `Day11.CalculateDistances`: the pair sum is proved for the enumeration the loop used. That it is the same for every enumeration of the galaxies is not proved.
- `primes::factors` and the "LCM" of day 8 part two: this is a call into a library that is not part of this model.
- `Day08.SolvePath`: the loop has no bound in the source and may run forever. The model counts steps against a budget and returns `Unfinished` when the budget runs out. `Day08.SolveLonger` shows that the answer no longer depends on the budget once it is reached.
- `Day10.WalkFrom`: the walk along the pipes carries a step budget of four times the number of tiles plus one. A walk that would run longer panics with "the walk does not end" in the model. The source loops forever there.
- `Day05.ParseMap`: the round trips of the map and section parsers (from written text back to the parsed map) are not proved. The round trips of the range, name, space-separated and seed-list parsers are.
- `Day07.Solve`: a hand with a card outside the rank table panics in the model whenever there are at least two hands. The source panics only when the sort happens to compare that card.
- Arithmetic sequences in day 9: that an arithmetic sequence extrapolates by its common difference is not stated as a lemma. It follows from `Day09.NextIsSumOfLasts`.
- `Day15.PartOne`: the sum is bounded by 255 per step. Its exact value is the sum of `Day15.Hash` over the steps, as in the definition.
- The commented-out brute force of `src/bin/12.rs:6-68` is not part of the solver and is not modelled.

## Findings

| source | as written | input that shows it | evidently intended | confidence | as-written member | corrected member |
|---|---|---|---|---|---|---|
| src/bin/03.rs:96-97 | a number that ends its line gets `x2 = maxx - 1`, where `maxx` is the widest column seen so far, so the last digit of the widest line is dropped from the part | the rows `12` and `..*`: the part 12 gets columns 0..0, so the `*` diagonal to its `2` is not seen and part one misses 12 | `x2` is the column of the run's last digit, the line's last column | not executed | Day03.AsWrittenMissesCorner | Day03.LinePartsSound |
| src/bin/05.rs:28 | `value <= from + length` also maps the value one past the end of a range | the range (50, 98, 2) maps 100 to 52, although 100 is outside 98..99 | `value < from + length`, the half-open range | not executed | Day05.AsWrittenOverreach | Day05.TranslateInDestination |
| src/bin/10.rs:56 | `previous` is set once before the two walks, so the second walk starts with `previous` at the last cell of the first walk; when the first end listed for its first pipe is `S`, it steps straight back to `S` and only the first walk's scores count (when that end is not `S` the second walk goes round and the result can still be right, as on the square sample) | the ring `FS7`, bar-dot-bar, `L-J` (S at column 1 of row 0): part one gives 6 | `previous` starts at `S` for each walk, and the farthest point of the 8-cell ring is 4 | not executed | Day10Findings.AsWrittenRing | Day10Findings.CorrectedRing |
| src/bin/14.rs:172-176 | the index `index + (loops - index) % (i - index) - 1` is one period too early when the remainder is 0, and -1 (an out-of-bounds `usize`) when also `index` is 0 | the input `.`: the platform repeats at once (index 0, i 1), the index is -1 and `part_two` panics | `index + (loops - 1 - index) % (i - index)`, the load after a billion cycles: 0 for `.` | not executed | Day14Findings.AsWrittenWithoutRoundRocks | Day14Spec.IntendedEndCorrect |
