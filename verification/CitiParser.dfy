/**
Reading transactions out of text copied from the Citi web page
(src/services/citi_import/parser.py): four lines a transaction, a Polish date first
and the amount last, with anything between the blocks.
*/
module CitiParser {
  import opened Wrappers
  import opened Calendar
  import opened Text
  import opened Filters

  /** What `float()` can answer. */
  datatype Float = Finite(value: real) | Infinity(negative: bool) | NotANumber

  /** The library functions `str.isalpha`, `str.upper` and `float`, the last one None for a ValueError. */
  datatype Library = Library(isAlpha: char -> bool, upper: char -> string, float: string -> Option<Float>)

  datatype ParsedTransaction = ParsedTransaction(
    date: Date, payee: string, amountText: string, amountCurrency: string, amountValue: string)

  datatype ParseResult = ParseResult(transactions: seq<ParsedTransaction>, warnings: seq<string>)

  /** The only exception that leaves the parser: a day or year too large for the date constructor. */
  datatype ParseError = OverflowError

  // ----- lines and words -----

  /** The characters at which `splitlines` breaks. */
  predicate IsLineBreak(c: char) {
    '\U{A}' <= c <= '\U{D}' || '\U{1C}' <= c <= '\U{1E}' || c in {'\U{85}', '\U{2028}', '\U{2029}'}
  }

  function LineLength(s: string): (n: nat)
    ensures n <= |s|
    ensures forall i | 0 <= i < n :: !IsLineBreak(s[i])
    ensures n < |s| ==> IsLineBreak(s[n])
  {
    if s != [] && !IsLineBreak(s[0]) then 1 + LineLength(s[1..]) else 0
  }

  /** The trimmed lines that are not blank. A break of two characters only adds an empty line, which is dropped. */
  function Lines(raw: string): seq<string>
    decreases |raw|
  {
    if raw == [] then []
    else
      var n := LineLength(raw);
      var line := Strip(raw[..n]);
      (if line == "" then [] else [line]) + (if n < |raw| then Lines(raw[n + 1..]) else [])
  }

  // ----- dates -----

  const MAX_INT_DIGITS := 4300
  const MIN_C_INT := -0x8000_0000
  const MAX_C_INT := 0x7FFF_FFFF

  /** Decimal digits, with single underscores allowed between them. */
  function ReadDigits(s: string): Option<nat> {
    if s == [] || !IsDigit(s[|s| - 1]) then None
    else
      var digit := s[|s| - 1] as int - '0' as int;
      if |s| == 1 then Some(digit)
      else
        var before := if s[|s| - 2] == '_' then ReadDigits(s[..|s| - 2]) else ReadDigits(s[..|s| - 1]);
        if before.None? then None else Some(before.value * 10 + digit)
  }

  function CountDigits(s: string): nat {
    if s == [] then 0 else CountDigits(s[..|s| - 1]) + (if IsDigit(s[|s| - 1]) then 1 else 0)
  }

  /** `int(word)`; None for a ValueError. */
  function ReadInt(word: string): Option<int> {
    var signed := word != [] && word[0] in "+-";
    var digits := if signed then word[1..] else word;
    var n := ReadDigits(digits);
    if n.None? || CountDigits(digits) > MAX_INT_DIGITS then None
    else Some(if signed && word[0] == '-' then -(n.value as int) else n.value as int)
  }

  const MONTHS_PL: map<string, int> := map[
    "sty" := 1, "lut" := 2, "mar" := 3, "kwi" := 4, "maj" := 5, "cze" := 6, "lip" := 7, "sie" := 8, "wrz" := 9,
    "pa\U{17A}" := 10, "paz" := 10, "lis" := 11, "gru" := 12]

  function LowerPolish(s: string): string {
    seq(|s|, i requires 0 <= i < |s| => if s[i] == '\U{179}' then '\U{17A}' else LowerChar(s[i]))
  }

  /** A month is recognised by its first three letters. */
  function ReadMonth(word: string): Option<int> {
    var key := LowerPolish(if |word| >= 3 then word[..3] else word);
    if key in MONTHS_PL then Some(MONTHS_PL[key]) else None
  }

  lemma BeginningDecides(beginning: string, ending: string)
    requires |beginning| == 3 && beginning in MONTHS_PL
    requires forall c | c in beginning :: 'a' <= c <= 'z' || c == '\U{17A}'
    ensures ReadMonth(beginning + ending) == Some(MONTHS_PL[beginning])
  {
    assert (beginning + ending)[..3] == beginning;
    assert LowerPolish(beginning) == beginning;
  }

  /** Every month is recognised by its name, as it is written in dates. */
  lemma MonthsOfSpringAreKnown()
    ensures ReadMonth("sty" + "cznia") == Some(1) && ReadMonth("lut" + "ego") == Some(2)
    ensures ReadMonth("mar" + "ca") == Some(3) && ReadMonth("kwi" + "etnia") == Some(4)
  {
    BeginningDecides("sty", "cznia");
    BeginningDecides("lut", "ego");
    BeginningDecides("mar", "ca");
    BeginningDecides("kwi", "etnia");
  }

  lemma MonthsOfSummerAreKnown()
    ensures ReadMonth("maj" + "a") == Some(5) && ReadMonth("cze" + "rwca") == Some(6)
    ensures ReadMonth("lip" + "ca") == Some(7) && ReadMonth("sie" + "rpnia") == Some(8)
  {
    BeginningDecides("maj", "a");
    BeginningDecides("cze", "rwca");
    BeginningDecides("lip", "ca");
    BeginningDecides("sie", "rpnia");
  }

  lemma MonthsOfAutumnAreKnown()
    ensures ReadMonth("wrz" + "e\U{15B}nia") == Some(9) && ReadMonth("pa\U{17A}" + "dziernika") == Some(10)
    ensures ReadMonth("paz" + "dziernika") == Some(10)
    ensures ReadMonth("lis" + "topada") == Some(11) && ReadMonth("gru" + "dnia") == Some(12)
  {
    BeginningDecides("wrz", "e\U{15B}nia");
    BeginningDecides("pa\U{17A}", "dziernika");
    BeginningDecides("paz", "dziernika");
    BeginningDecides("lis", "topada");
    BeginningDecides("gru", "dnia");
  }

  function ParsePolishDate(value: string): Result<Option<Date>, ParseError> {
    var parts := Words(Strip(value));
    if |parts| != 3 then Ok(None)
    else
      var day, year, month := ReadInt(parts[0]), ReadInt(parts[2]), ReadMonth(parts[1]);
      if day.None? || year.None? || month.None? then Ok(None)
      else if !(MIN_C_INT <= day.value <= MAX_C_INT && MIN_C_INT <= year.value <= MAX_C_INT) then Err(OverflowError)
      else if ValidDate(year.value, month.value, day.value)
      then Ok(Some(RawDate.Date(year.value, month.value, day.value)))
      else Ok(None)
  }

  /** A date whose day or year does not fit the date constructor's integers. */
  predicate DateOutOfRange(line: string) {
    var parts := Words(Strip(line));
    && |parts| == 3
    && ReadInt(parts[0]).Some? && ReadInt(parts[2]).Some? && ReadMonth(parts[1]).Some?
    && var day, year := ReadInt(parts[0]).value, ReadInt(parts[2]).value;
       day < MIN_C_INT || MAX_C_INT < day || year < MIN_C_INT || MAX_C_INT < year
  }

  /** Such a date, and nothing else, makes reading a line raise. */
  lemma DateRaisesIff(line: string)
    ensures ParsePolishDate(line).Err? <==> DateOutOfRange(line)
  {
  }

  // ----- amounts -----

  datatype ParsedAmount = ParsedAmount(normalizedValue: string, currency: string, value: Float)

  /** Without spaces, and with a decimal point. */
  function Compact(s: string): string {
    if s == [] then []
    else (if s[0] == ' ' then "" else if s[0] == ',' then "." else [s[0]]) + Compact(s[1..])
  }

  function UpperLetters(lib: Library, s: string): string {
    if s == [] then [] else (if lib.isAlpha(s[0]) then lib.upper(s[0]) else "") + UpperLetters(lib, s[1..])
  }

  function RemoveSuffix(s: string, suffix: string): string {
    if |suffix| <= |s| && s[|s| - |suffix|..] == suffix then s[..|s| - |suffix|] else s
  }

  function ParseAmount(lib: Library, value: string): Option<ParsedAmount> {
    var compact := Compact(value);
    var letters := UpperLetters(lib, compact);
    var currency := if letters == "" then "PLN" else letters;
    var number := RemoveSuffix(compact, currency);
    if number == "" || lib.float(number).None? then None
    else Some(ParsedAmount(number, currency, lib.float(number).value))
  }

  predicate Positive(f: Float) {
    match f
    case Finite(value) => value > 0.0
    case Infinity(negative) => !negative
    case NotANumber => false
  }

  // ----- parsing -----

  /** How the loop reads dates and amounts. */
  datatype Reader = Reader(date: string -> Result<Option<Date>, ParseError>, amount: string -> Option<ParsedAmount>)

  function CitiReader(lib: Library): Reader {
    Reader((line: string) => ParsePolishDate(line), (line: string) => ParseAmount(lib, line))
  }

  function IncompleteBlock(line: nat): string {
    "Incomplete transaction block starting at line " + NatText(line)
  }

  function InvalidAmount(line: nat, amountLine: string): string {
    "Skipped transaction at line " + NatText(line) + ": invalid amount '" + amountLine + "'"
  }

  /** One result in front of the rest. */
  function Before(first: ParseResult, rest: Result<ParseResult, ParseError>): Result<ParseResult, ParseError> {
    if rest.Err? then rest
    else Ok(ParseResult(first.transactions + rest.value.transactions, first.warnings + rest.value.warnings))
  }

  /** What the lines from `index` on contribute. */
  function ParseFrom(reader: Reader, lines: seq<string>, index: nat, includePositive: bool):
    Result<ParseResult, ParseError>
    decreases |lines| - index
  {
    if index >= |lines| then Ok(ParseResult([], []))
    else
      var date := reader.date(lines[index]);
      if date.Err? then Err(date.error)
      else if date.value.None? then ParseFrom(reader, lines, index + 1, includePositive)
      else if index + 3 >= |lines| then Ok(ParseResult([], [IncompleteBlock(index + 1)]))
      else
        Before(ParseBlock(reader, lines, index, date.value.value, includePositive),
               ParseFrom(reader, lines, index + 4, includePositive))
  }

  function ParseBlock(reader: Reader, lines: seq<string>, index: nat, date: Date, includePositive: bool): ParseResult
    requires index + 3 < |lines|
  {
    var amount := reader.amount(lines[index + 3]);
    if amount.None? then ParseResult([], [InvalidAmount(index + 1, lines[index + 3])])
    else if !includePositive && Positive(amount.value.value) then ParseResult([], [])
    else
      ParseResult([ParsedTransaction(date, lines[index + 1], lines[index + 3],
                                     amount.value.currency, amount.value.normalizedValue)], [])
  }

  function ParseText(lib: Library, raw: string, includePositive: bool): Result<ParseResult, ParseError> {
    ParseFrom(CitiReader(lib), Lines(raw), 0, includePositive)
  }

  lemma BeforeAssociates(a: ParseResult, b: ParseResult, rest: Result<ParseResult, ParseError>)
    ensures Before(a, Before(b, rest)) ==
            Before(ParseResult(a.transactions + b.transactions, a.warnings + b.warnings), rest)
  {
    if rest.Ok? {
      var r := rest.value;
      assert a.transactions + (b.transactions + r.transactions) == (a.transactions + b.transactions) + r.transactions;
      assert a.warnings + (b.warnings + r.warnings) == (a.warnings + b.warnings) + r.warnings;
    }
  }

  lemma NothingBefore(rest: Result<ParseResult, ParseError>)
    ensures Before(ParseResult([], []), rest) == rest
  {
    if rest.Ok? {
      assert [] + rest.value.transactions == rest.value.transactions && [] + rest.value.warnings == rest.value.warnings;
    }
  }

  lemma NothingAfter(first: ParseResult)
    ensures Before(first, Ok(ParseResult([], []))) == Ok(first)
  {
    assert first.transactions + [] == first.transactions && first.warnings + [] == first.warnings;
  }

  /** What was collected so far, followed by what the rest contributes, is the whole result. */
  ghost predicate Collected(reader: Reader, lines: seq<string>, index: nat, includePositive: bool, sofar: ParseResult) {
    ParseFrom(reader, lines, 0, includePositive) == Before(sofar, ParseFrom(reader, lines, index, includePositive))
  }

  lemma CollectedOneBlock(
    reader: Reader, lines: seq<string>, index: nat, includePositive: bool, sofar: ParseResult, date: Date)
    requires Collected(reader, lines, index, includePositive, sofar)
    requires index + 3 < |lines| && reader.date(lines[index]) == Ok(Some(date))
    ensures var block := ParseBlock(reader, lines, index, date, includePositive);
            Collected(reader, lines, index + 4, includePositive,
                      ParseResult(sofar.transactions + block.transactions, sofar.warnings + block.warnings))
  {
    BeforeAssociates(sofar, ParseBlock(reader, lines, index, date, includePositive),
                     ParseFrom(reader, lines, index + 4, includePositive));
  }

  /** The part of the loop body that reads the block starting at a date. */
  method ReadBlock(reader: Reader, lines: seq<string>, index: nat, date: Date, includePositive: bool)
    returns (transactions: seq<ParsedTransaction>, warnings: seq<string>)
    requires index + 3 < |lines|
    ensures ParseResult(transactions, warnings) == ParseBlock(reader, lines, index, date, includePositive)
  {
    var payee := lines[index + 1];
    var amountLine := lines[index + 3];
    var amount := reader.amount(amountLine);
    if amount.None? {
      return [], [InvalidAmount(index + 1, amountLine)];
    }
    if !includePositive && Positive(amount.value.value) {
      return [], [];
    }
    return [ParsedTransaction(date, payee, amountLine, amount.value.currency, amount.value.normalizedValue)], [];
  }

  /** The loop of `CitiTextParser.parse`. */
  method ParseLines(reader: Reader, lines: seq<string>, includePositive: bool)
    returns (r: Result<ParseResult, ParseError>)
    ensures r == ParseFrom(reader, lines, 0, includePositive)
  {
    var transactions: seq<ParsedTransaction>, warnings: seq<string> := [], [];
    var index := 0;
    NothingBefore(ParseFrom(reader, lines, 0, includePositive));
    while index < |lines|
      invariant Collected(reader, lines, index, includePositive, ParseResult(transactions, warnings))
      decreases |lines| - index
    {
      var parsedDate := reader.date(lines[index]);
      if parsedDate.Err? {
        return Err(parsedDate.error);
      }
      if parsedDate.value.None? {
        index := index + 1;
        continue;
      }
      if index + 3 >= |lines| {
        warnings := warnings + [IncompleteBlock(index + 1)];
        assert transactions + [] == transactions;
        r := Ok(ParseResult(transactions, warnings));
        return;
      }
      CollectedOneBlock(reader, lines, index, includePositive, ParseResult(transactions, warnings),
                        parsedDate.value.value);
      var more, warning := ReadBlock(reader, lines, index, parsedDate.value.value, includePositive);
      transactions, warnings := transactions + more, warnings + warning;
      index := index + 4;
    }
    NothingAfter(ParseResult(transactions, warnings));
    r := Ok(ParseResult(transactions, warnings));
  }

  /** `CitiTextParser.parse`. */
  method Parse(lib: Library, raw: string, includePositive: bool) returns (r: Result<ParseResult, ParseError>)
    ensures r == ParseText(lib, raw, includePositive)
  {
    r := ParseLines(CitiReader(lib), Lines(raw), includePositive);
  }

  // ----- excluding positive amounts is filtering -----

  function NotPositive(lib: Library): ParsedTransaction -> bool {
    (t: ParsedTransaction) => lib.float(t.amountValue).Some? && !Positive(lib.float(t.amountValue).value)
  }

  /** The value of every amount read is what `float` makes of its text. */
  ghost predicate ReadsAs(reader: Reader, lib: Library) {
    forall line | reader.amount(line).Some? ::
      lib.float(reader.amount(line).value.normalizedValue) == Some(reader.amount(line).value.value)
  }

  lemma BlockFilters(lib: Library, reader: Reader, lines: seq<string>, index: nat, date: Date)
    requires ReadsAs(reader, lib)
    requires index + 3 < |lines|
    ensures var all := ParseBlock(reader, lines, index, date, true);
            ParseBlock(reader, lines, index, date, false) ==
            ParseResult(Filter(NotPositive(lib), all.transactions), all.warnings)
  {
    var all := ParseBlock(reader, lines, index, date, true);
    if all.transactions != [] {
      assert all.transactions == [all.transactions[0]] && all.transactions[1..] == [];
    }
  }

  lemma {:induction false} ExcludingFrom(lib: Library, reader: Reader, lines: seq<string>, index: nat)
    requires ReadsAs(reader, lib)
    ensures var all := ParseFrom(reader, lines, index, true);
            ParseFrom(reader, lines, index, false) ==
            if all.Err? then all
            else Ok(ParseResult(Filter(NotPositive(lib), all.value.transactions), all.value.warnings))
    decreases |lines| - index
  {
    if index < |lines| && reader.date(lines[index]).Ok? {
      var date := reader.date(lines[index]).value;
      if date.None? {
        ExcludingFrom(lib, reader, lines, index + 1);
      } else if index + 3 < |lines| {
        ExcludingFrom(lib, reader, lines, index + 4);
        BlockFilters(lib, reader, lines, index, date.value);
        var rest := ParseFrom(reader, lines, index + 4, true);
        if rest.Ok? {
          FilterConcat(NotPositive(lib), ParseBlock(reader, lines, index, date.value, true).transactions,
                       rest.value.transactions);
        }
      }
    }
  }

  /** Leaving out positive amounts is filtering them out of the full result; warnings and exceptions are the same. */
  lemma ExcludingPositivesFilters(lib: Library, raw: string)
    ensures var all := ParseText(lib, raw, true);
            ParseText(lib, raw, false) ==
            if all.Err? then all
            else Ok(ParseResult(Filter(NotPositive(lib), all.value.transactions), all.value.warnings))
  {
    ExcludingFrom(lib, CitiReader(lib), Lines(raw), 0);
  }

  /** The amount is a number above zero, or positive infinity. */
  predicate IsAboveZero(f: Option<Float>) {
    match f
    case Some(Finite(value)) => value > 0.0
    case Some(Infinity(negative)) => !negative
    case _ => false
  }

  function NotAboveZero(lib: Library): ParsedTransaction -> bool {
    (t: ParsedTransaction) => !IsAboveZero(lib.float(t.amountValue))
  }

  lemma {:induction false} AmountsAreReadable(
    lib: Library, reader: Reader, lines: seq<string>, index: nat, includePositive: bool, t: ParsedTransaction)
    requires ReadsAs(reader, lib) && ParseFrom(reader, lines, index, includePositive).Ok?
    requires t in ParseFrom(reader, lines, index, includePositive).value.transactions
    ensures lib.float(t.amountValue).Some?
    decreases |lines| - index
  {
    var date := reader.date(lines[index]).value;
    if date.None? {
      AmountsAreReadable(lib, reader, lines, index + 1, includePositive, t);
    } else if t !in ParseBlock(reader, lines, index, date.value, includePositive).transactions {
      AmountsAreReadable(lib, reader, lines, index + 4, includePositive, t);
    }
  }

  lemma PositivesAreAboveZero(lib: Library, raw: string)
    requires ParseText(lib, raw, true).Ok?
    ensures var all := ParseText(lib, raw, true).value.transactions;
            Filter(NotPositive(lib), all) == Filter(NotAboveZero(lib), all)
  {
    var all := ParseText(lib, raw, true).value.transactions;
    forall t | t in all ensures NotPositive(lib)(t) == NotAboveZero(lib)(t) {
      AmountsAreReadable(lib, CitiReader(lib), Lines(raw), 0, true, t);
    }
    FiltersAgree(NotPositive(lib), NotAboveZero(lib), all);
  }

  /** What is kept when positives are excluded: in order, exactly the transactions whose amount is not above zero. */
  lemma ExcludingKeepsTheRest(lib: Library, raw: string) returns (at: seq<nat>)
    requires ParseText(lib, raw, true).Ok?
    ensures ParseText(lib, raw, false).Ok?
    ensures KeptAt(at, ParseText(lib, raw, false).value.transactions, NotAboveZero(lib),
                   ParseText(lib, raw, true).value.transactions)
  {
    ExcludingPositivesFilters(lib, raw);
    PositivesAreAboveZero(lib, raw);
    at := FilterKeepsPositions(NotAboveZero(lib), ParseText(lib, raw, true).value.transactions);
  }

  // ----- when parsing raises -----

  /** The lines at which the loop looks for a date. */
  function Visited(reader: Reader, lines: seq<string>, index: nat): seq<nat>
    decreases |lines| - index
  {
    if index >= |lines| then []
    else
      var date := reader.date(lines[index]);
      [index] + (if date.Err? then []
                 else if date.value.None? then Visited(reader, lines, index + 1)
                 else Visited(reader, lines, index + 4))
  }

  ghost predicate MeetsOverflow(reader: Reader, lines: seq<string>, index: nat) {
    exists i | i in Visited(reader, lines, index) :: i < |lines| && reader.date(lines[i]).Err?
  }

  lemma MeetsOverflowSteps(reader: Reader, lines: seq<string>, index: nat, next: nat)
    requires Visited(reader, lines, index) == [index] + Visited(reader, lines, next)
    requires index < |lines| && reader.date(lines[index]).Ok?
    ensures MeetsOverflow(reader, lines, index) <==> MeetsOverflow(reader, lines, next)
  {
  }

  lemma {:induction false} ParsingRaisesFrom(reader: Reader, lines: seq<string>, index: nat, includePositive: bool)
    ensures ParseFrom(reader, lines, index, includePositive).Err? <==> MeetsOverflow(reader, lines, index)
    decreases |lines| - index
  {
    if index < |lines| {
      var date := reader.date(lines[index]);
      if date.Ok? {
        var next := if date.value.None? then index + 1 else index + 4;
        ParsingRaisesFrom(reader, lines, next, includePositive);
        MeetsOverflowSteps(reader, lines, index, next);
      } else {
        assert index in Visited(reader, lines, index);
      }
    }
  }

  /** The numbers of the lines at which the loop looks for a date: every line but the last three of each block. */
  function DateLines(lib: Library, raw: string): seq<nat> {
    Visited(CitiReader(lib), Lines(raw), 0)
  }

  /**
  Parsing raises exactly when one of the lines at which the loop looks for a date has three words, a known month and
  readable numbers, but a day or year outside the 32-bit integers of the date constructor.
  */
  lemma ParsingRaisesIff(lib: Library, raw: string, includePositive: bool)
    ensures ParseText(lib, raw, includePositive).Err? <==>
            exists i | i in DateLines(lib, raw) :: i < |Lines(raw)| && DateOutOfRange(Lines(raw)[i])
  {
    ParsingRaisesFrom(CitiReader(lib), Lines(raw), 0, includePositive);
    MeetsOverflowIsOutOfRange(lib, Lines(raw));
  }

  lemma MeetsOverflowIsOutOfRange(lib: Library, lines: seq<string>)
    ensures MeetsOverflow(CitiReader(lib), lines, 0) <==>
            exists i | i in Visited(CitiReader(lib), lines, 0) :: i < |lines| && DateOutOfRange(lines[i])
  {
    forall i: nat | i < |lines| ensures CitiReader(lib).date(lines[i]).Err? <==> DateOutOfRange(lines[i]) {
      DateRaisesIff(lines[i]);
    }
  }
}
