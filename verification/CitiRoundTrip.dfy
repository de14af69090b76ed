/**
The Citi parser undoes rendering: four-line blocks with canonical dates and amounts,
with arbitrary other lines between them, come back exactly. Blocks with an unreadable
amount and a block cut off at the end leave one warning each, with the right line.
*/
module CitiRoundTrip {
  import opened Wrappers
  import opened Calendar
  import opened Text
  import opened Filters
  import opened CitiParser

  /** An amount as the bank prints it: grouped digits, a decimal comma, and perhaps a currency code. */
  datatype Amount = Amount(negative: bool, grouped: string, cents: string, currency: string)

  datatype Piece =
    | Junk(line: string)
    | Block(date: Date, monthWord: string, payee: string, extra: string, amount: Amount)
    | Damaged(date: Date, monthWord: string, payee: string, extra: string, amountLine: string)

  // ----- rendering -----

  function AmountText(a: Amount): string {
    (if a.negative then "-" else "") + a.grouped + "," + a.cents + (if a.currency == "" then "" else " " + a.currency)
  }

  /** The amount as `float` reads it. */
  function NumberText(a: Amount): string {
    (if a.negative then "-" else "") + Compact(a.grouped) + "." + a.cents
  }

  function DateLine(date: Date, monthWord: string): string {
    DayMonthYear(date.day, monthWord, date.year)
  }

  /** A line that looks like a date, whether or not it is one. */
  function DayMonthYear(day: nat, monthWord: string, year: nat): string {
    NatText(day) + " " + monthWord + " " + NatText(year)
  }

  function PieceLines(p: Piece): seq<string> {
    match p
    case Junk(line) => [line]
    case Block(date, monthWord, payee, extra, amount) => [DateLine(date, monthWord), payee, extra, AmountText(amount)]
    case Damaged(date, monthWord, payee, extra, amountLine) => [DateLine(date, monthWord), payee, extra, amountLine]
  }

  function AllLines(ps: seq<Piece>): seq<string> {
    if ps == [] then [] else PieceLines(ps[0]) + AllLines(ps[1..])
  }

  function RawText(lines: seq<string>): string {
    if lines == [] then "" else lines[0] + "\n" + RawText(lines[1..])
  }

  function ExpectedOf(p: Piece): seq<ParsedTransaction> {
    match p
    case Junk(_) => []
    case Damaged(_, _, _, _, _) => []
    case Block(date, _, payee, _, amount) =>
      [ParsedTransaction(date, payee, AmountText(amount), if amount.currency == "" then "PLN" else amount.currency,
                         NumberText(amount))]
  }

  function Expected(ps: seq<Piece>): seq<ParsedTransaction> {
    if ps == [] then [] else ExpectedOf(ps[0]) + Expected(ps[1..])
  }

  /** The warning about a damaged block, when `before` lines precede it. */
  function WarningsOf(p: Piece, before: nat): seq<string> {
    if p.Damaged?
    then ["Skipped transaction at line " + NatText(before + 1) + ": invalid amount '" + p.amountLine + "'"]
    else []
  }

  function ExpectedWarnings(ps: seq<Piece>, before: nat): seq<string> {
    if ps == [] then [] else WarningsOf(ps[0], before) + ExpectedWarnings(ps[1..], before + |PieceLines(ps[0])|)
  }

  /** The warning about a block whose last lines are missing. */
  function CutWarning(cut: seq<string>, before: nat): seq<string> {
    if cut == [] then [] else ["Incomplete transaction block starting at line " + NatText(before + 1)]
  }

  // ----- what may be rendered -----

  predicate ProperLine(line: string) {
    line != "" && !IsSpace(line[0]) && !IsSpace(line[|line| - 1]) && forall c | c in line :: !IsLineBreak(c)
  }

  predicate IsWord(word: string) {
    word != "" && forall i | 0 <= i < |word| :: !IsSpace(word[i])
  }

  predicate AllDigits(s: string) {
    forall i | 0 <= i < |s| :: IsDigit(s[i])
  }

  predicate AllCapitals(s: string) {
    forall i | 0 <= i < |s| :: 'A' <= s[i] <= 'Z'
  }

  predicate ProperAmount(a: Amount) {
    && a.grouped != "" && IsDigit(a.grouped[0])
    && (forall i | 0 <= i < |a.grouped| :: IsDigit(a.grouped[i]) || a.grouped[i] == ' ')
    && a.cents != "" && AllDigits(a.cents)
    && AllCapitals(a.currency)
  }

  predicate ProperPiece(p: Piece) {
    match p
    case Junk(line) => ProperLine(line) && ParsePolishDate(line) == Ok(None)
    case Block(date, monthWord, payee, extra, amount) =>
      && IsWord(monthWord)
      && ReadMonth(monthWord) == Some(date.month)
      && ProperLine(payee) && ProperLine(extra) && ProperAmount(amount)
    case Damaged(date, monthWord, payee, extra, amountLine) =>
      && IsWord(monthWord)
      && ReadMonth(monthWord) == Some(date.month)
      && ProperLine(payee) && ProperLine(extra) && ProperLine(amountLine)
  }

  /** The amount of a damaged block cannot be read. */
  predicate DamagedFor(lib: Library, p: Piece) {
    p.Damaged? ==> ParseAmount(lib, p.amountLine).None?
  }

  /** Nothing, or a block of which only the date and up to two more lines are there. */
  ghost predicate CutBlock(cut: seq<string>) {
    cut != [] ==>
      && |cut| <= 3 && (forall l | l in cut :: ProperLine(l))
      && exists date: Date, monthWord :: IsWord(monthWord) && ReadMonth(monthWord) == Some(date.month)
                                         && cut[0] == DateLine(date, monthWord)
  }

  /** The library treats ASCII as Python does, and reads every plain decimal number. */
  ghost predicate ReadsPlainText(lib: Library) {
    && (forall c | 'A' <= c <= 'Z' :: lib.isAlpha(c) && lib.upper(c) == [c])
    && (forall c | IsDigit(c) || c in "-." :: !lib.isAlpha(c))
    && (forall a | ProperAmount(a) :: lib.float(NumberText(a)).Some?)
  }

  // ----- amounts -----

  lemma {:induction false} CompactConcat(a: string, b: string)
    ensures Compact(a + b) == Compact(a) + Compact(b)
  {
    if a == [] {
      assert a + b == b;
    } else {
      assert (a + b)[1..] == a[1..] + b;
      CompactConcat(a[1..], b);
    }
  }

  lemma {:induction false} CompactKeeps(s: string)
    requires forall i | 0 <= i < |s| :: s[i] != ' ' && s[i] != ','
    ensures Compact(s) == s
  {
    if s == [] {
    } else {
      CompactKeeps(s[1..]);
      assert s == [s[0]] + s[1..];
    }
  }

  lemma {:induction false} CompactDigits(s: string)
    requires forall i | 0 <= i < |s| :: IsDigit(s[i]) || s[i] == ' '
    ensures AllDigits(Compact(s))
  {
    if s == [] {
    } else {
      CompactDigits(s[1..]);
    }
  }

  lemma {:induction false} UpperLettersConcat(lib: Library, a: string, b: string)
    ensures UpperLetters(lib, a + b) == UpperLetters(lib, a) + UpperLetters(lib, b)
  {
    if a == [] {
      assert a + b == b;
    } else {
      assert (a + b)[1..] == a[1..] + b;
      UpperLettersConcat(lib, a[1..], b);
    }
  }

  lemma {:induction false} NoLetters(lib: Library, s: string)
    requires forall i | 0 <= i < |s| :: !lib.isAlpha(s[i])
    ensures UpperLetters(lib, s) == ""
  {
    if s == [] {
    } else {
      NoLetters(lib, s[1..]);
    }
  }

  lemma {:induction false} OnlyCapitals(lib: Library, s: string)
    requires ReadsPlainText(lib) && AllCapitals(s)
    ensures UpperLetters(lib, s) == s
  {
    if s == [] {
    } else {
      OnlyCapitals(lib, s[1..]);
      assert s == [s[0]] + s[1..];
    }
  }

  lemma CompactPieces(sign: string, grouped: string, cents: string)
    requires sign == "" || sign == "-"
    requires AllDigits(cents)
    ensures Compact(sign + grouped + "," + cents) == sign + Compact(grouped) + "." + cents
  {
    CompactKeeps(sign);
    CompactKeeps(cents);
    CompactConcat(sign + grouped + ",", cents);
    CompactConcat(sign + grouped, ",");
    CompactConcat(sign, grouped);
    assert Compact(",") == "." by {
      assert ","[1..] == "";
    }
  }

  lemma CompactAmount(a: Amount)
    requires ProperAmount(a)
    ensures Compact(AmountText(a)) == NumberText(a) + a.currency
  {
    var sign := if a.negative then "-" else "";
    var tail := if a.currency == "" then "" else " " + a.currency;
    CompactKeeps(a.currency);
    assert Compact(tail) == a.currency by {
      assert a.currency != "" ==> tail[1..] == a.currency;
    }
    CompactPieces(sign, a.grouped, a.cents);
    CompactConcat(sign + a.grouped + "," + a.cents, tail);
  }

  lemma NumberTextIsPlain(a: Amount)
    requires ProperAmount(a)
    ensures forall i | 0 <= i < |NumberText(a)| :: IsDigit(NumberText(a)[i]) || NumberText(a)[i] in "-."
    ensures IsDigit(NumberText(a)[|NumberText(a)| - 1])
  {
    CompactDigits(a.grouped);
  }

  lemma CurrencyIsRead(lib: Library, a: Amount)
    requires ReadsPlainText(lib) && ProperAmount(a)
    ensures UpperLetters(lib, NumberText(a) + a.currency) == a.currency
  {
    NumberTextIsPlain(a);
    NoLetters(lib, NumberText(a));
    OnlyCapitals(lib, a.currency);
    UpperLettersConcat(lib, NumberText(a), a.currency);
  }

  lemma CurrencyIsRemoved(number: string, currency: string)
    requires number != "" && IsDigit(number[|number| - 1])
    ensures RemoveSuffix(number + currency, if currency == "" then "PLN" else currency) == number
  {
    if currency == "" {
      assert number + "" == number;
      assert |number| >= 3 ==> number[|number| - 3..][2] == number[|number| - 1];
    } else {
      assert (number + currency)[|number|..] == currency;
    }
  }

  /** Reading a printed amount gives its number and its currency, złoty when none is printed. */
  lemma AmountComesBack(lib: Library, a: Amount)
    requires ReadsPlainText(lib) && ProperAmount(a)
    ensures ParseAmount(lib, AmountText(a)) ==
            Some(ParsedAmount(NumberText(a), if a.currency == "" then "PLN" else a.currency,
                              lib.float(NumberText(a)).value))
  {
    CompactAmount(a);
    CurrencyIsRead(lib, a);
    NumberTextIsPlain(a);
    CurrencyIsRemoved(NumberText(a), a.currency);
  }

  // ----- dates -----

  lemma {:induction false} NatTextReadsBack(n: nat)
    ensures ReadDigits(NatText(n)) == Some(n)
  {
    NatTextIsDigits(n);
    if n < 10 {
    } else {
      NatTextReadsBack(n / 10);
      NatTextIsDigits(n / 10);
      var before := NatText(n / 10);
      assert (before + [Digit(n)])[..|before|] == before;
      assert before[|before| - 1] in before;
    }
  }

  lemma {:induction false} CountDigitsIsBounded(s: string)
    ensures CountDigits(s) <= |s|
  {
    if s == [] {
    } else {
      CountDigitsIsBounded(s[..|s| - 1]);
    }
  }

  function PowerOfTen(k: nat): nat {
    if k == 0 then 1 else 10 * PowerOfTen(k - 1)
  }

  lemma {:induction false} NatTextHasDigits(n: nat, k: nat)
    requires 0 < k && n < PowerOfTen(k)
    ensures |NatText(n)| <= k
  {
    if n < 10 {
    } else {
      assert k > 1;
      NatTextHasDigits(n / 10, k - 1);
    }
  }

  /** A printed number of at most 4300 digits reads back. */
  lemma NumbersComeBack(n: nat, k: nat)
    requires 0 < k <= MAX_INT_DIGITS && n < PowerOfTen(k)
    ensures ReadInt(NatText(n)) == Some(n)
  {
    NatTextReadsBack(n);
    NatTextIsDigits(n);
    NatTextHasDigits(n, k);
    CountDigitsIsBounded(NatText(n));
    assert NatText(n)[0] in NatText(n);
  }

  lemma SkipSpace(rest: string)
    ensures Words(" " + rest) == Words(rest)
  {
    assert (" " + rest)[1..] == rest;
  }

  lemma WordThenRest(word: string, rest: string)
    requires IsWord(word)
    ensures Words(word + " " + rest) == [word] + Words(rest)
  {
    assert word + " " + rest == word + (" " + rest);
    FirstWord(word, " " + rest);
    SkipSpace(rest);
  }

  lemma LastWord(word: string)
    requires IsWord(word)
    ensures Words(word) == [word]
  {
    FirstWord(word, "");
    assert word + "" == word;
  }

  lemma ThreeWords(a: string, b: string, c: string)
    requires IsWord(a)
    requires IsWord(b)
    requires IsWord(c)
    ensures Words(a + " " + b + " " + c) == [a, b, c]
  {
    assert a + " " + b + " " + c == a + " " + (b + " " + c);
    WordThenRest(a, b + " " + c);
    WordThenRest(b, c);
    LastWord(c);
  }

  lemma NatTextIsAWord(n: nat)
    ensures IsWord(NatText(n))
  {
    NatTextIsDigits(n);
    forall i | 0 <= i < |NatText(n)| ensures !IsSpace(NatText(n)[i]) {
      assert NatText(n)[i] in NatText(n);
    }
  }

  lemma WordsMakeALine(a: string, b: string, c: string)
    requires IsWord(a) && IsWord(b) && IsWord(c)
    ensures ProperLine(a + " " + b + " " + c)
  {
    var line := a + " " + b + " " + c;
    assert line[0] == a[0] && line[|line| - 1] == c[|c| - 1];
    forall x | x in line ensures !IsLineBreak(x) {
      assert x in a || x == ' ' || x in b || x in c;
    }
  }

  lemma DayMonthYearIsProper(day: nat, monthWord: string, year: nat)
    requires IsWord(monthWord)
    ensures ProperLine(DayMonthYear(day, monthWord, year))
    ensures Words(Strip(DayMonthYear(day, monthWord, year))) == [NatText(day), monthWord, NatText(year)]
  {
    NatTextIsAWord(day);
    NatTextIsAWord(year);
    WordsMakeALine(NatText(day), monthWord, NatText(year));
    NothingToStrip(DayMonthYear(day, monthWord, year));
    ThreeWords(NatText(day), monthWord, NatText(year));
  }

  lemma SmallNumbersComeBack(n: nat)
    requires n <= 9999
    ensures ReadInt(NatText(n)) == Some(n)
  {
    assert PowerOfTen(4) == 10000;
    NumbersComeBack(n, 4);
  }

  lemma ThreeWordsMakeADate(line: string, day: string, monthWord: string, year: string, date: Date)
    requires Words(Strip(line)) == [day, monthWord, year]
    requires ReadInt(day) == Some(date.day) && ReadMonth(monthWord) == Some(date.month)
    requires ReadInt(year) == Some(date.year)
    ensures ParsePolishDate(line) == Ok(Some(date))
  {
  }

  /** Reading a printed date gives the date. */
  lemma DateComesBack(date: Date, monthWord: string)
    requires IsWord(monthWord) && ReadMonth(monthWord) == Some(date.month)
    ensures ParsePolishDate(DateLine(date, monthWord)) == Ok(Some(date))
  {
    DayMonthYearIsProper(date.day, monthWord, date.year);
    SmallNumbersComeBack(date.day);
    SmallNumbersComeBack(date.year);
    ThreeWordsMakeADate(DateLine(date, monthWord), NatText(date.day), monthWord, NatText(date.year), date);
  }

  /** Any text that starts with a known month in a year and a day beyond the 32-bit integers makes parsing raise. */
  lemma HugeDayRaises(lib: Library, day: nat, monthWord: string, year: nat, k: nat, rest: string, includePositive: bool)
    requires IsWord(monthWord) && ReadMonth(monthWord).Some?
    requires 0 < k <= MAX_INT_DIGITS && MAX_C_INT < day < PowerOfTen(k) && year < PowerOfTen(k)
    ensures DateOutOfRange(DayMonthYear(day, monthWord, year))
    ensures ParseText(lib, DayMonthYear(day, monthWord, year) + "\n" + rest, includePositive) == Err(OverflowError)
  {
    var line := DayMonthYear(day, monthWord, year);
    DayMonthYearIsProper(day, monthWord, year);
    NumbersComeBack(day, k);
    NumbersComeBack(year, k);
    DateRaisesIff(line);
    FirstLine(line, rest);
    assert CitiReader(lib).date(line).Err?;
  }

  lemma JanuaryIsKnown()
    ensures IsWord("sty") && ReadMonth("sty") == Some(1)
  {
    assert "sty"[..3] == "sty" && LowerPolish("sty") == "sty";
  }

  lemma OneMoreDigit(n: nat, d: nat)
    requires 0 < n && d < 10
    ensures NatText(10 * n + d) == NatText(n) + [('0' as int + d) as char]
  {
  }

  lemma PrintedYear()
    ensures NatText(2024) == "2024"
  {
    OneMoreDigit(2, 0);
    OneMoreDigit(20, 2);
    OneMoreDigit(202, 4);
  }

  lemma PrintedTooLarge()
    ensures NatText(3000000000) == "3000000000"
  {
    OneMoreDigit(3, 0);
    OneMoreDigit(30, 0);
    OneMoreDigit(300, 0);
    OneMoreDigit(3000, 0);
    OneMoreDigit(30000, 0);
    OneMoreDigit(300000, 0);
    OneMoreDigit(3000000, 0);
    OneMoreDigit(30000000, 0);
    OneMoreDigit(300000000, 0);
  }

  /** For example this line. */
  lemma RaisingLine(lib: Library, rest: string, includePositive: bool)
    ensures ParseText(lib, "3000000000 sty 2024" + "\n" + rest, includePositive) == Err(OverflowError)
  {
    JanuaryIsKnown();
    PrintedTooLarge();
    PrintedYear();
    assert PowerOfTen(10) == 10000000000;
    assert DayMonthYear(3000000000, "sty", 2024) == "3000000000 sty 2024";
    HugeDayRaises(lib, 3000000000, "sty", 2024, 10, rest, includePositive);
  }

  lemma AmountLineIsProper(a: Amount)
    requires ProperAmount(a)
    ensures ProperLine(AmountText(a))
  {
    var text := AmountText(a);
    assert text[0] == '-' || text[0] == a.grouped[0];
    assert text[|text| - 1] == if a.currency == "" then a.cents[|a.cents| - 1] else a.currency[|a.currency| - 1];
    forall x | x in text ensures !IsLineBreak(x) {
      assert x in "-, " || x in a.grouped || x in a.cents || x in a.currency;
    }
  }

  // ----- lines -----

  lemma FirstLine(line: string, rest: string)
    requires ProperLine(line)
    ensures Lines(line + "\n" + rest) == [line] + Lines(rest)
  {
    var raw := line + "\n" + rest;
    assert raw[|line|] == '\n';
    assert forall i | 0 <= i < |line| :: raw[i] == line[i] && line[i] in line;
    assert LineLength(raw) == |line|;
    assert raw[..|line|] == line && raw[|line| + 1..] == rest;
    NothingToStrip(line);
  }

  lemma {:induction false} LinesComeBack(lines: seq<string>)
    requires forall l | l in lines :: ProperLine(l)
    ensures Lines(RawText(lines)) == lines
  {
    if lines == [] {
    } else {
      assert lines[0] in lines;
      LinesComeBack(lines[1..]);
      FirstLine(lines[0], RawText(lines[1..]));
    }
  }

  lemma {:induction false} AllLinesAreProper(ps: seq<Piece>)
    requires forall p | p in ps :: ProperPiece(p)
    ensures forall l | l in AllLines(ps) :: ProperLine(l)
  {
    if ps == [] {
    } else {
      AllLinesAreProper(ps[1..]);
      assert ProperPiece(ps[0]);
      if ps[0].Block? {
        DayMonthYearIsProper(ps[0].date.day, ps[0].monthWord, ps[0].date.year);
        AmountLineIsProper(ps[0].amount);
      } else if ps[0].Damaged? {
        DayMonthYearIsProper(ps[0].date.day, ps[0].monthWord, ps[0].date.year);
      }
    }
  }

  // ----- the theorem -----

  /** The reader takes the date and the amount of a rendered block for what they are, and other lines for no date. */
  ghost predicate Understands(reader: Reader, p: Piece) {
    match p
    case Junk(line) => reader.date(line) == Ok(None)
    case Block(date, monthWord, _, _, amount) =>
      && reader.date(DateLine(date, monthWord)) == Ok(Some(date))
      && reader.amount(AmountText(amount)).Some?
      && reader.amount(AmountText(amount)).value.normalizedValue == NumberText(amount)
      && reader.amount(AmountText(amount)).value.currency == (if amount.currency == "" then "PLN" else amount.currency)
    case Damaged(date, monthWord, _, _, amountLine) =>
      reader.date(DateLine(date, monthWord)) == Ok(Some(date)) && reader.amount(amountLine).None?
  }

  lemma CitiUnderstands(lib: Library, p: Piece)
    requires ReadsPlainText(lib) && ProperPiece(p) && DamagedFor(lib, p)
    ensures Understands(CitiReader(lib), p)
  {
    if p.Block? {
      DateComesBack(p.date, p.monthWord);
      AmountComesBack(lib, p.amount);
    } else if p.Damaged? {
      DateComesBack(p.date, p.monthWord);
    }
  }

  lemma OnePieceComesBack(reader: Reader, lines: seq<string>, index: nat, p: Piece)
    requires Understands(reader, p)
    requires index + |PieceLines(p)| <= |lines| && lines[index..index + |PieceLines(p)|] == PieceLines(p)
    ensures ParseFrom(reader, lines, index, true) ==
            Before(ParseResult(ExpectedOf(p), WarningsOf(p, index)),
                   ParseFrom(reader, lines, index + |PieceLines(p)|, true))
  {
    var all := PieceLines(p);
    assert lines[index] == lines[index..index + |all|][0] == all[0];
    if p.Junk? {
      NothingBefore(ParseFrom(reader, lines, index + 1, true));
    } else {
      assert lines[index + 1] == lines[index..index + 4][1] == all[1];
      assert lines[index + 3] == lines[index..index + 4][3] == all[3];
    }
  }

  /** What the pieces contribute, when `before` lines precede them and `cut` follows. */
  function ExpectedResult(ps: seq<Piece>, before: nat, cut: seq<string>): ParseResult {
    ParseResult(Expected(ps), ExpectedWarnings(ps, before) + CutWarning(cut, before + |AllLines(ps)|))
  }

  lemma FirstExpected(ps: seq<Piece>, index: nat, cut: seq<string>)
    requires ps != []
    ensures Before(ParseResult(ExpectedOf(ps[0]), WarningsOf(ps[0], index)),
                   Ok(ExpectedResult(ps[1..], index + |PieceLines(ps[0])|, cut))) == Ok(ExpectedResult(ps, index, cut))
  {
    var next := index + |PieceLines(ps[0])|;
    var first, others := WarningsOf(ps[0], index), ExpectedWarnings(ps[1..], next);
    var last := CutWarning(cut, next + |AllLines(ps[1..])|);
    assert |AllLines(ps)| == |PieceLines(ps[0])| + |AllLines(ps[1..])|;
    assert first + (others + last) == first + others + last;
  }

  lemma NextLinesAreThere(lines: seq<string>, index: nat, head: seq<string>, rest: seq<string>)
    requires index <= |lines| && lines[index..] == head + rest
    ensures index + |head| <= |lines|
    ensures lines[index..index + |head|] == head && lines[index + |head|..] == rest
  {
    assert lines[index..index + |head|] == lines[index..][..|head|];
    assert lines[index + |head|..] == lines[index..][|head|..];
  }

  lemma CutBlockWarns(reader: Reader, lines: seq<string>, index: nat, cut: seq<string>)
    requires index <= |lines| && lines[index..] == cut && |cut| <= 3
    requires cut != [] ==> reader.date(cut[0]).Ok? && reader.date(cut[0]).value.Some?
    ensures ParseFrom(reader, lines, index, true) == Ok(ExpectedResult([], index, cut))
  {
    assert [] + CutWarning(cut, index) == CutWarning(cut, index);
    if cut != [] {
      assert lines[index] == lines[index..][0] == cut[0];
    }
  }

  lemma LinesFollow(lines: seq<string>, index: nat, head: seq<string>, rest: seq<string>, cut: seq<string>)
    requires index <= |lines| && lines[index..] == head + rest + cut
    ensures index + |head| <= |lines|
    ensures lines[index..index + |head|] == head && lines[index + |head|..] == rest + cut
  {
    assert head + rest + cut == head + (rest + cut);
    NextLinesAreThere(lines, index, head, rest + cut);
  }

  lemma FirstPieceIsThere(lines: seq<string>, index: nat, ps: seq<Piece>, cut: seq<string>)
    requires ps != [] && index <= |lines| && lines[index..] == AllLines(ps) + cut
    ensures var head := PieceLines(ps[0]);
            && index + |head| <= |lines| && lines[index..index + |head|] == head
            && lines[index + |head|..] == AllLines(ps[1..]) + cut
  {
    LinesFollow(lines, index, PieceLines(ps[0]), AllLines(ps[1..]), cut);
  }

  lemma PieceBeforeTheRest(reader: Reader, lines: seq<string>, index: nat, ps: seq<Piece>, cut: seq<string>)
    requires ps != [] && Understands(reader, ps[0])
    requires index <= |lines| && lines[index..] == AllLines(ps) + cut
    ensures var next := index + |PieceLines(ps[0])|;
            && next <= |lines| && lines[next..] == AllLines(ps[1..]) + cut
            && (ParseFrom(reader, lines, next, true) == Ok(ExpectedResult(ps[1..], next, cut)) ==>
                ParseFrom(reader, lines, index, true) == Ok(ExpectedResult(ps, index, cut)))
  {
    FirstPieceIsThere(lines, index, ps, cut);
    OnePieceComesBack(reader, lines, index, ps[0]);
    FirstExpected(ps, index, cut);
  }

  lemma {:induction false} PiecesComeBack(
    reader: Reader, lines: seq<string>, index: nat, ps: seq<Piece>, cut: seq<string>)
    requires forall p | p in ps :: Understands(reader, p)
    requires index <= |lines| && lines[index..] == AllLines(ps) + cut && |cut| <= 3
    requires cut != [] ==> reader.date(cut[0]).Ok? && reader.date(cut[0]).value.Some?
    ensures ParseFrom(reader, lines, index, true) == Ok(ExpectedResult(ps, index, cut))
    decreases |ps|
  {
    if ps == [] {
      assert AllLines(ps) + cut == cut;
      CutBlockWarns(reader, lines, index, cut);
    } else {
      PieceBeforeTheRest(reader, lines, index, ps, cut);
      PiecesComeBack(reader, lines, index + |PieceLines(ps[0])|, ps[1..], cut);
    }
  }

  /**
  Parsing rendered blocks gives back exactly those transactions, whatever stands between them. Every block with an
  unreadable amount, and a block whose end is missing, costs one warning that names the line of its date.
  */
  lemma RenderedTextComesBack(lib: Library, ps: seq<Piece>, cut: seq<string>)
    requires ReadsPlainText(lib) && forall p | p in ps :: ProperPiece(p) && DamagedFor(lib, p)
    requires CutBlock(cut)
    ensures var raw, all := RawText(AllLines(ps) + cut), ExpectedResult(ps, 0, cut);
            && ParseText(lib, raw, true) == Ok(all)
            && ParseText(lib, raw, false) == Ok(all.(transactions := Filter(NotAboveZero(lib), all.transactions)))
  {
    var lines := AllLines(ps) + cut;
    AllLinesAreProper(ps);
    LinesComeBack(lines);
    forall p | p in ps ensures Understands(CitiReader(lib), p) {
      CitiUnderstands(lib, p);
    }
    if cut != [] {
      var date: Date, monthWord :| IsWord(monthWord) && ReadMonth(monthWord) == Some(date.month)
                                   && cut[0] == DateLine(date, monthWord);
      DateComesBack(date, monthWord);
    }
    assert lines[0..] == lines;
    PiecesComeBack(CitiReader(lib), lines, 0, ps, cut);
    ExcludingPositivesFilters(lib, RawText(lines));
    PositivesAreAboveZero(lib, RawText(lines));
  }
}
