/**
Text normalization for category suggestions (src/services/categorization/preprocessor.py).

Unicode compatibility decomposition (NFKD) is an arbitrary function that leaves ASCII
text alone; everything after it is spelled out.
*/
module Preprocessor {
  import opened Wrappers
  import opened Text

  type Decomposition = string -> string

  predicate IsAscii(s: string) {
    forall i | 0 <= i < |s| :: s[i] < '\U{80}'
  }

  ghost predicate LeavesAsciiAlone(nfkd: Decomposition) {
    forall s | IsAscii(s) :: nfkd(s) == s
  }

  /** Polish letters become their base letter. */
  const DIACRITICS: map<char, char> := map[
    '\U{105}' := 'a', '\U{107}' := 'c', '\U{119}' := 'e', '\U{142}' := 'l', '\U{144}' := 'n', '\U{F3}' := 'o',
    '\U{15B}' := 's', '\U{17C}' := 'z', '\U{17A}' := 'z',
    '\U{104}' := 'A', '\U{106}' := 'C', '\U{118}' := 'E', '\U{141}' := 'L', '\U{143}' := 'N', '\U{D3}' := 'O',
    '\U{15A}' := 'S', '\U{17B}' := 'Z', '\U{179}' := 'Z']

  function Translate(s: string): string {
    seq(|s|, i requires 0 <= i < |s| => if s[i] in DIACRITICS then DIACRITICS[s[i]] else s[i])
  }

  const POLISH_LETTERS := "\U{105}\U{107}\U{119}\U{142}\U{144}\U{F3}\U{15B}\U{17C}\U{17A}"
  const POLISH_CAPITALS := "\U{104}\U{106}\U{118}\U{141}\U{143}\U{D3}\U{15A}\U{17B}\U{179}"

  /** Polish letters lose their marks, in either case. */
  lemma PolishLettersLoseTheirMarks()
    ensures Translate(POLISH_LETTERS) == "acelnoszz"
    ensures Translate(POLISH_CAPITALS) == "ACELNOSZZ"
  {
  }

  function DropNonAscii(s: string): (r: string)
    ensures IsAscii(r)
  {
    if s == [] then []
    else if s[0] < '\U{80}' then [s[0]] + DropNonAscii(s[1..])
    else DropNonAscii(s[1..])
  }

  function DigitPrefix(s: string): (n: nat)
    ensures n <= |s|
    ensures forall i | 0 <= i < n :: IsDigit(s[i])
    ensures n < |s| ==> !IsDigit(s[n])
  {
    if s != [] && IsDigit(s[0]) then 1 + DigitPrefix(s[1..]) else 0
  }

  /** Every maximal run of six or more digits becomes one space. */
  function DropLongNumbers(s: string): string
    decreases |s|
  {
    if s == [] then []
    else
      var n := DigitPrefix(s);
      if n == 0 then [s[0]] + DropLongNumbers(s[1..])
      else if n >= 6 then " " + DropLongNumbers(s[n..])
      else s[..n] + DropLongNumbers(s[n..])
  }

  function SpacePrefix(s: string): (n: nat)
    ensures n <= |s|
    ensures forall i | 0 <= i < n :: IsSpace(s[i])
    ensures n < |s| ==> !IsSpace(s[n])
  {
    if s != [] && IsSpace(s[0]) then 1 + SpacePrefix(s[1..]) else 0
  }

  /** Every maximal run of white space becomes one space. */
  function CollapseSpace(s: string): string
    decreases |s|
  {
    if s == [] then []
    else
      var n := SpacePrefix(s);
      if n == 0 then [s[0]] + CollapseSpace(s[1..]) else " " + CollapseSpace(s[n..])
  }

  function Normalize(nfkd: Decomposition, value: Option<string>): string {
    if value.None? then ""
    else
      var text := Strip(value.value);
      if text == "" then ""
      else Strip(CollapseSpace(Lower(DropLongNumbers(DropNonAscii(Translate(nfkd(text)))))))
  }

  function Tokens(nfkd: Decomposition, value: Option<string>): set<string> {
    var normalized := Normalize(nfkd, value);
    if normalized == "" then {}
    else var parts := SplitOn(' ', normalized); set p | p in parts
  }

  // ----- the normal form -----

  predicate SixDigitsAt(s: string, i: nat) {
    i + 6 <= |s| && forall j | i <= j < i + 6 :: IsDigit(s[j])
  }

  /** What normalized text looks like. */
  ghost predicate NormalForm(s: string) {
    && IsAscii(s)
    && (forall i | 0 <= i < |s| :: !('A' <= s[i] <= 'Z'))
    && (forall i: nat :: !SixDigitsAt(s, i))
    && SingleSpaces(s)
    && (s != "" ==> !IsSpace(s[0]) && !IsSpace(s[|s| - 1]))
  }

  /** The only white space is single spaces. */
  predicate SingleSpaces(s: string) {
    forall i | 0 <= i < |s| && IsSpace(s[i]) :: s[i] == ' ' && (i + 1 < |s| ==> !IsSpace(s[i + 1]))
  }

  /** No digit run reaches six, given that `k` digits come right before `s`. */
  predicate ShortRuns(s: string, k: nat) {
    if s == [] then true
    else if IsDigit(s[0]) then k + 1 < 6 && ShortRuns(s[1..], k + 1)
    else ShortRuns(s[1..], 0)
  }

  lemma {:induction false} DigitsThenRest(d: string, t: string, k: nat)
    requires forall i | 0 <= i < |d| :: IsDigit(d[i])
    requires k + |d| < 6 && ShortRuns(t, 0) && (t != [] ==> !IsDigit(t[0]))
    ensures ShortRuns(d + t, k)
    decreases |d|
  {
    if d == [] {
      assert d + t == t;
    } else {
      assert (d + t)[1..] == d[1..] + t;
      DigitsThenRest(d[1..], t, k + 1);
    }
  }

  lemma {:induction false} DroppedNumbersLeaveShortRuns(s: string)
    ensures ShortRuns(DropLongNumbers(s), 0)
    ensures s != [] && !IsDigit(s[0]) ==> DropLongNumbers(s) != [] && !IsDigit(DropLongNumbers(s)[0])
    ensures s == [] ==> DropLongNumbers(s) == []
    ensures IsAscii(s) ==> IsAscii(DropLongNumbers(s))
    decreases |s|
  {
    if s == [] {
    } else {
      var n := DigitPrefix(s);
      if n == 0 {
        DroppedNumbersLeaveShortRuns(s[1..]);
        assert DropLongNumbers(s)[1..] == DropLongNumbers(s[1..]);
      } else {
        DroppedNumbersLeaveShortRuns(s[n..]);
        if n >= 6 {
          assert DropLongNumbers(s)[1..] == DropLongNumbers(s[n..]);
        } else {
          DigitsThenRest(s[..n], DropLongNumbers(s[n..]), 0);
        }
      }
    }
  }

  lemma {:induction false} LoweringKeepsRuns(s: string, k: nat)
    requires ShortRuns(s, k)
    ensures ShortRuns(Lower(s), k)
    decreases |s|
  {
    if s == [] {
    } else {
      assert Lower(s)[1..] == Lower(s[1..]);
      LoweringKeepsRuns(s[1..], if IsDigit(s[0]) then k + 1 else 0);
    }
  }

  lemma {:induction false} SkippingSpacesKeepsRuns(s: string, n: nat, k: nat)
    requires 0 < n <= |s| && ShortRuns(s, k) && forall i | 0 <= i < n :: IsSpace(s[i])
    ensures ShortRuns(s[n..], 0)
    decreases n
  {
    if n > 1 {
      assert s[1..][n - 1..] == s[n..];
      SkippingSpacesKeepsRuns(s[1..], n - 1, 0);
    }
  }

  lemma {:induction false} CollapsingKeepsRuns(s: string, k: nat)
    requires ShortRuns(s, k)
    ensures ShortRuns(CollapseSpace(s), k)
    decreases |s|
  {
    if s == [] {
    } else {
      var n := SpacePrefix(s);
      if n == 0 {
        CollapsingKeepsRuns(s[1..], if IsDigit(s[0]) then k + 1 else 0);
        assert CollapseSpace(s)[1..] == CollapseSpace(s[1..]);
      } else {
        SkippingSpacesKeepsRuns(s, n, k);
        CollapsingKeepsRuns(s[n..], 0);
        assert CollapseSpace(s)[1..] == CollapseSpace(s[n..]);
      }
    }
  }

  lemma {:induction false} CollapsingLeavesSingleSpaces(s: string)
    ensures SingleSpaces(CollapseSpace(s))
    ensures s == [] ==> CollapseSpace(s) == []
    ensures s != [] && !IsSpace(s[0]) ==> CollapseSpace(s) != [] && CollapseSpace(s)[0] == s[0]
    ensures forall c | c in CollapseSpace(s) :: c == ' ' || c in s
    decreases |s|
  {
    if s == [] {
    } else {
      var n := SpacePrefix(s);
      var rest := if n == 0 then s[1..] else s[n..];
      CollapsingLeavesSingleSpaces(rest);
      assert CollapseSpace(s) == [if n == 0 then s[0] else ' '] + CollapseSpace(rest);
    }
  }

  lemma {:induction false} RunsAreShort(s: string, k: nat, n: nat)
    requires ShortRuns(s, k) && 0 < n <= |s| && forall i | 0 <= i < n :: IsDigit(s[i])
    ensures k + n < 6
    decreases n
  {
    if n > 1 {
      RunsAreShort(s[1..], k + 1, n - 1);
    }
  }

  lemma {:induction false} ShortRunsHaveNoSixDigits(s: string, k: nat, i: nat)
    requires ShortRuns(s, k)
    ensures !SixDigitsAt(s, i)
    decreases |s|
  {
    if SixDigitsAt(s, i) {
      if i > 0 {
        assert forall j | i - 1 <= j < i + 5 :: s[1..][j] == s[j + 1];
        ShortRunsHaveNoSixDigits(s[1..], if IsDigit(s[0]) then k + 1 else 0, i - 1);
      } else {
        RunsAreShort(s, k, 6);
      }
    }
  }

  /** Dropping numbers, lowering and collapsing give everything normal form asks for but the trimmed ends. */
  lemma CollapsedText(ascii: string)
    requires IsAscii(ascii)
    ensures var collapsed := CollapseSpace(Lower(DropLongNumbers(ascii)));
            && IsAscii(collapsed) && SingleSpaces(collapsed) && ShortRuns(collapsed, 0)
            && forall i | 0 <= i < |collapsed| :: !('A' <= collapsed[i] <= 'Z')
  {
    var short := DropLongNumbers(ascii);
    var lower := Lower(short);
    var collapsed := CollapseSpace(lower);
    DroppedNumbersLeaveShortRuns(ascii);
    LoweringKeepsRuns(short, 0);
    CollapsingKeepsRuns(lower, 0);
    CollapsingLeavesSingleSpaces(lower);
    forall i | 0 <= i < |collapsed| ensures collapsed[i] < '\U{80}' && !('A' <= collapsed[i] <= 'Z') {
      assert collapsed[i] in collapsed;
      assert collapsed[i] == ' ' || collapsed[i] in lower;
    }
  }

  lemma CutsHaveNoSixDigits(s: string, lo: nat, hi: nat, i: nat)
    requires ShortRuns(s, 0) && lo <= hi <= |s|
    ensures !SixDigitsAt(s[lo..hi], i)
  {
    ShortRunsHaveNoSixDigits(s, 0, lo + i);
    if SixDigitsAt(s[lo..hi], i) {
      assert forall j | lo + i <= j < lo + i + 6 :: s[j] == s[lo..hi][j - lo];
    }
  }

  lemma StrippedTextHasNormalForm(s: string)
    requires IsAscii(s) && SingleSpaces(s) && ShortRuns(s, 0)
    requires forall i | 0 <= i < |s| :: !('A' <= s[i] <= 'Z')
    ensures NormalForm(Strip(s))
  {
    var lo, hi := StripCutsOut(s);
    var r := s[lo..hi];
    assert forall i | 0 <= i < |r| :: r[i] == s[lo + i];
    forall i: nat ensures !SixDigitsAt(r, i) {
      CutsHaveNoSixDigits(s, lo, hi, i);
    }
    forall i | 0 <= i < |r| && IsSpace(r[i]) ensures r[i] == ' ' && (i + 1 < |r| ==> !IsSpace(r[i + 1])) {
      assert IsSpace(s[lo + i]);
    }
  }

  /** Normalizing gives normal form, whatever the input. */
  lemma NormalizeGivesNormalForm(nfkd: Decomposition, value: Option<string>)
    ensures NormalForm(Normalize(nfkd, value))
  {
    if value.Some? && Strip(value.value) != "" {
      var ascii := DropNonAscii(Translate(nfkd(Strip(value.value))));
      CollapsedText(ascii);
      StrippedTextHasNormalForm(CollapseSpace(Lower(DropLongNumbers(ascii))));
    }
  }

  lemma {:induction false} NothingToDrop(s: string)
    requires IsAscii(s)
    ensures DropNonAscii(s) == s
  {
    if s == [] {
    } else {
      NothingToDrop(s[1..]);
    }
  }

  lemma CutsKeepNoSixDigits(s: string, m: nat)
    requires m <= |s| && forall i: nat :: !SixDigitsAt(s, i)
    ensures forall i: nat :: !SixDigitsAt(s[m..], i)
  {
    forall i: nat ensures !SixDigitsAt(s[m..], i) {
      if SixDigitsAt(s[m..], i) {
        assert forall j | m + i <= j < m + i + 6 :: s[j] == s[m..][j - m];
        assert SixDigitsAt(s, m + i);
      }
    }
  }

  lemma LongPrefixHasSixDigits(s: string)
    ensures DigitPrefix(s) >= 6 ==> SixDigitsAt(s, 0)
  {
  }

  ghost predicate DropsNothing(s: string) {
    DropLongNumbers(s) == s
  }

  lemma ShortNumberStays(s: string, m: nat)
    requires s != [] && DigitPrefix(s) < 6 && m == if DigitPrefix(s) == 0 then 1 else DigitPrefix(s)
    requires DropsNothing(s[m..])
    ensures DropsNothing(s)
  {
    assert s == s[..m] + s[m..];
  }

  lemma {:induction false} NoNumberToDrop(s: string)
    requires forall i: nat :: !SixDigitsAt(s, i)
    ensures DropsNothing(s)
    decreases |s|
  {
    if s == [] {
    } else {
      var m := if DigitPrefix(s) == 0 then 1 else DigitPrefix(s);
      LongPrefixHasSixDigits(s);
      CutsKeepNoSixDigits(s, m);
      NoNumberToDrop(s[m..]);
      ShortNumberStays(s, m);
    }
  }

  lemma {:induction false} NothingToCollapse(s: string)
    requires SingleSpaces(s)
    ensures CollapseSpace(s) == s
    decreases |s|
  {
    if s == [] {
    } else {
      var n := SpacePrefix(s);
      assert IsSpace(s[0]) ==> s[0] == ' ' && (|s| > 1 ==> !IsSpace(s[1]));
      assert n <= 1;
      NothingToCollapse(s[1..]);
      assert s == [s[0]] + s[1..];
    }
  }

  /** Text in normal form is left alone, so normalizing twice is normalizing once. */
  lemma NormalizeIsIdempotent(nfkd: Decomposition, value: Option<string>)
    requires LeavesAsciiAlone(nfkd)
    ensures Normalize(nfkd, Some(Normalize(nfkd, value))) == Normalize(nfkd, value)
  {
    NormalizeGivesNormalForm(nfkd, value);
    NormalFormIsFixed(nfkd, Normalize(nfkd, value));
  }

  lemma NormalFormIsFixed(nfkd: Decomposition, s: string)
    requires LeavesAsciiAlone(nfkd) && NormalForm(s)
    ensures Normalize(nfkd, Some(s)) == s
  {
    NothingToStrip(s);
    assert Translate(s) == s;
    NothingToDrop(s);
    NoNumberToDrop(s);
    assert Lower(s) == s;
    NothingToCollapse(s);
  }

  lemma {:induction false} SplitHasNoEmptyPart(s: string)
    requires SingleSpaces(s) && s != "" && !IsSpace(s[0]) && !IsSpace(s[|s| - 1])
    ensures "" !in SplitOn(' ', s)
    ensures forall p | p in SplitOn(' ', s) :: ' ' !in p
    decreases |s|
  {
    if ' ' in s {
      var i := IndexOfChar(' ', s);
      SplitHasNoEmptyPart(s[i + 1..]);
    }
  }

  /** Tokens are never empty and contain no space. */
  lemma TokensAreProper(nfkd: Decomposition, value: Option<string>)
    ensures "" !in Tokens(nfkd, value)
    ensures forall t | t in Tokens(nfkd, value) :: ' ' !in t
    ensures Tokens(nfkd, value) == {} <==> Normalize(nfkd, value) == ""
  {
    NormalizeGivesNormalForm(nfkd, value);
    var s := Normalize(nfkd, value);
    if s != "" {
      SplitHasNoEmptyPart(s);
      assert SplitOn(' ', s)[0] in Tokens(nfkd, value);
    }
  }

  // ----- normalizing keeps the words -----

  lemma {:induction false} SkipSpaces(s: string, n: nat)
    requires n <= |s| && forall i | 0 <= i < n :: IsSpace(s[i])
    ensures Words(s) == Words(s[n..])
    decreases n
  {
    if n == 0 {
      assert s[0..] == s;
    } else {
      SkipSpaces(s[1..], n - 1);
      assert s[1..][n - 1..] == s[n..];
    }
  }

  lemma {:induction false} TrailingSpace(s: string, c: char)
    requires IsSpace(c)
    ensures Words(s + [c]) == Words(s)
    decreases |s|
  {
    if s == [] {
      assert [] + [c] == [c];
      SkipSpaces([c], 1);
    } else if IsSpace(s[0]) {
      assert (s + [c])[1..] == s[1..] + [c];
      TrailingSpace(s[1..], c);
    } else {
      var n := WordLength(s);
      TrailingSpace(s[n..], c);
      FirstWord(s[..n], s[n..] + [c]);
      assert s + [c] == s[..n] + (s[n..] + [c]);
    }
  }

  lemma {:induction false} StrippingKeepsWords(s: string)
    ensures Words(StripRight(s)) == Words(s)
    decreases |s|
  {
    if s != [] && IsSpace(s[|s| - 1]) {
      StrippingKeepsWords(s[..|s| - 1]);
      TrailingSpace(s[..|s| - 1], s[|s| - 1]);
      assert s == s[..|s| - 1] + [s[|s| - 1]];
    }
  }

  lemma StripKeepsWords(s: string)
    ensures Words(Strip(s)) == Words(s)
  {
    LeadingSpaces(s);
    StrippingKeepsWords(StripLeft(s));
  }

  lemma {:induction false} LeadingSpaces(s: string)
    ensures Words(StripLeft(s)) == Words(s)
  {
    if s != [] && IsSpace(s[0]) {
      LeadingSpaces(s[1..]);
    }
  }

  lemma {:induction false} CollapsingKeepsTheWord(word: string, rest: string)
    requires forall i | 0 <= i < |word| :: !IsSpace(word[i])
    ensures CollapseSpace(word + rest) == word + CollapseSpace(rest)
    decreases |word|
  {
    if word == [] {
      assert word + rest == rest;
    } else {
      assert (word + rest)[1..] == word[1..] + rest;
      CollapsingKeepsTheWord(word[1..], rest);
    }
  }

  lemma {:induction false} CollapsingKeepsWords(s: string)
    ensures Words(CollapseSpace(s)) == Words(s)
    decreases |s|
  {
    if s == [] {
    } else if IsSpace(s[0]) {
      var n := SpacePrefix(s);
      CollapsingKeepsWords(s[n..]);
      SkipSpaces(s, n);
      assert CollapseSpace(s)[1..] == CollapseSpace(s[n..]);
    } else {
      var n := WordLength(s);
      CollapsingKeepsWords(s[n..]);
      CollapsingKeepsTheWord(s[..n], s[n..]);
      assert s == s[..n] + s[n..];
      FirstWord(s[..n], CollapseSpace(s[n..]));
    }
  }

  lemma {:induction false} LoweringCommutesWithStripping(s: string)
    ensures StripLeft(Lower(s)) == Lower(StripLeft(s))
    ensures StripRight(Lower(s)) == Lower(StripRight(s))
    decreases |s|
  {
    if s == [] {
    } else {
      assert IsSpace(Lower(s)[0]) == IsSpace(s[0]) && IsSpace(Lower(s)[|s| - 1]) == IsSpace(s[|s| - 1]);
      assert Lower(s)[1..] == Lower(s[1..]) && Lower(s)[..|s| - 1] == Lower(s[..|s| - 1]);
      LoweringCommutesWithStripping(s[1..]);
      LoweringCommutesWithStripping(s[..|s| - 1]);
    }
  }

  /** ASCII text without a run of six digits. */
  ghost predicate PlainText(s: string) {
    IsAscii(s) && forall i: nat :: !SixDigitsAt(s, i)
  }

  lemma StrippedTextIsPlain(s: string)
    requires PlainText(s)
    ensures PlainText(Strip(s))
  {
    var lo, hi := StripCutsOut(s);
    forall i: nat ensures !SixDigitsAt(s[lo..hi], i) {
      if SixDigitsAt(s[lo..hi], i) {
        assert forall j | lo + i <= j < lo + i + 6 :: s[j] == s[lo..hi][j - lo];
        assert SixDigitsAt(s, lo + i);
      }
    }
  }

  /** Normalizing plain text lowers it and changes nothing else but the white space between its words. */
  lemma PlainWordsStay(nfkd: Decomposition, s: string)
    requires LeavesAsciiAlone(nfkd) && PlainText(s)
    ensures Words(Normalize(nfkd, Some(s))) == Words(Lower(s))
  {
    var text := Strip(s);
    StrippedTextIsPlain(s);
    assert Translate(text) == text;
    NothingToDrop(text);
    NoNumberToDrop(text);
    StripKeepsWords(CollapseSpace(Lower(text)));
    CollapsingKeepsWords(Lower(text));
    LoweringCommutesWithStripping(s);
    LoweringCommutesWithStripping(StripLeft(s));
    StripKeepsWords(Lower(s));
  }

  /** Trimmed text with single spaces. */
  predicate Spaced(s: string) {
    SingleSpaces(s) && s != "" && !IsSpace(s[0]) && !IsSpace(s[|s| - 1])
  }

  /** The first space of such text ends a word, and what follows is such text again. */
  lemma AfterTheFirstSpace(s: string, i: nat)
    requires Spaced(s) && i < |s| && s[i] == ' ' && ' ' !in s[..i]
    ensures i > 0 && i + 1 < |s| && Spaced(s[i + 1..])
    ensures forall k | 0 <= k < i :: !IsSpace(s[k])
  {
    assert IsSpace(s[i]) && i < |s| - 1;
    forall k | 0 <= k < i ensures !IsSpace(s[k]) {
      assert s[k] in s[..i];
    }
    var rest := s[i + 1..];
    assert forall k | 0 <= k < |rest| :: rest[k] == s[i + 1 + k];
  }

  lemma OneWord(s: string)
    requires Spaced(s) && ' ' !in s
    ensures Words(s) == [s]
  {
    forall k | 0 <= k < |s| ensures !IsSpace(s[k]) {
      assert s[k] in s;
    }
    FirstWord(s, "");
    assert s + "" == s;
  }

  lemma WordBeforeASpace(word: string, rest: string)
    requires word != "" && forall i | 0 <= i < |word| :: !IsSpace(word[i])
    ensures Words(word + ([' '] + rest)) == [word] + Words(rest)
  {
    FirstWord(word, [' '] + rest);
    SkipSpaces([' '] + rest, 1);
    assert ([' '] + rest)[1..] == rest;
  }

  ghost predicate SplitsIntoWords(s: string) {
    SplitOn(' ', s) == Words(s)
  }

  lemma OneMoreWord(word: string, rest: string)
    requires word != "" && ' ' !in word && forall i | 0 <= i < |word| :: !IsSpace(word[i])
    requires SplitsIntoWords(rest)
    ensures SplitsIntoWords(word + [' '] + rest)
  {
    SplitAtTheFirst(' ', word, rest);
    WordBeforeASpace(word, rest);
    assert word + [' '] + rest == word + ([' '] + rest);
  }

  lemma CutAtTheFirstSpace(s: string) returns (word: string, rest: string)
    requires Spaced(s) && ' ' in s
    ensures s == word + [' '] + rest && |rest| < |s| && Spaced(rest)
    ensures word != "" && ' ' !in word && forall i | 0 <= i < |word| :: !IsSpace(word[i])
  {
    var i := IndexOfChar(' ', s);
    AfterTheFirstSpace(s, i);
    word, rest := s[..i], s[i + 1..];
  }

  lemma {:induction false} SplittingGivesTheWords(s: string)
    requires Spaced(s)
    ensures SplitsIntoWords(s)
    decreases |s|
  {
    if ' ' in s {
      var word, rest := CutAtTheFirstSpace(s);
      SplittingGivesTheWords(rest);
      OneMoreWord(word, rest);
    } else {
      OneWord(s);
    }
  }

  /** The tokens of plain text are its words, in lower case. */
  lemma TokensAreTheWords(nfkd: Decomposition, s: string)
    requires LeavesAsciiAlone(nfkd) && PlainText(s)
    ensures Tokens(nfkd, Some(s)) == set w | w in Words(Lower(s))
  {
    NormalizeGivesNormalForm(nfkd, Some(s));
    PlainWordsStay(nfkd, s);
    if Normalize(nfkd, Some(s)) != "" {
      SplittingGivesTheWords(Normalize(nfkd, Some(s)));
    }
  }
}
