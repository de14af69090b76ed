/**
The string operations the toolkit relies on: lower-casing (as a map of each
character, on ASCII letters), substring tests, trimming and the ordering of strings.
*/
module Text {

  function LowerChar(c: char): char {
    if 'A' <= c <= 'Z' then ((c as int) + 32) as char else c
  }

  function Lower(s: string): (r: string)
    ensures |r| == |s|
  {
    seq(|s|, i requires 0 <= i < |s| => LowerChar(s[i]))
  }

  predicate OccursAt(hay: string, needle: string, i: nat) {
    i + |needle| <= |hay| && hay[i..i + |needle|] == needle
  }

  /** Python's `needle in hay`. */
  predicate Contains(hay: string, needle: string) {
    exists i: nat | i <= |hay| :: OccursAt(hay, needle, i)
  }

  lemma LowerConcat(a: string, b: string)
    ensures Lower(a + b) == Lower(a) + Lower(b)
  {
  }

  lemma ContainsSelf(s: string)
    ensures Contains(s, s)
  {
    assert OccursAt(s, s, 0);
  }

  lemma ContainsInLonger(before: string, hay: string, after: string, needle: string)
    requires Contains(hay, needle)
    ensures Contains(before + hay + after, needle)
  {
    var i: nat :| i <= |hay| && OccursAt(hay, needle, i);
    var j := |before| + i;
    assert (before + hay + after)[j..j + |needle|] == hay[i..i + |needle|];
    assert OccursAt(before + hay + after, needle, j);
  }

  /** Python's `str.isspace` for one character. */
  predicate IsSpace(c: char) {
    || '\U{9}' <= c <= '\U{D}' || '\U{1C}' <= c <= '\U{20}'
    || c in {'\U{85}', '\U{A0}', '\U{1680}', '\U{2028}', '\U{2029}', '\U{202F}', '\U{205F}', '\U{3000}'}
    || '\U{2000}' <= c <= '\U{200A}'
  }

  predicate IsDigit(c: char) {
    '0' <= c <= '9'
  }

  function StripLeft(s: string): string {
    if s != [] && IsSpace(s[0]) then StripLeft(s[1..]) else s
  }

  function StripRight(s: string): string {
    if s != [] && IsSpace(s[|s| - 1]) then StripRight(s[..|s| - 1]) else s
  }

  function Strip(s: string): string {
    StripRight(StripLeft(s))
  }

  lemma {:induction false} StripLeftIsASuffix(s: string) returns (lo: nat)
    ensures lo <= |s| && StripLeft(s) == s[lo..]
    ensures StripLeft(s) != [] ==> !IsSpace(StripLeft(s)[0])
  {
    lo := 0;
    if s != [] && IsSpace(s[0]) {
      var l := StripLeftIsASuffix(s[1..]);
      lo := l + 1;
    }
  }

  lemma {:induction false} StripRightIsAPrefix(s: string) returns (hi: nat)
    ensures hi <= |s| && StripRight(s) == s[..hi]
    ensures StripRight(s) != [] ==> !IsSpace(StripRight(s)[|StripRight(s)| - 1])
    decreases |s|
  {
    hi := |s|;
    if s != [] && IsSpace(s[|s| - 1]) {
      hi := StripRightIsAPrefix(s[..|s| - 1]);
    }
  }

  /** Stripping cuts out a stretch of the text whose ends are not white space. */
  lemma StripCutsOut(s: string) returns (lo: nat, hi: nat)
    ensures lo <= hi <= |s| && Strip(s) == s[lo..hi]
    ensures Strip(s) != [] ==> !IsSpace(Strip(s)[0]) && !IsSpace(Strip(s)[|Strip(s)| - 1])
  {
    lo := StripLeftIsASuffix(s);
    var h := StripRightIsAPrefix(StripLeft(s));
    hi := lo + h;
  }

  lemma NothingToStrip(s: string)
    requires s != "" ==> !IsSpace(s[0]) && !IsSpace(s[|s| - 1])
    ensures Strip(s) == s
  {
  }

  function WordLength(s: string): (n: nat)
    ensures n <= |s|
    ensures forall i | 0 <= i < n :: !IsSpace(s[i])
    ensures n < |s| ==> IsSpace(s[n])
  {
    if s != [] && !IsSpace(s[0]) then 1 + WordLength(s[1..]) else 0
  }

  /** `str.split()`. */
  function Words(s: string): seq<string>
    decreases |s|
  {
    if s == [] then []
    else if IsSpace(s[0]) then Words(s[1..])
    else [s[..WordLength(s)]] + Words(s[WordLength(s)..])
  }

  lemma WordLengthIs(word: string, rest: string)
    requires forall i | 0 <= i < |word| :: !IsSpace(word[i])
    requires rest == "" || IsSpace(rest[0])
    ensures WordLength(word + rest) == |word|
  {
    var both := word + rest;
    assert forall i | 0 <= i < |word| :: both[i] == word[i];
    assert rest != "" ==> both[|word|] == rest[0];
  }

  lemma FirstWord(word: string, rest: string)
    requires word != "" && forall i | 0 <= i < |word| :: !IsSpace(word[i])
    requires rest == "" || IsSpace(rest[0])
    ensures Words(word + rest) == [word] + Words(rest)
  {
    WordLengthIs(word, rest);
    assert (word + rest)[0] == word[0];
    assert (word + rest)[..|word|] == word && (word + rest)[|word|..] == rest;
  }

  function IndexOfChar(c: char, s: string): (i: nat)
    requires c in s
    ensures i < |s| && s[i] == c && c !in s[..i]
  {
    if s[0] == c then 0
    else
      assert s == [s[0]] + s[1..];
      var i := 1 + IndexOfChar(c, s[1..]);
      assert s[..i] == [s[0]] + s[1..][..i - 1];
      i
  }

  /** `s.split(c)`. */
  function SplitOn(c: char, s: string): (parts: seq<string>)
    ensures parts != []
    decreases |s|
  {
    if c !in s then [s]
    else var i := IndexOfChar(c, s); [s[..i]] + SplitOn(c, s[i + 1..])
  }

  /** `sep.join(parts)`. */
  function JoinWith(sep: string, parts: seq<string>): string {
    if parts == [] then ""
    else if |parts| == 1 then parts[0]
    else JoinWith(sep, parts[..|parts| - 1]) + sep + parts[|parts| - 1]
  }

  lemma JoinOneMorePart(sep: string, parts: seq<string>, part: string)
    ensures JoinWith(sep, parts + [part]) == if parts == [] then part else JoinWith(sep, parts) + sep + part
  {
    assert (parts + [part])[..|parts|] == parts;
  }

  lemma {:induction false} JoinFromTheFront(sep: string, part: string, rest: seq<string>)
    requires rest != []
    ensures JoinWith(sep, [part] + rest) == part + sep + JoinWith(sep, rest)
    decreases |rest|
  {
    var all := [part] + rest;
    assert all[|all| - 1] == rest[|rest| - 1];
    if |rest| == 1 {
      assert all[..1] == [part];
    } else {
      assert all[..|all| - 1] == [part] + rest[..|rest| - 1];
      JoinFromTheFront(sep, part, rest[..|rest| - 1]);
    }
  }

  lemma SplitAtTheFirst(c: char, part: string, rest: string)
    requires c !in part
    ensures SplitOn(c, part + [c] + rest) == [part] + SplitOn(c, rest)
  {
    var s := part + [c] + rest;
    assert s[|part|] == c && c in s;
    var i := IndexOfChar(c, s);
    assert forall k | 0 <= k < |part| :: s[k] == part[k] && part[k] in part;
    assert forall k | 0 <= k < i :: s[k] in s[..i];
    assert s[..|part|] == part && s[|part| + 1..] == rest;
  }

  /** Splitting undoes joining, if no part contains the separator. */
  lemma {:induction false} SplitUndoesJoin(c: char, parts: seq<string>)
    requires parts != [] && forall p | p in parts :: c !in p
    ensures SplitOn(c, JoinWith([c], parts)) == parts
  {
    if |parts| == 1 {
      assert parts[0] in parts;
    } else {
      assert parts == [parts[0]] + parts[1..];
      JoinFromTheFront([c], parts[0], parts[1..]);
      SplitAtTheFirst(c, parts[0], JoinWith([c], parts[1..]));
      SplitUndoesJoin(c, parts[1..]);
    }
  }

  lemma {:induction false} JoinKeepsTheFirst(sep: string, parts: seq<string>)
    requires parts != []
    ensures |JoinWith(sep, parts)| >= |parts[0]|
  {
    if |parts| > 1 {
      JoinKeepsTheFirst(sep, parts[..|parts| - 1]);
    }
  }

  function Digit(n: nat): char {
    ('0' as int + n % 10) as char
  }

  /** `str(n)`. */
  function NatText(n: nat): string {
    if n < 10 then [Digit(n)] else NatText(n / 10) + [Digit(n)]
  }

  function IntText(n: int): string {
    if n < 0 then "-" + NatText(-n) else NatText(n)
  }

  lemma {:induction false} NatTextIsDigits(n: nat)
    ensures NatText(n) != "" && forall c | c in NatText(n) :: IsDigit(c)
  {
    if n < 10 {
    } else {
      NatTextIsDigits(n / 10);
    }
  }

  lemma IntTextIsPlain(n: int)
    ensures forall c | c in IntText(n) :: IsDigit(c) || c == '-'
  {
    NatTextIsDigits(if n < 0 then -n else n);
  }

  /** Where the last part starts is determined by the last separator. */
  lemma LastPartIsDetermined(sep: char, a: string, x: string, b: string, y: string)
    requires sep !in x && sep !in y
    requires a + [sep] + x == b + [sep] + y
    ensures a == b && x == y
  {
    var left, right := a + [sep] + x, b + [sep] + y;
    assert left[|a|] == sep && right[|b|] == sep;
    assert forall i | |a| < i < |left| :: left[i] == x[i - |a| - 1];
    assert forall i | |b| < i < |right| :: right[i] == y[i - |b| - 1];
    assert |a| == |b|;
    assert left[..|a|] == a && right[..|b|] == b;
    assert left[|a| + 1..] == x && right[|b| + 1..] == y;
  }

  /** Joining parts that do not contain the separator can be undone. */
  lemma {:induction false} JoinIsInjective(sep: char, x: seq<string>, y: seq<string>)
    requires |x| == |y|
    requires forall p | p in x :: sep !in p
    requires forall p | p in y :: sep !in p
    requires JoinWith([sep], x) == JoinWith([sep], y)
    ensures x == y
  {
    if |x| <= 1 {
    } else {
      var i, j := x[..|x| - 1], y[..|y| - 1];
      assert x == i + [x[|x| - 1]] && y == j + [y[|y| - 1]];
      LastPartIsDetermined(sep, JoinWith([sep], i), x[|x| - 1], JoinWith([sep], j), y[|y| - 1]);
      JoinIsInjective(sep, i, j);
    }
  }

  /** Python's `<=` on strings: by code point, a proper prefix first. */
  predicate StringLe(a: string, b: string) {
    if a == [] then true
    else if b == [] then false
    else a[0] < b[0] || (a[0] == b[0] && StringLe(a[1..], b[1..]))
  }

  /** A prefix comes first; otherwise the first difference decides. */
  lemma {:induction false} StringLeIsLexicographic(a: string, b: string)
    ensures StringLe(a, b) <==>
            a <= b || exists k | 0 <= k < |a| && k < |b| :: a[..k] == b[..k] && a[k] < b[k]
  {
    if a == [] || b == [] {
    } else if a[0] != b[0] {
      assert a[..0] == b[..0];
      assert forall k | 0 < k < |a| && k < |b| :: a[..k][0] != b[..k][0];
    } else {
      var x, y := a[1..], b[1..];
      StringLeIsLexicographic(x, y);
      assert a == [a[0]] + x && b == [b[0]] + y;
      if k :| 0 <= k < |x| && k < |y| && x[..k] == y[..k] && x[k] < y[k] {
        assert a[..k + 1] == [a[0]] + x[..k] && b[..k + 1] == [b[0]] + y[..k];
      }
      if k :| 0 <= k < |a| && k < |b| && a[..k] == b[..k] && a[k] < b[k] {
        assert x[..k - 1] == a[..k][1..] && y[..k - 1] == b[..k][1..];
      }
    }
  }

  lemma {:induction false} StringLeTotal(a: string, b: string)
    ensures StringLe(a, b) || StringLe(b, a)
  {
    if a != [] && b != [] && a[0] == b[0] {
      StringLeTotal(a[1..], b[1..]);
    }
  }

  lemma {:induction false} StringLeAntisymmetric(a: string, b: string)
    requires StringLe(a, b) && StringLe(b, a)
    ensures a == b
  {
    if a != [] && b != [] {
      StringLeAntisymmetric(a[1..], b[1..]);
      assert a == [a[0]] + a[1..] && b == [b[0]] + b[1..];
    }
  }

  lemma {:induction false} StringLeTransitive(a: string, b: string, c: string)
    requires StringLe(a, b) && StringLe(b, c)
    ensures StringLe(a, c)
  {
    if a != [] && b != [] && c != [] && a[0] == b[0] && b[0] == c[0] {
      StringLeTransitive(a[1..], b[1..], c[1..]);
    }
  }
}
