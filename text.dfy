/** String helpers shared by every part of the extension: case folding,
    whitespace trimming, substring search, decimal numbers, and joining and
    splitting on a one-character separator. JavaScript strings are modelled
    as `seq<char>`. */
module Text {

  // ---------------------------------------------------------------------
  // Case folding
  // ---------------------------------------------------------------------

  /** The capitals that `LowerChar` folds: ASCII A-Z and the Turkish
      capitals Ç, Ö, Ü, Ğ, Ş (the site's main audience writes Turkish). */
  predicate IsUpper(c: char) {
    ('A' <= c <= 'Z') || c == '\U{00C7}' || c == '\U{00D6}' || c == '\U{00DC}' || c == '\U{011E}' || c == '\U{015E}'
  }

  /** `toLowerCase` on one character, restricted to the capitals above;
      every other character is left alone. */
  function LowerChar(c: char): (d: char)
    ensures !IsUpper(d)
    ensures !IsUpper(c) ==> d == c
  {
    if 'A' <= c <= 'Z' then (c as int + 32) as char
    else if c == '\U{00C7}' then '\U{00E7}'
    else if c == '\U{00D6}' then '\U{00F6}'
    else if c == '\U{00DC}' then '\U{00FC}'
    else if c == '\U{011E}' then '\U{011F}'
    else if c == '\U{015E}' then '\U{015F}'
    else c
  }

  /** `String.prototype.toLowerCase`, character by character. */
  function ToLower(s: string): (r: string)
    ensures |r| == |s|
    ensures forall i :: 0 <= i < |r| ==> !IsUpper(r[i])
  {
    seq(|s|, i requires 0 <= i < |s| => LowerChar(s[i]))
  }

  /** A string without capitals is its own lower-case form. */
  lemma ToLowerOfLower(s: string)
    requires forall i :: 0 <= i < |s| ==> !IsUpper(s[i])
    ensures ToLower(s) == s
  {
  }

  // ---------------------------------------------------------------------
  // Whitespace
  // ---------------------------------------------------------------------

  /** The white-space characters `String.prototype.trim` strips: the
      space separators, tab, vertical tab, form feed, BOM and the four line
      terminators. */
  predicate IsSpace(c: char) {
    c == ' ' || c == '\t' || c == '\n' || c == '\r' || c == '\U{000B}' || c == '\U{000C}' ||
    c == '\U{00A0}' || c == '\U{FEFF}' || c == '\U{2028}' || c == '\U{2029}' ||
    c == '\U{1680}' || ('\U{2000}' <= c <= '\U{200A}') || c == '\U{202F}' || c == '\U{205F}' ||
    c == '\U{3000}'
  }

  function TrimStart(s: string): (r: string)
    ensures |r| <= |s| && r == s[|s| - |r|..]
    ensures r == [] || !IsSpace(r[0])
    ensures forall i :: 0 <= i < |s| - |r| ==> IsSpace(s[i])
    decreases |s|
  {
    if s != [] && IsSpace(s[0]) then TrimStart(s[1..]) else s
  }

  function TrimEnd(s: string): (r: string)
    ensures |r| <= |s| && r == s[..|r|]
    ensures r == [] || !IsSpace(r[|r| - 1])
    ensures forall i :: |r| <= i < |s| ==> IsSpace(s[i])
    decreases |s|
  {
    if s != [] && IsSpace(s[|s| - 1]) then TrimEnd(s[..|s| - 1]) else s
  }

  /** `String.prototype.trim`: the slice of `s` left after removing the
      white space at both ends. */
  function Trim(s: string): (r: string)
    ensures r == [] || (!IsSpace(r[0]) && !IsSpace(r[|r| - 1]))
    ensures |r| <= |s|
  {
    TrimEnd(TrimStart(s))
  }

  /** A word of plain lower-case letters is its own trimmed, lower-case
      form. */
  lemma PlainWord(s: string)
    requires forall i :: 0 <= i < |s| ==> 'a' <= s[i] <= 'z'
    ensures Trim(s) == s && ToLower(s) == s
  {
    forall i | 0 <= i < |s| ensures !IsSpace(s[i]) && !IsUpper(s[i]) {
    }
    ToLowerOfLower(s);
    TrimNoSpace(s);
  }

  /** A string with no white space is left alone by `Trim`. */
  lemma TrimNoSpace(s: string)
    requires forall i :: 0 <= i < |s| ==> !IsSpace(s[i])
    ensures Trim(s) == s
  {
  }

  // ---------------------------------------------------------------------
  // Prefixes and substrings
  // ---------------------------------------------------------------------

  predicate StartsWith(s: string, p: string) {
    |p| <= |s| && s[..|p|] == p
  }

  /** `word` occurs in `text` starting at index `i`. */
  predicate OccursAt(text: string, word: string, i: nat) {
    i + |word| <= |text| && text[i..i + |word|] == word
  }

  /** `text.includes(word)`. */
  predicate Contains(text: string, word: string) {
    exists i: nat :: i <= |text| && OccursAt(text, word, i)
  }

  /** Every string occurs in itself. */
  lemma ContainsSelf(s: string)
    ensures Contains(s, s)
  {
    assert OccursAt(s, s, 0);
  }

  /** `text.indexOf(word, from)`: the first occurrence at or after `from`,
      or -1 when there is none. */
  method IndexOf(text: string, word: string, from: nat) returns (k: int)
    requires from <= |text|
    ensures k == -1 || (from <= k && OccursAt(text, word, k))
    ensures forall j: nat :: from <= j && (k == -1 || j < k) ==> !OccursAt(text, word, j)
  {
    if |word| > |text| {
      return -1;
    }
    var i := from;
    while i + |word| <= |text|
      invariant from <= i <= |text| + 1
      invariant forall j: nat :: from <= j < i ==> !OccursAt(text, word, j)
    {
      if text[i..i + |word|] == word {
        return i;
      }
      i := i + 1;
    }
    return -1;
  }

  // ---------------------------------------------------------------------
  // Decimal numbers (`String(n)`, `parseInt`)
  // ---------------------------------------------------------------------

  predicate IsDigit(c: char) {
    '0' <= c <= '9'
  }

  predicate AllDigits(s: string) {
    forall i :: 0 <= i < |s| ==> IsDigit(s[i])
  }

  function DigitChar(d: nat): (c: char)
    requires d < 10
    ensures IsDigit(c)
  {
    ('0' as int + d) as char
  }

  function DigitValue(c: char): (d: nat)
    requires IsDigit(c)
    ensures d < 10
  {
    c as int - '0' as int
  }

  /** `String(n)` for a non-negative integer: its decimal digits, without
      leading zeros. */
  function NatToString(n: nat): (s: string)
    ensures |s| >= 1 && AllDigits(s)
    ensures |s| > 1 ==> s[0] != '0'
    decreases n
  {
    if n < 10 then [DigitChar(n)] else NatToString(n / 10) + [DigitChar(n % 10)]
  }

  /** The value of a run of decimal digits, as `parseInt(s, 10)` reads it. */
  function DigitsValue(s: string): nat
    requires AllDigits(s)
  {
    if s == [] then 0 else DigitsValue(s[..|s| - 1]) * 10 + DigitValue(s[|s| - 1])
  }

  /** Reading back what `NatToString` wrote gives the number again. */
  lemma {:induction false} DigitsValueOfNatToString(n: nat)
    ensures DigitsValue(NatToString(n)) == n
    decreases n
  {
    var s := NatToString(n);
    if n >= 10 {
      DigitsValueOfNatToString(n / 10);
      assert s[..|s| - 1] == NatToString(n / 10);
    }
  }

  /** A run of at most three digits is worth less than a thousand. */
  lemma {:induction false} DigitsValueBound(s: string)
    requires AllDigits(s) && |s| <= 3
    ensures DigitsValue(s) < 1000
  {
    if s != [] {
      var p := s[..|s| - 1];
      if p != [] {
        var q := p[..|p| - 1];
        if q != [] {
          assert q[..|q| - 1] == [];
        }
        assert DigitsValue(q) < 10;
      }
      assert DigitsValue(p) < 100;
    }
  }

  /** Concatenation regroups freely; stated once so that proofs about
      list filters need not rediscover it among their own facts. */
  lemma ConcatAssoc<T>(a: seq<T>, b: seq<T>, c: seq<T>)
    ensures a + (b + c) == (a + b) + c
  {
  }

  /** A sequence is the part before position `k`, the element there, and
      the part after. */
  lemma SplitAt<T>(xs: seq<T>, k: int)
    requires 0 <= k < |xs|
    ensures xs == xs[..k] + ([xs[k]] + xs[k + 1..])
  {
  }

  // ---------------------------------------------------------------------
  // Join and split on one character
  // ---------------------------------------------------------------------

  /** `xs.join(sep)`. */
  function Join(xs: seq<string>, sep: char): string
    decreases |xs|
  {
    if |xs| == 0 then "" else if |xs| == 1 then xs[0] else xs[0] + [sep] + Join(xs[1..], sep)
  }

  /** `s.split(sep)` for a one-character separator: the pieces between
      separators, always at least one (possibly empty). */
  function Split(s: string, sep: char): (r: seq<string>)
    ensures |r| >= 1
    ensures forall k :: 0 <= k < |r| ==> sep !in r[k]
    decreases |s|
  {
    if s == [] then [""]
    else
      var rest := Split(s[1..], sep);
      if s[0] == sep then [""] + rest else [[s[0]] + rest[0]] + rest[1..]
  }

  /** Splitting a piece free of the separator, followed by the separator,
      yields that piece first. */
  lemma {:induction false} SplitAfterPiece(x: string, sep: char, rest: string)
    requires sep !in x
    ensures Split(x + [sep] + rest, sep) == [x] + Split(rest, sep)
    decreases |x|
  {
    if x == [] {
      assert [sep] + rest == x + [sep] + rest;
      assert ([sep] + rest)[1..] == rest;
    } else {
      var s := x + [sep] + rest;
      assert s[1..] == x[1..] + [sep] + rest;
      SplitAfterPiece(x[1..], sep, rest);
      assert [x[0]] + x[1..] == x;
    }
  }

  /** A piece free of the separator splits to itself. */
  lemma {:induction false} SplitNoSep(x: string, sep: char)
    requires sep !in x
    ensures Split(x, sep) == [x]
    decreases |x|
  {
    if x != [] {
      SplitNoSep(x[1..], sep);
      assert [x[0]] + x[1..] == x;
    }
  }

  /** Splitting undoes joining, as long as no piece contains the separator. */
  lemma {:induction false} SplitJoin(xs: seq<string>, sep: char)
    requires |xs| >= 1
    requires forall k :: 0 <= k < |xs| ==> sep !in xs[k]
    ensures Split(Join(xs, sep), sep) == xs
    decreases |xs|
  {
    if |xs| == 1 {
      SplitNoSep(xs[0], sep);
    } else {
      SplitJoin(xs[1..], sep);
      SplitAfterPiece(xs[0], sep, Join(xs[1..], sep));
      assert [xs[0]] + xs[1..] == xs;
    }
  }

  /** The first non-empty element of a list, or "" when there is none
      (`xs.filter(Boolean)[0] || ''`). */
  function FirstNonEmpty(xs: seq<string>): (r: string)
    ensures r == "" || r in xs
    ensures r == "" <==> forall k :: 0 <= k < |xs| ==> xs[k] == ""
  {
    if xs == [] then "" else if xs[0] != "" then xs[0] else FirstNonEmpty(xs[1..])
  }

  /** The elements of `xs` that are not empty, in order (`filter(Boolean)`). */
  function NonEmpty(xs: seq<string>): (r: seq<string>)
    ensures forall k :: 0 <= k < |r| ==> r[k] != "" && r[k] in xs
    ensures forall k :: 0 <= k < |xs| && xs[k] != "" ==> xs[k] in r
  {
    if xs == [] then [] else (if xs[0] != "" then [xs[0]] else []) + NonEmpty(xs[1..])
  }

  /** A list with no empty element passes `filter(Boolean)` unchanged. */
  lemma {:induction false} NonEmptyOfNonEmpty(xs: seq<string>)
    requires forall k :: 0 <= k < |xs| ==> xs[k] != ""
    ensures NonEmpty(xs) == xs
  {
    if xs != [] {
      NonEmptyOfNonEmpty(xs[1..]);
      assert [xs[0]] + xs[1..] == xs;
    }
  }
}
