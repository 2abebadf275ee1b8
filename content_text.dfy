/** The string logic of the in-page script (src/content.js): slug
    normalisation, the hand-written whole-word matcher used by the word
    filter and keyword highlighting, HTML escaping for the settings chips,
    the current channel taken from the page path, and the reading of
    follow date and subscription length out of the host's user card. */
module ContentText {
  import opened Wrappers
  import opened Text

  // ---------------------------------------------------------------------
  // normalizeSlug
  // ---------------------------------------------------------------------

  function NormChar(c: char): char {
    if c == '-' then '_' else LowerChar(c)
  }

  /** `s.replace(/-/g, '_').toLowerCase()`: every hyphen becomes an
      underscore and letters are lower-cased, so a slug from a page URL
      (hyphens) and a user name (underscores) compare equal. */
  function NormalizeSlug(s: string): (r: string)
    ensures |r| == |s|
    ensures '-' !in r
    ensures forall i :: 0 <= i < |r| ==> !IsUpper(r[i])
  {
    seq(|s|, i requires 0 <= i < |s| => NormChar(s[i]))
  }

  /** Normalising an already normalised slug changes nothing. */
  lemma NormalizeIdempotent(s: string)
    ensures NormalizeSlug(NormalizeSlug(s)) == NormalizeSlug(s)
  {
    var n := NormalizeSlug(s);
    forall i | 0 <= i < |n| ensures NormChar(n[i]) == n[i] {
      assert n[i] != '-';
    }
  }

  predicate IsSeparator(c: char) {
    c == '-' || c == '_'
  }

  /** The two slugs differ at most in hyphen versus underscore and in
      letter case. */
  predicate SameUpToSeparatorAndCase(a: string, b: string) {
    && |a| == |b|
    && forall i :: 0 <= i < |a| ==>
         (IsSeparator(a[i]) && IsSeparator(b[i])) || LowerChar(a[i]) == LowerChar(b[i])
  }

  lemma NormCharEqual(x: char, y: char)
    ensures NormChar(x) == NormChar(y) <==> (IsSeparator(x) && IsSeparator(y)) || LowerChar(x) == LowerChar(y)
  {
  }

  /** Two slugs normalise equal exactly when they differ only in
      hyphen/underscore and letter case. */
  lemma NormalizeEqualIff(a: string, b: string)
    ensures NormalizeSlug(a) == NormalizeSlug(b) <==> SameUpToSeparatorAndCase(a, b)
  {
    if |a| == |b| {
      forall i | 0 <= i < |a| {
        NormCharEqual(a[i], b[i]);
      }
      if SameUpToSeparatorAndCase(a, b) {
        assert forall i :: 0 <= i < |a| ==> NormalizeSlug(a)[i] == NormalizeSlug(b)[i];
      }
      if NormalizeSlug(a) == NormalizeSlug(b) {
        assert forall i :: 0 <= i < |a| ==> NormChar(a[i]) == NormalizeSlug(a)[i] == NormalizeSlug(b)[i] == NormChar(b[i]);
      }
    }
  }

  // ---------------------------------------------------------------------
  // matchesWord
  // ---------------------------------------------------------------------

  /** `/[\p{L}\p{N}_]/u`, restricted to the letters the model knows: ASCII
      letters and digits, `_`, and the Latin letters U+00C0-U+024F
      (which include the Turkish ç ğ ı İ ö ş ü), except × and ÷. */
  predicate IsWordChar(c: char) {
    || ('a' <= c <= 'z') || ('A' <= c <= 'Z') || ('0' <= c <= '9') || c == '_'
    || ('\U{00C0}' <= c <= '\U{024F}' && c != '\U{00D7}' && c != '\U{00F7}')
  }

  /** `w` occurs in `t` at `i` with no word character right before or
      right after it. */
  predicate BoundaryAt(t: string, w: string, i: nat) {
    && OccursAt(t, w, i)
    && (i == 0 || !IsWordChar(t[i - 1]))
    && (i + |w| == |t| || !IsWordChar(t[i + |w|]))
  }

  predicate HasWholeWord(t: string, w: string) {
    exists i: nat :: i <= |t| && BoundaryAt(t, w, i)
  }

  /** What `matchesWord(text, word, wholeWord)` decides: after
      lower-casing both, substring containment, or, in whole-word mode,
      an occurrence bounded by non-word characters or the ends. */
  predicate WordMatch(text: string, word: string, wholeWord: bool) {
    if wholeWord then HasWholeWord(ToLower(text), ToLower(word))
    else Contains(ToLower(text), ToLower(word))
  }

  /** The matcher itself: it walks the occurrences with `indexOf` and
      checks the character on either side of each. The word must be
      non-empty in whole-word mode (both callers skip empty entries); an
      empty word there would make the search stand still. */
  method MatchesWord(text: string, word: string, wholeWord: bool) returns (r: bool)
    requires wholeWord ==> word != ""
    ensures r == WordMatch(text, word, wholeWord)
  {
    var lText := ToLower(text);
    var lWord := ToLower(word);
    if !wholeWord {
      var k := IndexOf(lText, lWord, 0);
      return k != -1;
    }
    var idx := IndexOf(lText, lWord, 0);
    while idx != -1
      invariant idx == -1 || (0 <= idx && OccursAt(lText, lWord, idx))
      invariant forall j: nat :: (if idx == -1 then j <= |lText| else j < idx) ==> !BoundaryAt(lText, lWord, j)
      decreases if idx == -1 then 0 else |lText| + 1 - idx
    {
      var beforeOk := idx == 0 || !IsWordChar(lText[idx - 1]);
      var afterOk := idx + |lWord| == |lText| || !IsWordChar(lText[idx + |lWord|]);
      if beforeOk && afterOk {
        assert BoundaryAt(lText, lWord, idx);
        return true;
      }
      idx := IndexOf(lText, lWord, idx + 1);
    }
    return false;
  }

  /** A whole-word match is in particular a substring match. */
  lemma WholeWordImpliesSubstring(text: string, word: string)
    ensures WordMatch(text, word, true) ==> WordMatch(text, word, false)
  {
  }

  /** The examples the source's own comment gives: "biz" matches
      "biz yaptı" as a whole word but not "bizden geldi", while the
      substring mode matches both. */
  lemma BizExamples()
    ensures WordMatch("biz yapt\U{0131}", "biz", true)
    ensures !WordMatch("bizden geldi", "biz", true)
    ensures WordMatch("bizden geldi", "biz", false)
  {
    var t1 := "biz yapt\U{0131}";
    ToLowerOfLower(t1);
    ToLowerOfLower("biz");
    assert BoundaryAt(t1, "biz", 0);
    var t2 := "bizden geldi";
    ToLowerOfLower(t2);
    assert OccursAt(t2, "biz", 0);
    forall j: nat | j <= |t2| ensures !BoundaryAt(t2, "biz", j) {
    }
  }

  // ---------------------------------------------------------------------
  // escapeHtml
  // ---------------------------------------------------------------------

  function EscapeChar(c: char): string {
    if c == '&' then "&amp;"
    else if c == '<' then "&lt;"
    else if c == '>' then "&gt;"
    else if c == '"' then "&quot;"
    else [c]
  }

  /** `escapeHtml`: the four `replace` calls run `&` first, so no entity
      they introduce is escaped again and the result is the same as
      escaping character by character. */
  function EscapeHtml(s: string): (r: string)
    ensures forall i :: 0 <= i < |r| ==> r[i] != '<' && r[i] != '>' && r[i] != '"'
  {
    if s == [] then "" else EscapeChar(s[0]) + EscapeHtml(s[1..])
  }

  /** How the browser reads those four entities back out of an attribute
      value: the reference against which escaping is checked. */
  function UnescapeHtml(s: string): string
    decreases |s|
  {
    if s == [] then ""
    else if StartsWith(s, "&amp;") then "&" + UnescapeHtml(s[5..])
    else if StartsWith(s, "&lt;") then "<" + UnescapeHtml(s[4..])
    else if StartsWith(s, "&gt;") then ">" + UnescapeHtml(s[4..])
    else if StartsWith(s, "&quot;") then "\"" + UnescapeHtml(s[6..])
    else [s[0]] + UnescapeHtml(s[1..])
  }

  lemma UnescapeAmp(rest: string)
    ensures UnescapeHtml("&amp;" + rest) == "&" + UnescapeHtml(rest)
  {
    var t := "&amp;" + rest;
    assert t[..5] == "&amp;" && t[5..] == rest;
  }

  lemma UnescapeLt(rest: string)
    ensures UnescapeHtml("&lt;" + rest) == "<" + UnescapeHtml(rest)
  {
    var t := "&lt;" + rest;
    assert t[1] == 'l';
    assert t[..4] == "&lt;" && t[4..] == rest;
  }

  lemma UnescapeGt(rest: string)
    ensures UnescapeHtml("&gt;" + rest) == ">" + UnescapeHtml(rest)
  {
    var t := "&gt;" + rest;
    assert t[1] == 'g';
    assert t[..4] == "&gt;" && t[4..] == rest;
  }

  lemma UnescapeQuot(rest: string)
    ensures UnescapeHtml("&quot;" + rest) == "\"" + UnescapeHtml(rest)
  {
    var t := "&quot;" + rest;
    assert t[1] == 'q';
    assert t[..6] == "&quot;" && t[6..] == rest;
  }

  lemma UnescapePlain(c: char, rest: string)
    requires c != '&'
    ensures UnescapeHtml([c] + rest) == [c] + UnescapeHtml(rest)
  {
    var t := [c] + rest;
    assert t[0] == c && t[1..] == rest;
  }

  /** Reading back the escape of one character gives that character, and
      reading goes on right after it. */
  lemma UnescapeEscapeChar(c: char, rest: string)
    ensures UnescapeHtml(EscapeChar(c) + rest) == [c] + UnescapeHtml(rest)
  {
    if c == '&' {
      UnescapeAmp(rest);
    } else if c == '<' {
      UnescapeLt(rest);
    } else if c == '>' {
      UnescapeGt(rest);
    } else if c == '"' {
      UnescapeQuot(rest);
    } else {
      UnescapePlain(c, rest);
    }
  }

  /** A chip's remove button carries the escaped item in `data-remove`;
      reading the attribute back gives the item itself. */
  lemma {:induction false} UnescapeEscape(s: string)
    ensures UnescapeHtml(EscapeHtml(s)) == s
  {
    if s != [] {
      UnescapeEscape(s[1..]);
      UnescapeEscapeChar(s[0], EscapeHtml(s[1..]));
      assert [s[0]] + s[1..] == s;
    }
  }

  // ---------------------------------------------------------------------
  // getCurrentSlug
  // ---------------------------------------------------------------------

  /** `location.pathname.split('/').filter(Boolean)[0]?.toLowerCase() || ''`:
      the first non-empty path segment, lower-cased. */
  function GetCurrentSlug(pathname: string): (r: string)
    ensures '/' !in r
  {
    var seg := FirstNonEmpty(Split(pathname, '/'));
    assert '/' !in seg;
    var r := ToLower(seg);
    assert forall i :: 0 <= i < |r| ==> r[i] == LowerChar(seg[i]) != '/';
    r
  }

  /** On a channel page `/name` or `/name/...` the slug is the lower-cased
      name. */
  lemma CurrentSlugOfChannelPath(name: string, rest: string)
    requires name != "" && '/' !in name
    requires rest == "" || rest[0] == '/'
    ensures GetCurrentSlug("/" + name + rest) == ToLower(name)
  {
    var path := "/" + name + rest;
    assert path == "" + ['/'] + (name + rest);
    SplitAfterPiece("", '/', name + rest);
    if rest == "" {
      assert name + rest == name;
      SplitNoSep(name, '/');
      var xs := [""] + [name];
      assert Split(path, '/') == xs;
      assert xs[1..] == [name];
      assert FirstNonEmpty([name]) == name;
      assert FirstNonEmpty(xs) == name;
    } else {
      assert name + rest == name + ['/'] + rest[1..];
      SplitAfterPiece(name, '/', rest[1..]);
      var xs := [""] + ([name] + Split(rest[1..], '/'));
      assert Split(path, '/') == xs;
      assert xs[1..][0] == name;
      assert FirstNonEmpty(xs[1..]) == name;
      assert FirstNonEmpty(xs) == name;
    }
  }

  // ---------------------------------------------------------------------
  // parseChannelRelation: the value rows of the host's user card
  // ---------------------------------------------------------------------

  /** The follow date and subscription length read out of the card; the
      badges the same function collects are page markup and not part of
      this model. */
  datatype Relation = Relation(followDate: Option<string>, subscribedFor: Option<nat>)

  /** `n` digits start at index `i` of `v`. */
  predicate DigitsAt(v: string, i: nat, n: nat) {
    i + n <= |v| && forall k :: i <= k < i + n ==> IsDigit(v[k])
  }

  /** `/\d{4}/.test(v)`: four digits in a row somewhere. */
  predicate HasFourDigits(v: string) {
    exists i: nat :: i <= |v| && DigitsAt(v, i, 4)
  }

  predicate HasDigit(v: string) {
    exists i :: 0 <= i < |v| && IsDigit(v[i])
  }

  /** The maximal run of digits at the start of `v`. */
  function LeadingDigits(v: string): (r: string)
    ensures AllDigits(r) && |r| <= |v| && r == v[..|r|]
    ensures |r| < |v| ==> !IsDigit(v[|r|])
  {
    if v != [] && IsDigit(v[0]) then [v[0]] + LeadingDigits(v[1..]) else []
  }

  /** `v.match(/(\d+)/)?.[1]`: the first maximal run of digits, that is
      the leading digits from the first index holding a digit. */
  function FirstDigitRun(v: string): (r: Option<string>)
    ensures r.Some? <==> HasDigit(v)
    ensures r.Some? ==> r.value != "" && AllDigits(r.value)
    ensures r.Some? ==> exists i :: 0 <= i < |v| && IsDigit(v[i]) && !HasDigit(v[..i])
                                   && r.value == LeadingDigits(v[i..])
  {
    if v == [] then None
    else if IsDigit(v[0]) then
      assert v[0..] == v && !HasDigit(v[..0]);
      Some(LeadingDigits(v))
    else
      var r := FirstDigitRun(v[1..]);
      FirstDigitRunShift(v, r);
      r
  }

  /** The step of `FirstDigitRun` past a leading non-digit: the first digit
      run of the rest is the first digit run of the whole. */
  lemma FirstDigitRunShift(v: string, r: Option<string>)
    requires v != [] && !IsDigit(v[0])
    requires r.Some? <==> HasDigit(v[1..])
    requires r.Some? ==> exists j :: 0 <= j < |v[1..]| && IsDigit(v[1..][j]) && !HasDigit(v[1..][..j])
                                     && r.value == LeadingDigits(v[1..][j..])
    ensures r.Some? <==> HasDigit(v)
    ensures r.Some? ==> exists i :: 0 <= i < |v| && IsDigit(v[i]) && !HasDigit(v[..i])
                                   && r.value == LeadingDigits(v[i..])
  {
    HasDigitTail(v);
    if r.Some? {
      var j :| 0 <= j < |v[1..]| && IsDigit(v[1..][j]) && !HasDigit(v[1..][..j])
               && r.value == LeadingDigits(v[1..][j..]);
      NoDigitBeforeShift(v, j);
      assert IsDigit(v[j + 1]);
    }
  }

  lemma HasDigitTail(v: string)
    requires v != [] && !IsDigit(v[0])
    ensures HasDigit(v) <==> HasDigit(v[1..])
  {
    if HasDigit(v[1..]) {
      var i :| 0 <= i < |v[1..]| && IsDigit(v[1..][i]);
      assert IsDigit(v[i + 1]);
    }
    if HasDigit(v) {
      var i :| 0 <= i < |v| && IsDigit(v[i]);
      assert i > 0 && IsDigit(v[1..][i - 1]);
    }
  }

  lemma NoDigitBeforeShift(v: string, j: int)
    requires v != [] && !IsDigit(v[0]) && 0 <= j < |v| - 1
    requires !HasDigit(v[1..][..j])
    ensures !HasDigit(v[..j + 1]) && v[1..][j..] == v[j + 1..]
  {
    assert v[..j + 1] == [v[0]] + v[1..][..j];
  }

  lemma {:induction false} LeadingDigitsShort(v: string)
    requires !DigitsAt(v, 0, 4)
    ensures |LeadingDigits(v)| <= 3
  {
    var r := LeadingDigits(v);
    if |r| >= 4 {
      assert forall k :: 0 <= k < 4 ==> v[k] == r[k];
    }
  }

  /** Without four digits in a row, the first digit run has at most three
      digits. */
  lemma {:induction false} FirstRunShort(v: string)
    requires !HasFourDigits(v)
    requires HasDigit(v)
    ensures |FirstDigitRun(v).value| <= 3
  {
    if IsDigit(v[0]) {
      assert !DigitsAt(v, 0, 4);
      LeadingDigitsShort(v);
    } else {
      assert !HasFourDigits(v[1..]) by {
        if HasFourDigits(v[1..]) {
          var i: nat :| i <= |v[1..]| && DigitsAt(v[1..], i, 4);
          assert DigitsAt(v, i + 1, 4);
        }
      }
      var i :| 0 <= i < |v| && IsDigit(v[i]);
      assert IsDigit(v[1..][i - 1]);
      FirstRunShort(v[1..]);
    }
  }

  /** What one value row of the card says. */
  datatype RowValue = FollowDate(date: string) | SubMonths(months: nat) | NoInfo

  /** The classification inside `parseChannelRelation`: an empty value is
      skipped, a value with a four-digit year is the follow date (for
      example "9 Şub 2024"), and otherwise the first number in it is the
      subscription length in months (for example "20 aylık"). */
  function ClassifyValue(value: string): RowValue {
    if value == "" then NoInfo
    else if HasFourDigits(value) then FollowDate(value)
    else match FirstDigitRun(value)
      case Some(run) => SubMonths(DigitsValue(run))
      case None => NoInfo
  }

  /** The classification in full: the year test decides the follow date,
      a subscription length comes only from a value without a year, is the
      value of the digit run at its first digit and so has at most three
      digits, and a value without digits says nothing. */
  lemma ClassifyValueSpec(value: string)
    ensures ClassifyValue(value).FollowDate? <==> HasFourDigits(value)
    ensures ClassifyValue(value).FollowDate? ==> ClassifyValue(value).date == value
    ensures ClassifyValue(value).SubMonths? <==> !HasFourDigits(value) && HasDigit(value)
    ensures ClassifyValue(value).SubMonths? ==> ClassifyValue(value).months < 1000
    ensures ClassifyValue(value).SubMonths? ==>
      exists i :: 0 <= i < |value| && IsDigit(value[i]) && !HasDigit(value[..i])
                  && ClassifyValue(value).months == DigitsValue(LeadingDigits(value[i..]))
    ensures ClassifyValue(value).NoInfo? <==> !HasDigit(value)
  {
    if HasFourDigits(value) {
      var i: nat :| i <= |value| && DigitsAt(value, i, 4);
      assert IsDigit(value[i]);
    } else if HasDigit(value) {
      FirstRunShort(value);
      DigitsValueBound(FirstDigitRun(value).value);
    }
  }

  /** The value cell of one block: the trimmed text of its second child
      `div`, or nothing when it has fewer than two. */
  function BlockValue(divTexts: seq<string>): string {
    if |divTexts| < 2 then "" else Trim(divTexts[1])
  }

  /** What each block says, in document order. */
  function RowValues(blocks: seq<seq<string>>): (rows: seq<RowValue>)
    ensures |rows| == |blocks|
    ensures forall k :: 0 <= k < |blocks| ==> rows[k] == ClassifyValue(BlockValue(blocks[k]))
  {
    seq(|blocks|, k requires 0 <= k < |blocks| => ClassifyValue(BlockValue(blocks[k])))
  }

  /** The loop body: a date row overwrites the follow date, a
      subscription row the subscription length. */
  function ApplyRow(info: Relation, row: RowValue): Relation {
    match row
    case FollowDate(d) => info.(followDate := Some(d))
    case SubMonths(n) => info.(subscribedFor := Some(n))
    case NoInfo => info
  }

  /** The loop over the rows, in document order. */
  function FoldRows(rows: seq<RowValue>): Relation
    decreases |rows|
  {
    if rows == [] then Relation(None, None)
    else ApplyRow(FoldRows(rows[..|rows| - 1]), rows[|rows| - 1])
  }

  /** `parseChannelRelation` on the info container's blocks, each given as
      the texts of its child `div`s; no container (or no card) yields no
      information. */
  function ParseChannelRelation(container: Option<seq<seq<string>>>): Relation {
    match container
    case None => Relation(None, None)
    case Some(blocks) => FoldRows(RowValues(blocks))
  }

  /** There is a follow date exactly when some row is a date, and it is
      the date of the LAST date row. */
  lemma {:induction false} FoldRowsFollowDate(rows: seq<RowValue>)
    ensures FoldRows(rows).followDate.Some? <==> exists k :: 0 <= k < |rows| && rows[k].FollowDate?
    ensures FoldRows(rows).followDate.Some? ==>
      exists k :: 0 <= k < |rows| && rows[k].FollowDate?
        && FoldRows(rows).followDate.value == rows[k].date
        && forall j :: k < j < |rows| ==> !rows[j].FollowDate?
    decreases |rows|
  {
    if rows != [] {
      var n := |rows| - 1;
      var init := rows[..n];
      FoldRowsFollowDate(init);
      assert forall k :: 0 <= k < n ==> rows[k] == init[k];
      if rows[n].FollowDate? {
        assert FoldRows(rows).followDate == Some(rows[n].date);
      } else {
        assert FoldRows(rows).followDate == FoldRows(init).followDate;
        if FoldRows(rows).followDate.Some? {
          var k :| 0 <= k < |init| && init[k].FollowDate?
            && FoldRows(init).followDate.value == init[k].date
            && forall j :: k < j < |init| ==> !init[j].FollowDate?;
          assert rows[k] == init[k] && FoldRows(rows).followDate.value == rows[k].date;
          assert forall j :: k < j < |rows| ==> !rows[j].FollowDate?;
        }
      }
    }
  }

  /** There is a subscription length exactly when some row gives one, and
      it is the length the last such row gives. */
  lemma {:induction false} FoldRowsSubscription(rows: seq<RowValue>)
    ensures FoldRows(rows).subscribedFor.Some? <==> exists k :: 0 <= k < |rows| && rows[k].SubMonths?
    ensures FoldRows(rows).subscribedFor.Some? ==>
      exists k :: 0 <= k < |rows| && rows[k].SubMonths?
        && FoldRows(rows).subscribedFor.value == rows[k].months
        && forall j :: k < j < |rows| ==> !rows[j].SubMonths?
    decreases |rows|
  {
    if rows != [] {
      var n := |rows| - 1;
      var init := rows[..n];
      FoldRowsSubscription(init);
      assert forall k :: 0 <= k < n ==> rows[k] == init[k];
      if rows[n].SubMonths? {
        assert FoldRows(rows).subscribedFor == Some(rows[n].months);
      } else {
        assert FoldRows(rows).subscribedFor == FoldRows(init).subscribedFor;
        if FoldRows(rows).subscribedFor.Some? {
          var k :| 0 <= k < |init| && init[k].SubMonths?
            && FoldRows(init).subscribedFor.value == init[k].months
            && forall j :: k < j < |init| ==> !init[j].SubMonths?;
          assert rows[k] == init[k] && FoldRows(rows).subscribedFor.value == rows[k].months;
          assert forall j :: k < j < |rows| ==> !rows[j].SubMonths?;
        }
      }
    }
  }

  /** On the card: the follow date, when there is one, is a value with a
      four-digit year, and the subscription length is below 1000 months. */
  lemma ParseChannelRelationBounds(blocks: seq<seq<string>>)
    ensures ParseChannelRelation(Some(blocks)).followDate.Some? ==>
      HasFourDigits(ParseChannelRelation(Some(blocks)).followDate.value)
    ensures ParseChannelRelation(Some(blocks)).subscribedFor.Some? ==>
      ParseChannelRelation(Some(blocks)).subscribedFor.value < 1000
  {
    var rows := RowValues(blocks);
    FoldRowsFollowDate(rows);
    FoldRowsSubscription(rows);
    var r := FoldRows(rows);
    if r.followDate.Some? {
      var k :| 0 <= k < |rows| && rows[k].FollowDate? && r.followDate.value == rows[k].date
        && forall j :: k < j < |rows| ==> !rows[j].FollowDate?;
      ClassifyValueSpec(BlockValue(blocks[k]));
    }
    if r.subscribedFor.Some? {
      var k :| 0 <= k < |rows| && rows[k].SubMonths? && r.subscribedFor.value == rows[k].months;
      ClassifyValueSpec(BlockValue(blocks[k]));
    }
  }
}
