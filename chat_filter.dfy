/** The chat message classifier of the in-page script (src/content.js,
    `processMessage` with `applyFilter` and `hideMessage`) and the pass
    that clears and re-classifies every message after a settings change.

    A chat message is a record (author, colour, text, emote and emoji
    counts, whether it has a message box); what the script writes onto
    the message's element is a `NodeState`: the set of marker classes,
    `display: none`, the favourite colour property, the `title` tooltip
    and the keyword highlight on the message box. */
module ChatFilter {
  import opened Wrappers
  import opened Text
  import opened ContentText

  // ---------------------------------------------------------------------
  // Settings, messages and marks
  // ---------------------------------------------------------------------

  /** `siteSettings.chat`. A missing list is the empty list; a missing
      number is 0 and a missing string is "", which is how the `x || d`
      defaults in the script read them. */
  datatype ChatSettings = ChatSettings(
    filterWords: seq<string>,
    filterUsers: seq<string>,
    favoriteUsers: seq<string>,
    keywords: seq<string>,
    filterWordMode: Option<bool>,
    filterBots: bool,
    filterEmojiSpam: bool,
    emojiSpamThreshold: nat,
    filterAction: string,
    fontSize: nat,
    showTimestamp: bool,
    compactMode: bool)

  /** `{}`: the chat record before anything was set. */
  const EmptyChat := ChatSettings([], [], [], [], None, false, false, 0, "", 0, false, false)

  /** `(chat.filterAction || 'hide') === 'blur'`. */
  predicate IsBlur(c: ChatSettings) {
    c.filterAction == "blur"
  }

  /** Whole-word matching is on unless `filterWordMode === false`. */
  predicate WholeWordMode(c: ChatSettings) {
    c.filterWordMode != Some(false)
  }

  /** `chat.emojiSpamThreshold || 5`. */
  function SpamThreshold(c: ChatSettings): (t: nat)
    ensures t >= 1
    ensures c.emojiSpamThreshold != 0 ==> t == c.emojiSpamThreshold
  {
    if c.emojiSpamThreshold == 0 then 5 else c.emojiSpamThreshold
  }

  /** One chat line as the script reads it: whether the element carries
      `data-index`, the user-name button's `title` and text colour, the
      text of the message span (if any) and of the whole element, the
      number of emote images, the number of emoji characters, and whether
      the `.break-words` box exists. */
  datatype Message = Message(
    indexed: bool,
    authorTitle: Option<string>,
    authorColor: string,
    spanText: Option<string>,
    nodeText: string,
    emotes: nat,
    emojis: nat,
    hasBox: bool)

  /** The lower-cased author name, or "". */
  function Author(m: Message): string {
    ToLower(m.authorTitle.GetOr(""))
  }

  /** The trimmed message text, falling back to the whole element's text
      when the span is missing or blank. */
  function MessageText(m: Message): (t: string)
    ensures Trim(m.spanText.GetOr("")) != "" ==> t == Trim(m.spanText.GetOr(""))
    ensures Trim(m.spanText.GetOr("")) == "" ==> t == Trim(m.nodeText)
  {
    var t := Trim(m.spanText.GetOr(""));
    if t != "" then t else Trim(m.nodeText)
  }

  /** The seven marker classes `ke-filtered-bot`, `ke-filtered-word`,
      `ke-filtered-user`, `ke-filtered-emote`, `ke-emoji-spam`,
      `ke-filtered-blur` and `ke-fav-msg`. */
  datatype Mark = FilteredBot | FilteredWord | FilteredUser | FilteredEmote | EmojiSpam | FilteredBlur | FavMsg

  /** What the script has written onto one message element. */
  datatype NodeState = NodeState(
    marks: set<Mark>,
    hidden: bool,
    favColor: Option<string>,
    title: string,
    highlighted: bool)

  /** A message element as the site renders it. */
  const Fresh := NodeState({}, false, None, "", false)

  // ---------------------------------------------------------------------
  // The classifier as a function
  // ---------------------------------------------------------------------

  /** `hideMessage`: add the class and set `display: none`. */
  function Hidden(s: NodeState, cls: Mark): NodeState {
    s.(marks := s.marks + {cls}, hidden := true)
  }

  /** `applyFilter`: blur only adds `ke-filtered-blur`; otherwise hide with
      the filter's own class. */
  function Filtered(s: NodeState, cls: Mark, blur: bool): NodeState {
    if blur then s.(marks := s.marks + {FilteredBlur}) else Hidden(s, cls)
  }

  /** Some non-empty entry of `words` matches `text`. */
  predicate AnyWordHit(words: seq<string>, text: string, whole: bool) {
    exists i :: 0 <= i < |words| && words[i] != "" && WordMatch(text, words[i], whole)
  }

  /** Some non-empty entry of `users`, normalised, occurs INSIDE the
      normalised author name. */
  predicate AnyUserContained(users: seq<string>, author: string) {
    exists i :: 0 <= i < |users| && users[i] != "" && Contains(NormalizeSlug(author), NormalizeSlug(users[i]))
  }

  /** Some non-empty entry of `users` normalises EQUAL to the author. */
  predicate AnyUserEqual(users: seq<string>, author: string) {
    exists i :: 0 <= i < |users| && users[i] != "" && NormalizeSlug(author) == NormalizeSlug(users[i])
  }

  predicate BotHit(c: ChatSettings, m: Message) {
    c.filterBots && StartsWith(MessageText(m), "!")
  }

  predicate WordHit(c: ChatSettings, m: Message) {
    AnyWordHit(c.filterWords, MessageText(m), WholeWordMode(c))
  }

  predicate UserHit(c: ChatSettings, m: Message) {
    AnyUserContained(c.filterUsers, Author(m))
  }

  /** One of the three filters applies. */
  predicate Filtering(c: ChatSettings, m: Message) {
    BotHit(c, m) || WordHit(c, m) || UserHit(c, m)
  }

  predicate IsFavorite(c: ChatSettings, m: Message) {
    AnyUserEqual(c.favoriteUsers, Author(m))
  }

  predicate IsSpam(c: ChatSettings, m: Message) {
    c.filterEmojiSpam && m.emotes + m.emojis >= SpamThreshold(c)
  }

  predicate KeywordHit(c: ChatSettings, m: Message) {
    AnyWordHit(c.keywords, MessageText(m), WholeWordMode(c))
  }

  /** `Emote spam (N emote, M emoji)`. */
  function SpamTitle(m: Message): (t: string)
    ensures t != ""
  {
    "Emote spam (" + NatToString(m.emotes) + " emote, " + NatToString(m.emojis) + " emoji)"
  }

  /** What the six tests of `processMessage` say about one line. */
  datatype Verdict = Verdict(bot: bool, word: bool, user: bool, favorite: bool, spam: bool, keyword: bool) {
    /** One of the three filters applies. */
    predicate Filters() {
      bot || word || user
    }
  }

  function Classify(c: ChatSettings, m: Message): Verdict {
    Verdict(BotHit(c, m), WordHit(c, m), UserHit(c, m), IsFavorite(c, m), IsSpam(c, m), KeywordHit(c, m))
  }

  /** The favourite step: mark and colour the line of a favourite (the
      colour is left as it was when the button has none), unmark and
      uncolour any other line. */
  function FavStep(favorite: bool, m: Message, s: NodeState): NodeState {
    if favorite then
      s.(marks := s.marks + {FavMsg}, favColor := if m.authorColor != "" then Some(m.authorColor) else s.favColor)
    else
      s.(marks := s.marks - {FavMsg}, favColor := None)
  }

  /** The emoji-spam step. */
  function SpamStep(spam: bool, blur: bool, m: Message, s: NodeState): NodeState {
    if !spam then s
    else if blur then s.(marks := s.marks + {EmojiSpam}, title := SpamTitle(m))
    else Hidden(s, FilteredEmote)
  }

  /** The keyword step: highlight the message box, when there is one. */
  function KeywordStep(keyword: bool, m: Message, s: NodeState): NodeState {
    if keyword && m.hasBox then s.(highlighted := true) else s
  }

  /** What `processMessage` does with the tests' answers: the first of the
      bot, word and user filters that applies ends the processing; a line
      no filter catches goes through the favourite, emoji-spam and keyword
      steps. */
  function Apply(v: Verdict, blur: bool, m: Message, s: NodeState): NodeState {
    if v.bot then Filtered(s, FilteredBot, blur)
    else if v.word then Filtered(s, FilteredWord, blur)
    else if v.user then Filtered(s, FilteredUser, blur)
    else KeywordStep(v.keyword, m, SpamStep(v.spam, blur, m, FavStep(v.favorite, m, s)))
  }

  /** `processMessage`: lines without `data-index` are skipped. */
  function Process(c: ChatSettings, m: Message, s: NodeState): NodeState {
    if !m.indexed then s else Apply(Classify(c, m), IsBlur(c), m, s)
  }

  /** The classes a newly rendered line ends up with. */
  function Marks(c: ChatSettings, m: Message): set<Mark> {
    Process(c, m, Fresh).marks
  }

  // ---------------------------------------------------------------------
  // What the classifier promises
  // ---------------------------------------------------------------------

  /** Every marker class written onto a line, and exactly when. */
  lemma ApplyMarks(v: Verdict, blur: bool, m: Message)
    ensures FilteredBlur in Apply(v, blur, m, Fresh).marks <==> blur && v.Filters()
    ensures FilteredBot in Apply(v, blur, m, Fresh).marks <==> !blur && v.bot
    ensures FilteredWord in Apply(v, blur, m, Fresh).marks <==> !blur && !v.bot && v.word
    ensures FilteredUser in Apply(v, blur, m, Fresh).marks <==> !blur && !v.bot && !v.word && v.user
    ensures FavMsg in Apply(v, blur, m, Fresh).marks <==> !v.Filters() && v.favorite
    ensures EmojiSpam in Apply(v, blur, m, Fresh).marks <==> !v.Filters() && v.spam && blur
    ensures FilteredEmote in Apply(v, blur, m, Fresh).marks <==> !v.Filters() && v.spam && !blur
  {
  }

  /** The classes of a new line in terms of the settings: blur marks every
      filtered line alike, hide marks it with the first filter that
      applies, and the favourite and spam classes go only on lines no
      filter caught. */
  lemma MarksSpec(c: ChatSettings, m: Message)
    ensures FilteredBlur in Marks(c, m) <==> m.indexed && IsBlur(c) && (BotHit(c, m) || WordHit(c, m) || UserHit(c, m))
    ensures FilteredBot in Marks(c, m) <==> m.indexed && !IsBlur(c) && BotHit(c, m)
    ensures FilteredWord in Marks(c, m) <==> m.indexed && !IsBlur(c) && !BotHit(c, m) && WordHit(c, m)
    ensures FilteredUser in Marks(c, m) <==> m.indexed && !IsBlur(c) && !BotHit(c, m) && !WordHit(c, m) && UserHit(c, m)
    ensures FavMsg in Marks(c, m) <==> m.indexed && !(BotHit(c, m) || WordHit(c, m) || UserHit(c, m)) && IsFavorite(c, m)
    ensures EmojiSpam in Marks(c, m) <==> m.indexed && !(BotHit(c, m) || WordHit(c, m) || UserHit(c, m)) && IsSpam(c, m) && IsBlur(c)
    ensures FilteredEmote in Marks(c, m) <==> m.indexed && !(BotHit(c, m) || WordHit(c, m) || UserHit(c, m)) && IsSpam(c, m) && !IsBlur(c)
  {
    ApplyMarks(Classify(c, m), IsBlur(c), m);
  }

  /** A line is hidden exactly when, under the hide action, a filter
      applies or it is emoji spam; under blur nothing is ever hidden. */
  lemma ApplyHiddenIff(v: Verdict, blur: bool, m: Message)
    ensures Apply(v, blur, m, Fresh).hidden <==> !blur && (v.Filters() || v.spam)
  {
  }

  /** A filtered line gets exactly one class and at most `display: none`;
      the favourite colour, the tooltip and the highlight are never
      touched, because processing stops at the filter. */
  lemma FilterShortCircuits(v: Verdict, blur: bool, m: Message, s: NodeState)
    requires v.Filters()
    ensures exists cls :: Apply(v, blur, m, s).marks == s.marks + {cls}
    ensures Apply(v, blur, m, s).favColor == s.favColor
    ensures Apply(v, blur, m, s).title == s.title
    ensures Apply(v, blur, m, s).highlighted == s.highlighted
  {
    var r := Apply(v, blur, m, s);
    if blur {
      assert r.marks == s.marks + {FilteredBlur};
    } else if v.bot {
      assert r.marks == s.marks + {FilteredBot};
    } else if v.word {
      assert r.marks == s.marks + {FilteredWord};
    } else {
      assert r.marks == s.marks + {FilteredUser};
    }
  }

  /** Emoji spam does not end the processing: a spam line that carries a
      keyword still gets its highlight. */
  lemma SpamStillHighlights(v: Verdict, blur: bool, m: Message, s: NodeState)
    requires !v.Filters() && v.spam && v.keyword && m.hasBox
    ensures Apply(v, blur, m, s).highlighted
    ensures Apply(v, blur, m, s).hidden == (s.hidden || !blur)
  {
  }

  /** The spam test counts emotes and emoji together against the
      threshold, 5 when unset. */
  lemma SpamExamples(m: Message)
    requires m.emotes == 3 && m.emojis == 3
    ensures IsSpam(EmptyChat.(filterEmojiSpam := true), m)
    ensures !IsSpam(EmptyChat.(filterEmojiSpam := true, emojiSpamThreshold := 7), m)
  {
  }

  /** The user filter matches a name CONTAINING a listed user, while a
      favourite must be the same name: so every list entry that would make
      an author a favourite also catches that author in the user filter,
      but not conversely. "ali" in both lists catches "ali_veli" as a
      filtered user but not as a favourite, and "Ali-Veli" as a favourite
      matches the author "ali_veli". */
  lemma {:induction false} UserContainsFavoriteEquals(users: seq<string>, author: string)
    ensures AnyUserEqual(users, author) ==> AnyUserContained(users, author)
    ensures AnyUserContained(["ali"], "ali_veli")
    ensures !AnyUserEqual(["ali"], "ali_veli")
    ensures AnyUserEqual(["Ali-Veli"], "ali_veli")
  {
    if AnyUserEqual(users, author) {
      var i :| 0 <= i < |users| && users[i] != "" && NormalizeSlug(author) == NormalizeSlug(users[i]);
      ContainsSelf(NormalizeSlug(author));
    }
    var n := NormalizeSlug("ali_veli");
    assert n == "ali_veli";
    var us := ["ali"];
    assert NormalizeSlug(us[0]) == "ali";
    assert OccursAt(n, "ali", 0);
    assert Contains(n, NormalizeSlug(us[0]));
    var fs := ["Ali-Veli"];
    assert NormalizeSlug(fs[0]) == "ali_veli";
  }

  // ---------------------------------------------------------------------
  // Clearing before re-classifying
  // ---------------------------------------------------------------------

  /** The clearing in `reprocessAllMessages` as written: the seven classes,
      `display` and the favourite colour go; the tooltip and the keyword
      highlight stay. */
  function ClearAsReprocessed(s: NodeState): NodeState {
    s.(marks := {}, hidden := false, favColor := None)
  }

  /** The clearing in the storage-change listener as written: the same,
      and the tooltip too; the keyword highlight stays. */
  function ClearOnSettingsChange(s: NodeState): NodeState {
    s.(marks := {}, hidden := false, favColor := None, title := "")
  }

  /** The clearing both passes evidently intend: everything the
      classifier can write is undone, the highlight and tooltip included. */
  function ClearForReprocess(s: NodeState): (r: NodeState)
    ensures r.marks == {} && !r.hidden && r.favColor.None? && r.title == "" && !r.highlighted
  {
    s.(marks := {}, hidden := false, favColor := None, title := "", highlighted := false)
  }

  /** Which of the three clearings a pass over the chat uses. */
  datatype Clearing = AsReprocessed | OnSettingsChange | Intended

  function Cleared(k: Clearing, s: NodeState): NodeState {
    match k
    case AsReprocessed => ClearAsReprocessed(s)
    case OnSettingsChange => ClearOnSettingsChange(s)
    case Intended => ClearForReprocess(s)
  }

  /** The classes written depend on the classes present before, never on
      the rest of the line's state. */
  lemma ApplyMarksIgnoreState(v: Verdict, blur: bool, m: Message, s1: NodeState, s2: NodeState)
    requires s1.marks == s2.marks
    ensures Apply(v, blur, m, s1).marks == Apply(v, blur, m, s2).marks
  {
    if !v.Filters() {
      var f1, f2 := FavStep(v.favorite, m, s1), FavStep(v.favorite, m, s2);
      assert f1.marks == f2.marks;
      var p1, p2 := SpamStep(v.spam, blur, m, f1), SpamStep(v.spam, blur, m, f2);
      assert p1.marks == p2.marks;
    }
  }

  /** After either clearing as written, the classes depend only on the
      settings and the message, never on what the line showed before. */
  lemma MarksIgnoreHistory(c: ChatSettings, m: Message, s: NodeState)
    ensures Process(c, m, ClearAsReprocessed(s)).marks == Marks(c, m)
    ensures Process(c, m, ClearOnSettingsChange(s)).marks == Marks(c, m)
  {
    if m.indexed {
      var v := Classify(c, m);
      ApplyMarksIgnoreState(v, IsBlur(c), m, ClearAsReprocessed(s), Fresh);
      ApplyMarksIgnoreState(v, IsBlur(c), m, ClearOnSettingsChange(s), Fresh);
    }
  }

  /** The same for whichever clearing a pass uses. */
  lemma ClearedMarks(c: ChatSettings, m: Message, k: Clearing, s: NodeState)
    ensures Process(c, m, Cleared(k, s)).marks == Marks(c, m)
  {
    if k == Intended {
      assert Cleared(k, s) == Fresh;
    } else {
      MarksIgnoreHistory(c, m, s);
    }
  }

  /** The tooltip is written only by the emoji-spam step under blur. */
  lemma ApplyTitle(v: Verdict, blur: bool, m: Message, s: NodeState)
    ensures Apply(v, blur, m, s).title == if !v.Filters() && v.spam && blur then SpamTitle(m) else s.title
  {
  }

  /** Toggling a favourite or a blocked user writes the settings, which
      runs the storage-change listener's pass, and then runs
      `reprocessAllMessages`; in whichever order the two passes come, the
      line ends with the tooltip of a newly rendered line. */
  lemma {:induction false} ToggleLeavesFreshTitle(c: ChatSettings, m: Message, s: NodeState)
    ensures Process(c, m, ClearAsReprocessed(Process(c, m, ClearOnSettingsChange(s)))).title
         == Process(c, m, Fresh).title
    ensures Process(c, m, ClearOnSettingsChange(Process(c, m, ClearAsReprocessed(s)))).title
         == Process(c, m, Fresh).title
  {
    if m.indexed {
      var v, blur := Classify(c, m), IsBlur(c);
      ApplyTitle(v, blur, m, Fresh);
      ApplyTitle(v, blur, m, ClearOnSettingsChange(s));
      ApplyTitle(v, blur, m, ClearOnSettingsChange(Process(c, m, ClearAsReprocessed(s))));
      var x := Process(c, m, ClearOnSettingsChange(s));
      ApplyTitle(v, blur, m, ClearAsReprocessed(x));
    }
  }

  /** Re-classifying twice under the same settings gives the same classes
      as doing it once. */
  lemma ReprocessTwiceSameMarks(c: ChatSettings, m: Message, s: NodeState)
    ensures Process(c, m, ClearAsReprocessed(Process(c, m, ClearAsReprocessed(s)))).marks
         == Process(c, m, ClearAsReprocessed(s)).marks
  {
    MarksIgnoreHistory(c, m, s);
    MarksIgnoreHistory(c, m, Process(c, m, ClearAsReprocessed(s)));
  }

  /** On a newly rendered line the tooltip is set exactly when the line is
      marked as spam, and the highlight exactly when a keyword matches a
      line no filter caught. */
  lemma ApplyFreshTooltipAndHighlight(v: Verdict, blur: bool, m: Message)
    ensures Apply(v, blur, m, Fresh).title != "" <==> EmojiSpam in Apply(v, blur, m, Fresh).marks
    ensures Apply(v, blur, m, Fresh).highlighted <==> !v.Filters() && v.keyword && m.hasBox
  {
  }

  /** With the full clearing, a re-classified line is exactly a newly
      rendered line under the current settings, so its tooltip and
      highlight reflect those settings. */
  lemma ReprocessReflectsSettings(c: ChatSettings, m: Message, s: NodeState)
    ensures Process(c, m, ClearForReprocess(s)) == Process(c, m, Fresh)
    ensures Process(c, m, ClearForReprocess(s)).title != "" <==> EmojiSpam in Marks(c, m)
    ensures Process(c, m, ClearForReprocess(s)).highlighted <==>
      m.indexed && !Classify(c, m).Filters() && KeywordHit(c, m) && m.hasBox
  {
    assert ClearForReprocess(s) == Fresh;
    ApplyFreshTooltipAndHighlight(Classify(c, m), IsBlur(c), m);
  }

  // The two lines below exhibit what the clearings as written leave behind.

  const SpamBlurChat := EmptyChat.(filterEmojiSpam := true, filterAction := "blur")
  const SpamLine := Message(true, Some("spammer"), "", Some("xx"), "xx", 5, 0, false)

  /** Blocking the author of a line blurred as spam, which re-classifies
      with `reprocessAllMessages`, leaves the "Emote spam" tooltip on a line
      that is no longer marked as spam; a new line would have none. */
  lemma StaleSpamTitle()
    ensures var after := Process(SpamBlurChat.(filterUsers := ["spammer"]), SpamLine,
                                 ClearAsReprocessed(Process(SpamBlurChat, SpamLine, Fresh)));
            after.title != "" && EmojiSpam !in after.marks
    ensures Process(SpamBlurChat.(filterUsers := ["spammer"]), SpamLine, Fresh).title == ""
  {
    SpamLineBefore();
    SpamLineBlocked();
  }

  /** The spam line is emoji spam that no filter catches... */
  lemma SpamLineBefore()
    ensures !BotHit(SpamBlurChat, SpamLine) && !WordHit(SpamBlurChat, SpamLine) && !UserHit(SpamBlurChat, SpamLine)
    ensures IsSpam(SpamBlurChat, SpamLine)
  {
  }

  /** ...until its author is blocked. */
  lemma SpamLineBlocked()
    ensures UserHit(SpamBlurChat.(filterUsers := ["spammer"]), SpamLine)
    ensures !BotHit(SpamBlurChat.(filterUsers := ["spammer"]), SpamLine)
  {
    var c2 := SpamBlurChat.(filterUsers := ["spammer"]);
    ToLowerOfLower("spammer");
    assert Author(SpamLine) == "spammer";
    var n := NormalizeSlug("spammer");
    assert OccursAt(n, n, 0);
    assert c2.filterUsers[0] == "spammer";
    assert Contains(NormalizeSlug(Author(SpamLine)), NormalizeSlug(c2.filterUsers[0]));
  }

  const KeywordChat := EmptyChat.(keywords := ["gg"])
  const KeywordLine := Message(true, Some("ali"), "", Some("gg"), "gg", 0, 0, true)

  /** Removing the keyword "gg" re-classifies through the storage-change
      listener, yet the line "gg" stays highlighted; a new line would not
      be. */
  lemma StaleHighlight()
    ensures Process(EmptyChat, KeywordLine, ClearOnSettingsChange(Process(KeywordChat, KeywordLine, Fresh))).highlighted
    ensures !Process(EmptyChat, KeywordLine, Fresh).highlighted
  {
    KeywordLineUnfiltered();
    KeywordLineMatches();
  }

  /** The keyword line is caught by no filter... */
  lemma KeywordLineUnfiltered()
    ensures !BotHit(KeywordChat, KeywordLine) && !WordHit(KeywordChat, KeywordLine) && !UserHit(KeywordChat, KeywordLine)
  {
  }

  /** ...and matches "gg" as a whole word. */
  lemma KeywordLineMatches()
    ensures KeywordHit(KeywordChat, KeywordLine)
  {
    KeywordLineText();
    GgMatchesItself();
    assert WholeWordMode(KeywordChat);
    assert KeywordChat.keywords[0] == "gg";
  }

  lemma GgPlain()
    ensures Trim("gg") == "gg" && ToLower("gg") == "gg"
  {
    PlainWord("gg");
  }

  lemma KeywordLineText()
    ensures MessageText(KeywordLine) == "gg"
  {
    GgPlain();
    assert KeywordLine.spanText == Some("gg");
  }

  lemma GgMatchesItself()
    ensures WordMatch("gg", "gg", true)
  {
    GgPlain();
    assert OccursAt("gg", "gg", 0);
    assert BoundaryAt(ToLower("gg"), ToLower("gg"), 0);
  }

  // ---------------------------------------------------------------------
  // The message element, changed in place
  // ---------------------------------------------------------------------

  /** `chat.filterWords.some(...)` / the keyword loop: whether some
      non-empty entry matches. */
  method AnyWordMatches(words: seq<string>, text: string, whole: bool) returns (hit: bool)
    ensures hit == AnyWordHit(words, text, whole)
  {
    var i := 0;
    while i < |words|
      invariant 0 <= i <= |words|
      invariant forall k :: 0 <= k < i ==> !(words[k] != "" && WordMatch(text, words[k], whole))
    {
      if words[i] != "" {
        var m := MatchesWord(text, words[i], whole);
        if m {
          return true;
        }
      }
      i := i + 1;
    }
    return false;
  }

  /** `chat.filterUsers.some(u => u && normUser.includes(normalizeSlug(u)))`. */
  method AnyUserContains(users: seq<string>, author: string) returns (hit: bool)
    ensures hit == AnyUserContained(users, author)
  {
    var normUser := NormalizeSlug(author);
    var i := 0;
    while i < |users|
      invariant 0 <= i <= |users|
      invariant forall k :: 0 <= k < i ==> !(users[k] != "" && Contains(normUser, NormalizeSlug(users[k])))
    {
      if users[i] != "" {
        var k := IndexOf(normUser, NormalizeSlug(users[i]), 0);
        if k != -1 {
          return true;
        }
      }
      i := i + 1;
    }
    return false;
  }

  /** `chat.favoriteUsers.some(u => u && normalizeSlug(username) === normalizeSlug(u))`. */
  method AnyUserMatches(users: seq<string>, author: string) returns (hit: bool)
    ensures hit == AnyUserEqual(users, author)
  {
    var normUser := NormalizeSlug(author);
    var i := 0;
    while i < |users|
      invariant 0 <= i <= |users|
      invariant forall k :: 0 <= k < i ==> !(users[k] != "" && normUser == NormalizeSlug(users[k]))
    {
      if users[i] != "" && normUser == NormalizeSlug(users[i]) {
        return true;
      }
      i := i + 1;
    }
    return false;
  }

  /** A chat line's element. The message it shows is fixed; the classes
      and styles the script writes are its mutable state. */
  class ChatNode {
    const msg: Message
    var marks: set<Mark>
    var hidden: bool
    var favColor: Option<string>
    var title: string
    var highlighted: bool

    function State(): NodeState
      reads this
    {
      NodeState(marks, hidden, favColor, title, highlighted)
    }

    constructor(m: Message)
      ensures msg == m && State() == Fresh
    {
      msg := m;
      marks := {};
      hidden := false;
      favColor := None;
      title := "";
      highlighted := false;
    }

    method HideMessage(cls: Mark)
      modifies this
      ensures State() == Hidden(old(State()), cls)
    {
      marks := marks + {cls};
      hidden := true;
    }

    method ApplyFilter(cls: Mark, blur: bool)
      modifies this
      ensures State() == Filtered(old(State()), cls, blur)
    {
      if blur {
        marks := marks + {FilteredBlur};
      } else {
        HideMessage(cls);
      }
    }

    /** `processMessage` on this element. */
    method ProcessMessage(c: ChatSettings)
      modifies this
      ensures State() == Process(c, msg, old(State()))
    {
      if !msg.indexed {
        return;
      }
      ghost var v := Classify(c, msg);
      var blur := c.filterAction == "blur";
      var text := MessageText(msg);
      var username := Author(msg);
      if c.filterBots && StartsWith(text, "!") {
        ApplyFilter(FilteredBot, blur);
        return;
      }
      assert !v.bot;
      var wholeWord := c.filterWordMode != Some(false);
      var wordHit := AnyWordMatches(c.filterWords, text, wholeWord);
      if wordHit {
        ApplyFilter(FilteredWord, blur);
        return;
      }
      assert !v.word;
      var userHit := AnyUserContains(c.filterUsers, username);
      if userHit {
        ApplyFilter(FilteredUser, blur);
        return;
      }
      assert !v.user;
      ProcessUnfiltered(c, text, username);
    }

    /** The rest of `processMessage` for a line no filter caught: the
        favourite, emoji-spam and keyword blocks in turn. */
    method ProcessUnfiltered(c: ChatSettings, text: string, username: string)
      requires text == MessageText(msg) && username == Author(msg)
      modifies this
      ensures State() == KeywordStep(KeywordHit(c, msg), msg,
                           SpamStep(IsSpam(c, msg), IsBlur(c), msg,
                             FavStep(IsFavorite(c, msg), msg, old(State()))))
    {
      var blur := c.filterAction == "blur";
      var wholeWord := c.filterWordMode != Some(false);
      var isFav := AnyUserMatches(c.favoriteUsers, username);
      MarkFavorite(isFav);
      if c.filterEmojiSpam {
        var threshold := if c.emojiSpamThreshold == 0 then 5 else c.emojiSpamThreshold;
        MarkSpam(threshold, blur);
      }
      var kwHit := AnyWordMatches(c.keywords, text, wholeWord);
      Highlight(kwHit);
    }

    /** The favourite block of `processMessage`. */
    method MarkFavorite(isFav: bool)
      modifies this
      ensures State() == FavStep(isFav, msg, old(State()))
    {
      if isFav {
        marks := marks + {FavMsg};
        if msg.authorColor != "" {
          favColor := Some(msg.authorColor);
        }
      } else {
        marks := marks - {FavMsg};
        favColor := None;
      }
    }

    /** The emoji-spam block of `processMessage`, once spam filtering is
        on. */
    method MarkSpam(threshold: nat, blur: bool)
      modifies this
      ensures State() == SpamStep(msg.emotes + msg.emojis >= threshold, blur, msg, old(State()))
    {
      if msg.emotes + msg.emojis >= threshold {
        if blur {
          marks := marks + {EmojiSpam};
          title := SpamTitle(msg);
        } else {
          HideMessage(FilteredEmote);
        }
      }
    }

    /** The keyword block of `processMessage`. */
    method Highlight(kwHit: bool)
      modifies this
      ensures State() == KeywordStep(kwHit, msg, old(State()))
    {
      if kwHit && msg.hasBox {
        highlighted := true;
      }
    }

    /** Clear the line before re-classifying it, as the given pass does. */
    method Clear(k: Clearing)
      modifies this
      ensures State() == Cleared(k, old(State()))
    {
      marks := {};
      hidden := false;
      favColor := None;
      if k != AsReprocessed {
        title := "";
      }
      if k == Intended {
        highlighted := false;
      }
    }
  }

  /** The loop both passes share: when the chat root is present and still
      in the page, clear every line as `k` says and re-classify it under
      the given settings; otherwise do nothing. The lines are distinct
      elements. */
  method ReprocessWith(attached: bool, nodes: seq<ChatNode>, c: ChatSettings, k: Clearing)
    requires forall i, j :: 0 <= i < j < |nodes| ==> nodes[i] != nodes[j]
    modifies set n | n in nodes
    ensures forall i :: 0 <= i < |nodes| ==>
      nodes[i].State() == (if attached then Process(c, nodes[i].msg, Cleared(k, old(nodes[i].State())))
                           else old(nodes[i].State()))
    ensures attached ==> forall i :: 0 <= i < |nodes| ==> nodes[i].State().marks == Marks(c, nodes[i].msg)
  {
    if !attached {
      return;
    }
    var i := 0;
    while i < |nodes|
      invariant 0 <= i <= |nodes|
      invariant forall j :: 0 <= j < i ==>
        nodes[j].State() == Process(c, nodes[j].msg, Cleared(k, old(nodes[j].State())))
      invariant forall j :: i <= j < |nodes| ==> nodes[j].State() == old(nodes[j].State())
    {
      nodes[i].Clear(k);
      nodes[i].ProcessMessage(c);
      i := i + 1;
    }
    forall j | 0 <= j < |nodes|
      ensures nodes[j].State().marks == Marks(c, nodes[j].msg)
    {
      ClearedMarks(c, nodes[j].msg, k, old(nodes[j].State()));
    }
  }

  /** `reprocessAllMessages` as written: the classes are those of a newly
      rendered line, but the tooltip and the highlight survive from
      before. */
  method ReprocessAllMessages(attached: bool, nodes: seq<ChatNode>, c: ChatSettings)
    requires forall i, j :: 0 <= i < j < |nodes| ==> nodes[i] != nodes[j]
    modifies set n | n in nodes
    ensures forall i :: 0 <= i < |nodes| ==>
      nodes[i].State() == (if attached then Process(c, nodes[i].msg, ClearAsReprocessed(old(nodes[i].State())))
                           else old(nodes[i].State()))
    ensures attached ==> forall i :: 0 <= i < |nodes| ==> nodes[i].State().marks == Marks(c, nodes[i].msg)
  {
    ReprocessWith(attached, nodes, c, AsReprocessed);
  }

  /** The storage-change listener's pass as written: as above, but the
      tooltip is cleared too; the highlight survives. */
  method ReapplyChangedSettings(attached: bool, nodes: seq<ChatNode>, c: ChatSettings)
    requires forall i, j :: 0 <= i < j < |nodes| ==> nodes[i] != nodes[j]
    modifies set n | n in nodes
    ensures forall i :: 0 <= i < |nodes| ==>
      nodes[i].State() == (if attached then Process(c, nodes[i].msg, ClearOnSettingsChange(old(nodes[i].State())))
                           else old(nodes[i].State()))
    ensures attached ==> forall i :: 0 <= i < |nodes| ==> nodes[i].State().marks == Marks(c, nodes[i].msg)
  {
    ReprocessWith(attached, nodes, c, OnSettingsChange);
  }

  /** Either pass with the intended clearing: every line ends exactly as a
      newly rendered line under the current settings. */
  method ReprocessAllCorrected(attached: bool, nodes: seq<ChatNode>, c: ChatSettings)
    requires forall i, j :: 0 <= i < j < |nodes| ==> nodes[i] != nodes[j]
    modifies set n | n in nodes
    ensures forall i :: 0 <= i < |nodes| ==>
      nodes[i].State() == (if attached then Process(c, nodes[i].msg, Fresh) else old(nodes[i].State()))
  {
    ReprocessWith(attached, nodes, c, Intended);
    forall i | 0 <= i < |nodes| && attached
      ensures nodes[i].State() == Process(c, nodes[i].msg, Fresh)
    {
      ReprocessReflectsSettings(c, nodes[i].msg, old(nodes[i].State()));
    }
  }
}
