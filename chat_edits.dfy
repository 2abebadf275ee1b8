/** The edits the in-page script makes to the chat settings
    (src/content.js): the chat panel's word and user adders, the chip
    remove buttons, the toggles and sliders, and the favourite/block
    toggles of the user card, all funnelled through `updateChatSetting`,
    which reads the stored settings, changes the chat record and writes
    the whole record back. Each edit acts on the copy just read from
    storage, so the model treats the chat record as a value. */
module ChatEdits {
  import opened Wrappers
  import opened Text
  import opened ContentText
  import opened ChatFilter

  // ---------------------------------------------------------------------
  // Lists compared by exact string
  // ---------------------------------------------------------------------

  predicate NoDup(list: seq<string>) {
    forall i, j :: 0 <= i < j < |list| ==> list[i] != list[j]
  }

  /** `if (!list.includes(v)) list.push(v)`: the panel's `addWord` and the
      dashboard's `addFilterItem`. */
  function AddIfMissing(list: seq<string>, v: string): (r: seq<string>)
    ensures v in r
    ensures v in list ==> r == list
    ensures v !in list ==> r == list + [v]
  {
    if v in list then list else list + [v]
  }

  /** Adding never creates a duplicate, and adding again changes nothing. */
  lemma AddIfMissingSpec(list: seq<string>, v: string)
    requires NoDup(list)
    ensures NoDup(AddIfMissing(list, v))
    ensures AddIfMissing(AddIfMissing(list, v), v) == AddIfMissing(list, v)
  {
    var r := AddIfMissing(list, v);
    if v !in list {
      assert forall i :: 0 <= i < |list| ==> r[i] == list[i] != v;
    }
  }

  /** `list.filter(w => w !== v)`: the panel's word chip and the
      dashboard's `removeFilterItem`/`removeUserItem`. Every copy of `v`
      goes and every other entry keeps its count and its order. */
  function RemoveAll(list: seq<string>, v: string): (r: seq<string>)
    ensures v !in r
    ensures forall x :: x != v ==> multiset(r)[x] == multiset(list)[x]
    ensures |r| <= |list|
  {
    if list == [] then []
    else
      assert list == [list[0]] + list[1..];
      (if list[0] != v then [list[0]] else []) + RemoveAll(list[1..], v)
  }

  /** Removing keeps a duplicate-free list duplicate-free, and removing an
      absent value changes nothing. */
  lemma RemoveAllSpec(list: seq<string>, v: string)
    ensures NoDup(list) ==> NoDup(RemoveAll(list, v))
    ensures v !in list ==> RemoveAll(list, v) == list
  {
    if NoDup(list) {
      RemoveAllKeepsNoDup(list, v);
    }
    if v !in list {
      RemoveAbsent(list, v);
    }
  }

  lemma {:induction false} RemoveAllKeepsNoDup(list: seq<string>, v: string)
    requires NoDup(list)
    ensures NoDup(RemoveAll(list, v))
  {
    if list != [] {
      assert NoDup(list[1..]);
      RemoveAllKeepsNoDup(list[1..], v);
      var rest := RemoveAll(list[1..], v);
      if list[0] != v {
        assert list[0] !in list[1..];
        assert multiset(rest)[list[0]] == multiset(list[1..])[list[0]] == 0;
        assert list[0] !in rest;
        var r := [list[0]] + rest;
        forall i, j | 0 <= i < j < |r| ensures r[i] != r[j] {
          if i > 0 {
            assert r[i] == rest[i - 1] && r[j] == rest[j - 1];
          } else {
            assert r[j] in rest;
          }
        }
      }
    }
  }

  lemma {:induction false} RemoveAbsent(list: seq<string>, v: string)
    requires v !in list
    ensures RemoveAll(list, v) == list
  {
    if list != [] {
      assert v !in list[1..];
      RemoveAbsent(list[1..], v);
      assert [list[0]] + list[1..] == list;
    }
  }

  /** Removing works entry by entry and keeps the order of what stays. */
  lemma {:induction false} RemoveAllAppend(a: seq<string>, b: seq<string>, v: string)
    ensures RemoveAll(a + b, v) == RemoveAll(a, v) + RemoveAll(b, v)
  {
    if a == [] {
      assert a + b == b;
    } else {
      var h := if a[0] != v then [a[0]] else [];
      assert (a + b)[0] == a[0] && (a + b)[1..] == a[1..] + b;
      assert RemoveAll(a + b, v) == h + RemoveAll(a[1..] + b, v);
      assert RemoveAll(a, v) == h + RemoveAll(a[1..], v);
      RemoveAllAppend(a[1..], b, v);
      ConcatAssoc(h, RemoveAll(a[1..], v), RemoveAll(b, v));
    }
  }

  /** In a duplicate-free list, removing the entry at `k` cuts exactly that
      position out and leaves the rest in order. */
  /** In a duplicate-free list an entry occurs neither before nor after
      its own position. */
  lemma NoDupAround(list: seq<string>, k: int)
    requires NoDup(list) && 0 <= k < |list|
    ensures list[k] !in list[..k] && list[k] !in list[k + 1..]
  {
    var v, pre, post := list[k], list[..k], list[k + 1..];
    forall j | 0 <= j < |pre| ensures pre[j] != v {
      assert pre[j] == list[j];
    }
    forall j | 0 <= j < |post| ensures post[j] != v {
      assert post[j] == list[k + 1 + j];
    }
  }

  lemma RemoveAllOfNoDup(list: seq<string>, k: int)
    requires NoDup(list) && 0 <= k < |list|
    ensures RemoveAll(list, list[k]) == list[..k] + list[k + 1..]
  {
    SplitAt(list, k);
    NoDupAround(list, k);
    RemoveBetween(list[..k], list[k], list[k + 1..]);
  }

  /** Removing a value that occurs only between two parts joins them. */
  lemma RemoveBetween(pre: seq<string>, v: string, post: seq<string>)
    requires v !in pre && v !in post
    ensures RemoveAll(pre + ([v] + post), v) == pre + post
  {
    RemoveAllAppend(pre, [v] + post, v);
    RemoveAllAppend([v], post, v);
    RemoveAbsent(pre, v);
    RemoveAbsent(post, v);
    assert RemoveAll([v], v) == [];
    assert [] + post == post;
  }

  // ---------------------------------------------------------------------
  // Lists compared after normalisation
  // ---------------------------------------------------------------------

  /** The normalised form of every entry. */
  function Norms(list: seq<string>): (ns: seq<string>)
    ensures |ns| == |list|
    ensures forall i :: 0 <= i < |list| ==> ns[i] == NormalizeSlug(list[i])
  {
    seq(|list|, i requires 0 <= i < |list| => NormalizeSlug(list[i]))
  }

  lemma NormsConcat(a: seq<string>, b: seq<string>)
    ensures Norms(a + b) == Norms(a) + Norms(b)
  {
  }

  /** Some entry normalises equal to `slug` (`isBlocked`/`isFavorite` on
      the user card). */
  predicate Listed(list: seq<string>, slug: string) {
    NormalizeSlug(slug) in Norms(list)
  }

  /** No two entries normalise equal. */
  predicate NormUnique(list: seq<string>) {
    NoDup(Norms(list))
  }

  /** The panel's `addUser` body: append `val` (already normalised) unless
      some entry normalises equal to it. */
  function AddNormalized(list: seq<string>, val: string): (r: seq<string>)
    ensures Listed(r, val)
    ensures Listed(list, val) ==> r == list
    ensures !Listed(list, val) ==> r == list + [val]
  {
    if exists i :: 0 <= i < |list| && NormalizeSlug(list[i]) == NormalizeSlug(val) then list
    else
      var r := list + [val];
      assert Norms(r)[|list|] == NormalizeSlug(val);
      r
  }

  /** Adding a user keeps the list free of normalised duplicates. */
  lemma AddNormalizedKeepsUnique(list: seq<string>, val: string)
    requires NormUnique(list)
    ensures NormUnique(AddNormalized(list, val))
  {
    if !Listed(list, val) {
      NormsConcat(list, [val]);
    }
  }

  /** The user chip's remove: `filter(u => normalizeSlug(u) !== normalizeSlug(val))`.
      Every entry that normalises equal goes, every other keeps its count. */
  function RemoveNormalized(list: seq<string>, val: string): (r: seq<string>)
    ensures !Listed(r, val)
    ensures forall x :: NormalizeSlug(x) != NormalizeSlug(val) ==> multiset(r)[x] == multiset(list)[x]
    ensures forall i :: 0 <= i < |r| ==> r[i] in list
  {
    if list == [] then []
    else
      assert list == [list[0]] + list[1..];
      var head := if NormalizeSlug(list[0]) != NormalizeSlug(val) then [list[0]] else [];
      var r := head + RemoveNormalized(list[1..], val);
      NormsConcat(head, RemoveNormalized(list[1..], val));
      r
  }

  /** The user chip's remove works entry by entry and keeps the order of
      what stays. */
  lemma {:induction false} RemoveNormalizedAppend(a: seq<string>, b: seq<string>, val: string)
    ensures RemoveNormalized(a + b, val) == RemoveNormalized(a, val) + RemoveNormalized(b, val)
  {
    if a == [] {
      assert a + b == b;
    } else {
      var h := if NormalizeSlug(a[0]) != NormalizeSlug(val) then [a[0]] else [];
      assert (a + b)[0] == a[0] && (a + b)[1..] == a[1..] + b;
      assert RemoveNormalized(a + b, val) == h + RemoveNormalized(a[1..] + b, val);
      assert RemoveNormalized(a, val) == h + RemoveNormalized(a[1..], val);
      RemoveNormalizedAppend(a[1..], b, val);
      ConcatAssoc(h, RemoveNormalized(a[1..], val), RemoveNormalized(b, val));
    }
  }

  /** `findIndex(u => normalizeSlug(u) === norm)`. */
  function FirstNormIndex(list: seq<string>, norm: string): (k: int)
    ensures -1 <= k < |list|
    ensures k >= 0 ==> NormalizeSlug(list[k]) == norm
    ensures forall j :: 0 <= j < |list| && (k == -1 || j < k) ==> NormalizeSlug(list[j]) != norm
  {
    if list == [] then -1
    else if NormalizeSlug(list[0]) == norm then 0
    else
      var k := FirstNormIndex(list[1..], norm);
      if k == -1 then -1 else k + 1
  }

  /** `toggleFavoriteUser`/`toggleBlockUser` on their list: remove the
      FIRST entry that normalises equal to the slug, or else append the
      normalised slug. */
  function Toggle(list: seq<string>, slug: string): seq<string> {
    var k := FirstNormIndex(list, NormalizeSlug(slug));
    if k >= 0 then list[..k] + list[k + 1..] else list + [NormalizeSlug(slug)]
  }

  /** Removing one element of a duplicate-free list leaves it
      duplicate-free and without that element. */
  lemma NoDupRemoveAt(xs: seq<string>, k: int)
    requires NoDup(xs) && 0 <= k < |xs|
    ensures NoDup(xs[..k] + xs[k + 1..])
    ensures xs[k] !in xs[..k] + xs[k + 1..]
  {
    var r := xs[..k] + xs[k + 1..];
    forall i | 0 <= i < |r| ensures r[i] == xs[if i < k then i else i + 1] {
    }
  }

  /** What a toggle does: when the slug is listed, exactly the first entry
      that normalises equal to it is removed and the others keep their
      order; otherwise the normalised slug is appended. */
  lemma ToggleSpec(list: seq<string>, slug: string)
    ensures !Listed(list, slug) ==> Toggle(list, slug) == list + [NormalizeSlug(slug)]
    ensures Listed(list, slug) ==>
      exists k :: 0 <= k < |list| && NormalizeSlug(list[k]) == NormalizeSlug(slug)
        && (forall j :: 0 <= j < k ==> NormalizeSlug(list[j]) != NormalizeSlug(slug))
        && Toggle(list, slug) == list[..k] + list[k + 1..]
  {
    var norm := NormalizeSlug(slug);
    var k := FirstNormIndex(list, norm);
    if Listed(list, slug) {
      ListedFound(list, slug);
      assert Toggle(list, slug) == list[..k] + list[k + 1..];
    }
  }

  /** On a list free of normalised duplicates (which the panel's adder and
      the toggles keep, but the dashboard's exact-string adder does not),
      toggling flips whether the slug is listed and keeps the list free of
      normalised duplicates. */
  lemma ToggleFlips(list: seq<string>, slug: string)
    requires NormUnique(list)
    ensures Listed(Toggle(list, slug), slug) <==> !Listed(list, slug)
    ensures NormUnique(Toggle(list, slug))
  {
    var norm := NormalizeSlug(slug);
    var k := FirstNormIndex(list, norm);
    var ns := Norms(list);
    if k >= 0 {
      NormsRemoveAt(list, k);
      NoDupRemoveAt(ns, k);
    } else {
      NormalizeIdempotent(slug);
      NormsConcat(list, [norm]);
      assert Norms(Toggle(list, slug)) == ns + [norm];
      forall i | 0 <= i < |ns| ensures ns[i] != norm {
      }
    }
  }

  /** The normalised forms after taking entry `k` out. */
  lemma NormsRemoveAt(list: seq<string>, k: int)
    requires 0 <= k < |list|
    ensures Norms(list[..k] + list[k + 1..]) == Norms(list)[..k] + Norms(list)[k + 1..]
  {
    var r := list[..k] + list[k + 1..];
    forall i | 0 <= i < |r| ensures r[i] == list[if i < k then i else i + 1] {
    }
  }

  /** Toggling an unlisted slug twice leaves the list as it was. */
  lemma ToggleTwice(list: seq<string>, slug: string)
    requires !Listed(list, slug)
    ensures Toggle(Toggle(list, slug), slug) == list
  {
    var norm := NormalizeSlug(slug);
    var r := list + [norm];
    NormalizeIdempotent(slug);
    ToggleSpec(list, slug);
    assert NormalizeSlug(r[|list|]) == norm;
    assert forall j :: 0 <= j < |list| ==> NormalizeSlug(r[j]) != norm by {
      forall j | 0 <= j < |list| ensures NormalizeSlug(r[j]) != norm {
        assert Norms(list)[j] == NormalizeSlug(list[j]);
      }
    }
    assert FirstNormIndex(r, norm) == |list|;
    assert r[..|list|] == list;
  }

  /** The toggle as written on a list the dashboard can produce: its
      user adder compares exact strings, so "Ali" and "ali" can both be
      listed. Toggling "ali" takes out only "Ali", and the user stays
      blocked. */
  lemma ToggleKeepsDuplicate()
    ensures Listed(["Ali", "ali"], "ali")
    ensures Toggle(["Ali", "ali"], "ali") == ["ali"]
    ensures Listed(Toggle(["Ali", "ali"], "ali"), "ali")
  {
    var list := ["Ali", "ali"];
    assert NormalizeSlug("Ali") == "ali";
    assert NormalizeSlug("ali") == "ali";
    assert Norms(list)[0] == "ali";
    assert FirstNormIndex(list, "ali") == 0;
    assert list[..0] + list[1..] == ["ali"];
    assert Norms(["ali"])[0] == "ali";
  }

  /** The evidently intended toggle: unlisting removes every entry that
      normalises equal to the slug, listing appends the normalised slug. */
  function ToggleAll(list: seq<string>, slug: string): seq<string> {
    if Listed(list, slug) then RemoveNormalized(list, slug) else list + [NormalizeSlug(slug)]
  }

  /** It flips whether the slug is listed, whatever the list holds. */
  lemma ToggleAllFlips(list: seq<string>, slug: string)
    ensures Listed(ToggleAll(list, slug), slug) <==> !Listed(list, slug)
  {
    if !Listed(list, slug) {
      var norm := NormalizeSlug(slug);
      NormalizeIdempotent(slug);
      NormsConcat(list, [norm]);
      assert Norms(ToggleAll(list, slug))[|list|] == norm;
    }
  }

  /** On a list free of normalised duplicates it is the toggle as written. */
  lemma ToggleAllAgrees(list: seq<string>, slug: string)
    requires NormUnique(list)
    ensures ToggleAll(list, slug) == Toggle(list, slug)
  {
    if Listed(list, slug) {
      ListedFound(list, slug);
      var k := FirstNormIndex(list, NormalizeSlug(slug));
      UniqueAround(list, slug, k);
      ToggleCutsOut(list, slug, k);
    }
  }

  /** When the first entry that normalises equal to the slug is the only
      one, removing all of them removes just that entry. */
  lemma ToggleCutsOut(list: seq<string>, slug: string, k: int)
    requires Listed(list, slug) && 0 <= k < |list| && k == FirstNormIndex(list, NormalizeSlug(slug))
    requires !Listed(list[..k], slug) && !Listed(list[k + 1..], slug)
    ensures ToggleAll(list, slug) == Toggle(list, slug)
  {
    var pre, post := list[..k], list[k + 1..];
    SplitAt(list, k);
    RemoveNormalizedBetween(pre, list[k], post, slug);
    assert RemoveNormalized(list, slug) == pre + post;
  }

  lemma ListedFound(list: seq<string>, slug: string)
    requires Listed(list, slug)
    ensures FirstNormIndex(list, NormalizeSlug(slug)) >= 0
  {
    var i :| 0 <= i < |list| && Norms(list)[i] == NormalizeSlug(slug);
  }

  /** The first entry that normalises equal to the slug is the only one. */
  lemma UniqueAround(list: seq<string>, slug: string, k: int)
    requires NormUnique(list) && 0 <= k < |list|
    requires k == FirstNormIndex(list, NormalizeSlug(slug))
    ensures !Listed(list[..k], slug) && !Listed(list[k + 1..], slug)
  {
    var norm, pre, post := NormalizeSlug(slug), list[..k], list[k + 1..];
    forall j | 0 <= j < |pre| ensures Norms(pre)[j] != norm {
      assert pre[j] == list[j];
    }
    forall j | 0 <= j < |post| ensures Norms(post)[j] != norm {
      assert post[j] == list[k + 1 + j];
      assert Norms(list)[k + 1 + j] != Norms(list)[k];
    }
  }

  /** Removing everything that normalises equal to `val` when it occurs
      only between two parts joins them. */
  lemma RemoveNormalizedBetween(pre: seq<string>, x: string, post: seq<string>, val: string)
    requires NormalizeSlug(x) == NormalizeSlug(val)
    requires !Listed(pre, val) && !Listed(post, val)
    ensures RemoveNormalized(pre + ([x] + post), val) == pre + post
  {
    RemoveNormalizedAppend(pre, [x] + post, val);
    RemoveNormalizedAppend([x], post, val);
    RemoveNormalizedAbsent(pre, val);
    RemoveNormalizedAbsent(post, val);
    assert RemoveNormalized([x], val) == [];
    assert [] + post == post;
  }

  /** Removing an unlisted value changes nothing. */
  lemma {:induction false} RemoveNormalizedAbsent(list: seq<string>, val: string)
    requires !Listed(list, val)
    ensures RemoveNormalized(list, val) == list
  {
    if list != [] {
      assert Norms(list)[0] == NormalizeSlug(list[0]);
      assert !Listed(list[1..], val) by {
        forall j | 0 <= j < |list| - 1 ensures Norms(list[1..])[j] != NormalizeSlug(val) {
          assert Norms(list[1..])[j] == Norms(list)[j + 1];
        }
      }
      RemoveNormalizedAbsent(list[1..], val);
      assert [list[0]] + list[1..] == list;
    }
  }

  // ---------------------------------------------------------------------
  // Input guards of the panel adders
  // ---------------------------------------------------------------------

  /** `addWord`: the trimmed input, or nothing when it is blank. */
  function WordInput(raw: string): (r: Option<string>)
    ensures r.Some? ==> r.value != "" && r.value == Trim(raw)
    ensures r.None? <==> Trim(raw) == ""
  {
    var v := Trim(raw);
    if v == "" then None else Some(v)
  }

  /** `addUser`: the trimmed, lower-cased and normalised input, or nothing
      when that is empty. */
  function UserInput(raw: string): (r: Option<string>)
    ensures r.Some? ==> r.value != "" && NormalizeSlug(r.value) == r.value
    ensures r.None? <==> Trim(raw) == ""
  {
    var v := NormalizeSlug(ToLower(Trim(raw)));
    NormalizeIdempotent(ToLower(Trim(raw)));
    if v == "" then None else Some(v)
  }

  // ---------------------------------------------------------------------
  // The edits and updateChatSetting
  // ---------------------------------------------------------------------

  /** Every change the in-page script makes through `updateChatSetting`. */
  datatype ChatEdit =
    | SetFilterAction(blur: bool)
    | SetEmojiSpam(on: bool)
    | SetBots(on: bool)
    | SetTimestamp(on: bool)
    | SetCompact(on: bool)
    | SetWordMode(on: bool)
    | SetEmojiThreshold(n: nat)
    | SetFontSize(n: nat)
    | AddWord(word: string)
    | AddUser(user: string)
    | RemoveWord(word: string)
    | RemoveUser(user: string)
    | ToggleFavorite(slug: string)
    | ToggleBlock(slug: string)

  /** The `mutateFn` of each edit, applied to the chat record. */
  function ApplyEdit(c: ChatSettings, e: ChatEdit): ChatSettings {
    match e
    case SetFilterAction(blur) => c.(filterAction := if blur then "blur" else "hide")
    case SetEmojiSpam(on) => c.(filterEmojiSpam := on)
    case SetBots(on) => c.(filterBots := on)
    case SetTimestamp(on) => c.(showTimestamp := on)
    case SetCompact(on) => c.(compactMode := on)
    case SetWordMode(on) => c.(filterWordMode := Some(on))
    case SetEmojiThreshold(n) => c.(emojiSpamThreshold := n)
    case SetFontSize(n) => c.(fontSize := n)
    case AddWord(w) => c.(filterWords := AddIfMissing(c.filterWords, w))
    case AddUser(u) => c.(filterUsers := AddNormalized(c.filterUsers, u))
    case RemoveWord(w) => c.(filterWords := RemoveAll(c.filterWords, w))
    case RemoveUser(u) => c.(filterUsers := RemoveNormalized(c.filterUsers, u))
    case ToggleFavorite(slug) => c.(favoriteUsers := Toggle(c.favoriteUsers, slug))
    case ToggleBlock(slug) => c.(filterUsers := Toggle(c.filterUsers, slug))
  }

  /** Blocking an author through the user card filters their lines: once
      the slug is listed, every line whose author normalises equal to it is
      caught by the user filter. */
  lemma ListedAuthorIsFiltered(c: ChatSettings, slug: string, m: Message)
    requires Listed(c.filterUsers, slug) && slug != ""
    requires NormalizeSlug(Author(m)) == NormalizeSlug(slug)
    ensures UserHit(c, m)
  {
    var i :| 0 <= i < |c.filterUsers| && Norms(c.filterUsers)[i] == NormalizeSlug(slug);
    assert NormalizeSlug(c.filterUsers[i]) == NormalizeSlug(slug);
    assert c.filterUsers[i] != "";
    assert OccursAt(NormalizeSlug(Author(m)), NormalizeSlug(c.filterUsers[i]), 0);
  }

  /** Toggling a block on an unblocked author blocks them; toggling again
      unblocks them, as long as no two blocked names normalise equal (see
      `ToggleKeepsDuplicate` for a list where they do). The favourites are
      not touched. */
  lemma ToggleBlockFlips(c: ChatSettings, slug: string)
    requires NormUnique(c.filterUsers)
    ensures Listed(ApplyEdit(c, ToggleBlock(slug)).filterUsers, slug) <==> !Listed(c.filterUsers, slug)
    ensures NormUnique(ApplyEdit(c, ToggleBlock(slug)).filterUsers)
    ensures ApplyEdit(c, ToggleBlock(slug)).favoriteUsers == c.favoriteUsers
  {
    var t := Toggle(c.filterUsers, slug);
    assert ApplyEdit(c, ToggleBlock(slug)) == c.(filterUsers := t);
    ToggleFlips(c.filterUsers, slug);
  }

  /** `siteSettings`: the extension switch, the chat record and the player
      record (kept as its shortcut switch). */
  datatype SiteSettings = SiteSettings(enabled: bool, chat: Option<ChatSettings>, playerShortcuts: Option<bool>)

  /** `{ enabled: true, chat: {} }`. */
  const DefaultSite := SiteSettings(true, Some(EmptyChat), None)

  /** The settings an update starts from: `r.siteSettings || siteSettings
      || { enabled: true, chat: {} }`. */
  function UpdateBase(stored: Option<SiteSettings>, cached: Option<SiteSettings>): SiteSettings {
    match stored
    case Some(s) => s
    case None => cached.GetOr(DefaultSite)
  }

  /** `updateChatSetting`: what is written back to storage. */
  function UpdateChatSetting(stored: Option<SiteSettings>, cached: Option<SiteSettings>, e: ChatEdit): SiteSettings {
    var base := UpdateBase(stored, cached);
    base.(chat := Some(ApplyEdit(base.chat.GetOr(EmptyChat), e)))
  }

  /** The update keeps the extension switch and the player record, writes
      a chat record, and starts from what storage holds whenever it holds
      something: the in-memory copy is only a fallback. */
  lemma UpdateChatSettingSpec(stored: Option<SiteSettings>, cached: Option<SiteSettings>, e: ChatEdit)
    ensures UpdateChatSetting(stored, cached, e).enabled == (if stored.Some? then stored.value.enabled else if cached.Some? then cached.value.enabled else true)
    ensures UpdateChatSetting(stored, cached, e).playerShortcuts == UpdateBase(stored, cached).playerShortcuts
    ensures UpdateChatSetting(stored, cached, e).chat.Some?
    ensures stored.Some? ==> forall other :: UpdateChatSetting(stored, other, e) == UpdateChatSetting(stored, cached, e)
  {
  }

  /** Two updates in a row, the second reading what the first wrote, amount
      to applying both edits to the chat record in turn. */
  lemma UpdatesCompose(stored: Option<SiteSettings>, cached: Option<SiteSettings>, other: Option<SiteSettings>, e1: ChatEdit, e2: ChatEdit)
    ensures UpdateChatSetting(Some(UpdateChatSetting(stored, cached, e1)), other, e2)
         == UpdateBase(stored, cached).(chat := Some(ApplyEdit(ApplyEdit(UpdateBase(stored, cached).chat.GetOr(EmptyChat), e1), e2)))
  {
  }
}
