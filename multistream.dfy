/** The multi-stream page: an ordered, duplicate-free list of stream slugs,
    the grid of player cards that mirrors it, the chosen layout, and the
    drag-and-drop reordering. Cards are objects whose identity matters: a
    card that is re-created reloads its player, so the page keeps existing
    cards and only adds, removes or moves them. */
module Multistream {
  import opened Wrappers
  import opened Text
  import opened Channels
  import opened ChatEdits

  // ---------------------------------------------------------------------
  // Helpers on lists of slugs
  // ---------------------------------------------------------------------

  /** `xs.findIndex(x => x === v)`: the first index holding `v`, or -1. */
  function FirstIndex(xs: seq<string>, v: string): (k: int)
    ensures -1 <= k < |xs|
    ensures k >= 0 ==> xs[k] == v && forall j :: 0 <= j < k ==> xs[j] != v
    ensures k == -1 <==> v !in xs
  {
    if xs == [] then -1
    else if xs[0] == v then 0
    else
      var k := FirstIndex(xs[1..], v);
      if k == -1 then -1 else k + 1
  }

  /** Removing a stream from the duplicate-free stream list cuts out its
      one position and keeps the others in order. */
  lemma RemoveCutsOut(xs: seq<string>, v: string)
    requires NoDup(xs)
    ensures v in xs ==> var k := FirstIndex(xs, v); RemoveAll(xs, v) == xs[..k] + xs[k + 1..]
    ensures v !in xs ==> RemoveAll(xs, v) == xs
  {
    if v in xs {
      RemoveAllOfNoDup(xs, FirstIndex(xs, v));
    } else {
      RemoveAbsent(xs, v);
    }
  }

  /** The entries of `xs` that also occur in `keep`, in order. */
  function FilterIn(xs: seq<string>, keep: seq<string>): (r: seq<string>)
    ensures forall x :: x in r <==> x in xs && x in keep
  {
    if xs == [] then []
    else (if xs[0] in keep then [xs[0]] else []) + FilterIn(xs[1..], keep)
  }

  /** Filtering works entry by entry and keeps the order. */
  lemma {:induction false} FilterInAppend(a: seq<string>, b: seq<string>, keep: seq<string>)
    ensures FilterIn(a + b, keep) == FilterIn(a, keep) + FilterIn(b, keep)
  {
    if a == [] {
      assert a + b == b;
    } else {
      assert (a + b)[1..] == a[1..] + b;
      FilterInAppend(a[1..], b, keep);
    }
  }

  lemma {:induction false} FilterInSnoc(xs: seq<string>, x: string, keep: seq<string>)
    ensures FilterIn(xs + [x], keep) == FilterIn(xs, keep) + (if x in keep then [x] else [])
  {
    if xs != [] {
      assert (xs + [x])[1..] == xs[1..] + [x];
      FilterInSnoc(xs[1..], x, keep);
    } else {
      assert [x][1..] == [];
    }
  }

  /** Filtering by a list that holds exactly the entries other than `v` is
      removing `v`. */
  lemma {:induction false} FilterInIsRemoveAll(xs: seq<string>, keep: seq<string>, v: string)
    requires forall k :: 0 <= k < |xs| ==> (xs[k] in keep <==> xs[k] != v)
    ensures FilterIn(xs, keep) == RemoveAll(xs, v)
  {
    if xs != [] {
      FilterInIsRemoveAll(xs[1..], keep, v);
    }
  }

  lemma {:induction false} FilterInAll(xs: seq<string>, keep: seq<string>)
    requires forall k :: 0 <= k < |xs| ==> xs[k] in keep
    ensures FilterIn(xs, keep) == xs
  {
    if xs != [] {
      FilterInAll(xs[1..], keep);
      assert [xs[0]] + xs[1..] == xs;
    }
  }

  lemma {:induction false} FilterInEmpty(xs: seq<string>)
    ensures FilterIn(xs, []) == []
  {
    if xs != [] {
      FilterInEmpty(xs[1..]);
    }
  }

  lemma {:induction false} FilterInNoDup(xs: seq<string>, keep: seq<string>)
    requires NoDup(xs)
    ensures NoDup(FilterIn(xs, keep))
  {
    if xs != [] {
      FilterInNoDup(xs[1..], keep);
      assert xs[0] !in xs[1..];
    }
  }

  /** `have` followed by every entry of `todo` not yet present, in order. */
  function AddMissing(have: seq<string>, todo: seq<string>): (r: seq<string>)
    ensures |have| <= |r| && r[..|have|] == have
    ensures forall x :: x in r <==> x in have || x in todo
  {
    if todo == [] then have
    else
      var r := AddMissing(have, todo[..|todo| - 1]);
      var x := todo[|todo| - 1];
      assert todo == todo[..|todo| - 1] + [x];
      if x in r then r else r + [x]
  }

  lemma {:induction false} AddMissingNoDup(have: seq<string>, todo: seq<string>)
    requires NoDup(have)
    ensures NoDup(AddMissing(have, todo))
  {
    if todo != [] {
      AddMissingNoDup(have, todo[..|todo| - 1]);
    }
  }

  lemma {:induction false} AddMissingPresent(have: seq<string>, todo: seq<string>)
    requires forall k :: 0 <= k < |todo| ==> todo[k] in have
    ensures AddMissing(have, todo) == have
  {
    if todo != [] {
      AddMissingPresent(have, todo[..|todo| - 1]);
    }
  }

  // ---------------------------------------------------------------------
  // Stream list edits
  // ---------------------------------------------------------------------

  /** `addStream`: sanitise as the dashboard does; ignore an empty or
      already open slug; otherwise append it. */
  function AddStreamTo(streams: seq<string>, raw: string): seq<string> {
    var slug := SanitizeSlug(raw);
    if slug == "" || slug in streams then streams else streams + [slug]
  }

  lemma AddStreamSpec(streams: seq<string>, raw: string)
    ensures AddStreamTo(streams, raw) == streams <==> (SanitizeSlug(raw) == "" || SanitizeSlug(raw) in streams)
    ensures AddStreamTo(streams, raw) != streams ==> AddStreamTo(streams, raw) == streams + [SanitizeSlug(raw)]
    ensures NoDup(streams) ==> NoDup(AddStreamTo(streams, raw))
    ensures AddStreamTo(AddStreamTo(streams, raw), raw) == AddStreamTo(streams, raw)
  {
    var slug := SanitizeSlug(raw);
    if slug != "" && slug !in streams {
      assert |AddStreamTo(streams, raw)| == |streams| + 1;
      if NoDup(streams) {
        AddIfMissingSpec(streams, slug);
      }
    }
  }

  /** Opening several raw slugs one after the other. */
  function AddAllStreams(streams: seq<string>, raws: seq<string>): seq<string> {
    if raws == [] then streams
    else AddStreamTo(AddAllStreams(streams, raws[..|raws| - 1]), raws[|raws| - 1])
  }

  /** After opening a batch the list is still duplicate-free, holds only
      clean non-empty slugs, and holds every slug of the batch that
      sanitises to something. */
  lemma {:induction false} AddAllStreamsSpec(streams: seq<string>, raws: seq<string>)
    requires NoDup(streams)
    requires forall k :: 0 <= k < |streams| ==> streams[k] != "" && IsCleanSlug(streams[k])
    ensures NoDup(AddAllStreams(streams, raws))
    ensures forall x :: x in AddAllStreams(streams, raws) ==> x != "" && IsCleanSlug(x)
    ensures forall k :: 0 <= k < |raws| && SanitizeSlug(raws[k]) != "" ==> SanitizeSlug(raws[k]) in AddAllStreams(streams, raws)
    ensures forall x :: x in streams ==> x in AddAllStreams(streams, raws)
  {
    if raws != [] {
      var p := raws[..|raws| - 1];
      AddAllStreamsSpec(streams, p);
      var mid := AddAllStreams(streams, p);
      AddStreamSpec(mid, raws[|raws| - 1]);
      forall k | 0 <= k < |raws| - 1 && SanitizeSlug(raws[k]) != ""
        ensures SanitizeSlug(raws[k]) in AddAllStreams(streams, raws)
      {
        assert raws[k] == p[k];
      }
    }
  }

  /** The drop handler's two splices: take the entry at `from` out, then
      insert it at `to` (an index computed before the removal). */
  function Move(s: seq<string>, from: nat, to: nat): (r: seq<string>)
    requires from < |s| && to < |s|
    ensures |r| == |s|
    ensures r[to] == s[from]
  {
    var rest := s[..from] + s[from + 1..];
    rest[..to] + [s[from]] + rest[to..]
  }

  /** Moving permutes the list, so it keeps it duplicate-free, and moving
      back restores it. */
  lemma MoveSpec(s: seq<string>, from: nat, to: nat)
    requires from < |s| && to < |s|
    ensures multiset(Move(s, from, to)) == multiset(s)
    ensures NoDup(s) ==> NoDup(Move(s, from, to))
    ensures Move(Move(s, from, to), to, from) == s
  {
    var rest := s[..from] + s[from + 1..];
    var r := Move(s, from, to);
    MovePermutes(s, from, to);
    assert s == s[..from] + [s[from]] + s[from + 1..];
    assert r[..to] + r[to + 1..] == rest;
    assert rest[..from] == s[..from] && rest[from..] == s[from + 1..];
    if NoDup(s) {
      MultisetNoDup(s, r);
    }
  }

  lemma MovePermutes(s: seq<string>, from: nat, to: nat)
    requires from < |s| && to < |s|
    ensures multiset(Move(s, from, to)) == multiset(s)
  {
    var a := s[from];
    var rest := s[..from] + s[from + 1..];
    var r := Move(s, from, to);
    assert s == s[..from] + [a] + s[from + 1..];
    assert rest == rest[..to] + rest[to..];
    assert r == rest[..to] + [a] + rest[to..];
    forall x ensures multiset(r)[x] == multiset(s)[x] {
      assert multiset(r)[x] == multiset(rest[..to])[x] + multiset([a])[x] + multiset(rest[to..])[x];
      assert multiset(rest)[x] == multiset(rest[..to])[x] + multiset(rest[to..])[x];
      assert multiset(s)[x] == multiset(s[..from])[x] + multiset([a])[x] + multiset(s[from + 1..])[x];
      assert multiset(rest)[x] == multiset(s[..from])[x] + multiset(s[from + 1..])[x];
    }
  }

  /** Each entry of a duplicate-free list occurs once. */
  lemma {:induction false} NoDupCount(s: seq<string>, x: string)
    requires NoDup(s)
    ensures multiset(s)[x] <= 1
  {
    if s != [] {
      NoDupCount(s[1..], x);
      assert s == [s[0]] + s[1..];
      assert s[0] !in s[1..];
    }
  }

  /** Duplicate-freedom depends only on the multiset of entries. */
  lemma MultisetNoDup(s: seq<string>, r: seq<string>)
    requires NoDup(s) && multiset(r) == multiset(s)
    ensures NoDup(r)
  {
    forall i, j | 0 <= i < j < |r| ensures r[i] != r[j] {
      NoDupCount(s, r[i]);
      assert r == r[..i] + [r[i]] + r[i + 1..j] + [r[j]] + r[j + 1..];
      assert multiset(r)[r[i]] >= multiset([r[i]])[r[i]] + multiset([r[j]])[r[i]];
    }
  }

  /** Dragging the first of three onto the last gives `[b, c, a]`. */
  lemma MoveExample()
    ensures Move(["a", "b", "c"], 0, 2) == ["b", "c", "a"]
  {
  }

  /** The list entries as the drop handler sees them, where `None` stands
      for `undefined`. */
  function Lift(s: seq<string>): (r: seq<Option<string>>)
    ensures |r| == |s| && forall i :: 0 <= i < |s| ==> r[i] == Some(s[i])
  {
    seq(|s|, i requires 0 <= i < |s| => Some(s[i]))
  }

  /** The drop handler's two splices for any pending index, as written:
      past the end the first splice removes nothing and `moved` is
      `undefined`, which the second splice still inserts. */
  function SpliceMove(s: seq<string>, from: nat, to: nat): (r: seq<Option<string>>)
    requires to < |s|
    ensures |r| == if from < |s| then |s| else |s| + 1
  {
    var rest := if from < |s| then s[..from] + s[from + 1..] else s;
    var moved := if from < |s| then Some(s[from]) else None;
    Lift(rest[..to]) + [moved] + Lift(rest[to..])
  }

  /** With the index in range the splices are the move. */
  lemma SpliceMoveInRange(s: seq<string>, from: nat, to: nat)
    requires from < |s| && to < |s|
    ensures SpliceMove(s, from, to) == Lift(Move(s, from, to))
  {
    var rest := s[..from] + s[from + 1..];
    var r := SpliceMove(s, from, to);
    forall i | 0 <= i < |s| ensures r[i] == Lift(Move(s, from, to))[i] {
      if i < to {
        assert r[i] == Lift(rest[..to])[i];
      } else if i > to {
        assert r[i] == Lift(rest[to..])[i - to - 1];
      }
    }
  }

  /** A drag of the last of three streams dropped on its own card returns
      early and leaves the index 2 behind; once that stream is closed, a
      drop on the first card (of something dragged in from outside the
      page) splices `undefined` in front, and the loop that reorders the
      cards then reads `.slug` of it. */
  lemma StaleDragInsertsHole()
    ensures FirstIndex(["a", "b", "c"], "c") == 2
    ensures RemoveAll(["a", "b", "c"], "c") == ["a", "b"]
    ensures SpliceMove(["a", "b"], 2, 0) == [None, Some("a"), Some("b")]
  {
    CloseLast();
    SpliceHole();
  }

  lemma CloseLast()
    ensures RemoveAll(["a", "b", "c"], "c") == ["a", "b"]
  {
    var abc: seq<string> := ["a", "b", "c"];
    assert RemoveAll(abc[2..], "c") == [];
    assert RemoveAll(abc[1..], "c") == ["b"];
  }

  lemma SpliceHole()
    ensures SpliceMove(["a", "b"], 2, 0) == [None, Some("a"), Some("b")]
  {
    var ab: seq<string> := ["a", "b"];
    assert Lift(ab[..0]) == [];
    assert Lift(ab[0..]) == [Some("a"), Some("b")];
  }

  /** `channels` in the page address: split on commas, trim each piece and
      drop the empty ones. */
  function ChannelsParam(p: string): seq<string> {
    NonEmpty(seq(|Split(p, ',')|, i requires 0 <= i < |Split(p, ',')| => Trim(Split(p, ',')[i])))
  }

  /** `if (urlChannels)`: the parameter is present and not empty. */
  predicate HasParam(url: Option<string>) {
    url.Some? && url.value != ""
  }

  /** The state the page saved in local storage (`layout` is "" when
      unset). */
  datatype Saved = Saved(layout: string, channels: seq<string>)

  /** The layout `init` ends up with. */
  function InitLayout(url: Option<string>, saved: Option<Saved>): (l: string)
    ensures l != ""
  {
    if saved.Some? && !HasParam(url) && saved.value.layout != "" then saved.value.layout else "side"
  }

  /** The stream list `init` ends up with: the address's slugs, then the
      saved ones, which are read only when the address has none. */
  function InitStreams(url: Option<string>, saved: Option<Saved>): seq<string> {
    var fromUrl := if HasParam(url) then AddAllStreams([], ChannelsParam(url.value)) else [];
    if saved.Some? && !HasParam(url) then AddAllStreams(fromUrl, saved.value.channels) else fromUrl
  }

  /** Slugs in the address win over saved state, and what opens is a
      duplicate-free list of clean slugs. */
  lemma InitStreamsSpec(url: Option<string>, saved: Option<Saved>)
    ensures HasParam(url) ==> InitStreams(url, saved) == AddAllStreams([], ChannelsParam(url.value))
    ensures HasParam(url) ==> InitLayout(url, saved) == "side"
    ensures !HasParam(url) && saved.None? ==> InitStreams(url, saved) == []
    ensures NoDup(InitStreams(url, saved))
    ensures forall x :: x in InitStreams(url, saved) ==> x != "" && IsCleanSlug(x)
  {
    var fromUrl := if HasParam(url) then AddAllStreams([], ChannelsParam(url.value)) else [];
    if HasParam(url) {
      AddAllStreamsSpec([], ChannelsParam(url.value));
    }
    if saved.Some? && !HasParam(url) {
      AddAllStreamsSpec(fromUrl, saved.value.channels);
    }
  }

  /** Rendering after a slug was appended keeps every card and adds one
      for the new slug. */
  lemma ReconcileAfterAdd(before: seq<string>, slug: string)
    requires slug !in before
    ensures AddMissing(FilterIn(before, before + [slug]), before + [slug]) == before + [slug]
  {
    FilterInAll(before, before + [slug]);
    AddMissingPresent(before, before);
    assert (before + [slug])[..|before|] == before;
  }

  /** Rendering after a slug was removed keeps exactly the other cards, in
      their order. */
  lemma ReconcileAfterRemove(before: seq<string>, slug: string)
    ensures FilterIn(before, RemoveAll(before, slug)) == RemoveAll(before, slug)
    ensures forall k :: 0 <= k < |before| ==> (before[k] in RemoveAll(before, slug) <==> before[k] != slug)
    ensures AddMissing(FilterIn(before, RemoveAll(before, slug)), RemoveAll(before, slug)) == RemoveAll(before, slug)
  {
    var after := RemoveAll(before, slug);
    forall k | 0 <= k < |before| ensures before[k] in after <==> before[k] != slug {
      if before[k] != slug {
        assert multiset(after)[before[k]] == multiset(before)[before[k]];
      }
    }
    FilterInIsRemoveAll(before, after, slug);
    AddMissingPresent(after, after);
  }

  // ---------------------------------------------------------------------
  // Layout
  // ---------------------------------------------------------------------

  const FocusLayout: string := "focus"

  /** Rows of the focus layout's side column: `Math.max(1, n - 1)`. */
  function FocusRows(n: nat): (r: nat)
    ensures r >= 1 && r + 1 >= n
  {
    if n - 1 > 1 then n - 1 else 1
  }

  /** The grid's `gridTemplateRows`. */
  function TemplateRows(layout: string, n: nat): string {
    if layout == FocusLayout && n > 0 then "repeat(" + NatToString(FocusRows(n)) + ", 1fr)" else ""
  }

  /** The `gridRow` and `gridColumn` of card `i` out of `n`. */
  function Placement(layout: string, n: nat, i: nat): (string, string) {
    if layout == FocusLayout && n > 0 then (if i == 0 then ("1 / -1", "1") else ("", "2"))
    else ("", "")
  }

  /** In the focus layout the first card alone fills column 1 across every
      row and the rest stack in column 2, one row each; any other layout
      leaves placement to the style sheet. */
  lemma PlacementSpec(layout: string, n: nat)
    ensures layout == FocusLayout && n > 0 ==>
      Placement(layout, n, 0) == ("1 / -1", "1")
      && (forall i :: 0 < i < n ==> Placement(layout, n, i).1 == "2")
      && (forall i :: 0 <= i < n ==> (Placement(layout, n, i).1 == "1" <==> i == 0))
      && FocusRows(n) >= n - 1
    ensures layout != FocusLayout || n == 0 ==>
      TemplateRows(layout, n) == "" && forall i :: 0 <= i < n ==> Placement(layout, n, i) == ("", "")
  {
  }

  // ---------------------------------------------------------------------
  // The page
  // ---------------------------------------------------------------------

  /** A player card; the slug is fixed when the card is built. */
  class Card {
    const slug: string
    var gridRow: string
    var gridColumn: string

    constructor(slug: string)
      ensures this.slug == slug && gridRow == "" && gridColumn == ""
    {
      this.slug := slug;
      gridRow := "";
      gridColumn := "";
    }
  }

  /** The slugs of a row of cards, in order. */
  function CardSlugs(cards: seq<Card>): (r: seq<string>)
    ensures |r| == |cards|
    ensures forall i :: 0 <= i < |cards| ==> r[i] == cards[i].slug
  {
    seq(|cards|, i requires 0 <= i < |cards| => cards[i].slug)
  }

  lemma CardSlugsSnoc(cards: seq<Card>, c: Card)
    ensures CardSlugs(cards + [c]) == CardSlugs(cards) + [c.slug]
  {
  }

  lemma CardSlugsAppend(a: seq<Card>, b: seq<Card>)
    ensures CardSlugs(a + b) == CardSlugs(a) + CardSlugs(b)
  {
  }

  /** The cards whose slug is listed in `ss`, in order. */
  function KeptCards(cards: seq<Card>, ss: seq<string>): (r: seq<Card>)
    ensures forall k :: 0 <= k < |r| ==> r[k] in cards && r[k].slug in ss
    ensures forall k :: 0 <= k < |cards| && cards[k].slug in ss ==> cards[k] in r
  {
    if cards == [] then []
    else (if cards[0].slug in ss then [cards[0]] else []) + KeptCards(cards[1..], ss)
  }

  /** Keeping works card by card and keeps the grid's order. */
  lemma {:induction false} KeptCardsAppend(a: seq<Card>, b: seq<Card>, ss: seq<string>)
    ensures KeptCards(a + b, ss) == KeptCards(a, ss) + KeptCards(b, ss)
  {
    if a == [] {
      assert a + b == b;
    } else {
      assert (a + b)[1..] == a[1..] + b;
      KeptCardsAppend(a[1..], b, ss);
    }
  }

  lemma {:induction false} KeptCardsSnoc(cards: seq<Card>, c: Card, ss: seq<string>)
    ensures KeptCards(cards + [c], ss) == KeptCards(cards, ss) + (if c.slug in ss then [c] else [])
  {
    if cards != [] {
      assert (cards + [c])[1..] == cards[1..] + [c];
      KeptCardsSnoc(cards[1..], c, ss);
    } else {
      assert [c][1..] == [];
    }
  }

  lemma {:induction false} KeptCardsSlugs(cards: seq<Card>, ss: seq<string>)
    ensures CardSlugs(KeptCards(cards, ss)) == FilterIn(CardSlugs(cards), ss)
  {
    if cards != [] {
      var head := if cards[0].slug in ss then [cards[0]] else [];
      KeptCardsSlugs(cards[1..], ss);
      CardSlugsAppend(head, KeptCards(cards[1..], ss));
      assert CardSlugs(head) == (if cards[0].slug in ss then [cards[0].slug] else []);
      assert CardSlugs(cards)[1..] == CardSlugs(cards[1..]);
      assert CardSlugs(cards)[0] == cards[0].slug;
    }
  }

  lemma {:induction false} KeptCardsAll(cards: seq<Card>, ss: seq<string>)
    requires forall k :: 0 <= k < |cards| ==> cards[k].slug in ss
    ensures KeptCards(cards, ss) == cards
  {
    if cards != [] {
      KeptCardsAll(cards[1..], ss);
      assert [cards[0]] + cards[1..] == cards;
    }
  }

  /** A row whose slugs are an old row's plus one new slug, and which
      starts with the old row, ends with a card that was not in it. */
  lemma AppendedCard(cards: seq<Card>, grid: seq<Card>, slug: string)
    requires slug !in CardSlugs(cards)
    requires CardSlugs(grid) == CardSlugs(cards) + [slug]
    ensures |grid| == |cards| + 1
    ensures grid[|grid| - 1] in grid && grid[|grid| - 1] !in cards
  {
    assert CardSlugs(grid)[|grid| - 1] == slug;
    CardOfUnlistedSlug(cards, grid[|grid| - 1]);
  }

  /** Rendering after appending a slug nobody had keeps the whole old row
      and adds one card, which is new, for that slug. */
  lemma AppendReconciles(cards: seq<Card>, before: seq<string>, slug: string, g: seq<Card>)
    requires CardSlugs(cards) == before && slug !in before
    requires CardSlugs(g) == AddMissing(FilterIn(CardSlugs(cards), before + [slug]), before + [slug])
    requires |KeptCards(cards, before + [slug])| <= |g|
    requires g[..|KeptCards(cards, before + [slug])|] == KeptCards(cards, before + [slug])
    ensures CardSlugs(g) == before + [slug]
    ensures |g| == |cards| + 1 && g[..|cards|] == cards
    ensures g[|g| - 1] in g && g[|g| - 1] !in cards
  {
    var ss := before + [slug];
    ReconcileAfterAdd(before, slug);
    assert CardSlugs(g) == ss;
    forall k | 0 <= k < |cards| ensures cards[k].slug in ss {
      assert CardSlugs(cards)[k] == cards[k].slug;
    }
    KeptCardsAll(cards, ss);
    AppendedCard(cards, g, slug);
  }

  /** Rendering after a slug was removed keeps exactly the cards of the
      other slugs, in their order, and creates none. */
  lemma RemoveReconciles(cards: seq<Card>, before: seq<string>, slug: string, g: seq<Card>)
    requires CardSlugs(cards) == before
    requires CardSlugs(g) == AddMissing(FilterIn(CardSlugs(cards), RemoveAll(before, slug)), RemoveAll(before, slug))
    requires |KeptCards(cards, RemoveAll(before, slug))| <= |g|
    requires g[..|KeptCards(cards, RemoveAll(before, slug))|] == KeptCards(cards, RemoveAll(before, slug))
    ensures CardSlugs(g) == RemoveAll(before, slug)
    ensures g == KeptCards(cards, RemoveAll(before, slug))
    ensures forall c :: c in cards ==> (c in g <==> c.slug != slug)
    ensures forall c :: c in g ==> c in cards
  {
    var after := RemoveAll(before, slug);
    var kept := KeptCards(cards, after);
    ReconcileAfterRemove(before, slug);
    KeptCardsSlugs(cards, after);
    assert |CardSlugs(kept)| == |CardSlugs(g)|;
    assert g == kept;
    forall c | c in cards ensures c in g <==> c.slug != slug {
      var k :| 0 <= k < |cards| && cards[k] == c;
      assert CardSlugs(cards)[k] == c.slug;
    }
  }

  /** A card whose slug no card of a row has is not in that row. */
  lemma CardOfUnlistedSlug(cards: seq<Card>, c: Card)
    requires c.slug !in CardSlugs(cards)
    ensures c !in cards
  {
  }

  /** Cards with distinct slugs are distinct cards. */
  lemma DistinctCards(cards: seq<Card>, i: int, j: int)
    requires NoDup(CardSlugs(cards)) && 0 <= i < |cards| && 0 <= j < |cards| && i != j
    ensures cards[i] != cards[j]
  {
    if i < j {
      assert CardSlugs(cards)[i] != CardSlugs(cards)[j];
    } else {
      assert CardSlugs(cards)[j] != CardSlugs(cards)[i];
    }
  }

  /** `xs` with its entry `k` moved to the end (`appendChild` of a node
      already in the grid). */
  function ToEnd(cards: seq<Card>, k: nat): (r: seq<Card>)
    requires k < |cards|
    ensures |r| == |cards|
    ensures multiset(r) == multiset(cards)
  {
    assert cards == cards[..k] + [cards[k]] + cards[k + 1..];
    cards[..k] + cards[k + 1..] + [cards[k]]
  }

  /** Moving a card from the front part to the end keeps the suffix that
      was already in place and extends it by that card. */
  lemma ToEndSuffix(cards: seq<Card>, k: nat, m: nat)
    requires k < m <= |cards|
    ensures CardSlugs(ToEnd(cards, k))[m - 1..] == CardSlugs(cards)[m..] + [cards[k].slug]
  {
    var r := ToEnd(cards, k);
    assert forall i :: m - 1 <= i < |cards| - 1 ==> r[i] == cards[i + 1];
  }

  lemma ToEndSlugs(cards: seq<Card>, k: nat)
    requires k < |cards|
    ensures multiset(CardSlugs(ToEnd(cards, k))) == multiset(CardSlugs(cards))
  {
    var s := CardSlugs(cards);
    assert CardSlugs(ToEnd(cards, k)) == s[..k] + s[k + 1..] + [s[k]];
    assert s == s[..k] + [s[k]] + s[k + 1..];
  }

  /** The first card for the next stream lies before the suffix already
      in stream order. */
  lemma AfterPlaced(slugs: seq<string>, ss: seq<string>, i: nat, k: int)
    requires NoDup(ss) && i < |ss| && i <= |slugs|
    requires slugs[|slugs| - i..] == ss[..i]
    requires k == FirstIndex(slugs, ss[i]) && ss[i] in slugs
    ensures 0 <= k < |slugs| - i
  {
  }

  /** One round of the reorder: the next stream's card lies before the
      part already in order, and moving it to the end extends that part. */
  lemma ReorderStep(g: seq<Card>, ss: seq<string>, i: nat)
    requires NoDup(ss) && i < |ss| && |g| == |ss|
    requires multiset(CardSlugs(g)) == multiset(ss)
    requires CardSlugs(g)[|g| - i..] == ss[..i]
    ensures 0 <= FirstIndex(CardSlugs(g), ss[i]) < |g| - i
    ensures multiset(CardSlugs(ToEnd(g, FirstIndex(CardSlugs(g), ss[i])))) == multiset(ss)
    ensures CardSlugs(ToEnd(g, FirstIndex(CardSlugs(g), ss[i])))[|g| - (i + 1)..] == ss[..i + 1]
  {
    var k := FirstIndex(CardSlugs(g), ss[i]);
    assert ss[i] in multiset(CardSlugs(g));
    AfterPlaced(CardSlugs(g), ss, i, k);
    ToEndSuffix(g, k, |g| - i);
    ToEndSlugs(g, k);
    assert ss[..i + 1] == ss[..i] + [ss[i]];
  }

  /** A suffix as long as the whole sequence is the whole sequence. */
  lemma WholeSuffix(xs: seq<string>, ys: seq<string>)
    requires |xs| == |ys| && xs[|xs| - |ys|..] == ys[..|ys|]
    ensures xs == ys
  {
    assert xs[0..] == xs && ys[..|ys|] == ys;
  }

  /** Rows with the same multiset of cards hold the same cards. */
  lemma SameMembers(a: seq<Card>, b: seq<Card>)
    requires multiset(a) == multiset(b)
    ensures forall c :: c in a <==> c in b
  {
    forall c ensures c in a <==> c in b {
      assert c in a <==> c in multiset(a);
      assert c in b <==> c in multiset(b);
    }
  }

  class MultistreamPage {
    var streams: seq<string>
    var layout: string
    var dragSrcIdx: Option<nat>
    var grid: seq<Card>
    var templateRows: string

    /** The stream list has no duplicates and the grid shows one card per
        stream, in stream order. */
    ghost predicate Valid()
      reads this
    {
      NoDup(streams) && CardSlugs(grid) == streams
    }

    /** Every card sits where the current layout puts it. */
    ghost predicate LaidOut()
      reads this, set c | c in grid
    {
      templateRows == TemplateRows(layout, |grid|)
      && forall i :: 0 <= i < |grid| ==> (grid[i].gridRow, grid[i].gridColumn) == Placement(layout, |grid|, i)
    }

    constructor()
      ensures Valid() && streams == [] && layout == "side" && dragSrcIdx.None?
    {
      streams := [];
      layout := "side";
      dragSrcIdx := None;
      grid := [];
      templateRows := "";
    }

    /** `applyLayoutCSS`: place every card for the current layout. */
    method ApplyLayoutCSS()
      requires NoDup(CardSlugs(grid))
      modifies this`templateRows, set c | c in grid
      ensures LaidOut()
    {
      var n := |grid|;
      if layout == FocusLayout && n > 0 {
        templateRows := "repeat(" + NatToString(FocusRows(n)) + ", 1fr)";
      } else {
        templateRows := "";
      }
      for i := 0 to n
        invariant forall j :: 0 <= j < i ==> (grid[j].gridRow, grid[j].gridColumn) == Placement(layout, n, j)
        invariant templateRows == TemplateRows(layout, n)
      {
        forall j | 0 <= j < i ensures grid[j] != grid[i] {
          DistinctCards(grid, j, i);
        }
        var p := Placement(layout, n, i);
        grid[i].gridRow := p.0;
        grid[i].gridColumn := p.1;
      }
    }

    /** `setLayout` without the save. */
    method SetLayout(name: string)
      requires NoDup(CardSlugs(grid))
      modifies this`layout, this`templateRows, set c | c in grid
      ensures layout == name && LaidOut()
    {
      layout := name;
      ApplyLayoutCSS();
    }

    /** `render`: drop the cards whose stream is gone, keep every other card
        as it is, append a new card for each stream without one, then lay
        the grid out. */
    method Render()
      requires NoDup(CardSlugs(grid))
      modifies this`grid, this`templateRows, set c | c in grid
      ensures CardSlugs(grid) == AddMissing(FilterIn(CardSlugs(old(grid)), streams), streams)
      ensures forall c :: c in grid ==> c in old(grid) || fresh(c)
      ensures |KeptCards(old(grid), streams)| <= |grid| && grid[..|KeptCards(old(grid), streams)|] == KeptCards(old(grid), streams)
      ensures NoDup(CardSlugs(grid))
      ensures LaidOut()
    {
      var cards := grid;
      var kept := KeepListed(cards, streams);
      KeptCardsSlugs(cards, streams);
      FilterInNoDup(CardSlugs(cards), streams);
      var g := AppendMissing(kept, streams);
      AddMissingNoDup(CardSlugs(kept), streams);
      grid := g;
      ApplyLayoutCSS();
    }

    /** `render`'s first pass: the cards whose slug is still streamed. */
    static method KeepListed(cards: seq<Card>, ss: seq<string>) returns (kept: seq<Card>)
      ensures kept == KeptCards(cards, ss)
    {
      kept := [];
      for i := 0 to |cards|
        invariant kept == KeptCards(cards[..i], ss)
      {
        assert cards[..i + 1] == cards[..i] + [cards[i]];
        KeptCardsSnoc(cards[..i], cards[i], ss);
        if cards[i].slug in ss {
          kept := kept + [cards[i]];
        }
      }
      assert cards[..|cards|] == cards;
    }

    /** `render`'s second pass: a new card for each slug without one. */
    static method AppendMissing(kept: seq<Card>, ss: seq<string>) returns (g: seq<Card>)
      ensures CardSlugs(g) == AddMissing(CardSlugs(kept), ss)
      ensures |kept| <= |g| && g[..|kept|] == kept
      ensures forall c :: c in g ==> c in kept || fresh(c)
    {
      g := kept;
      for i := 0 to |ss|
        invariant CardSlugs(g) == AddMissing(CardSlugs(kept), ss[..i])
        invariant |kept| <= |g| && g[..|kept|] == kept
        invariant forall c :: c in g ==> c in kept || fresh(c)
      {
        assert ss[..i + 1] == ss[..i] + [ss[i]];
        if FirstIndex(CardSlugs(g), ss[i]) < 0 {
          var c := new Card(ss[i]);
          CardSlugsSnoc(g, c);
          g := g + [c];
        }
      }
      assert ss[..|ss|] == ss;
    }

    /** `addStream`. */
    method AddStream(raw: string)
      requires Valid()
      modifies this`streams, this`grid, this`templateRows, set c | c in grid
      ensures streams == AddStreamTo(old(streams), raw)
      ensures Valid()
      ensures streams != old(streams) ==>
        |grid| == |old(grid)| + 1 && grid[..|old(grid)|] == old(grid) && fresh(grid[|grid| - 1]) && LaidOut()
      ensures streams == old(streams) ==> grid == old(grid)
      ensures forall c :: c in grid ==> c in old(grid) || fresh(c)
    {
      var slug := SanitizeSlug(raw);
      if slug == "" || FirstIndex(streams, slug) >= 0 {
        return;
      }
      AppendStream(slug);
      assert grid == old(grid) + [grid[|grid| - 1]];
    }

    /** `addStream` past its two guards: append the slug and render. */
    method AppendStream(slug: string)
      requires Valid() && slug !in streams
      modifies this`streams, this`grid, this`templateRows, set c | c in grid
      ensures streams == old(streams) + [slug]
      ensures Valid()
      ensures |grid| == |old(grid)| + 1 && grid[..|old(grid)|] == old(grid) && fresh(grid[|grid| - 1])
      ensures LaidOut()
    {
      ghost var before := streams;
      ghost var cards := grid;
      AddIfMissingSpec(streams, slug);
      streams := streams + [slug];
      Render();
      AppendReconciles(cards, before, slug, grid);
    }

    /** `removeStream`: close one stream; every other card stays. */
    method RemoveStream(slug: string)
      requires Valid()
      modifies this`streams, this`grid, this`templateRows, set c | c in grid
      ensures streams == RemoveAll(old(streams), slug)
      ensures slug in old(streams) ==>
        var k := FirstIndex(old(streams), slug); streams == old(streams)[..k] + old(streams)[k + 1..]
      ensures slug !in old(streams) ==> streams == old(streams)
      ensures Valid()
      ensures forall c :: c in old(grid) ==> (c in grid <==> c.slug != slug)
      ensures forall c :: c in grid ==> c in old(grid)
      ensures LaidOut()
    {
      ghost var before := streams;
      ghost var cards := grid;
      DropStream(slug);
      Render();
      RemoveReconciles(cards, before, slug, grid);
    }

    /** `removeStream`'s first step: filter the slug out of the stream list. */
    method DropStream(slug: string)
      requires NoDup(streams)
      modifies this`streams
      ensures streams == RemoveAll(old(streams), slug) && NoDup(streams)
      ensures slug in old(streams) ==>
        var k := FirstIndex(old(streams), slug); streams == old(streams)[..k] + old(streams)[k + 1..]
      ensures slug !in old(streams) ==> streams == old(streams)
    {
      RemoveAllSpec(streams, slug);
      RemoveCutsOut(streams, slug);
      streams := RemoveAll(streams, slug);
    }

    /** `closeAll`. */
    method CloseAll()
      requires Valid()
      modifies this`streams, this`grid, this`templateRows, set c | c in grid
      ensures streams == [] && grid == []
      ensures Valid() && LaidOut()
    {
      FilterInEmpty(CardSlugs(grid));
      streams := [];
      Render();
    }

    /** `dragstart` on a card: remember where its stream is. */
    method DragStart(card: Card)
      requires Valid() && card in grid
      modifies this`dragSrcIdx
      ensures dragSrcIdx.Some? && dragSrcIdx.value < |streams| && streams[dragSrcIdx.value] == card.slug
    {
      var k := FirstIndex(streams, card.slug);
      dragSrcIdx := Some(k);
    }

    /** The drop handler's reorder: `appendChild` each stream's card in
        stream order. No card is created or destroyed. */
    method ReorderGrid()
      requires NoDup(streams) && multiset(CardSlugs(grid)) == multiset(streams)
      modifies this`grid
      ensures CardSlugs(grid) == streams
      ensures multiset(grid) == multiset(old(grid))
      ensures forall c :: c in grid <==> c in old(grid)
    {
      grid := ReorderCards(grid, streams);
    }

    /** The reorder on a row of cards: each stream's card is moved to the
        end in stream order, which leaves the cards in stream order. */
    static method ReorderCards(cards: seq<Card>, ss: seq<string>) returns (g: seq<Card>)
      requires NoDup(ss) && multiset(CardSlugs(cards)) == multiset(ss)
      ensures CardSlugs(g) == ss
      ensures multiset(g) == multiset(cards)
      ensures forall c :: c in g <==> c in cards
    {
      g := cards;
      var n := |g|;
      assert n == |ss| by {
        assert |multiset(CardSlugs(g))| == n;
      }
      for i := 0 to |ss|
        invariant |g| == n
        invariant multiset(g) == multiset(cards)
        invariant multiset(CardSlugs(g)) == multiset(ss)
        invariant CardSlugs(g)[n - i..] == ss[..i]
      {
        var k := FirstIndex(CardSlugs(g), ss[i]);
        ReorderStep(g, ss, i);
        g := ToEnd(g, k);
      }
      WholeSuffix(CardSlugs(g), ss);
      SameMembers(g, cards);
    }

    /** The drop handler on card `dest`: when a drag is pending from another
        position, move that stream to `dest`'s position, reorder the cards
        to match and lay them out again. A pending index past the end of
        the list, left behind by an earlier drag, is discarded (the
        corrected handler; see `StaleDragInsertsHole`). */
    method Drop(dest: Card)
      requires Valid() && dest in grid
      modifies this`streams, this`grid, this`dragSrcIdx, this`templateRows, set c | c in grid
      ensures Valid()
      ensures old(dragSrcIdx).None? || old(dragSrcIdx).value == FirstIndex(old(streams), dest.slug) ==>
        streams == old(streams) && grid == old(grid) && dragSrcIdx == old(dragSrcIdx)
      ensures old(dragSrcIdx).Some? && old(dragSrcIdx).value >= |old(streams)| ==>
        streams == old(streams) && grid == old(grid) && dragSrcIdx.None?
      ensures (old(dragSrcIdx).Some? && old(dragSrcIdx).value < |old(streams)|
               && old(dragSrcIdx).value != FirstIndex(old(streams), dest.slug)) ==>
        streams == Move(old(streams), old(dragSrcIdx).value, FirstIndex(old(streams), dest.slug))
        && multiset(grid) == multiset(old(grid))
        && dragSrcIdx.None?
        && LaidOut()
    {
      var destIdx := FirstIndex(streams, dest.slug);
      assert dest.slug in streams;
      if dragSrcIdx.None? || dragSrcIdx.value == destIdx {
        return;
      }
      if dragSrcIdx.value >= |streams| {
        dragSrcIdx := None;
        return;
      }
      MoveSpec(streams, dragSrcIdx.value, destIdx);
      streams := Move(streams, dragSrcIdx.value, destIdx);
      dragSrcIdx := None;
      ReorderGrid();
      ApplyLayoutCSS();
    }

    /** `init` after storage and the address have been read: open the
        address's streams, or else the saved ones, then lay out and
        render. */
    method Init(url: Option<string>, saved: Option<Saved>)
      requires Valid() && streams == []
      modifies this`streams, this`grid, this`layout, this`templateRows, set c | c in grid
      ensures streams == InitStreams(url, saved)
      ensures layout == InitLayout(url, saved)
      ensures Valid() && LaidOut()
    {
      if HasParam(url) {
        var slugs := ChannelsParam(url.value);
        AddAll(slugs);
      }
      if saved.Some? && !HasParam(url) {
        layout := if saved.value.layout != "" then saved.value.layout else "side";
        AddAll(saved.value.channels);
      } else {
        layout := "side";
      }
      SetLayout(layout);
      Render();
      assert streams == InitStreams(url, saved);
      FilterInAll(streams, streams);
      AddMissingPresent(streams, streams);
    }

    /** `slugs.forEach(slug => addStream(slug, false))`. */
    method AddAll(raws: seq<string>)
      requires Valid()
      modifies this`streams, this`grid, this`templateRows, set c | c in grid
      ensures streams == AddAllStreams(old(streams), raws)
      ensures Valid()
      ensures layout == old(layout)
      ensures forall c :: c in grid ==> c in old(grid) || fresh(c)
    {
      ghost var start := streams;
      for i := 0 to |raws|
        invariant streams == AddAllStreams(start, raws[..i])
        invariant Valid()
        invariant layout == old(layout)
        invariant forall c :: c in grid ==> c in old(grid) || fresh(c)
      {
        assert raws[..i + 1][..i] == raws[..i];
        AddStream(raws[i]);
      }
      assert raws[..|raws|] == raws;
    }
  }
}
