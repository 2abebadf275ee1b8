/** The extension's dashboard (the toolbar popup): the tracked-channel list
    with its notify flags, the user-made groups that act as tabs, the
    channel list's tab filter and live-first ordering, the avatar colour
    picked from a slug, and the chat lists and counters the dashboard edits
    in the site settings. */
module Dashboard {
  import opened Wrappers
  import opened Text
  import opened Channels
  import opened ChatFilter
  import opened ChatEdits

  // ---------------------------------------------------------------------
  // Avatar colour: a 32-bit wrapping string hash
  // ---------------------------------------------------------------------

  const Two31: int := 0x8000_0000
  const Two32: int := 0x1_0000_0000

  /** The eight avatar colours, indexed by the hash of the slug. */
  const AvatarColors: seq<string> := [
    "#c0392b", "#d35400", "#d4ac0d", "#1e8449",
    "#148f77", "#1a5276", "#6c3483", "#922b21"]

  /** JavaScript's ToInt32: the signed 32-bit integer congruent to `x`
      modulo 2^32 (what `x | 0` and the operand of `<<` become). */
  function Wrap32(x: int): (r: int)
    ensures -Two31 <= r < Two31
    ensures (r - x) % Two32 == 0
  {
    var m := x % Two32;
    if m >= Two31 then m - Two32 else m
  }

  /** The signed 32-bit integer congruent to `x` is unique. */
  lemma Wrap32Unique(r: int, x: int)
    requires -Two31 <= r < Two31
    requires (r - x) % Two32 == 0
    ensures r == Wrap32(x)
  {
    var w := Wrap32(x);
    var d := w - r;
    assert d == (w - x) - (r - x);
    assert (w - x) == Two32 * ((w - x) / Two32);
    assert (r - x) == Two32 * ((r - x) / Two32);
    assert d == Two32 * ((w - x) / Two32 - (r - x) / Two32);
  }

  /** One round of the loop: `h = (h << 5) - h + code; h |= 0`. */
  function HashStep(h: int, c: char): int {
    Wrap32(Wrap32(h * 32) - h + c as int)
  }

  /** The hash after the whole string has been consumed. */
  function Hash(s: string): (h: int)
    ensures -Two31 <= h < Two31
  {
    if s == [] then 0 else HashStep(Hash(s[..|s| - 1]), s[|s| - 1])
  }

  /** The unbounded polynomial hash `sum code(s[k]) * 31^(|s|-1-k)`. */
  function Poly(s: string): int {
    if s == [] then 0 else 31 * Poly(s[..|s| - 1]) + s[|s| - 1] as int
  }

  /** One round of the loop keeps the hash congruent to the polynomial
      modulo 2^32. */
  lemma StepCongruent(h: int, pp: int, c: char)
    requires (h - pp) % Two32 == 0
    ensures (HashStep(h, c) - (31 * pp + c as int)) % Two32 == 0
  {
    var a := Wrap32(h * 32);
    var b := a - h + c as int;
    var r := Wrap32(b);
    var q1 := Quotient(h - pp);
    var q2 := Quotient(a - h * 32);
    var q3 := Quotient(r - b);
    var k := q3 + q2 + 31 * q1;
    ScaledSum(q3, q2, q1);
    assert r - (31 * pp + c as int) == Two32 * k;
    MultipleMod(k);
  }

  /** A multiple of 2^32 and its quotient. */
  function Quotient(x: int): (q: int)
    requires x % Two32 == 0
    ensures x == Two32 * q
  {
    x / Two32
  }

  lemma ScaledSum(a: int, b: int, c: int)
    ensures Two32 * a + Two32 * b + 31 * (Two32 * c) == Two32 * (a + b + 31 * c)
  {
  }

  lemma MultipleMod(k: int)
    ensures (Two32 * k) % Two32 == 0
  {
  }

  /** The shift-and-subtract loop with its wrap-arounds computes exactly the
      polynomial hash with multiplier 31, reduced to a signed 32-bit
      integer: the intermediate wrap-arounds lose nothing. */
  lemma {:induction false} HashIsWrappedPolynomial(s: string)
    ensures Hash(s) == Wrap32(Poly(s))
  {
    if s != [] {
      var p := s[..|s| - 1];
      HashIsWrappedPolynomial(p);
      StepCongruent(Hash(p), Poly(p), s[|s| - 1]);
      Wrap32Unique(Hash(s), Poly(s));
    }
  }

  /** `Math.abs(h) % AVATAR_COLORS.length`: always a valid index. */
  function ColorIndex(h: int): (k: nat)
    ensures k < |AvatarColors|
  {
    (if h < 0 then -h else h) % |AvatarColors|
  }

  /** `getAvatarColor`: the colour at the hash's index. The colour depends
      on the slug alone. */
  method GetAvatarColor(slug: string) returns (color: string)
    ensures color == AvatarColors[ColorIndex(Wrap32(Poly(slug)))]
    ensures color in AvatarColors
  {
    var h := 0;
    for i := 0 to |slug|
      invariant h == Hash(slug[..i])
    {
      assert slug[..i + 1][..i] == slug[..i];
      h := Wrap32(Wrap32(h * 32) - h + slug[i] as int);
    }
    assert slug[..|slug|] == slug;
    HashIsWrappedPolynomial(slug);
    color := AvatarColors[ColorIndex(h)];
  }

  /** Two concrete slugs: "a" hashes to 97, "ab" to 97 * 31 + 98. */
  lemma HashExamples()
    ensures Hash("a") == 97 && ColorIndex(Hash("a")) == 1
    ensures Hash("ab") == 3105 && ColorIndex(Hash("ab")) == 1
  {
    assert "a"[..0] == "";
    assert "ab"[..1] == "a";
  }

  // ---------------------------------------------------------------------
  // The channel list as rendered: tab filter, then live channels first
  // ---------------------------------------------------------------------

  /** The built-in tab that shows only live channels. */
  const OnlineTab: string := "online"

  /** Whether a channel shows under a tab: "all" shows every channel,
      "online" the live ones, any other tab the channels whose groups
      include its id. */
  predicate InTab(ch: Channel, tab: string, cache: map<string, CacheEntry>) {
    if tab == AllGroup then true
    else if tab == OnlineTab then LiveIn(cache, ch.slug)
    else tab in ch.groups
  }

  /** The channels shown under `tab`, in list order. */
  function TabFilter(chs: seq<Channel>, tab: string, cache: map<string, CacheEntry>): (r: seq<Channel>)
    ensures |r| <= |chs|
    ensures forall k :: 0 <= k < |r| ==> r[k] in chs && InTab(r[k], tab, cache)
    ensures forall k :: 0 <= k < |chs| && InTab(chs[k], tab, cache) ==> chs[k] in r
  {
    if chs == [] then []
    else (if InTab(chs[0], tab, cache) then [chs[0]] else []) + TabFilter(chs[1..], tab, cache)
  }

  /** A tab selects channel by channel and keeps the stored order. */
  lemma {:induction false} TabFilterAppend(a: seq<Channel>, b: seq<Channel>, tab: string, cache: map<string, CacheEntry>)
    ensures TabFilter(a + b, tab, cache) == TabFilter(a, tab, cache) + TabFilter(b, tab, cache)
  {
    if a == [] {
      assert a + b == b;
    } else {
      assert (a + b)[1..] == a[1..] + b;
      TabFilterAppend(a[1..], b, tab, cache);
    }
  }

  /** The "all" tab shows the whole list, in its order. */
  lemma {:induction false} TabAllKeepsEverything(chs: seq<Channel>, cache: map<string, CacheEntry>)
    ensures TabFilter(chs, AllGroup, cache) == chs
  {
    if chs != [] {
      TabAllKeepsEverything(chs[1..], cache);
      assert [chs[0]] + chs[1..] == chs;
    }
  }

  /** The sort key: 1 for a live channel, 0 otherwise. */
  function LiveKey(ch: Channel, cache: map<string, CacheEntry>): nat {
    if LiveIn(cache, ch.slug) then 1 else 0
  }

  /** Place `x` into `sorted` as a stable sort with the comparator
      `(a, b) => bl - al` does: after every element whose key is not
      smaller. */
  function InsertByKey(sorted: seq<Channel>, x: Channel, cache: map<string, CacheEntry>): (r: seq<Channel>)
    ensures |r| == |sorted| + 1
    decreases |sorted|
  {
    if sorted == [] then [x]
    else if LiveKey(sorted[|sorted| - 1], cache) >= LiveKey(x, cache) then sorted + [x]
    else InsertByKey(sorted[..|sorted| - 1], x, cache) + [sorted[|sorted| - 1]]
  }

  /** `[...filtered].sort(...)`: `Array.prototype.sort` is stable, so this
      is an insertion sort by descending key. */
  function SortLiveFirst(chs: seq<Channel>, cache: map<string, CacheEntry>): (r: seq<Channel>)
    ensures |r| == |chs|
  {
    if chs == [] then []
    else InsertByKey(SortLiveFirst(chs[..|chs| - 1], cache), chs[|chs| - 1], cache)
  }

  /** The live channels of a list, in order. */
  function LiveOnes(chs: seq<Channel>, cache: map<string, CacheEntry>): (r: seq<Channel>)
    ensures forall k :: 0 <= k < |r| ==> LiveIn(cache, r[k].slug)
  {
    if chs == [] then []
    else
      var last := chs[|chs| - 1];
      LiveOnes(chs[..|chs| - 1], cache) + (if LiveIn(cache, last.slug) then [last] else [])
  }

  /** The channels of a list that are not live, in order. */
  function OfflineOnes(chs: seq<Channel>, cache: map<string, CacheEntry>): (r: seq<Channel>)
    ensures forall k :: 0 <= k < |r| ==> !LiveIn(cache, r[k].slug)
  {
    if chs == [] then []
    else
      var last := chs[|chs| - 1];
      OfflineOnes(chs[..|chs| - 1], cache) + (if LiveIn(cache, last.slug) then [] else [last])
  }

  /** The "live" figure shown above the list. */
  function LiveCount(chs: seq<Channel>, cache: map<string, CacheEntry>): nat {
    |LiveOnes(chs, cache)|
  }

  /** A live channel inserted after live ones and before offline ones
      lands between them. */
  lemma {:induction false} InsertLive(live: seq<Channel>, off: seq<Channel>, x: Channel, cache: map<string, CacheEntry>)
    requires forall k :: 0 <= k < |live| ==> LiveIn(cache, live[k].slug)
    requires forall k :: 0 <= k < |off| ==> !LiveIn(cache, off[k].slug)
    requires LiveIn(cache, x.slug)
    ensures InsertByKey(live + off, x, cache) == live + [x] + off
    decreases |off|
  {
    if off == [] {
      assert live + off == live;
      if live != [] {
        assert LiveKey(live[|live| - 1], cache) == 1;
      }
    } else {
      var s := live + off;
      var o := off[..|off| - 1];
      assert s[|s| - 1] == off[|off| - 1];
      assert s[..|s| - 1] == live + o;
      InsertLive(live, o, x, cache);
      assert o + [off[|off| - 1]] == off;
    }
  }

  /** The sorted list is the live channels in their list order followed by
      the offline channels in their list order. */
  lemma {:induction false} SortIsPartition(chs: seq<Channel>, cache: map<string, CacheEntry>)
    ensures SortLiveFirst(chs, cache) == LiveOnes(chs, cache) + OfflineOnes(chs, cache)
  {
    if chs != [] {
      var p := chs[..|chs| - 1];
      var x := chs[|chs| - 1];
      SortIsPartition(p, cache);
      if LiveIn(cache, x.slug) {
        InsertLive(LiveOnes(p, cache), OfflineOnes(p, cache), x, cache);
      } else {
        var s := LiveOnes(p, cache) + OfflineOnes(p, cache);
        if s != [] {
          assert LiveKey(s[|s| - 1], cache) >= LiveKey(x, cache);
        }
      }
    }
  }

  lemma {:induction false} LiveOnesAppend(a: seq<Channel>, b: seq<Channel>, cache: map<string, CacheEntry>)
    ensures LiveOnes(a + b, cache) == LiveOnes(a, cache) + LiveOnes(b, cache)
    ensures OfflineOnes(a + b, cache) == OfflineOnes(a, cache) + OfflineOnes(b, cache)
    decreases |b|
  {
    if b == [] {
      assert a + b == a;
    } else {
      var q := b[..|b| - 1];
      assert (a + b)[..|a + b| - 1] == a + q;
      LiveOnesAppend(a, q, cache);
    }
  }

  lemma {:induction false} LiveOnesOfLive(chs: seq<Channel>, cache: map<string, CacheEntry>)
    requires forall k :: 0 <= k < |chs| ==> LiveIn(cache, chs[k].slug)
    ensures LiveOnes(chs, cache) == chs && OfflineOnes(chs, cache) == []
  {
    if chs != [] {
      LiveOnesOfLive(chs[..|chs| - 1], cache);
    }
  }

  lemma {:induction false} LiveOnesOfOffline(chs: seq<Channel>, cache: map<string, CacheEntry>)
    requires forall k :: 0 <= k < |chs| ==> !LiveIn(cache, chs[k].slug)
    ensures LiveOnes(chs, cache) == [] && OfflineOnes(chs, cache) == chs
  {
    if chs != [] {
      LiveOnesOfOffline(chs[..|chs| - 1], cache);
    }
  }

  lemma {:induction false} PartitionMultiset(chs: seq<Channel>, cache: map<string, CacheEntry>)
    ensures multiset(LiveOnes(chs, cache)) + multiset(OfflineOnes(chs, cache)) == multiset(chs)
  {
    if chs != [] {
      var p := chs[..|chs| - 1];
      PartitionMultiset(p, cache);
      assert p + [chs[|chs| - 1]] == chs;
    }
  }

  /** The sort is a permutation of its input. */
  lemma SortPermutes(chs: seq<Channel>, cache: map<string, CacheEntry>)
    ensures multiset(SortLiveFirst(chs, cache)) == multiset(chs)
  {
    SortIsPartition(chs, cache);
    PartitionMultiset(chs, cache);
  }

  /** Within each class the sort keeps list order: the live channels of the
      sorted list are those of the input in the same order, and so are the
      offline ones. */
  lemma SortIsStable(chs: seq<Channel>, cache: map<string, CacheEntry>)
    ensures LiveOnes(SortLiveFirst(chs, cache), cache) == LiveOnes(chs, cache)
    ensures OfflineOnes(SortLiveFirst(chs, cache), cache) == OfflineOnes(chs, cache)
  {
    var l := LiveOnes(chs, cache);
    var o := OfflineOnes(chs, cache);
    SortIsPartition(chs, cache);
    LiveOnesAppend(l, o, cache);
    LiveOnesOfLive(l, cache);
    LiveOnesOfOffline(o, cache);
    assert l + [] == l && [] + o == o;
  }

  /** The first `LiveCount` entries of the sorted list are the live ones,
      so every live channel comes before every offline one. */
  lemma SortLiveBeforeOffline(chs: seq<Channel>, cache: map<string, CacheEntry>)
    ensures forall i :: 0 <= i < |chs| ==>
      (i < LiveCount(chs, cache) <==> LiveIn(cache, SortLiveFirst(chs, cache)[i].slug))
    ensures forall i, j :: 0 <= i < j < |chs| ==>
      LiveKey(SortLiveFirst(chs, cache)[i], cache) >= LiveKey(SortLiveFirst(chs, cache)[j], cache)
  {
    var l := LiveOnes(chs, cache);
    var o := OfflineOnes(chs, cache);
    var r := SortLiveFirst(chs, cache);
    SortPermutes(chs, cache);
    SortIsPartition(chs, cache);
    forall i | 0 <= i < |chs| ensures i < |l| <==> LiveIn(cache, r[i].slug) {
      if i >= |l| {
        assert r[i] == o[i - |l|];
      }
    }
  }

  /** The list the dashboard draws for a tab. */
  function Rendered(chs: seq<Channel>, tab: string, cache: map<string, CacheEntry>): seq<Channel> {
    SortLiveFirst(TabFilter(chs, tab, cache), cache)
  }

  /** On the "all" tab the drawn list is the whole channel list, reordered. */
  lemma RenderedAllIsPermutation(chs: seq<Channel>, cache: map<string, CacheEntry>)
    ensures multiset(Rendered(chs, AllGroup, cache)) == multiset(chs)
  {
    TabAllKeepsEverything(chs, cache);
    SortPermutes(chs, cache);
  }

  /** Selecting a tab and splitting by liveness can be done in either
      order. */
  lemma TabFilterCommutes(chs: seq<Channel>, tab: string, cache: map<string, CacheEntry>)
    ensures LiveOnes(TabFilter(chs, tab, cache), cache) == TabFilter(LiveOnes(chs, cache), tab, cache)
    ensures OfflineOnes(TabFilter(chs, tab, cache), cache) == TabFilter(OfflineOnes(chs, cache), tab, cache)
  {
    TabLiveCommutes(chs, tab, cache);
    TabOfflineCommutes(chs, tab, cache);
  }

  lemma {:induction false} TabLiveCommutes(chs: seq<Channel>, tab: string, cache: map<string, CacheEntry>)
    ensures LiveOnes(TabFilter(chs, tab, cache), cache) == TabFilter(LiveOnes(chs, cache), tab, cache)
    decreases |chs|
  {
    if chs != [] {
      var p, x := chs[..|chs| - 1], chs[|chs| - 1];
      var tp, tx := TabFilter(p, tab, cache), TabFilter([x], tab, cache);
      var lx := if LiveIn(cache, x.slug) then [x] else [];
      assert chs == p + [x];
      TabLiveCommutes(p, tab, cache);
      TabFilterAppend(p, [x], tab, cache);
      LiveOnesAppend(tp, tx, cache);
      assert LiveOnes(chs, cache) == LiveOnes(p, cache) + lx;
      TabFilterAppend(LiveOnes(p, cache), lx, tab, cache);
      assert LiveOnes(tx, cache) == TabFilter(lx, tab, cache);
    }
  }

  lemma {:induction false} TabOfflineCommutes(chs: seq<Channel>, tab: string, cache: map<string, CacheEntry>)
    ensures OfflineOnes(TabFilter(chs, tab, cache), cache) == TabFilter(OfflineOnes(chs, cache), tab, cache)
    decreases |chs|
  {
    if chs != [] {
      var p, x := chs[..|chs| - 1], chs[|chs| - 1];
      var tp, tx := TabFilter(p, tab, cache), TabFilter([x], tab, cache);
      var ox := if LiveIn(cache, x.slug) then [] else [x];
      assert chs == p + [x];
      TabOfflineCommutes(p, tab, cache);
      TabFilterAppend(p, [x], tab, cache);
      LiveOnesAppend(tp, tx, cache);
      assert OfflineOnes(chs, cache) == OfflineOnes(p, cache) + ox;
      TabFilterAppend(OfflineOnes(p, cache), ox, tab, cache);
      assert OfflineOnes(tx, cache) == TabFilter(ox, tab, cache);
    }
  }

  /** On every tab the drawn list is the tab's live channels in stored
      order, then the tab's offline channels in stored order. */
  lemma RenderedOrder(chs: seq<Channel>, tab: string, cache: map<string, CacheEntry>)
    ensures Rendered(chs, tab, cache)
         == TabFilter(LiveOnes(chs, cache), tab, cache) + TabFilter(OfflineOnes(chs, cache), tab, cache)
  {
    SortIsPartition(TabFilter(chs, tab, cache), cache);
    TabFilterCommutes(chs, tab, cache);
  }

  // ---------------------------------------------------------------------
  // Channel list edits
  // ---------------------------------------------------------------------

  /** `addChannel`: sanitise, ignore an empty or already tracked slug,
      otherwise append a channel in the "all" group with notifications on. */
  function AddChannelTo(chs: seq<Channel>, raw: string, now: int): seq<Channel> {
    var slug := SanitizeSlug(raw);
    if slug == "" then chs else AddIfAbsent(chs, slug, [AllGroup], now)
  }

  lemma AddChannelSpec(chs: seq<Channel>, raw: string, now: int)
    ensures AddChannelTo(chs, raw, now) == chs <==> (SanitizeSlug(raw) == "" || HasSlug(chs, SanitizeSlug(raw)))
    ensures AddChannelTo(chs, raw, now) != chs ==>
      AddChannelTo(chs, raw, now) == chs + [NewChannel(SanitizeSlug(raw), [AllGroup], now)]
    ensures SlugsUnique(chs) ==> SlugsUnique(AddChannelTo(chs, raw, now))
  {
    var slug := SanitizeSlug(raw);
    if slug != "" && SlugsUnique(chs) {
      AddIfAbsentKeepsUnique(chs, slug, [AllGroup], now);
    }
    if slug != "" && !HasSlug(chs, slug) {
      assert |AddChannelTo(chs, raw, now)| == |chs| + 1;
    }
  }

  /** JavaScript's `!` applied to a stored flag: a missing flag is falsy,
      so negating it stores `true`. */
  function FlipFlag(f: Option<bool>): (g: Option<bool>)
    ensures g.Some? && (f.Some? ==> g.value == !f.value)
    ensures f.None? ==> g == Some(true)
  {
    Some(f != Some(true))
  }

  /** `handleCardAction('notify')`: flip the notify flag of the channel
      with that slug, if there is one. */
  function ToggleNotifyIn(chs: seq<Channel>, slug: string): seq<Channel> {
    var k := FindSlug(chs, slug);
    if k < 0 then chs else chs[k := chs[k].(notifyOnline := FlipFlag(chs[k].notifyOnline))]
  }

  /** Only the named channel's flag changes. A stored flag is negated, so
      notifications switch on or off and a second toggle restores the list;
      a missing flag (already read as on) is stored as `true`, so the first
      toggle leaves notifications on. */
  lemma ToggleNotifySpec(chs: seq<Channel>, slug: string)
    ensures |ToggleNotifyIn(chs, slug)| == |chs|
    ensures forall i :: 0 <= i < |chs| ==>
      ToggleNotifyIn(chs, slug)[i].(notifyOnline := chs[i].notifyOnline) == chs[i]
    ensures forall i :: 0 <= i < |chs| ==>
      (ToggleNotifyIn(chs, slug)[i].notifyOnline != chs[i].notifyOnline <==> i == FindSlug(chs, slug))
    ensures forall i :: 0 <= i < |chs| && i == FindSlug(chs, slug) ==>
      (chs[i].notifyOnline.Some? ==> (NotifyOn(ToggleNotifyIn(chs, slug)[i]) <==> !NotifyOn(chs[i]))) &&
      (chs[i].notifyOnline.None? ==> NotifyOn(ToggleNotifyIn(chs, slug)[i]))
    ensures FindSlug(chs, slug) < 0 || chs[FindSlug(chs, slug)].notifyOnline.Some? ==>
      ToggleNotifyIn(ToggleNotifyIn(chs, slug), slug) == chs
  {
    var k := FindSlug(chs, slug);
    if k >= 0 && chs[k].notifyOnline.Some? {
      ToggleNotifyTwice(chs, slug);
    }
  }

  lemma ToggleNotifyTwice(chs: seq<Channel>, slug: string)
    requires FindSlug(chs, slug) < 0 || chs[FindSlug(chs, slug)].notifyOnline.Some?
    ensures ToggleNotifyIn(ToggleNotifyIn(chs, slug), slug) == chs
  {
    var k := FindSlug(chs, slug);
    if k >= 0 {
      var r := ToggleNotifyIn(chs, slug);
      assert r[k].slug == slug;
      forall j | 0 <= j < k ensures r[j].slug != slug {
        assert r[j] == chs[j];
      }
      assert FindSlug(r, slug) == k;
    }
  }

  /** A record without the flag, toggled twice, ends with notifications
      off: the first toggle stores `true`, the second `false`. */
  lemma ToggleMissingFlagTwice(chs: seq<Channel>, slug: string)
    requires 0 <= FindSlug(chs, slug) && chs[FindSlug(chs, slug)].notifyOnline.None?
    ensures ToggleNotifyIn(ToggleNotifyIn(chs, slug), slug)[FindSlug(chs, slug)].notifyOnline == Some(false)
  {
    var k := FindSlug(chs, slug);
    var r := ToggleNotifyIn(chs, slug);
    assert r[k].slug == slug;
    forall j | 0 <= j < k ensures r[j].slug != slug {
      assert r[j] == chs[j];
    }
    assert FindSlug(r, slug) == k;
  }

  // ---------------------------------------------------------------------
  // Groups
  // ---------------------------------------------------------------------

  /** A user-made group: an id ("all" for the built-in one) and a name. */
  datatype Group = Group(id: string, name: string)

  /** The id `createGroup` gives a group made at time `now` (ms). */
  function GroupId(now: nat): (id: string)
    ensures StartsWith(id, "g_") && AllDigits(id[2..])
  {
    "g_" + NatToString(now)
  }

  predicate HasGroupName(gs: seq<Group>, name: string) {
    exists i :: 0 <= i < |gs| && ToLower(gs[i].name) == ToLower(name)
  }

  /** No two groups share a name, ignoring case. */
  predicate GroupNamesDistinct(gs: seq<Group>) {
    forall i, j :: 0 <= i < j < |gs| ==> ToLower(gs[i].name) != ToLower(gs[j].name)
  }

  /** `createGroup`: trim the name; ignore it when empty or when some
      group already has it (ignoring case); otherwise append a group. */
  function CreateGroupIn(gs: seq<Group>, raw: string, now: nat): seq<Group> {
    var name := Trim(raw);
    if name == "" || HasGroupName(gs, name) then gs else gs + [Group(GroupId(now), name)]
  }

  lemma CreateGroupSpec(gs: seq<Group>, raw: string, now: nat)
    ensures CreateGroupIn(gs, raw, now) == gs <==> (Trim(raw) == "" || HasGroupName(gs, Trim(raw)))
    ensures CreateGroupIn(gs, raw, now) != gs ==>
      CreateGroupIn(gs, raw, now) == gs + [Group(GroupId(now), Trim(raw))]
    ensures GroupNamesDistinct(gs) ==> GroupNamesDistinct(CreateGroupIn(gs, raw, now))
  {
    var name := Trim(raw);
    if name != "" && !HasGroupName(gs, name) {
      var r := CreateGroupIn(gs, raw, now);
      assert |r| == |gs| + 1;
      assert forall i :: 0 <= i < |gs| ==> r[i] == gs[i];
    }
  }

  /** `deleteGroup`'s first step, `groups.filter(g => g.id !== groupId)`
      (popup/popup.js:480): the same filter as `RemoveSlug`, applied to
      group records by id instead of channel records by slug. */
  function RemoveGroup(gs: seq<Group>, id: string): (r: seq<Group>)
    ensures forall k :: 0 <= k < |r| ==> r[k].id != id && r[k] in gs
    ensures forall k :: 0 <= k < |gs| && gs[k].id != id ==> gs[k] in r
  {
    if gs == [] then []
    else (if gs[0].id != id then [gs[0]] else []) + RemoveGroup(gs[1..], id)
  }

  /** Deleting works group by group and keeps the order of the groups
      that stay. */
  lemma {:induction false} RemoveGroupAppend(a: seq<Group>, b: seq<Group>, id: string)
    ensures RemoveGroup(a + b, id) == RemoveGroup(a, id) + RemoveGroup(b, id)
  {
    if a == [] {
      assert a + b == b;
    } else {
      assert (a + b)[1..] == a[1..] + b;
      RemoveGroupAppend(a[1..], b, id);
    }
  }

  lemma {:induction false} RemoveGroupKeepsDistinct(gs: seq<Group>, id: string)
    requires GroupNamesDistinct(gs)
    ensures GroupNamesDistinct(RemoveGroup(gs, id))
  {
    if gs != [] {
      RemoveGroupKeepsDistinct(gs[1..], id);
      var rest := RemoveGroup(gs[1..], id);
      forall k | 0 <= k < |rest| ensures ToLower(rest[k].name) != ToLower(gs[0].name) {
        var j :| 0 <= j < |gs[1..]| && gs[1..][j] == rest[k];
        assert gs[j + 1] == rest[k];
      }
    }
  }

  /** A channel's groups once group `id` is gone: the others, or `["all"]`
      when none is left. */
  function StripGroup(groups: seq<string>, id: string): seq<string> {
    var rest := RemoveAll(groups, id);
    if rest == [] then [AllGroup] else rest
  }

  lemma StripGroupSpec(groups: seq<string>, id: string)
    ensures StripGroup(groups, id) != []
    ensures id != AllGroup ==> id !in StripGroup(groups, id)
    ensures forall g :: g in groups && g != id ==> g in StripGroup(groups, id)
    ensures forall g :: g in StripGroup(groups, id) && g != AllGroup ==> g in groups && g != id
    ensures NoDup(groups) ==> NoDup(StripGroup(groups, id))
  {
    var rest := RemoveAll(groups, id);
    RemoveAllSpec(groups, id);
    forall g | g in groups && g != id ensures g in rest {
      assert multiset(rest)[g] == multiset(groups)[g];
    }
    forall g | g in rest ensures g in groups {
      assert g != id;
      assert multiset(rest)[g] == multiset(groups)[g];
    }
  }

  /** `deleteGroup`'s rebuild of the channel list. */
  function StripGroupAll(chs: seq<Channel>, id: string): (r: seq<Channel>)
    ensures |r| == |chs|
  {
    seq(|chs|, i requires 0 <= i < |chs| => chs[i].(groups := StripGroup(chs[i].groups, id)))
  }

  /** Deleting a group changes nothing but group memberships: no channel
      keeps the deleted id (unless it is "all"), none is left without a
      group, and the other memberships stay. */
  lemma StripGroupAllSpec(chs: seq<Channel>, id: string)
    ensures forall i :: 0 <= i < |chs| ==>
      StripGroupAll(chs, id)[i].(groups := chs[i].groups) == chs[i]
    ensures forall i :: 0 <= i < |chs| ==> StripGroupAll(chs, id)[i].groups != []
    ensures id != AllGroup ==> forall i :: 0 <= i < |chs| ==> id !in StripGroupAll(chs, id)[i].groups
    ensures forall i, g :: 0 <= i < |chs| && g in chs[i].groups && g != id ==> g in StripGroupAll(chs, id)[i].groups
    ensures SlugsUnique(chs) ==> SlugsUnique(StripGroupAll(chs, id))
  {
    forall i | 0 <= i < |chs| {
      StripGroupSpec(chs[i].groups, id);
    }
  }

  /** `assignChannelToGroup`'s change to one channel's groups. */
  function AssignGroups(groups: seq<string>, id: string, add: bool): seq<string> {
    if add then AddIfMissing(groups, id) else StripGroup(groups, id)
  }

  /** Adding is idempotent and never duplicates an id; removing takes the
      id out and falls back to "all"; neither leaves the list empty. */
  lemma AssignGroupsSpec(groups: seq<string>, id: string)
    ensures id in AssignGroups(groups, id, true)
    ensures AssignGroups(AssignGroups(groups, id, true), id, true) == AssignGroups(groups, id, true)
    ensures NoDup(groups) ==> NoDup(AssignGroups(groups, id, true)) && NoDup(AssignGroups(groups, id, false))
    ensures id != AllGroup ==> id !in AssignGroups(groups, id, false)
    ensures AssignGroups(groups, id, false) != []
  {
    StripGroupSpec(groups, id);
    if NoDup(groups) {
      AddIfMissingSpec(groups, id);
    }
  }

  /** `assignChannelToGroup` on the list: only the named channel changes. */
  function AssignIn(chs: seq<Channel>, slug: string, id: string, add: bool): seq<Channel> {
    var k := FindSlug(chs, slug);
    if k < 0 then chs else chs[k := chs[k].(groups := AssignGroups(chs[k].groups, id, add))]
  }

  /** Only the named channel's groups change; slugs stay unique and every
      channel keeps at least one group. */
  lemma AssignInSpec(chs: seq<Channel>, slug: string, id: string, add: bool)
    ensures |AssignIn(chs, slug, id, add)| == |chs|
    ensures forall i :: 0 <= i < |chs| ==>
      AssignIn(chs, slug, id, add)[i].(groups := chs[i].groups) == chs[i]
    ensures forall i :: 0 <= i < |chs| && chs[i].slug != slug ==> AssignIn(chs, slug, id, add)[i] == chs[i]
    ensures SlugsUnique(chs) ==> SlugsUnique(AssignIn(chs, slug, id, add))
    ensures (forall i :: 0 <= i < |chs| ==> chs[i].groups != []) ==>
      forall i :: 0 <= i < |chs| ==> AssignIn(chs, slug, id, add)[i].groups != []
  {
    var k := FindSlug(chs, slug);
    if k >= 0 {
      AssignGroupsSpec(chs[k].groups, id);
    }
  }

  // ---------------------------------------------------------------------
  // Chat lists and counters in the site settings
  // ---------------------------------------------------------------------

  /** The chat lists the dashboard edits. */
  datatype ListField = WordsField | UsersField | FavoritesField

  function ListOf(c: ChatSettings, f: ListField): seq<string> {
    match f
    case WordsField => c.filterWords
    case UsersField => c.filterUsers
    case FavoritesField => c.favoriteUsers
  }

  function WithList(c: ChatSettings, f: ListField, list: seq<string>): (r: ChatSettings)
    ensures ListOf(r, f) == list
    ensures forall g :: g != f ==> ListOf(r, g) == ListOf(c, g)
  {
    match f
    case WordsField => c.(filterWords := list)
    case UsersField => c.(filterUsers := list)
    case FavoritesField => c.(favoriteUsers := list)
  }

  /** `addFilterItem`: ignore an empty value or one already listed,
      otherwise append it. The dashboard only calls it for the word and
      user lists (popup/popup.js:330-346); the favourites case exists
      because `ListField` also serves `RemoveItemFrom`, and no caller uses
      it here. */
  function AddFilterItemTo(c: ChatSettings, f: ListField, v: string): ChatSettings {
    if v == "" then c else WithList(c, f, AddIfMissing(ListOf(c, f), v))
  }

  /** `removeFilterItem` and `removeUserItem`: drop every equal entry. */
  function RemoveItemFrom(c: ChatSettings, f: ListField, v: string): ChatSettings {
    WithList(c, f, RemoveAll(ListOf(c, f), v))
  }

  /** Adding lists a non-empty value once and touches nothing else. */
  lemma AddFilterItemSpec(c: ChatSettings, f: ListField, v: string)
    ensures v == "" ==> AddFilterItemTo(c, f, v) == c
    ensures v != "" ==> v in ListOf(AddFilterItemTo(c, f, v), f)
    ensures v in ListOf(c, f) ==> AddFilterItemTo(c, f, v) == c
    ensures NoDup(ListOf(c, f)) ==> NoDup(ListOf(AddFilterItemTo(c, f, v), f))
    ensures forall g :: g != f ==> ListOf(AddFilterItemTo(c, f, v), g) == ListOf(c, g)
  {
    var l := ListOf(c, f);
    if NoDup(l) {
      AddIfMissingSpec(l, v);
    }
    if v in l {
      assert WithList(c, f, l) == c by {
        match f
        case WordsField =>
        case UsersField =>
        case FavoritesField =>
      }
    }
  }

  /** Removing unlists the value, keeps every other entry's count and
      touches no other list; removing a value just added restores the
      list. */
  lemma RemoveItemSpec(c: ChatSettings, f: ListField, v: string)
    ensures v !in ListOf(RemoveItemFrom(c, f, v), f)
    ensures forall x :: x != v ==>
      multiset(ListOf(RemoveItemFrom(c, f, v), f))[x] == multiset(ListOf(c, f))[x]
    ensures forall g :: g != f ==> ListOf(RemoveItemFrom(c, f, v), g) == ListOf(c, g)
    ensures v !in ListOf(c, f) ==> ListOf(RemoveItemFrom(AddFilterItemTo(c, f, v), f, v), f) == ListOf(c, f)
  {
    var l := ListOf(c, f);
    if v !in l {
      RemoveAllSpec(l, v);
      if v != "" {
        RemoveAllAppended(l, v);
      }
    }
  }

  lemma {:induction false} RemoveAllAppended(l: seq<string>, v: string)
    requires v !in l
    ensures RemoveAll(l + [v], v) == l
  {
    if l == [] {
      assert RemoveAll([v][1..], v) == [];
    } else {
      assert (l + [v])[1..] == l[1..] + [v];
      RemoveAllAppended(l[1..], v);
      assert [l[0]] + l[1..] == l;
    }
  }

  /** `Math.min(hi, Math.max(lo, x))`. */
  function Clamp(lo: int, hi: int, x: int): int {
    if x < lo then lo else if x > hi then hi else x
  }

  /** `changeFontSize`: step from the stored size (13 when unset). */
  function FontSizeAfter(fontSize: nat, delta: int): (r: nat)
    ensures 10 <= r <= 22
  {
    Clamp(10, 22, (if fontSize == 0 then 13 else fontSize) + delta)
  }

  /** `changeEmojiThreshold`: step from the stored threshold (5 when
      unset). */
  function ThresholdAfter(threshold: nat, delta: int): (r: nat)
    ensures 1 <= r <= 30
  {
    Clamp(1, 30, (if threshold == 0 then 5 else threshold) + delta)
  }

  /** A step that stays within bounds is taken exactly, a bigger one stops
      at the bound, and a larger step never gives a smaller value. */
  lemma CountersSpec(fontSize: nat, threshold: nat, d1: int, d2: int)
    ensures 10 <= fontSize + d1 <= 22 && fontSize > 0 ==> FontSizeAfter(fontSize, d1) == fontSize + d1
    ensures 1 <= threshold + d1 <= 30 && threshold > 0 ==> ThresholdAfter(threshold, d1) == threshold + d1
    ensures FontSizeAfter(0, d1) == FontSizeAfter(13, d1) && ThresholdAfter(0, d1) == ThresholdAfter(5, d1)
    ensures d1 <= d2 ==> FontSizeAfter(fontSize, d1) <= FontSizeAfter(fontSize, d2)
    ensures d1 <= d2 ==> ThresholdAfter(threshold, d1) <= ThresholdAfter(threshold, d2)
    ensures FontSizeAfter(22, 1) == 22 && FontSizeAfter(10, -1) == 10
    ensures ThresholdAfter(30, 1) == 30 && ThresholdAfter(1, -1) == 1
  {
  }

  // ---------------------------------------------------------------------
  // The dashboard's state
  // ---------------------------------------------------------------------

  /** The dashboard's module state: the tracked channels, the groups, the
      chat part of the site settings and the selected tab. */
  class Dashboard {
    var channels: seq<Channel>
    var groups: seq<Group>
    var chat: ChatSettings
    var activeGroup: string

    /** Slugs are unique, every channel is in some group, and group names
        differ ignoring case. The page does not check what it loads from
        storage, so this is not required of the loaded state; it is what
        every edit of the lists keeps once it holds. */
    ghost predicate Valid()
      reads this
    {
      SlugsUnique(channels)
      && (forall i :: 0 <= i < |channels| ==> channels[i].groups != [])
      && GroupNamesDistinct(groups)
    }

    /** The state loaded from storage, on the "all" tab. */
    constructor(channels: seq<Channel>, groups: seq<Group>, chat: ChatSettings)
      ensures this.channels == channels && this.groups == groups && this.chat == chat
      ensures activeGroup == AllGroup
    {
      this.channels := channels;
      this.groups := groups;
      this.chat := chat;
      activeGroup := AllGroup;
    }

    method AddChannel(raw: string, now: int)
      modifies this
      ensures channels == AddChannelTo(old(channels), raw, now)
      ensures groups == old(groups) && chat == old(chat) && activeGroup == old(activeGroup)
      ensures old(Valid()) ==> Valid()
    {
      AddChannelSpec(channels, raw, now);
      var slug := SanitizeSlug(raw);
      if slug == "" {
        return;
      }
      if FindSlug(channels, slug) >= 0 {
        return;
      }
      channels := channels + [NewChannel(slug, [AllGroup], now)];
    }

    /** `handleCardAction('remove')`. */
    method RemoveChannel(slug: string)
      modifies this
      ensures channels == RemoveSlug(old(channels), slug)
      ensures groups == old(groups) && chat == old(chat) && activeGroup == old(activeGroup)
      ensures old(Valid()) ==> Valid()
    {
      if Valid() {
        RemoveSlugKeepsUnique(channels, slug);
      }
      channels := RemoveSlug(channels, slug);
    }

    /** `handleCardAction('notify')`. */
    method ToggleNotify(slug: string)
      modifies this
      ensures channels == ToggleNotifyIn(old(channels), slug)
      ensures groups == old(groups) && chat == old(chat) && activeGroup == old(activeGroup)
      ensures old(Valid()) ==> Valid()
    {
      ToggleNotifySpec(channels, slug);
      var k := FindSlug(channels, slug);
      if k < 0 {
        return;
      }
      channels := channels[k := channels[k].(notifyOnline := FlipFlag(channels[k].notifyOnline))];
    }

    method CreateGroup(raw: string, now: nat)
      modifies this
      ensures groups == CreateGroupIn(old(groups), raw, now)
      ensures channels == old(channels) && chat == old(chat) && activeGroup == old(activeGroup)
      ensures old(Valid()) ==> Valid()
    {
      CreateGroupSpec(groups, raw, now);
      var name := Trim(raw);
      if name == "" {
        return;
      }
      if HasGroupName(groups, name) {
        return;
      }
      groups := groups + [Group(GroupId(now), name)];
    }

    /** `deleteGroup`: drop the group, strip its id from every channel and
        leave the deleted tab. */
    method DeleteGroup(id: string)
      modifies this
      ensures groups == RemoveGroup(old(groups), id)
      ensures channels == StripGroupAll(old(channels), id)
      ensures activeGroup == (if old(activeGroup) == id then AllGroup else old(activeGroup))
      ensures chat == old(chat)
      ensures old(Valid()) ==> Valid()
    {
      StripGroupAllSpec(channels, id);
      if GroupNamesDistinct(groups) {
        RemoveGroupKeepsDistinct(groups, id);
      }
      groups := RemoveGroup(groups, id);
      channels := StripGroupAll(channels, id);
      if activeGroup == id {
        activeGroup := AllGroup;
      }
    }

    method AssignChannelToGroup(slug: string, id: string, add: bool)
      modifies this
      ensures channels == AssignIn(old(channels), slug, id, add)
      ensures groups == old(groups) && chat == old(chat) && activeGroup == old(activeGroup)
      ensures old(Valid()) ==> Valid()
    {
      var k := FindSlug(channels, slug);
      if k < 0 {
        return;
      }
      AssignGroupsSpec(channels[k].groups, id);
      var gs := channels[k].groups;
      if add {
        if id !in gs {
          gs := gs + [id];
        }
      } else {
        gs := RemoveAll(gs, id);
        if gs == [] {
          gs := [AllGroup];
        }
      }
      channels := channels[k := channels[k].(groups := gs)];
    }

    method AddFilterItem(field: ListField, value: string)
      modifies this
      ensures chat == AddFilterItemTo(old(chat), field, value)
      ensures channels == old(channels) && groups == old(groups) && activeGroup == old(activeGroup)
    {
      if value == "" {
        return;
      }
      var list := ListOf(chat, field);
      if value in list {
        return;
      }
      chat := WithList(chat, field, list + [value]);
    }

    /** `removeFilterItem` and `removeUserItem`. */
    method RemoveListItem(field: ListField, value: string)
      modifies this
      ensures chat == RemoveItemFrom(old(chat), field, value)
      ensures channels == old(channels) && groups == old(groups) && activeGroup == old(activeGroup)
    {
      chat := WithList(chat, field, RemoveAll(ListOf(chat, field), value));
    }

    method ChangeFontSize(delta: int)
      modifies this
      ensures chat == old(chat).(fontSize := FontSizeAfter(old(chat).fontSize, delta))
      ensures channels == old(channels) && groups == old(groups) && activeGroup == old(activeGroup)
    {
      chat := chat.(fontSize := FontSizeAfter(chat.fontSize, delta));
    }

    method ChangeEmojiThreshold(delta: int)
      modifies this
      ensures chat == old(chat).(emojiSpamThreshold := ThresholdAfter(old(chat).emojiSpamThreshold, delta))
      ensures channels == old(channels) && groups == old(groups) && activeGroup == old(activeGroup)
    {
      chat := chat.(emojiSpamThreshold := ThresholdAfter(chat.emojiSpamThreshold, delta));
    }
  }
}
