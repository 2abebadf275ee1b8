/** The tracked-channel record kept in synced storage, and the operations on
    the channel list that the dashboard and the in-page script share. */
module Channels {
  import opened Wrappers
  import opened Text

  /** One tracked channel. `groups` lists group ids; the built-in id "all"
      is the fallback membership. `notifyOnline` is `None` for a stored
      record that lacks the flag; readers treat that as on. */
  datatype Channel = Channel(
    slug: string,
    displayName: string,
    avatar: string,
    groups: seq<string>,
    notifyOnline: Option<bool>,
    addedAt: int)

  const AllGroup: string := "all"

  /** What the background poller learns about a channel (the record
      `fetchChannel` builds from the site's channel API). */
  datatype ChannelStatus = ChannelStatus(
    isLive: bool,
    viewerCount: int,
    title: string,
    category: string,
    startTime: Option<string>,
    thumbnail: string,
    avatar: string,
    displayName: string)

  /** One entry of `channelCache`: the status and when it was stored. */
  datatype CacheEntry = CacheEntry(status: ChannelStatus, cachedAt: int)

  /** `channelCache[slug]?.isLive`. */
  predicate LiveIn(cache: map<string, CacheEntry>, slug: string) {
    slug in cache && cache[slug].status.isLive
  }

  /** `ch.notifyOnline !== false`: go-live notifications are on unless the
      flag is stored as `false`, so a missing flag counts as on. */
  predicate NotifyOn(ch: Channel) {
    ch.notifyOnline != Some(false)
  }

  /** A channel record as both add paths create it. */
  function NewChannel(slug: string, groups: seq<string>, now: int): (ch: Channel)
    ensures ch.slug == slug && ch.displayName == slug && ch.avatar == ""
    ensures ch.groups == groups && ch.notifyOnline == Some(true) && NotifyOn(ch)
  {
    Channel(slug, slug, "", groups, Some(true), now)
  }

  /** The characters a sanitised slug may contain: `[a-z0-9_]`. */
  predicate IsSlugChar(c: char) {
    ('a' <= c <= 'z') || ('0' <= c <= '9') || c == '_'
  }

  predicate IsCleanSlug(s: string) {
    forall i :: 0 <= i < |s| ==> IsSlugChar(s[i])
  }

  /** `s.replace(/[^a-z0-9_]/g, '')`. */
  function KeepSlugChars(s: string): (r: string)
    ensures IsCleanSlug(r)
    ensures |r| <= |s|
  {
    if s == [] then []
    else (if IsSlugChar(s[0]) then [s[0]] else []) + KeepSlugChars(s[1..])
  }

  /** Input sanitising of the dashboard's add box and the multi-stream
      add box: trim, lower-case, then drop everything outside
      `[a-z0-9_]`. */
  function SanitizeSlug(raw: string): (r: string)
    ensures IsCleanSlug(r)
  {
    KeepSlugChars(ToLower(Trim(raw)))
  }

  /** Dropping is done character by character and keeps the order: a
      slug character stays, any other goes... */
  lemma KeepSlugCharsOne(c: char)
    ensures KeepSlugChars([c]) == if IsSlugChar(c) then [c] else []
  {
  }

  /** ...and the kept characters of a concatenation are the kept
      characters of each part, in the same order. */
  lemma {:induction false} KeepSlugCharsAppend(a: string, b: string)
    ensures KeepSlugChars(a + b) == KeepSlugChars(a) + KeepSlugChars(b)
  {
    if a == [] {
      assert a + b == b;
    } else {
      var h := if IsSlugChar(a[0]) then [a[0]] else [];
      assert (a + b)[0] == a[0];
      assert (a + b)[1..] == a[1..] + b;
      KeepSlugCharsAppend(a[1..], b);
      calc {
        KeepSlugChars(a + b);
        h + KeepSlugChars(a[1..] + b);
        h + (KeepSlugChars(a[1..]) + KeepSlugChars(b));
        (h + KeepSlugChars(a[1..])) + KeepSlugChars(b);
      }
    }
  }

  /** A display name typed into the add box: the spaces around it go,
      the capitals are folded and the hyphen is dropped. */
  lemma SanitizeSlugExample()
    ensures SanitizeSlug(" Ali-Veli ") == "aliveli"
  {
    TrimExample();
    LowerExample();
    KeepExample();
  }

  lemma TrimExample()
    ensures Trim(" Ali-Veli ") == "Ali-Veli"
  {
    var w := "Ali-Veli";
    assert " Ali-Veli " == [' '] + w + [' '];
    TrimPadded(w);
  }

  /** One space on each side of a word without white space at its ends is
      trimmed away. */
  lemma TrimPadded(w: string)
    requires w != [] && !IsSpace(w[0]) && !IsSpace(w[|w| - 1])
    ensures Trim([' '] + w + [' ']) == w
  {
    var raw := [' '] + w + [' '];
    var mid := raw[1..];
    assert mid == w + [' '] && mid[0] == w[0];
    assert TrimStart(raw) == TrimStart(mid) == mid;
    assert mid[..|mid| - 1] == w;
    assert TrimEnd(mid) == TrimEnd(w) == w;
  }

  lemma LowerExample()
    ensures ToLower("Ali-Veli") == "ali-veli"
  {
  }

  lemma KeepExample()
    ensures KeepSlugChars("ali-veli") == "aliveli"
  {
    var a, b := "ali", "veli";
    assert IsCleanSlug(a) && IsCleanSlug(b);
    KeepDropsHyphen(a, b);
    assert a + ['-'] + b == "ali-veli";
    assert a + b == "aliveli";
  }

  /** A hyphen between two clean slugs is dropped and nothing else is. */
  lemma KeepDropsHyphen(a: string, b: string)
    requires IsCleanSlug(a) && IsCleanSlug(b)
    ensures KeepSlugChars(a + ['-'] + b) == a + b
  {
    var tail := ['-'] + b;
    assert a + ['-'] + b == a + tail;
    KeepSlugCharsOne('-');
    KeepSlugCharsOfClean(b);
    KeepSlugCharsAppend(['-'], b);
    assert KeepSlugChars(tail) == b;
    KeepSlugCharsOfClean(a);
    KeepSlugCharsAppend(a, tail);
  }

  lemma {:induction false} KeepSlugCharsOfClean(s: string)
    requires IsCleanSlug(s)
    ensures KeepSlugChars(s) == s
  {
    if s != [] {
      KeepSlugCharsOfClean(s[1..]);
    }
  }

  lemma SlugCharIsPlain(c: char)
    requires IsSlugChar(c)
    ensures !IsSpace(c) && !IsUpper(c)
  {
  }

  /** A clean slug passes sanitising unchanged, so sanitising twice is
      the same as sanitising once. */
  lemma SanitizeClean(s: string)
    requires IsCleanSlug(s)
    ensures SanitizeSlug(s) == s
  {
    forall i | 0 <= i < |s| ensures !IsSpace(s[i]) && !IsUpper(s[i]) {
      SlugCharIsPlain(s[i]);
    }
    TrimNoSpace(s);
    ToLowerOfLower(s);
    KeepSlugCharsOfClean(s);
  }

  lemma SanitizeIdempotent(raw: string)
    ensures SanitizeSlug(SanitizeSlug(raw)) == SanitizeSlug(raw)
  {
    SanitizeClean(SanitizeSlug(raw));
  }

  // ---------------------------------------------------------------------
  // The channel list
  // ---------------------------------------------------------------------

  predicate HasSlug(chs: seq<Channel>, slug: string) {
    exists i :: 0 <= i < |chs| && chs[i].slug == slug
  }

  /** No two channels share a slug: the list's key. */
  predicate SlugsUnique(chs: seq<Channel>) {
    forall i, j :: 0 <= i < j < |chs| ==> chs[i].slug != chs[j].slug
  }

  /** Append a channel unless one with the same slug is already there (the
      in-page add button's `doAddChannel`, and the last step of the
      dashboard's `addChannel`). */
  function AddIfAbsent(chs: seq<Channel>, slug: string, groups: seq<string>, now: int): (r: seq<Channel>)
    ensures HasSlug(chs, slug) ==> r == chs
    ensures !HasSlug(chs, slug) ==> r == chs + [NewChannel(slug, groups, now)]
  {
    if exists i :: 0 <= i < |chs| && chs[i].slug == slug then chs
    else chs + [NewChannel(slug, groups, now)]
  }

  /** Adding keeps slugs unique and leaves the new slug present. */
  lemma AddIfAbsentKeepsUnique(chs: seq<Channel>, slug: string, groups: seq<string>, now: int)
    requires SlugsUnique(chs)
    ensures SlugsUnique(AddIfAbsent(chs, slug, groups, now))
    ensures HasSlug(AddIfAbsent(chs, slug, groups, now), slug)
  {
    var r := AddIfAbsent(chs, slug, groups, now);
    if !HasSlug(chs, slug) {
      assert r[|r| - 1].slug == slug;
    }
  }

  /** The index of the first channel with this slug (`findIndex`), or -1. */
  function FindSlug(chs: seq<Channel>, slug: string): (k: int)
    ensures -1 <= k < |chs|
    ensures k >= 0 ==> chs[k].slug == slug && forall j :: 0 <= j < k ==> chs[j].slug != slug
    ensures k == -1 <==> !HasSlug(chs, slug)
  {
    if chs == [] then -1
    else if chs[0].slug == slug then 0
    else
      var k := FindSlug(chs[1..], slug);
      if k == -1 then -1 else k + 1
  }

  /** `chs.filter(c => c.slug !== slug)`. */
  function RemoveSlug(chs: seq<Channel>, slug: string): (r: seq<Channel>)
    ensures forall k :: 0 <= k < |r| ==> r[k].slug != slug && r[k] in chs
    ensures forall k :: 0 <= k < |chs| && chs[k].slug != slug ==> chs[k] in r
  {
    if chs == [] then []
    else (if chs[0].slug != slug then [chs[0]] else []) + RemoveSlug(chs[1..], slug)
  }

  /** Removing works channel by channel and keeps the order of the
      channels that stay. */
  lemma {:induction false} RemoveSlugAppend(a: seq<Channel>, b: seq<Channel>, slug: string)
    ensures RemoveSlug(a + b, slug) == RemoveSlug(a, slug) + RemoveSlug(b, slug)
  {
    if a == [] {
      assert a + b == b;
    } else {
      assert (a + b)[1..] == a[1..] + b;
      RemoveSlugAppend(a[1..], b, slug);
    }
  }

  /** Removing an absent slug changes nothing. */
  lemma {:induction false} RemoveAbsentSlug(chs: seq<Channel>, slug: string)
    requires !HasSlug(chs, slug)
    ensures RemoveSlug(chs, slug) == chs
  {
    if chs != [] {
      assert !HasSlug(chs[1..], slug) by {
        forall k | 0 <= k < |chs[1..]| ensures chs[1..][k].slug != slug {
          assert chs[1..][k] == chs[k + 1];
        }
      }
      RemoveAbsentSlug(chs[1..], slug);
      assert [chs[0]] + chs[1..] == chs;
    }
  }

  /** Removing keeps the remaining slugs unique. */
  lemma {:induction false} RemoveSlugKeepsUnique(chs: seq<Channel>, slug: string)
    requires SlugsUnique(chs)
    ensures SlugsUnique(RemoveSlug(chs, slug))
  {
    if chs != [] {
      RemoveSlugKeepsUnique(chs[1..], slug);
      var rest := RemoveSlug(chs[1..], slug);
      forall k | 0 <= k < |rest| ensures rest[k].slug != chs[0].slug {
        var j :| 0 <= j < |chs[1..]| && chs[1..][j] == rest[k];
        assert chs[j + 1] == rest[k];
      }
    }
  }
}
