/** The background service worker: the poll that compares fresh channel
    statuses with the cached ones and decides which go-live notifications
    to send, the do-not-disturb window, the merge of storage defaults, the
    toolbar badge, notification ids, the alarm period and the address of
    the multi-stream page. Fetching, storage and timers are the browser's;
    here their results are parameters. */
module Background {
  import opened Wrappers
  import opened Text
  import opened Channels
  import opened ChatEdits
  import Multistream

  // ---------------------------------------------------------------------
  // Do not disturb
  // ---------------------------------------------------------------------

  /** The `dnd` part of the settings; `start` and `end` are hours and may
      be unset. */
  datatype Dnd = Dnd(enabled: bool, start: Option<int>, end: Option<int>)

  /** `const { start = 23, end = 8 } = dnd`. */
  function StartHour(d: Dnd): int {
    if d.start.Some? then d.start.value else 23
  }

  function EndHour(d: Dnd): int {
    if d.end.Some? then d.end.value else 8
  }

  /** `isDndActive(dnd)` when the local clock shows hour `hour`: the quiet
      window runs from `start` up to `end`, past midnight when
      `start > end`. */
  function IsDndActive(dnd: Option<Dnd>, hour: int): (r: bool)
    ensures r ==> dnd.Some? && dnd.value.enabled
  {
    if dnd.None? || !dnd.value.enabled then false
    else
      var s := StartHour(dnd.value);
      var e := EndHour(dnd.value);
      if s > e then hour >= s || hour < e else hour >= s && hour < e
  }

  /** The hours from `s` (included) to `e` (excluded) on a 24-hour clock,
      counted forward from `s`. */
  predicate InClockWindow(s: int, e: int, h: int) {
    (h - s) % 24 < (e - s) % 24
  }

  /** On clock hours, the two-case test is the clock window from `start`
      to `end`; a window whose ends meet is empty. */
  lemma DndIsClockWindow(d: Dnd, h: int)
    requires d.enabled
    requires 0 <= StartHour(d) < 24 && 0 <= EndHour(d) < 24 && 0 <= h < 24
    ensures IsDndActive(Some(d), h) <==> InClockWindow(StartHour(d), EndHour(d), h)
    ensures StartHour(d) == EndHour(d) ==> !IsDndActive(Some(d), h)
  {
    var s, e := StartHour(d), EndHour(d);
    if h >= s {
      assert (h - s) % 24 == h - s;
    } else {
      assert (h - s) % 24 == h - s + 24;
    }
    if e >= s {
      assert (e - s) % 24 == e - s;
    } else {
      assert (e - s) % 24 == e - s + 24;
    }
  }

  /** The default window 23 to 8 covers 23:00 and 02:00 but not noon, and
      a disabled setting is never active. */
  lemma DndExamples(hour: int)
    ensures IsDndActive(Some(Dnd(true, None, None)), 23)
    ensures IsDndActive(Some(Dnd(true, None, None)), 2)
    ensures !IsDndActive(Some(Dnd(true, None, None)), 12)
    ensures !IsDndActive(Some(Dnd(false, Some(0), Some(24))), hour)
    ensures !IsDndActive(None, hour)
  {
  }

  // ---------------------------------------------------------------------
  // Settings and the alarm
  // ---------------------------------------------------------------------

  /** The extension-wide settings; `pollInterval` is in seconds. */
  datatype Settings = Settings(pollInterval: real, notificationSound: bool, theme: string, dnd: Option<Dnd>)

  /** `defaultSettings()`. */
  function DefaultSettings(): Settings {
    Settings(60.0, true, "default", Some(Dnd(false, Some(23), Some(8))))
  }

  /** `setupAlarm`'s period in minutes: the interval, but never below half
      a minute. */
  function AlarmPeriod(pollInterval: real): (m: real)
    ensures m >= 0.5 && m >= pollInterval / 60.0
    ensures m == 0.5 || m == pollInterval / 60.0
  {
    if pollInterval / 60.0 > 0.5 then pollInterval / 60.0 else 0.5
  }

  /** The defaults poll once a minute and are never quiet; an interval
      under thirty seconds is raised to thirty. */
  lemma DefaultSettingsSpec(hour: int, interval: real)
    ensures AlarmPeriod(DefaultSettings().pollInterval) == 1.0
    ensures !IsDndActive(DefaultSettings().dnd, hour)
    ensures interval <= 30.0 ==> AlarmPeriod(interval) == 0.5
    ensures interval >= 30.0 ==> AlarmPeriod(interval) * 60.0 == interval
  {
  }

  // ---------------------------------------------------------------------
  // Fetching one channel
  // ---------------------------------------------------------------------

  /** The parts of the site's channel API response that are read. Every
      field may be missing (`None`). */
  datatype ApiCategory = ApiCategory(name: Option<string>)
  datatype ApiThumbnail = ApiThumbnail(src: Option<string>)
  datatype ApiLivestream = ApiLivestream(
    viewerCount: Option<int>,
    sessionTitle: Option<string>,
    categories: Option<seq<ApiCategory>>,
    startTime: Option<string>,
    thumbnail: Option<ApiThumbnail>)
  datatype ApiUser = ApiUser(profilePic: Option<string>, username: Option<string>)
  datatype ApiChannel = ApiChannel(livestream: Option<ApiLivestream>, user: Option<ApiUser>)

  /** What the request delivers: a failure that throws, or a response with
      its `ok` flag and its body. A body of `None` is one where `res.json()`
      throws or yields `null`; any other body that is not an object (a
      number, string, boolean or array) has no `livestream` and no `user`,
      so it is `Some(ApiChannel(None, None))`. */
  datatype Reply = NetworkError | Reply(ok: bool, body: Option<ApiChannel>)

  /** `fetchChannel(slug)`: `None` is the `null` it returns on any
      failure; otherwise the status record with the documented defaults. */
  function FetchChannel(slug: string, reply: Reply): (r: Option<ChannelStatus>)
    ensures r.Some? <==> reply.Reply? && reply.ok && reply.body.Some?
    ensures r.Some? ==> r.value.isLive == reply.body.value.livestream.Some?
    ensures r.Some? && !r.value.isLive ==>
      r.value.viewerCount == 0 && r.value.title == "" && r.value.category == "" &&
      r.value.startTime.None? && r.value.thumbnail == ""
    ensures r.Some? && reply.body.value.user.None? ==> r.value.displayName == slug && r.value.avatar == ""
  {
    if reply.NetworkError? || !reply.ok || reply.body.None? then None
    else
      var json := reply.body.value;
      var ls := json.livestream;
      var category :=
        if ls.Some? && ls.value.categories.Some? && |ls.value.categories.value| > 0
        then ls.value.categories.value[0].name.GetOr("") else "";
      var thumb :=
        if ls.Some? && ls.value.thumbnail.Some? then ls.value.thumbnail.value.src.GetOr("") else "";
      Some(ChannelStatus(
        ls.Some?,
        if ls.Some? then ls.value.viewerCount.GetOr(0) else 0,
        if ls.Some? then ls.value.sessionTitle.GetOr("") else "",
        category,
        if ls.Some? then ls.value.startTime else None,
        thumb,
        if json.user.Some? then json.user.value.profilePic.GetOr("") else "",
        if json.user.Some? then json.user.value.username.GetOr(slug) else slug))
  }

  // ---------------------------------------------------------------------
  // The poll
  // ---------------------------------------------------------------------

  /** What one poll has built so far: the cache and notified list it will
      store, the live count for the badge, and the slugs it has sent a
      notification for, in order. */
  datatype PollState = PollState(
    cache: map<string, CacheEntry>,
    notified: seq<string>,
    liveCount: nat,
    sent: seq<string>)

  /** A map lookup as a value. */
  function Lookup(m: map<string, CacheEntry>, k: string): Option<CacheEntry> {
    if k in m then Some(m[k]) else None
  }

  /** One round of `pollAllChannels`' loop, for channel `ch` with fetch
      result `res`. `orig` is the cache as read before the loop (where
      `wasLive` is looked up) and `quiet` the do-not-disturb state. */
  function Step(orig: map<string, CacheEntry>, quiet: bool, now: int, st: PollState, ch: Channel, res: Option<ChannelStatus>): PollState {
    match res
    case None => st
    case Some(data) =>
      var cache := st.cache[ch.slug := CacheEntry(data, now)];
      if !data.isLive then
        PollState(cache, RemoveAll(st.notified, ch.slug), st.liveCount, st.sent)
      else if !LiveIn(orig, ch.slug) && ch.slug !in st.notified && NotifyOn(ch) && !quiet then
        PollState(cache, st.notified + [ch.slug], st.liveCount + 1, st.sent + [ch.slug])
      else
        PollState(cache, st.notified, st.liveCount + 1, st.sent)
  }

  /** The loop over the first `|chs|` channels, from the stored cache and
      notified list. */
  function Poll(cache: map<string, CacheEntry>, notified: seq<string>, quiet: bool, now: int,
                chs: seq<Channel>, results: seq<Option<ChannelStatus>>): PollState
    requires |chs| == |results|
  {
    if chs == [] then PollState(cache, notified, 0, [])
    else
      var n := |chs| - 1;
      Step(cache, quiet, now, Poll(cache, notified, quiet, now, chs[..n], results[..n]), chs[n], results[n])
  }

  /** `pollAllChannels`, given the fetch results (one per channel, `None`
      for a rejected or `null` fetch), the clock's hour and time, and
      storage's contents. `written` says whether storage and the badge are
      updated; `sent` lists the notifications sent, in order. */
  method PollAllChannels(channels: seq<Channel>, results: seq<Option<ChannelStatus>>,
                         cache: map<string, CacheEntry>, notified: seq<string>,
                         dnd: Option<Dnd>, hour: int, now: int)
    returns (written: bool, newCache: map<string, CacheEntry>, newNotified: seq<string>,
             liveCount: nat, sent: seq<string>, badge: Option<string>)
    requires |results| == |channels|
    ensures channels == [] ==>
      !written && newCache == cache && newNotified == notified && liveCount == 0 && sent == [] && badge.None?
    ensures channels != [] ==>
      written && badge == Some(BadgeText(liveCount)) &&
      PollState(newCache, newNotified, liveCount, sent) ==
        Poll(cache, notified, IsDndActive(dnd, hour), now, channels, results)
  {
    newCache, newNotified, liveCount, sent := cache, notified, 0, [];
    if channels == [] {
      return false, newCache, newNotified, liveCount, sent, None;
    }
    var quiet := IsDndActive(dnd, hour);
    for i := 0 to |channels|
      invariant PollState(newCache, newNotified, liveCount, sent) ==
        Poll(cache, notified, quiet, now, channels[..i], results[..i])
    {
      assert channels[..i + 1][..i] == channels[..i];
      assert results[..i + 1][..i] == results[..i];
      var ch := channels[i];
      var res := results[i];
      if res.Some? {
        var data := res.value;
        var wasLive := LiveIn(cache, ch.slug);
        newCache := newCache[ch.slug := CacheEntry(data, now)];
        if data.isLive {
          liveCount := liveCount + 1;
          if !wasLive && ch.slug !in newNotified && NotifyOn(ch) && !quiet {
            sent := sent + [ch.slug];
            newNotified := newNotified + [ch.slug];
          }
        } else {
          newNotified := RemoveAll(newNotified, ch.slug);
        }
      }
    }
    assert channels[..|channels|] == channels;
    assert results[..|results|] == results;
    written := true;
    badge := Some(BadgeText(liveCount));
  }

  /** A channel gets a notification when its fetch succeeded and reports
      live, the stored cache did not have it live, it was not in the stored
      notified list, its notifications are on, and it is not quiet time. */
  predicate ShouldNotify(cache: map<string, CacheEntry>, notified: seq<string>, quiet: bool, ch: Channel, res: Option<ChannelStatus>) {
    res.Some? && res.value.isLive && !LiveIn(cache, ch.slug) && ch.slug !in notified && NotifyOn(ch) && !quiet
  }

  /** What a poll leaves for one channel: notified exactly when it should
      be; a failed fetch keeps its cache entry and notified membership; a
      successful one stores the fresh status, and the slug stays in the
      notified list only while live. */
  predicate ChannelOutcome(cache: map<string, CacheEntry>, notified: seq<string>, quiet: bool, now: int,
                           ch: Channel, res: Option<ChannelStatus>, p: PollState) {
    (ch.slug in p.sent <==> ShouldNotify(cache, notified, quiet, ch, res)) &&
    (res.None? ==>
      Lookup(p.cache, ch.slug) == Lookup(cache, ch.slug) && (ch.slug in p.notified <==> ch.slug in notified)) &&
    (res.Some? ==>
      Lookup(p.cache, ch.slug) == Some(CacheEntry(res.value, now)) &&
      (ch.slug in p.notified <==> res.value.isLive && (ch.slug in notified || ShouldNotify(cache, notified, quiet, ch, res))))
  }

  /** A round for one channel leaves every other slug alone. */
  lemma StepOther(orig: map<string, CacheEntry>, quiet: bool, now: int, st: PollState, ch: Channel, res: Option<ChannelStatus>, s: string)
    requires s != ch.slug
    ensures Lookup(Step(orig, quiet, now, st, ch, res).cache, s) == Lookup(st.cache, s)
    ensures s in Step(orig, quiet, now, st, ch, res).notified <==> s in st.notified
    ensures s in Step(orig, quiet, now, st, ch, res).sent <==> s in st.sent
  {
    if res.Some? && !res.value.isLive {
      var r := RemoveAll(st.notified, ch.slug);
      assert multiset(r)[s] == multiset(st.notified)[s];
      assert s in r <==> s in multiset(r);
      assert s in st.notified <==> s in multiset(st.notified);
    }
  }

  lemma SomeSlugInPrefix(chs: seq<Channel>, n: nat, s: string)
    requires n <= |chs| && HasSlug(chs[..n], s)
    ensures HasSlug(chs, s)
  {
    var k :| 0 <= k < n && chs[..n][k].slug == s;
    assert chs[k].slug == s;
  }

  /** Slugs of no polled channel keep their cache entry and notified
      membership, and get no notification. */
  lemma {:induction false} PollUntouched(cache: map<string, CacheEntry>, notified: seq<string>, quiet: bool, now: int,
                                         chs: seq<Channel>, results: seq<Option<ChannelStatus>>, s: string)
    requires |chs| == |results| && !HasSlug(chs, s)
    ensures Lookup(Poll(cache, notified, quiet, now, chs, results).cache, s) == Lookup(cache, s)
    ensures s in Poll(cache, notified, quiet, now, chs, results).notified <==> s in notified
    ensures s !in Poll(cache, notified, quiet, now, chs, results).sent
  {
    if chs != [] {
      var n := |chs| - 1;
      if HasSlug(chs[..n], s) {
        SomeSlugInPrefix(chs, n, s);
      }
      PollUntouched(cache, notified, quiet, now, chs[..n], results[..n], s);
      assert chs[n].slug != s;
      StepOther(cache, quiet, now, Poll(cache, notified, quiet, now, chs[..n], results[..n]), chs[n], results[n], s);
    }
  }

  /** With unique slugs (as the dashboard keeps them), every channel's
      outcome is decided by its own fetch result and the stored state. */
  lemma {:induction false} PollPerChannel(cache: map<string, CacheEntry>, notified: seq<string>, quiet: bool, now: int,
                                          chs: seq<Channel>, results: seq<Option<ChannelStatus>>)
    requires |chs| == |results| && SlugsUnique(chs)
    ensures forall i :: 0 <= i < |chs| ==>
      ChannelOutcome(cache, notified, quiet, now, chs[i], results[i], Poll(cache, notified, quiet, now, chs, results))
  {
    if chs != [] {
      var n := |chs| - 1;
      var pre := Poll(cache, notified, quiet, now, chs[..n], results[..n]);
      var post := Poll(cache, notified, quiet, now, chs, results);
      assert post == Step(cache, quiet, now, pre, chs[n], results[n]);
      PollPerChannel(cache, notified, quiet, now, chs[..n], results[..n]);
      forall i | 0 <= i < n
        ensures ChannelOutcome(cache, notified, quiet, now, chs[i], results[i], post)
      {
        assert chs[..n][i] == chs[i] && results[..n][i] == results[i];
        StepOther(cache, quiet, now, pre, chs[n], results[n], chs[i].slug);
      }
      assert !HasSlug(chs[..n], chs[n].slug);
      PollUntouched(cache, notified, quiet, now, chs[..n], results[..n], chs[n].slug);
    }
  }

  /** The notified list never gains a duplicate. */
  lemma {:induction false} PollKeepsNoDup(cache: map<string, CacheEntry>, notified: seq<string>, quiet: bool, now: int,
                                          chs: seq<Channel>, results: seq<Option<ChannelStatus>>)
    requires |chs| == |results| && NoDup(notified)
    ensures NoDup(Poll(cache, notified, quiet, now, chs, results).notified)
  {
    if chs != [] {
      var n := |chs| - 1;
      PollKeepsNoDup(cache, notified, quiet, now, chs[..n], results[..n]);
      var pre := Poll(cache, notified, quiet, now, chs[..n], results[..n]);
      RemoveAllSpec(pre.notified, chs[n].slug);
    }
  }

  /** The number of successful fetches that report live. */
  function LiveResults(results: seq<Option<ChannelStatus>>): nat {
    if results == [] then 0
    else LiveResults(results[..|results| - 1]) + (if results[|results| - 1].Some? && results[|results| - 1].value.isLive then 1 else 0)
  }

  /** The badge counts exactly the live results, and no more notifications
      go out than channels are live. */
  lemma {:induction false} PollLiveCount(cache: map<string, CacheEntry>, notified: seq<string>, quiet: bool, now: int,
                                         chs: seq<Channel>, results: seq<Option<ChannelStatus>>)
    requires |chs| == |results|
    ensures Poll(cache, notified, quiet, now, chs, results).liveCount == LiveResults(results)
    ensures |Poll(cache, notified, quiet, now, chs, results).sent| <= LiveResults(results)
  {
    if chs != [] {
      var n := |chs| - 1;
      PollLiveCount(cache, notified, quiet, now, chs[..n], results[..n]);
    }
  }

  // ---------------------------------------------------------------------
  // Badge and notification ids
  // ---------------------------------------------------------------------

  /** `updateBadge`'s text: the count in decimal, or empty for none. */
  function BadgeText(n: nat): (t: string)
    ensures t == "" <==> n == 0
    ensures n > 0 ==> AllDigits(t) && DigitsValue(t) == n
  {
    if n > 0 then DigitsValueOfNatToString(n); NatToString(n) else ""
  }

  const NotifPrefix: string := "ke-"

  /** `sendNotification`'s id for a channel. */
  function NotifId(slug: string): (id: string)
    ensures StartsWith(id, NotifPrefix) && |id| == |slug| + 3
  {
    NotifPrefix + slug
  }

  /** The slug the click handler opens: ids without the prefix are
      ignored; `replace('ke-', '')` removes the first occurrence, which for
      an id that starts with the prefix is the prefix itself. */
  function ClickedSlug(id: string): (r: Option<string>)
    ensures r.Some? <==> StartsWith(id, NotifPrefix)
    ensures r.Some? ==> NotifId(r.value) == id
  {
    if StartsWith(id, NotifPrefix) then
      assert id == id[..3] + id[3..];
      Some(id[3..])
    else None
  }

  /** The button handler: as the click handler, but only for button 0. */
  function ButtonSlug(id: string, button: int): (r: Option<string>)
    ensures r.Some? <==> StartsWith(id, NotifPrefix) && button == 0
    ensures r.Some? ==> NotifId(r.value) == id
  {
    if button != 0 then None else ClickedSlug(id)
  }

  /** Clicking a notification, or its first button, opens the channel it
      was sent for. */
  lemma NotifIdRoundTrip(slug: string, button: int)
    ensures ClickedSlug(NotifId(slug)) == Some(slug)
    ensures ButtonSlug(NotifId(slug), button) == (if button == 0 then Some(slug) else None)
  {
    assert NotifId(slug)[3..] == slug;
  }

  // ---------------------------------------------------------------------
  // Storage defaults
  // ---------------------------------------------------------------------

  predicate KeysDistinct<V>(entries: seq<(string, V)>) {
    forall i, j :: 0 <= i < j < |entries| ==> entries[i].0 != entries[j].0
  }

  /** `initDefaultStorage`'s loop over the default entries, building the
      object of entries whose key storage lacks, and whether it writes. */
  method DefaultsToSet<V>(existing: map<string, V>, defaults: seq<(string, V)>)
    returns (toSet: map<string, V>, write: bool)
    requires KeysDistinct(defaults)
    ensures forall k :: k in toSet <==> k !in existing && exists i :: 0 <= i < |defaults| && defaults[i].0 == k
    ensures forall i :: 0 <= i < |defaults| && defaults[i].0 !in existing ==> toSet[defaults[i].0] == defaults[i].1
    ensures write <==> exists i :: 0 <= i < |defaults| && defaults[i].0 !in existing
  {
    toSet := map[];
    for i := 0 to |defaults|
      invariant forall k :: k in toSet <==> k !in existing && exists j :: 0 <= j < i && defaults[j].0 == k
      invariant forall j :: 0 <= j < i && defaults[j].0 !in existing ==> toSet[defaults[j].0] == defaults[j].1
    {
      var (key, val) := defaults[i];
      if key !in existing {
        toSet := toSet[key := val];
      }
    }
    write := |toSet| > 0;
    if write {
      var k :| k in toSet;
    } else {
      forall i | 0 <= i < |defaults| ensures defaults[i].0 in existing {
        assert defaults[i].0 !in toSet;
      }
    }
  }

  /** Writing the missing defaults on top of storage never overwrites a
      stored key and leaves every default key present. */
  lemma MergeNeverOverwrites<V>(existing: map<string, V>, defaults: seq<(string, V)>, toSet: map<string, V>)
    requires forall k :: k in toSet <==> k !in existing && exists i :: 0 <= i < |defaults| && defaults[i].0 == k
    ensures forall k :: k in existing ==> (existing + toSet)[k] == existing[k]
    ensures forall i :: 0 <= i < |defaults| ==> defaults[i].0 in existing + toSet
  {
  }

  // ---------------------------------------------------------------------
  // The multi-stream page's address
  // ---------------------------------------------------------------------

  /** `OPEN_MULTISTREAM` when no multi-stream tab is open: the page's
      address, with `?channels=` and the comma-joined slugs unless that
      join is empty. */
  function MultistreamUrl(extUrl: string, channels: Option<seq<string>>): (url: string)
    ensures channels.None? || channels.value == [] ==> url == extUrl
    ensures channels.Some? && Join(channels.value, ',') != "" ==>
      url == extUrl + "?channels=" + Join(channels.value, ',')
  {
    var slugs := if channels.Some? then Join(channels.value, ',') else "";
    if slugs != "" then extUrl + "?channels=" + slugs else extUrl
  }

  /** `ADD_TO_MULTISTREAM` when no multi-stream tab is open: the page
      address with the slug as the only `channels` entry, which is the
      address `MultistreamUrl` builds for that one slug. */
  function AddToMultistreamUrl(extUrl: string, slug: string): (url: string)
    ensures StartsWith(url, extUrl)
    ensures url == extUrl + "?channels=" + slug
    ensures slug != "" ==> url == MultistreamUrl(extUrl, Some([slug]))
  {
    extUrl + "?channels=" + slug
  }

  lemma CleanSlugNoComma(s: string)
    requires IsCleanSlug(s)
    ensures ',' !in s
  {
  }

  /** The multi-stream page reads back exactly the slugs the address was
      built from, as long as they are clean, non-empty slugs. */
  lemma {:induction false} MultistreamUrlRoundTrip(extUrl: string, slugs: seq<string>)
    requires |slugs| >= 1
    requires forall k :: 0 <= k < |slugs| ==> slugs[k] != "" && IsCleanSlug(slugs[k])
    ensures MultistreamUrl(extUrl, Some(slugs)) == extUrl + "?channels=" + Join(slugs, ',')
    ensures Multistream.ChannelsParam(Join(slugs, ',')) == slugs
  {
    forall k | 0 <= k < |slugs| ensures ',' !in slugs[k] {
      CleanSlugNoComma(slugs[k]);
    }
    SplitJoin(slugs, ',');
    var p := Join(slugs, ',');
    var trimmed := seq(|Split(p, ',')|, i requires 0 <= i < |Split(p, ',')| => Trim(Split(p, ',')[i]));
    forall k | 0 <= k < |slugs| ensures trimmed[k] == slugs[k] {
      forall i | 0 <= i < |slugs[k]| ensures !IsSpace(slugs[k][i]) {
        SlugCharIsPlain(slugs[k][i]);
      }
      TrimNoSpace(slugs[k]);
    }
    assert trimmed == slugs;
    NonEmptyOfNonEmpty(slugs);
  }

  /** Adding one clean slug opens the page on that slug alone. */
  lemma AddToMultistreamRoundTrip(extUrl: string, slug: string)
    requires slug != "" && IsCleanSlug(slug)
    ensures AddToMultistreamUrl(extUrl, slug) == extUrl + "?channels=" + slug
    ensures Multistream.ChannelsParam(slug) == [slug]
  {
    MultistreamUrlRoundTrip(extUrl, [slug]);
    assert Join([slug], ',') == slug;
  }
}
