# Kick browser extension: verified model of its bookkeeping logic

This project models the self-contained logic inside a browser extension for
the Kick livestreaming site. The extension has four parts:

- **In-page script** (`src/content.js`). This covers:
  - the chat line classifier (bot, word and user filters; favourites; emoji spam; keyword highlight) with its hide/blur marking;
  - the reset-and-reclassify pass;
  - the read-modify-write edits to the word, user and favourite lists;
  - the slug normalisation and whole-word matcher;
  - `escapeHtml`;
  - the current-slug lookup;
  - the classification of the follow date and subscription length on a user card.
- **Toolbar popup** (`popup/popup.js`). This covers:
  - the channel list (add, remove, toggle notifications);
  - groups with the `all` fallback;
  - tab filtering and the stable live-first sort;
  - the 32-bit avatar colour hash;
  - the chat filter lists;
  - the clamped font-size and emoji-threshold counters.
- **Multi-stream page** (`multistream/app.js`). This covers:
  - the duplicate-free, ordered list of open streams (sanitising add, remove, close all, drag-and-drop move);
  - the `channels` URL parameter;
  - the grid of player cards, modelled as objects. `render` and the drop handler keep existing cards and only append or reorder them;
  - the focus-layout cell placement.
- **Background worker** (`src/background.js`). This covers:
  - the polling round over the followed channels: cache update, notified list, "went live" notifications and the live counter;
  - the do-not-disturb hour window;
  - the alarm period;
  - the mapping of an API reply to a channel status;
  - the badge text;
  - the notification id and its round trip to a slug;
  - the default-storage merge;
  - the multi-stream page address.

The model has one Dafny module per concern:

- `Text`: JavaScript string built-ins over `seq<char>`.
- `Channels`: channel records and slug sanitising.
- `ContentText`: the pure helpers of the in-page script.
- `ChatFilter`: the classifier, with a `ChatNode` class per chat line element.
- `ChatEdits`: the list edits and `updateChatSetting`.
- `Dashboard`: the popup, with a `Dashboard` class holding its module state.
- `Multistream`: the page as a `MultistreamPage` class holding `streams`, `layout`, `dragSrcIdx` and the card grid.
- `Background`: the worker.

Fetch replies, storage contents, the current hour and `Date.now()` are
parameters. Where the source mutates state in place, the model uses a class
whose methods are proved against specification functions, and the lemmas
about those functions carry the properties.

## Model

| member | source | states |
|---|---|---|
| ContentText.NormalizeSlug | src/content.js:27 | the normalised slug has the same length, no hyphen and no upper-case letter |
| ContentText.NormalizeIdempotent | src/content.js:25-27 | normalising twice gives the same slug as normalising once |
| ContentText.NormCharEqual | src/content.js:27 | two characters normalise equal exactly when both are separators (`-`/`_`) or they lower-case equal |
| ContentText.NormalizeEqualIff | src/content.js:25-27 | two slugs normalise equal if and only if they differ only in hyphen versus underscore and in letter case |
| ContentText.MatchesWord | src/content.js:154-168 | the index-walking loop returns exactly the specification: substring of the lower-cased text in substring mode; some occurrence with no letter, digit or `_` on either side in whole-word mode (non-empty word, as the callers guard) |
| ContentText.WholeWordImpliesSubstring | src/content.js:152-168 | a whole-word match is always a substring match |
| ContentText.BizExamples | src/content.js:152-153 | "biz yaptı" matches "biz" as a whole word, "bizden geldi" does not, and does in substring mode |
| ContentText.EscapeHtml | src/content.js:469-471 | the escaped text contains no `<`, `>` or `"` |
| ContentText.UnescapeEscapeChar | src/content.js:469-471 | reading back the entity of one character gives that character |
| ContentText.UnescapeEscape | src/content.js:469-471 | reading back an escaped string gives the original string (the round trip a chip's `data-remove` relies on) |
| ContentText.GetCurrentSlug | src/content.js:588-590 | the slug never contains `/` |
| ContentText.CurrentSlugOfChannelPath | src/content.js:588-590 | on `/name` or `/name/...` the slug is the lower-cased first path segment |
| ContentText.LeadingDigits | src/content.js:1176 | the leading run is all digits, a prefix of the value, and maximal |
| ContentText.FirstDigitRun | src/content.js:1176 | a digit run is found exactly when the value has a digit, and it is the whole run of digits that starts at the value's first digit |
| ContentText.FirstRunShort | src/content.js:1171-1177 | without four digits in a row the first digit run has at most three digits |
| ContentText.ClassifyValueSpec | src/content.js:1168-1178 | a value is a follow date (kept whole) iff it has four digits in a row; otherwise it is a subscription length iff it has a digit, and the months are the number read from the digit run at its first digit, below 1000; otherwise it says nothing |
| ContentText.FoldRowsFollowDate | src/content.js:1165-1179 | there is a follow date iff some row is a date, and it is the last such row's value |
| ContentText.FoldRowsSubscription | src/content.js:1165-1179 | there is a subscription length iff some row gives one, and it is the last such row's number |
| ContentText.ParseChannelRelationBounds | src/content.js:1162-1181 | a parsed follow date contains four digits in a row; a parsed subscription length is below 1000 |
| ChatFilter.SpamThreshold | src/content.js:219 | the threshold is at least 1 and is the configured one unless that is 0 |
| ChatFilter.MessageText | src/content.js:178-179 | the trimmed text of the message span when that is non-empty; otherwise the trimmed text of the whole line |
| ChatFilter.SpamTitle | src/content.js:223 | the spam tooltip is never empty |
| ChatFilter.ApplyMarks | src/content.js:181-242 | on a fresh line, each of the seven marker classes is present exactly under its own condition of the bot > word > user > favourite > spam priority order |
| ChatFilter.MarksSpec | src/content.js:170-242 | the marks the classifier sets, stated per marker class in terms of the settings and the message, including the `data-index` guard |
| ChatFilter.ApplyHiddenIff | src/content.js:245-249 | a fresh line is hidden iff the action is not blur and a filter or the spam check fires |
| ChatFilter.FilterShortCircuits | src/content.js:181-202 | a filtered line gets exactly one filter class and nothing else changes: no favourite colour, no tooltip, no highlight |
| ChatFilter.SpamStillHighlights | src/content.js:216-242 | the spam check does not return: a spam line with a keyword is still highlighted |
| ChatFilter.SpamExamples | src/content.js:216-220 | 3 emotes plus 3 emoji meet the default threshold 5 but not a threshold of 7 |
| ChatFilter.UserContainsFavoriteEquals | src/content.js:196-205 | every author the favourite test accepts (exact normalised equality) the user filter also catches (containment); `ali` blocks `ali_veli` without making it a favourite |
| ChatFilter.ClearForReprocess | src/content.js:934-939 | the intended clearing removes every mark, the hiding, the favourite colour, the tooltip and the highlight |
| ChatFilter.MarksIgnoreHistory | src/content.js:1393-1404 | after the source's clearing, re-classification yields exactly the marks the settings call for, whatever the line carried before |
| ChatFilter.ClearedMarks | src/content.js:931-941 | whichever of the three clearings runs, the re-classified classes are those of a fresh line |
| ChatFilter.ApplyTitle | src/content.js:216-228 | the tooltip is written only by the emoji-spam step under blur; otherwise the line keeps the tooltip it had |
| ChatFilter.ToggleLeavesFreshTitle | src/content.js:1365-1391 | a favourite or block toggle runs both passes, the settings-change pass and the reprocess pass, in either order, and the line ends with a fresh line's tooltip |
| ChatFilter.ReprocessTwiceSameMarks | src/content.js:1393-1404 | reprocessing twice under the same settings gives the same marks as once |
| ChatFilter.ApplyFreshTooltipAndHighlight | src/content.js:221-238 | on a fresh line the tooltip is set iff the emoji-spam mark is, and the highlight iff no filter fired, a keyword matched and the line has a message box |
| ChatFilter.ReprocessReflectsSettings | src/content.js:1393-1404 | with a full clearing, reprocessing yields exactly what a fresh line gets, so tooltip and highlight follow the current settings |
| ChatFilter.StaleSpamTitle | src/content.js:1393-1404 | the reprocess pass on its own leaves a spam tooltip on a line that is now user-filtered, where a fresh line has none |
| ChatFilter.StaleHighlight | src/content.js:931-941 | the settings-change pass as written leaves a keyword highlight after the keyword list is emptied |
| ChatFilter.AnyWordMatches | src/content.js:187-194 | the loop reports exactly whether some non-empty listed word matches |
| ChatFilter.AnyUserContains | src/content.js:196-198 | the loop reports exactly whether the normalised author contains some non-empty normalised entry |
| ChatFilter.AnyUserMatches | src/content.js:204-205 | the loop reports exactly whether the normalised author equals some non-empty normalised favourite |
| ChatFilter.ChatNode.constructor | src/content.js:170 | a new line element carries no marker, style, tooltip or highlight |
| ChatFilter.ChatNode.HideMessage | src/content.js:245-249 | adds the class and hides the line, nothing else |
| ChatFilter.ChatNode.ApplyFilter | src/content.js:258-264 | blur adds the blur class; otherwise the line is hidden with the given class |
| ChatFilter.ChatNode.ProcessMessage | src/content.js:170-243 | the element ends in the state the classifier specification gives for the settings and the line |
| ChatFilter.ChatNode.ProcessUnfiltered | src/content.js:204-242 | past the filters: the favourite, spam and keyword steps in order |
| ChatFilter.ChatNode.MarkFavorite | src/content.js:204-214 | a favourite gets the class and the author's colour; otherwise both are removed |
| ChatFilter.ChatNode.MarkSpam | src/content.js:216-228 | at or above the threshold, blur marks and titles the line, otherwise it is hidden as emote spam |
| ChatFilter.ChatNode.Highlight | src/content.js:230-242 | a keyword hit highlights the message box when there is one |
| ChatFilter.ChatNode.Clear | src/content.js:934-939 | the element ends cleared as the chosen pass clears it: the reprocess pass keeps the tooltip and the highlight, the settings-change pass keeps the highlight, the intended clearing keeps neither |
| ChatFilter.ReprocessAllMessages | src/content.js:1393-1404 | when the chat root is attached, every line is cleared of classes, `display` and favourite colour and re-classified, so its classes are a fresh line's under the current settings while tooltip and highlight carry over; otherwise nothing changes |
| ChatFilter.ReprocessWith | src/content.js:1393-1404 | the loop both passes share leaves every line re-classified after the chosen clearing, with a fresh line's classes, or changes nothing when the chat root is gone |
| ChatFilter.ReapplyChangedSettings | src/content.js:931-941 | the settings-change pass: as above with the tooltip cleared too; the highlight carries over |
| ChatFilter.ReprocessAllCorrected | src/content.js:931-941 | with the intended clearing every line ends exactly as a fresh line under the current settings |
| ChatEdits.AddIfMissingSpec | src/content.js:527-528 | adding keeps the list duplicate-free and is idempotent |
| ChatEdits.RemoveAll | src/content.js:557 | the value is gone and every other entry keeps its multiplicity |
| ChatEdits.RemoveAllSpec | src/content.js:557 | removing keeps the list duplicate-free, and removing an absent value changes nothing |
| ChatEdits.RemoveAllAppend | src/content.js:557 | removing works entry by entry: removing from a concatenation is removing from each part, so the kept entries keep their order |
| ChatEdits.RemoveAllOfNoDup | src/content.js:557 | on a duplicate-free list, removing an entry cuts out exactly its position |
| ChatEdits.AddNormalizedKeepsUnique | src/content.js:543-544 | adding keeps the list free of normalised duplicates |
| ChatEdits.RemoveNormalized | src/content.js:560 | no entry normalising equal to the value is left; entries of other users keep their multiplicity |
| ChatEdits.RemoveNormalizedAppend | src/content.js:560 | removing by normalised name works entry by entry, so the kept entries keep their order |
| ChatEdits.FirstNormIndex | src/content.js:1369 | the first index whose entry normalises to the slug, or -1 when there is none |
| ChatEdits.ToggleSpec | src/content.js:1365-1391 | a listed slug loses exactly its first normalised-equal entry, the rest in order; an unlisted one is appended normalised |
| ChatEdits.ToggleFlips | src/content.js:1365-1391 | on a list where no two entries normalise equal, the toggle as written flips whether the slug is listed and keeps the list so |
| ChatEdits.ToggleTwice | src/content.js:1365-1391 | toggling an unlisted slug twice restores the list |
| ChatEdits.ToggleKeepsDuplicate | src/content.js:1379-1391 | on `["Ali","ali"]`, toggling `ali` removes only the first match and `ali` stays blocked |
| ChatEdits.ToggleAllFlips | src/content.js:1365-1391 | the corrected toggle, which removes every normalised match, flips whether the slug is listed on any list |
| ChatEdits.ToggleAllAgrees | src/content.js:1365-1391 | on a list where no two entries normalise equal, the corrected toggle and the toggle as written give the same list |
| ChatEdits.WordInput | src/content.js:523-524 | a word is accepted iff its trimmed form is non-empty, and then it is that trimmed form |
| ChatEdits.UserInput | src/content.js:539-540 | a user is accepted iff the trimmed input is non-empty, and then it is already normalised |
| ChatEdits.ListedAuthorIsFiltered | src/content.js:196-198 | once a slug is listed, every line whose author normalises equal to it is caught by the user filter |
| ChatEdits.ToggleBlockFlips | src/content.js:1379-1391 | when no two blocked names normalise equal, toggling a block flips whether the slug is blocked, keeps the list so, and leaves the favourites alone |
| ChatEdits.UpdateChatSettingSpec | src/content.js:566-576 | the stored settings win over the cached ones, the other fields are kept, a chat record always exists afterwards |
| ChatEdits.UpdatesCompose | src/content.js:566-576 | two updates in a row amount to applying both edits to the chat record in turn |
| Channels.KeepSlugChars | popup/popup.js:267 | only `[a-z0-9_]` characters are kept |
| Channels.SanitizeSlug | popup/popup.js:267 | a sanitised slug contains only `[a-z0-9_]` |
| Channels.KeepSlugCharsOne | popup/popup.js:267 | one character is kept iff it is in `[a-z0-9_]` |
| Channels.KeepSlugCharsAppend | popup/popup.js:267 | filtering works character by character: the filter of a concatenation is the concatenation of the filters |
| Channels.KeepDropsHyphen | popup/popup.js:267 | a hyphen between two clean slugs is dropped and nothing else is |
| Channels.SanitizeSlugExample | popup/popup.js:267 | `" Ali-Veli "` sanitises to `aliveli` |
| Channels.SanitizeClean | popup/popup.js:267 | sanitising a clean slug leaves it unchanged |
| Channels.SanitizeIdempotent | multistream/app.js:58 | sanitising is idempotent |
| Channels.AddIfAbsentKeepsUnique | src/content.js:745-746 | adding keeps slugs unique and the slug is present afterwards |
| Channels.FindSlug | popup/popup.js:258 | the index of the first channel with the slug, -1 iff none has it |
| Channels.RemoveSlug | popup/popup.js:252 | no channel with the slug is left and every other channel is kept |
| Channels.RemoveSlugAppend | popup/popup.js:252 | removing works channel by channel, so the kept channels keep their order |
| Channels.RemoveSlugKeepsUnique | popup/popup.js:252 | removing keeps slugs unique |
| Dashboard.Wrap32 | popup/popup.js:17 | the bitwise-or with 0 yields the signed 32-bit value congruent to its input |
| Dashboard.Wrap32Unique | popup/popup.js:17 | that value is the only one in range congruent to the input |
| Dashboard.HashIsWrappedPolynomial | popup/popup.js:13-18 | the per-step wrapped hash equals the base-31 polynomial of the char codes wrapped once at the end |
| Dashboard.ColorIndex | popup/popup.js:19 | the colour index lies in the palette |
| Dashboard.GetAvatarColor | popup/popup.js:13-20 | the accumulator loop returns the palette entry of the wrapped polynomial hash, always a palette colour |
| Dashboard.HashExamples | popup/popup.js:13-20 | concrete hashes of "a" and "ab" and their palette index |
| Dashboard.TabFilter | popup/popup.js:85-89 | the tab keeps exactly the channels it selects |
| Dashboard.TabFilterAppend | popup/popup.js:85-89 | the tab filter works channel by channel, so the kept channels keep their order |
| Dashboard.TabAllKeepsEverything | popup/popup.js:85-86 | the `all` tab keeps every channel |
| Dashboard.SortIsPartition | popup/popup.js:91-95 | the sort yields the live channels, then the offline ones, each in original order |
| Dashboard.SortPermutes | popup/popup.js:91-95 | the sorted list is a permutation of the filtered list |
| Dashboard.SortIsStable | popup/popup.js:91-95 | within each class the relative order is kept |
| Dashboard.SortLiveBeforeOffline | popup/popup.js:91-95 | every live channel comes before every offline one |
| Dashboard.RenderedAllIsPermutation | popup/popup.js:85-95 | on the `all` tab the rendered list is a permutation of the channels |
| Dashboard.TabFilterCommutes | popup/popup.js:85-95 | filtering by tab and splitting into live and offline can be done in either order |
| Dashboard.RenderedOrder | popup/popup.js:85-95 | on every tab the rendered list is the tab's live channels then its offline channels, each in list order |
| Dashboard.AddChannelSpec | popup/popup.js:266-274 | the list is unchanged iff the sanitised slug is empty or known; otherwise one channel in group `all` with notifications on is appended; slugs stay unique |
| Dashboard.FlipFlag | popup/popup.js:260 | JavaScript's `!` on a stored flag: a present flag is negated and a missing one becomes `true` |
| Dashboard.ToggleNotifySpec | popup/popup.js:257-262 | only the named channel's flag changes and nothing else does; a present flag switches notifications on or off and a second toggle restores the list; a missing flag is stored as `true`, so notifications stay on |
| Dashboard.ToggleMissingFlagTwice | popup/popup.js:257-262 | a record without the flag needs two toggles to turn notifications off |
| Dashboard.GroupId | popup/popup.js:404 | the id is `g_` followed by digits |
| Dashboard.CreateGroupSpec | popup/popup.js:399-406 | nothing changes iff the trimmed name is empty or equals an existing one ignoring case; otherwise one group is appended; names stay distinct |
| Dashboard.RemoveGroup | popup/popup.js:480 | exactly the groups with other ids are kept |
| Dashboard.RemoveGroupAppend | popup/popup.js:480 | deleting works group by group, so the kept groups keep their order |
| Dashboard.RemoveGroupKeepsDistinct | popup/popup.js:480 | deleting keeps group names distinct |
| Dashboard.StripGroupSpec | popup/popup.js:481-486 | the id is removed, the other memberships are kept, and an emptied list becomes `['all']` |
| Dashboard.StripGroupAllSpec | popup/popup.js:481-486 | every channel is stripped alike, keeps its other fields and at least one group |
| Dashboard.AssignGroupsSpec | popup/popup.js:494-502 | adding is idempotent and keeps memberships duplicate-free; removing drops the id and falls back to `['all']` |
| Dashboard.AssignInSpec | popup/popup.js:494-502 | only the named channel's groups change |
| Dashboard.WithList | popup/popup.js:553-556 | the chosen list is replaced and the other lists are untouched |
| Dashboard.AddFilterItemSpec | popup/popup.js:550-556 | empty or present values change nothing; otherwise the value is added, duplicates are not created and other lists are untouched |
| Dashboard.RemoveItemSpec | popup/popup.js:562-568 | every equal entry is removed, nothing else, and removing after adding a new value restores the list |
| Dashboard.FontSizeAfter | popup/popup.js:584 | the font size stays within [10, 22] |
| Dashboard.ThresholdAfter | popup/popup.js:592 | the threshold stays within [1, 30] |
| Dashboard.CountersSpec | popup/popup.js:582-596 | in-range steps are exact, 0 falls back to the defaults 13 and 5, the counters are monotone and saturate at both ends |
| Dashboard.Dashboard.constructor | popup/popup.js:34-42 | the state holds the loaded lists and the `all` tab is active |
| Dashboard.Dashboard.AddChannel | popup/popup.js:266-278 | the channel list becomes the specified addition; nothing else changes; the invariants are kept |
| Dashboard.Dashboard.RemoveChannel | popup/popup.js:251-256 | the channel is removed; nothing else changes; the invariants are kept |
| Dashboard.Dashboard.ToggleNotify | popup/popup.js:257-263 | the channel list becomes `ToggleNotifyIn` of the old list (the flag negated as JavaScript's `!` does); groups, chat settings and the active tab stay; the invariant is kept |
| Dashboard.Dashboard.CreateGroup | popup/popup.js:399-410 | the group list becomes the specified addition; nothing else changes |
| Dashboard.Dashboard.DeleteGroup | popup/popup.js:479-492 | groups and memberships are stripped and the active tab resets only when it was the deleted group |
| Dashboard.Dashboard.AssignChannelToGroup | popup/popup.js:494-504 | the channel's groups become the specified assignment; nothing else changes |
| Dashboard.Dashboard.AddFilterItem | popup/popup.js:550-560 | the chat lists become the specified addition; nothing else changes |
| Dashboard.Dashboard.RemoveListItem | popup/popup.js:703-711 | the chat lists become the specified removal; nothing else changes |
| Dashboard.Dashboard.ChangeFontSize | popup/popup.js:582-588 | only the font size changes, to the clamped value |
| Dashboard.Dashboard.ChangeEmojiThreshold | popup/popup.js:590-596 | only the threshold changes, to the clamped value |
| Multistream.FirstIndex | multistream/app.js:204 | the first index holding the slug, -1 iff absent |
| Multistream.FilterIn | multistream/app.js:135-139 | exactly the entries that are still listed are kept |
| Multistream.FilterInAppend | multistream/app.js:135-139 | keeping works entry by entry, so the kept entries keep their order |
| Multistream.RemoveCutsOut | multistream/app.js:68 | on a duplicate-free list, filtering a slug out cuts out exactly its position, and an absent slug changes nothing |
| Multistream.AddMissing | multistream/app.js:142-146 | the existing entries stay as a prefix and every listed slug is present afterwards |
| Multistream.AddStreamSpec | multistream/app.js:57-61 | the list is unchanged iff the sanitised slug is empty or open; otherwise it is appended; the list stays duplicate-free; adding is idempotent |
| Multistream.AddAllStreamsSpec | multistream/app.js:37-38 | after a batch the list is duplicate-free, clean, and holds every non-empty sanitised slug of the batch |
| Multistream.Move | multistream/app.js:206-207 | the moved stream ends at the destination index and the length is kept |
| Multistream.MoveSpec | multistream/app.js:205-207 | the move is a permutation, keeps the list duplicate-free, and moving back restores the list |
| Multistream.MoveExample | multistream/app.js:206-207 | `[a,b,c]` with 0 to 2 gives `[b,c,a]` |
| Multistream.SpliceMove | multistream/app.js:206-207 | the two splices as written: the length is kept when the index is in range and grows by one when it is not |
| Multistream.SpliceMoveInRange | multistream/app.js:206-207 | with the index in range the two splices are the move |
| Multistream.StaleDragInsertsHole | multistream/app.js:189-212 | a drop on its own card leaves index 2 of `[a,b,c]` pending; once `c` is closed, a drop on `a` splices `undefined` in front of `[a,b]` |
| Multistream.InitStreamsSpec | multistream/app.js:35-46 | the URL parameter, when present, decides the streams and saved state is ignored; the streams are duplicate-free clean slugs |
| Multistream.ReconcileAfterAdd | multistream/app.js:128-146 | after appending a stream, reconciliation keeps every card and appends one for it |
| Multistream.ReconcileAfterRemove | multistream/app.js:128-146 | after removing a stream, reconciliation drops exactly its card |
| Multistream.FocusRows | multistream/app.js:108 | at least one row, enough for all side cards |
| Multistream.PlacementSpec | multistream/app.js:103-126 | focus with cards: card 0 spans all rows of column 1, the others sit in column 2; otherwise every placement is cleared |
| Multistream.Card.constructor | multistream/app.js:152-156 | a new card carries its slug and no placement |
| Multistream.KeptCardsSlugs | multistream/app.js:135-139 | the kept cards' slugs are the listed slugs among the card slugs, in order |
| Multistream.KeptCardsAppend | multistream/app.js:135-139 | keeping works card by card, so the kept cards keep the grid's order |
| Multistream.AppendReconciles | multistream/app.js:128-146 | rendering after an append keeps the old cards as a prefix and adds one new card for the slug |
| Multistream.RemoveReconciles | multistream/app.js:128-146 | rendering after a removal keeps exactly the other cards, in order, and creates none |
| Multistream.ReorderStep | multistream/app.js:211-213 | each `appendChild` puts the next stream's card at the end, extending the sorted suffix |
| Multistream.MultistreamPage.constructor | multistream/app.js:12-14 | no streams, `side` layout and no drag in progress |
| Multistream.MultistreamPage.ApplyLayoutCSS | multistream/app.js:103-126 | every card gets the placement the layout specifies |
| Multistream.MultistreamPage.SetLayout | multistream/app.js:90-101 | the layout is set and the cards are laid out for it |
| Multistream.MultistreamPage.Render | multistream/app.js:128-150 | cards of unlisted streams are dropped, the kept ones stay in order, new ones are appended; slugs stay unique and cards laid out |
| Multistream.MultistreamPage.KeepListed | multistream/app.js:135-139 | the loop keeps exactly the cards whose slug is listed |
| Multistream.MultistreamPage.AppendMissing | multistream/app.js:142-146 | the loop appends one fresh card per listed slug without one |
| Multistream.MultistreamPage.AddStream | multistream/app.js:57-65 | the streams become the specified addition; a new stream gets one fresh card at the end; a no-op leaves the grid alone |
| Multistream.MultistreamPage.AppendStream | multistream/app.js:61-63 | the slug is appended and exactly one fresh card follows the old ones |
| Multistream.MultistreamPage.RemoveStream | multistream/app.js:67-72 | the stream list loses exactly that slug's position, the others keep their order, and an absent slug changes nothing; exactly its card goes, the others stay, and no card is created |
| Multistream.MultistreamPage.DropStream | multistream/app.js:68 | the list is filtered, which cuts out the slug's position or changes nothing, and stays duplicate-free |
| Multistream.MultistreamPage.CloseAll | multistream/app.js:74-79 | no streams and no cards are left |
| Multistream.MultistreamPage.DragStart | multistream/app.js:189-190 | the drag source is the dragged card's stream index |
| Multistream.MultistreamPage.ReorderCards | multistream/app.js:210-214 | the loop puts the cards in stream order without creating or dropping any |
| Multistream.MultistreamPage.ReorderGrid | multistream/app.js:210-214 | after the reorder the card order equals the stream order and the set of cards is unchanged |
| Multistream.MultistreamPage.Drop | multistream/app.js:201-217 | with no drag, or a drop on the dragged card's own position, nothing changes; a pending index past the end is discarded; otherwise the stream moves to the destination index, the grid follows with the same cards, and the drag ends |
| Multistream.MultistreamPage.Init | multistream/app.js:35-49 | streams and layout are the specified initial ones and the cards match them |
| Multistream.MultistreamPage.AddAll | multistream/app.js:37-38 | the streams become the batch addition and the layout is unchanged |
| Background.IsDndActive | src/background.js:192-199 | do-not-disturb is active only when it is configured and enabled |
| Background.DndIsClockWindow | src/background.js:192-199 | for clock hours it is active iff the hour lies in the window from start to end that wraps past midnight; equal ends mean never |
| Background.DndExamples | src/background.js:195-198 | with the default 23 to 8, hours 23 and 2 are quiet and 12 is not; disabled or missing means never |
| Background.AlarmPeriod | src/background.js:17-19 | the period is the larger of half a minute and the interval in minutes |
| Background.DefaultSettingsSpec | src/background.js:201-208 | the default 60-second interval gives a one-minute period, default do-not-disturb is off, short intervals are clamped to half a minute |
| Background.FetchChannel | src/background.js:70-90 | a status exists iff the reply is ok with a body; live iff a livestream is present; offline fields default; no user means name = slug and no avatar |
| Background.PollAllChannels | src/background.js:28-68 | an empty list returns early and writes nothing; otherwise the loop's result is the specified poll over all channels and the badge shows its live count |
| Background.StepOther | src/background.js:43-63 | one channel's round leaves every other slug's cache entry, membership and notification alone |
| Background.PollUntouched | src/background.js:43-63 | a slug of no polled channel keeps its cache entry and notified membership and gets no notification |
| Background.PollPerChannel | src/background.js:46-62 | per channel: notified exactly when live, not live in the original cache, not yet notified, notifications on and not quiet; a failed fetch keeps the entry and membership; success stores the status and keeps the slug notified only while live |
| Background.PollKeepsNoDup | src/background.js:56-61 | the notified list never gains a duplicate |
| Background.PollLiveCount | src/background.js:54-55 | the live count is the number of successful live results, and no more notifications than that are sent |
| Background.BadgeText | src/background.js:92-99 | the badge is empty iff the count is 0; otherwise it is the decimal count |
| Background.NotifId | src/background.js:103 | the id is the slug behind the `ke-` prefix |
| Background.ClickedSlug | src/background.js:115-118 | a click is handled iff the id has the prefix, and the slug recovered gives back the id |
| Background.ButtonSlug | src/background.js:122-125 | a button click is handled iff the id has the prefix and it is button 0, and the slug gives back the id |
| Background.NotifIdRoundTrip | src/background.js:103-127 | both handlers recover the slug of the notification that was sent |
| Background.DefaultsToSet | src/background.js:238-244 | the loop writes exactly the missing default keys with their defaults, and writes nothing when none is missing |
| Background.MergeNeverOverwrites | src/background.js:238-244 | a present key is never overwritten and every default key is present afterwards |
| Background.MultistreamUrl | src/background.js:164-165 | no list or an empty one gives the bare page address; otherwise `?channels=` and the comma-joined slugs |
| Background.AddToMultistreamUrl | src/background.js:180 | the address is the page address, `?channels=` and the slug, which is the address `MultistreamUrl` builds for the list holding that one slug |
| Background.MultistreamUrlRoundTrip | src/background.js:164-165 | the page reads back exactly the slugs the worker joined |
| Background.AddToMultistreamRoundTrip | src/background.js:180 | the page reads back exactly the one slug sent |
| Text.IndexOf | src/content.js:161 | `indexOf` finds the first occurrence at or after the start, or -1 when there is none |
| Text.SplitJoin | multistream/app.js:37 | splitting on `,` undoes joining on `,` for pieces without commas |
| Text.DigitsValueOfNatToString | src/background.js:94 | the decimal text of a count reads back as that count |

## Left out

- DOM building, tooltips, skeletons, icons and panel positioning: these are template text and pixel layout. Chat lines and player cards are records or objects with identity.
- Event wiring: `MutationObserver`s, timers and the `waitFor*` loops are browser-driven. Each handler is modelled as the method it calls.
- Extension and network I/O is not modelled; the results it produces are parameters. This covers:
  - `chrome.storage`, alarms, notifications, tabs and message passing;
  - `fetch`;
  - `openOrFocusTab`, and the reuse of an open multi-stream tab;
  - the notification's title and message text.
- Unicode: the model approximates the source's Unicode handling.
  - `toLowerCase` folds only A–Z and the Turkish capitals Ç, Ö, Ü, Ğ and Ş; other capitals, including İ, which JavaScript lowers to two code units, are left alone.
  - The word characters of `\p{L}\p{N}_` are ASCII letters and digits, `_`, and U+00C0–U+024F except × and ÷. Other scripts' letters and digits are not word characters here.
  - `\p{Emoji_Presentation}` is not matched: the emoji count of a line is a field of the message.
- Strings are sequences of Unicode code points. JavaScript strings are UTF-16 code units, which differ beyond U+FFFF: for example, the hash's `charCodeAt` (popup/popup.js:16) reads each half of a surrogate pair, and the neighbour lookups in `matchesWord` (src/content.js:162-163) can land on one.
- `updateChatSetting`: its last-write-wins race between tabs is concurrency. The function is modelled as a pure update of the stored or cached record.
- Badge colours, the player's volume and seek, and number and duration formatting are left out, because they use floating point or the clock.
- `Background.AlarmPeriod`: the interval is a `real`. A NaN or non-numeric interval from storage is not modelled.
- `Background.IsDndActive`: the hour is a parameter, and it is read once per poll. The source reads the clock again for each channel.
- `Background.PollPerChannel`: assumes the followed channels have distinct slugs, which every adder keeps. With repeated slugs, the later entry's outcome wins.
- `Background.DefaultsToSet`: the default values are generic. Only the settings record is modelled in full.
- `ContentText.ParseChannelRelationBounds`: the badge collection of `parseChannelRelation` is DOM scraping and is left out. Only the follow date and subscription classification is modelled.
- `ChatEdits.ToggleFlips`: requires that no two entries normalise equal. The panel's adder and the toggles keep that, but the popup's adder (popup/popup.js:550-556) compares exact strings, so `["Ali","ali"]` can arise. For that case see the Findings.
- `ChatEdits.ToggleBlockFlips`: requires that no two blocked names normalise equal, for the same reason. On a list such as `["Ali","ali"]` the toggle as written removes only the first match and the user stays blocked (`ToggleKeepsDuplicate`); the corrected toggle `ToggleAll` flips on any list (`ToggleAllFlips`).
- `Multistream.MultistreamPage.Drop`: the as-written handler's crash on a stale index past the end of the list is not modelled as a state; the `undefined` entry it inserts is exhibited by `SpliceMove`, and `Drop` follows the corrected handler (see Findings). A stale index still inside the list moves whichever stream now sits there, as the source does.
- `Multistream.MultistreamPage.Render`: requires card slugs to be distinct, which every method keeps. The source's `querySelector` would find only the first card of a duplicated slug.
- `Dashboard.ToggleNotifySpec`: promises that a second toggle restores the list only when the record carries `notifyOnline`. A record without the flag counts as on (src/background.js:56, popup/popup.js:130), and the first toggle stores `true`, so it takes two toggles to turn it off (`ToggleMissingFlagTwice`). Every writer of channel records sets the flag (popup/popup.js:272, src/content.js:746).
- `ChatFilter.MarksSpec`: the `data-index` guard is a boolean field of the message.
- i18n (`src/i18n.js`) is left out: it is a locale fetch and DOM patching.
- Viewer counts on the multi-stream page, fullscreen and keyboard shortcuts are left out: they are I/O or browser features.

## Findings

| source | as written | input that shows it | evidently intended | confidence | as-written member | corrected member |
|---|---|---|---|---|---|---|
| src/content.js:931-941 | neither clearing pass removes the keyword highlight styles set at lines 235-237 | a line "gg" highlighted for keyword "gg"; the keyword list is emptied; after the settings-change pass the line is still highlighted. No code in these files writes a non-empty `keywords` list (popup/popup.js:50 and src/background.js:225 default it to `[]`; src/content.js:230-231 only read it), so the highlight needs a list put into storage from outside the extension's own code | clear the message box styles before re-classifying | low, not executed | ChatFilter.StaleHighlight | ChatFilter.ReprocessReflectsSettings |
| src/content.js:1365-1391 | a toggle removes only the first entry that normalises equal to the slug | `filterUsers` of `["Ali","ali"]`, which the popup's exact-string adder at popup/popup.js:550-556 lets through; the user card's block toggle for `ali` leaves `["ali"]`, so the user is still blocked | remove every normalised match, so that the toggle always flips | low, not executed | ChatEdits.ToggleKeepsDuplicate | ChatEdits.ToggleAllFlips |
| multistream/app.js:189-212 | `dragSrcIdx` is cleared only after a completed move; a drag that is cancelled, or dropped on its own card (line 205), leaves it set | streams `[a,b,c]`; drag `c` onto its own card, so index 2 stays pending; close `c`; drop something dragged in from outside the page onto `a`: the first splice removes nothing, `undefined` is inserted, and line 212 reads `.slug` of it | a pending index past the end of the list is discarded instead of splicing `undefined` in | low, not executed | Multistream.StaleDragInsertsHole | Multistream.MultistreamPage.Drop |
