# Chat UI behaviour: autocomplete, pin permission, channel-list updates, link cards, gallery

This project models the logic inside a React component library for chat user interfaces. The logic is stated in Dafny and proved against its specifications. It covers:

- **ChatAutoComplete** (`AutoComplete.dfy`): the default trigger map of the message textarea.
  - `/` suggests the channel's commands. They are filtered by the query. The sort puts a '0' in front of every lower-cased name that starts with the query as typed, then compares the names alphabetically. So a command whose lower-cased name starts with the query is preceded only by such commands, as long as the other names begin above '0'. A query with a capital letter marks no name, and the order is then alphabetical only. At most 10 are kept.
  - `:` suggests emoji from an emoji index.
  - `@` suggests channel users. When the query is empty or the channel has fewer than 100 member records, it searches the union of members and watchers locally. Otherwise it hands the query to a remote search.
  - Each trigger's output text is modelled too, as is the emoticon replacement `emojiReplace`.
  - The union of members and watchers (`getMembersAndWatchers`) is a loop that fills a dictionary keyed by user id. The dictionary is a plain JavaScript object, so an id that names a property every object inherits (`constructor`, `toString`, ...) already looks taken, and such a user is never listed. The command sort is an in-place sort of an array.
- **usePinHandler** (`PinHandler.dfy`): whether the current user may pin messages (`canPin`), decided from a role table per channel type. Also which SDK call the pin button makes and which error notice follows a failure (`handlePin`).
- **Channel-list listeners** (`ChannelList.dfy`): the list of channels as a piece of state (a class).
  - A `notification.added_to_channel` event puts the fetched channel on top and removes any older entry with the same `cid` (lodash `uniqBy`).
  - A `notification.removed_from_channel` event drops every entry with the event's `cid`.
  - A custom handler, when installed, runs instead of either update.
- **Card** (`Card.dfy`): the link-preview card of an attachment. It covers the shown image, the host name printed for the link (`trimUrl`), and the choice between the "could not be displayed" fallback, nothing, and the preview.
- **Gallery** (`Gallery.dfy`): the image gallery.
  - The grid shows at most three thumbnails and a "n more" placeholder.
  - The slide list is passed to the lightbox.
  - The lightbox's index and open flag form a class updated by `toggleModal`.

Two shared modules support these:

- `Js.dfy` holds the slice of JavaScript semantics the components rely on: optional values, truthiness of optional strings, `indexOf` and `includes`, `toLowerCase`, and the `<` order on strings.
- `Seqs.dfy` holds order-preserving keyed sequence operations: `uniqBy`, dropping the elements with given keys, skipping absent values, `filter` and `slice`. The member/watcher union and the channel list share them.

## Model

| member | source | states |
|---|---|---|
| Js.IndexOf | src/components/ChatAutoComplete/ChatAutoComplete.js:98 | `s.indexOf(sub)` is the first position where `sub` occurs, or -1 exactly when it occurs nowhere |
| Js.IndexOfFrom | src/components/ChatAutoComplete/ChatAutoComplete.js:105 | the search from position `k` finds the first occurrence at or after `k`, or -1 when there is none |
| Js.IndexOfZeroIffStartsWith | src/components/ChatAutoComplete/ChatAutoComplete.js:105-110 | `indexOf(q) === 0` holds exactly when the name starts with `q` |
| Js.IncludesIffOccurs | src/components/ChatAutoComplete/ChatAutoComplete.js:169-173 | `includes` holds exactly when the query occurs somewhere in the string |
| Js.Lower | src/components/ChatAutoComplete/ChatAutoComplete.js:103-104 | `toLowerCase` keeps the length, leaves no capital letter, changes no other character and maps each capital to its small letter |
| Js.LowerIdempotent | src/components/ChatAutoComplete/ChatAutoComplete.js:169-173 | lower-casing an already lower-cased string changes nothing |
| Js.LexLess | src/components/ChatAutoComplete/ChatAutoComplete.js:113-118 | string `<` never holds between equal strings, and a prefix of a string is below it exactly when it is shorter |
| Js.LexLessIrreflexive | src/components/ChatAutoComplete/ChatAutoComplete.js:113-118 | no string is `<` itself |
| Js.LexLessTransitive | src/components/ChatAutoComplete/ChatAutoComplete.js:113-118 | string `<` is transitive |
| Js.LexLessTotal | src/components/ChatAutoComplete/ChatAutoComplete.js:113-118 | of two different strings, one is `<` the other |
| Js.ZeroPrefixComesFirst | src/components/ChatAutoComplete/ChatAutoComplete.js:105-110 | a name prefixed with '0' compares below every name whose first character is above '0' |
| Js.LexLessSharedHead | src/components/ChatAutoComplete/ChatAutoComplete.js:105-118 | prefixing both names with '0' does not change their order |
| Seqs.UniqByKeys | src/components/ChatAutoComplete/ChatAutoComplete.js:50-55 | the deduplicated list has exactly the ids of its input |
| Seqs.UniqBy | src/components/ChannelList/hooks/useNotificationAddedToChannelListener.ts:49 | `uniqBy` never lengthens its input and always keeps its first element |
| Seqs.UniqByNoDup | src/components/ChannelList/hooks/useNotificationAddedToChannelListener.ts:49 | `uniqBy` never lists a key twice |
| Seqs.UniqBySubset | src/components/ChatAutoComplete/ChatAutoComplete.js:50-55 | every element `uniqBy` keeps comes from its input |
| Seqs.UniqBySnoc | src/components/ChatAutoComplete/ChatAutoComplete.js:50-54 | one more element is kept exactly when its key has not been seen |
| Seqs.UniqByAppend | src/components/ChatAutoComplete/ChatAutoComplete.js:46-55 | `uniqBy(a ++ b)` is `uniqBy(a)` followed by `uniqBy` of the elements of `b` whose key `a` lacks |
| Seqs.UniqByKeepsFirst | src/components/ChatAutoComplete/ChatAutoComplete.js:50-54 | an element whose key does not occur earlier is the one kept for that key |
| Seqs.UniqByCons | src/components/ChannelList/hooks/useNotificationAddedToChannelListener.ts:49 | `uniqBy([x, ...s])` is `x` followed by `uniqBy` of the rest of `s` without `x`'s key |
| Seqs.UniqByOfNoDup | src/components/ChannelList/hooks/useNotificationAddedToChannelListener.ts:49 | `uniqBy` leaves a duplicate-free list unchanged |
| Seqs.HeadKeyNotInTail | src/components/ChannelList/hooks/useNotificationAddedToChannelListener.ts:49 | in a duplicate-free list, the first entry's key does not recur |
| Seqs.WithoutKeysMembers | src/components/ChannelList/hooks/useNotificationRemovedFromChannelListener.ts:43-45 | the survivors of a key filter are exactly the elements whose key is not dropped |
| Seqs.WithoutKeys | src/components/ChannelList/hooks/useNotificationRemovedFromChannelListener.ts:44 | the `cid` filter never lengthens the list and no survivor has a dropped key |
| Seqs.WithoutKeysSnoc | src/components/ChannelList/hooks/useNotificationRemovedFromChannelListener.ts:44 | one more element survives exactly when its key is not dropped |
| Seqs.WithoutKeysAppend | src/components/ChannelList/hooks/useNotificationRemovedFromChannelListener.ts:44 | a key filter distributes over concatenation, so survivors keep their order |
| Seqs.WithoutAbsentKeys | src/components/ChannelList/hooks/useNotificationRemovedFromChannelListener.ts:44 | dropping keys that do not occur changes nothing |
| Seqs.KeysOfWithoutKeys | src/components/ChannelList/hooks/useNotificationRemovedFromChannelListener.ts:44 | the keys left are the old keys minus the dropped ones |
| Seqs.WithoutKeysIdempotent | src/components/ChannelList/hooks/useNotificationRemovedFromChannelListener.ts:44 | filtering the same keys twice equals filtering once |
| Seqs.WithoutKeysNoDup | src/components/ChannelList/hooks/useNotificationRemovedFromChannelListener.ts:44 | a key filter keeps a list duplicate-free |
| Seqs.WithoutOneKeyLength | src/components/ChannelList/hooks/useNotificationRemovedFromChannelListener.ts:44 | on a duplicate-free list, dropping one key removes one element if the key is present and none otherwise |
| Seqs.KeysOfSnoc | src/components/ChatAutoComplete/ChatAutoComplete.js:52 | the keys of a list with one more element gain that element's key |
| Seqs.KeysOfAppend | src/components/ChatAutoComplete/ChatAutoComplete.js:46 | the keys of a concatenation are the union of both parts' keys |
| Seqs.Present | src/components/ChatAutoComplete/ChatAutoComplete.js:51 | skipping absent users keeps exactly the defined ones and never lengthens the list |
| Seqs.PresentSnoc | src/components/ChatAutoComplete/ChatAutoComplete.js:51 | one more value is kept exactly when it is defined |
| Seqs.PresentAppend | src/components/ChatAutoComplete/ChatAutoComplete.js:46-51 | skipping absent users distributes over members ++ watchers |
| Seqs.Filter | src/components/ChatAutoComplete/ChatAutoComplete.js:97-99 | `filter` keeps exactly the elements that pass, never more than the input |
| Seqs.FilterAll | src/components/ChatAutoComplete/ChatAutoComplete.js:165-166 | a filter every element passes returns its input |
| Seqs.Take | src/components/ChatAutoComplete/ChatAutoComplete.js:124 | `slice(0, n)` has `min(n, length)` elements, the input's first ones |
| Seqs.TakeFilter | src/components/ChatAutoComplete/ChatAutoComplete.js:165-175 | the first `n` filtered elements come from the input and pass the filter |
| AutoComplete.MembersAndWatchers | src/components/ChatAutoComplete/ChatAutoComplete.js:41-56 | the dictionary loop returns `uniqBy` by id of the defined member users followed by the watchers, leaving out ids inherited from `Object.prototype`; the loop keeps the dictionary's keys equal to the ids listed so far |
| AutoComplete.InsertUser | src/components/ChatAutoComplete/ChatAutoComplete.js:51-52 | storing a user under a new id keeps the dictionary and the value list in step |
| AutoComplete.UnionMembersFirst | src/components/ChatAutoComplete/ChatAutoComplete.js:42-55 | the union is the deduplicated member candidates, then the watcher candidates whose id no member has |
| AutoComplete.UnionUnique | src/components/ChatAutoComplete/ChatAutoComplete.js:47-54 | the union lists every id at most once |
| AutoComplete.UnionFromInputs | src/components/ChatAutoComplete/ChatAutoComplete.js:42-55 | every listed user is a member's user or a watcher, and no listed id is inherited from `Object.prototype` |
| AutoComplete.UnionCoversInputs | src/components/ChatAutoComplete/ChatAutoComplete.js:50-55 | every member and watcher whose id is not inherited has a listed user with its id |
| AutoComplete.UnionKeepsFirstSeen | src/components/ChatAutoComplete/ChatAutoComplete.js:51-52 | the user listed for an id is the first candidate seen with it, members before watchers |
| AutoComplete.CommandMatches | src/components/ChatAutoComplete/ChatAutoComplete.js:97-99 | a command is selected exactly when it has no name or the query occurs in its name as typed |
| AutoComplete.SortKey | src/components/ChatAutoComplete/ChatAutoComplete.js:103-110 | a nameless command has no key; a named one has its lower-cased name, with '0' in front exactly when that name starts with the query |
| AutoComplete.After | src/components/ChatAutoComplete/ChatAutoComplete.js:102-121 | the comparator returns 1 only for two named commands with different keys; within one group it follows the order of the lower-cased names |
| AutoComplete.NotAfterTransitive | src/components/ChatAutoComplete/ChatAutoComplete.js:102-122 | among named commands, "the comparator does not return 1" is transitive |
| AutoComplete.AfterAsymmetric | src/components/ChatAutoComplete/ChatAutoComplete.js:102-122 | the comparator never returns 1 both ways |
| AutoComplete.Swap | src/components/ChatAutoComplete/ChatAutoComplete.js:102 | exchanging two entries changes nothing else and keeps the multiset |
| AutoComplete.SortCommands | src/components/ChatAutoComplete/ChatAutoComplete.js:102-122 | the in-place sort permutes the array; when every command is named, no command ends before one the comparator puts ahead of it |
| AutoComplete.HeadOfPermutation | src/components/ChatAutoComplete/ChatAutoComplete.js:124 | the first `k` entries of the sorted array are drawn from the selected commands, with the rest making up the difference |
| AutoComplete.SortedSplit | src/components/ChatAutoComplete/ChatAutoComplete.js:124 | cutting a sorted list keeps the head sorted and puts no cut command ahead of a kept one |
| AutoComplete.CommandsProvider | src/components/ChatAutoComplete/ChatAutoComplete.js:93-128 | no suggestions unless the text starts with `/` and commands exist. Otherwise: `min(10, #matches)` matching commands, drawn from the registry. When all are named they are sorted and are the top ones; the same array goes to `onReady` |
| AutoComplete.PrefixMatchesFirst | src/components/ChatAutoComplete/ChatAutoComplete.js:101-110 | after sorting, a name starting with the query is preceded only by such names, for names beginning above '0' |
| AutoComplete.CapitalQueryMarksNoName | src/components/ChatAutoComplete/ChatAutoComplete.js:103-110 | for a query holding a capital letter, every named command's key is its plain lower-cased name, so no command gets the '0' marker |
| AutoComplete.GroupsSortedByName | src/components/ChatAutoComplete/ChatAutoComplete.js:101-118 | within the prefix group and within the rest, names are in alphabetical order of their lower-case forms |
| AutoComplete.SentinelNeedsOrdinaryNames | src/components/ChatAutoComplete/ChatAutoComplete.js:105-118 | counterexample: for query "a", "!ban" (no prefix match) sorts before "abc" (prefix match), so the '0' marker alone does not put prefix matches first |
| AutoComplete.CommandText | src/components/ChatAutoComplete/ChatAutoComplete.js:129-133 | the command output is `/` followed by the name, and `/undefined` for a nameless command |
| AutoComplete.EmojiProvider | src/components/ChatAutoComplete/ChatAutoComplete.js:137-147 | no suggestions for an empty query or one starting outside `[a-zA-Z0-9+-]`. Otherwise the index's first `min(10, #hits)` hits in order, also passed to `onReady` |
| AutoComplete.FirstWithEmoticon | src/components/ChatAutoComplete/ChatAutoComplete.js:33-36 | `find` returns the first entry listing the word as an emoticon, or nothing when none does |
| AutoComplete.EmojiReplace | src/components/ChatAutoComplete/ChatAutoComplete.js:31-39 | the replacement is exactly the native character of the first of the first 10 hits listing the word; none when no hit lists it |
| AutoComplete.EmojiText | src/components/ChatAutoComplete/ChatAutoComplete.js:148-152 | the emoji output is its native character, "undefined" when missing |
| AutoComplete.UserMatches | src/components/ChatAutoComplete/ChatAutoComplete.js:165-174 | a user is kept exactly when the query is empty, or its lower-cased form occurs in the lower-cased name (when defined) or in the lower-cased id |
| AutoComplete.MentionProvider | src/components/ChatAutoComplete/ChatAutoComplete.js:157-188 | local lookup exactly when the query is empty or there are fewer than 100 member records. Then the first `min(10, #matches)` matching users of the union in order (the first 10 users for an empty query), passed to `onReady`. Otherwise the remote search gets the query |
| AutoComplete.MentionText | src/components/ChatAutoComplete/ChatAutoComplete.js:189-193 | the user output is `@` followed by the name when truthy, else the id |
| PinHandler.CanPin | src/components/Message/hooks/usePinHandler.ts:73-112 | false without a user id, a channel state, a permission table or an entry for the channel type. Otherwise true exactly when the global, member or watcher role is granted |
| PinHandler.Eligible | src/components/Message/hooks/usePinHandler.ts:74-81 | a missing or empty user id, a missing channel or channel state, a missing table or a missing entry for the channel type each rule pinning out |
| PinHandler.CanPinMonotone | src/components/Message/hooks/usePinHandler.ts:87-111 | a table granting more roles never turns `canPin` from true to false |
| PinHandler.NonStringRolesNeverGrant | src/components/Message/hooks/usePinHandler.ts:87-109 | a user none of whose roles is a string cannot pin |
| PinHandler.NoTableNoPin | src/components/Message/hooks/usePinHandler.ts:74-81 | without a permission table nobody can pin |
| PinHandler.MemberRoleSuffices | src/components/Message/hooks/usePinHandler.ts:95-101 | a granted member role suffices, whatever the global role |
| PinHandler.HandlePin | src/components/Message/hooks/usePinHandler.ts:114-145 | no call without a message; `pinMessage` for an unpinned message, `unpinMessage` for a pinned one. On failure with `notify`, exactly one error notice: the custom text if truthy, else the default for that action |
| PinHandler.NoticeTextNeverEmpty | src/components/Message/hooks/usePinHandler.ts:125-142 | a failure notice never has empty text |
| ChannelList.PrependUnique | src/components/ChannelList/hooks/useNotificationAddedToChannelListener.ts:49 | after an add the fetched channel is first, no `cid` repeats, and the `cid`s are the old ones plus the new one |
| ChannelList.RemoveCid | src/components/ChannelList/hooks/useNotificationRemovedFromChannelListener.ts:43-45 | after a remove the survivors are exactly the entries with another `cid`, and the list never grows |
| ChannelList.PrependUniqueOnNoDup | src/components/ChannelList/hooks/useNotificationAddedToChannelListener.ts:49 | on a duplicate-free list, an add keeps the other channels in order and drops only the older entry with the same `cid` |
| ChannelList.PrependUniqueLength | src/components/ChannelList/hooks/useNotificationAddedToChannelListener.ts:49 | on a duplicate-free list, an add grows the list by one exactly when the `cid` is new |
| ChannelList.PrependUniqueTwice | src/components/ChannelList/hooks/useNotificationAddedToChannelListener.ts:49 | adding the same channel twice equals adding it once |
| ChannelList.RemoveAbsentCid | src/components/ChannelList/hooks/useNotificationRemovedFromChannelListener.ts:44 | removing an unlisted or undefined `cid` leaves the list unchanged |
| ChannelList.RemoveCidTwice | src/components/ChannelList/hooks/useNotificationRemovedFromChannelListener.ts:44 | removing a `cid` twice equals removing it once |
| ChannelList.RemoveCidKeepsOrder | src/components/ChannelList/hooks/useNotificationRemovedFromChannelListener.ts:44 | the survivors keep their relative order |
| ChannelList.RemoveCidLength | src/components/ChannelList/hooks/useNotificationRemovedFromChannelListener.ts:44 | on a duplicate-free list, a remove shortens the list by one exactly when the `cid` is listed |
| ChannelList.RemoveCidNoDup | src/components/ChannelList/hooks/useNotificationRemovedFromChannelListener.ts:44 | a remove keeps the list duplicate-free |
| ChannelList.ReplayNoDup | src/components/ChannelList/hooks/useNotificationAddedToChannelListener.ts:49 | any run of adds and removes keeps a duplicate-free list duplicate-free, and one starting with an add makes it so |
| ChannelList.Replay | src/components/ChannelList/hooks/useNotificationAddedToChannelListener.ts:49 | after a run of updates ending in an add, the added channel is on top; ending in a removal, no entry with that `cid` is left |
| ChannelList.ChannelListState.constructor | src/components/ChannelList/hooks/useNotificationAddedToChannelListener.ts:27-37 | the state starts with the given list and no events handed to custom handlers; it is valid (no repeated `cid`) exactly when the given list is |
| ChannelList.ChannelListState.OnAdded | src/components/ChannelList/hooks/useNotificationAddedToChannelListener.ts:40-51 | with a custom handler only that handler gets the event. Otherwise, for an event with a channel type and a fetched channel, the list becomes the prepend-unique update with the channel first; else it is unchanged. A valid state stays valid |
| ChannelList.ChannelListState.OnRemoved | src/components/ChannelList/hooks/useNotificationRemovedFromChannelListener.ts:39-47 | with a custom handler only that handler gets the event; otherwise the list is filtered by the event's `cid` and no entry with it remains. A valid state stays valid |
| Card.StripScheme | src/components/Attachment/Card.js:33 | at most one leading `https://` or `http://`, in any case, is removed |
| Card.StripWww | src/components/Attachment/Card.js:33 | at most one leading `www.`, in any case, is removed |
| Card.BeforeSlash | src/components/Attachment/Card.js:34-36 | the first piece of `split('/')` is a prefix without `/` that ends at the end or at a `/` |
| Card.TrimUrl | src/components/Attachment/Card.js:30-39 | `null` exactly for a missing url. Otherwise a prefix, without `/`, of the url stripped of scheme and `www.`, ending at its end or at a `/` |
| Card.TrimUrlPlain | src/components/Attachment/Card.js:32-36 | a url without scheme, `www.` or `/` is returned unchanged |
| Card.StripSchemeOf | src/components/Attachment/Card.js:33 | `http://` or `https://` in any letter case is stripped from the front |
| Card.StripWwwOf | src/components/Attachment/Card.js:33 | `www.` in any letter case is stripped from the front |
| Card.BeforeSlashOf | src/components/Attachment/Card.js:34-36 | a host followed by a path is cut back to the host |
| Card.TrimUrlHost | src/components/Attachment/Card.js:30-39 | scheme + `www.` + host + path, in any case, prints as the host |
| Card.CardImage | src/components/Attachment/Card.js:27 | the image is `thumb_url` when truthy, else `image_url` |
| Card.RenderCard | src/components/Attachment/Card.js:41-101 | the fallback exactly when title, title link and image are all missing; nothing exactly when otherwise both links are missing. Otherwise the preview: the image `thumb_url || image_url`, the title and the text each when truthy, the link `title_link` in preference to `og_scrape_url`, labelled with its trimmed host, and the giphy logo exactly for type `giphy` |
| Card.PreviewLabelHasNoSlash | src/components/Attachment/Card.js:87 | the preview's link label never contains `/` |
| Card.TitleAndLinkSuffice | src/components/Attachment/Card.js:41-88 | a card with a title and a title link is previewed and links the title link |
| Gallery.SlideUrl | src/components/Gallery/Gallery.js:36-37 | the slide url is `image_url`, else `thumb_url`, else empty exactly when neither is truthy |
| Gallery.FormattedArray | src/components/Gallery/Gallery.js:33-40 | one slide per image, in order, with `source` and `src` both the slide url |
| Gallery.Thumbnails | src/components/Gallery/Gallery.js:42-51 | at most 3 thumbnails, the first images in order; thumbnail `i` opens index `i` |
| Gallery.MorePlaceholder | src/components/Gallery/Gallery.js:60-74 | shown exactly when there are more than 3 images; it counts the images beyond the grid, opens index 3 and shows the fourth image |
| Gallery.ClickTargetsInRange | src/components/Gallery/Gallery.js:42-74 | every thumbnail and the placeholder open an index that has a slide |
| Gallery.Toggled | src/components/Gallery/Gallery.js:24-31 | toggling flips the open flag; it takes the selected index only when opening |
| Gallery.ToggleTwice | src/components/Gallery/Gallery.js:24-31 | opening and closing returns to a closed lightbox on the first target |
| Gallery.ToggleKeepsIndexInRange | src/components/Gallery/Gallery.js:24-31 | clicks on existing slides keep the index on an existing slide |
| Gallery.Lightbox.constructor | src/components/Gallery/Gallery.js:17-18 | the lightbox starts closed at index 0 |
| Gallery.Lightbox.ToggleModal | src/components/Gallery/Gallery.js:24-31 | while open, it closes and keeps the index; while closed, it opens at the selected index |

## Left out

- Network and SDK I/O are parameters:
  - the debounced remote member search (`queryMembersDebounced`, its 200 ms timer, `channel.queryMembers`) is a `RemoteSearch(query)` outcome;
  - the channel fetch `getChannel` is the `fetched` parameter of `OnAdded`, with `None` for a failed fetch;
  - the outcome of `pinMessage`/`unpinMessage` is the `callFails` parameter.
- Subscribing and unsubscribing the listeners (`client.on`/`client.off` in `useEffect`) is not modelled. Each listener is a method; `OnRemoved` runs when its event arrives.
- ChannelList.ChannelListState.OnAdded: the method stands for the moment `getChannel` resolves, not for the arrival of the event. The source applies its `setChannels` updater to the list as it is then. So `OnAdded` calls, `Replay`'s order and its "added channel on top" claim all follow fetch-completion order. A removal that arrives while a channel's fetch is still pending is applied first, and the late fetch then puts that channel back.
- What a custom channel-list handler does with `setChannels` is unknown. The model records that the handler received the event and leaves the list as it was.
- The emoji index (`emoji-mart`'s `search`) is an uninterpreted function parameter. An entry without a `native` property stands in for one whose `native` is missing.
- `validateAndGetMessage` and `getErrorNotification` are not part of this model. Their result is the `customError` parameter of `HandlePin`.
- The translation function `t()` is the identity, so notices and labels carry the untranslated text.
- `event.preventDefault()` in `handlePin`, the `key`/`caretPosition` fields of the outputs, CSS class names and all JSX markup are left out.
- AutoComplete.MembersAndWatchers: `Object.values` lists integer-like ids first, in numeric order. The model lists users in insertion order. The inherited ids are the properties standard JavaScript puts on `Object.prototype`; properties a host or a library adds to it are not modelled.
- Js.Lower: `toLowerCase` is modelled on ASCII letters only.
- Js.LexLess: JavaScript compares UTF-16 code units, the model compares characters.
- AutoComplete.SortCommands: ordering and stability are not claimed when some selected command has no name. The comparator then returns 0 against every command, so the engine's order is unspecified. Ties between equal lower-case names are not claimed to keep their order either.
- AutoComplete.UserMatches: a user whose `name` is `null` makes the source throw on `toLowerCase`. The model has only a defined or an undefined name.
- PinHandler.CanPin: names that exist on every JavaScript object through its prototype (`constructor`, `toString`, ...) are looked up as ordinary keys, both as role names in a role table and as channel types in the permission table (`permissions[channel.type]`). In the source such a channel type passes the guard. The model treats both tables as holding only their own entries. Member and watcher records are objects and so always truthy.
- The remaining components of the repository (message renderers, message inputs, the channel header, the mobile-press and open-thread hooks) are presentation and wiring and are not modelled.
