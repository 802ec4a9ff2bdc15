# Mention filters, file viewer and settings manager, in Dafny

This project models the logic of a family of chat-client plugins and proves properties of it.

- **MentionFilter** comes in two revisions, and each has its own model:
  - the single-file plugin 1.0.0 (`MentionFilterV1`);
  - the rewrite under `src/` (`MentionFilterSrc`).

  The plugin registers a dispatcher interceptor. For every message of a create, update or bulk-load event, the interceptor:
  - decides whether to leave the message alone, to suppress the current user's mention, or to force one;
  - edits the message's `mentions` list and `mentioned` flag in place;
  - appends `{messageId, userId}` records to its `suppressed` list.

  The decision depends on:
  - a mode: 0 default, 1 suppress, 2 force;
  - a scope filter: 0 none, 1 whitelist, 2 blacklist;
  - an allow-manual-ping flag;
  - a whitelist and a blacklist of guild, channel and user ids.

  The two revisions share the list code (`Scopes`) and the actions (`Mentions`), because their code for these is the same. They differ in how they decide (`Decide` in each module):
  - 1.0.0 only looks at messages that mention the user. It applies the scope filter once, before it reads the mode.
  - The rewrite also looks at replies to the user's messages. It applies the scope filter inside each mode, and force mode uses the opposite polarity.
- **SuppressReplyMentions** is the older reply-only plugin. Its state is held at module level: the current user, `settings` and a list of suppressed message ids.
- **FileViewer** has three parts:
  - the table from file extension to online viewer, built by a `reduce`;
  - `getSourceUrl`;
  - the show/hide toggle of the preview component.
- **SettingsManager** is shared by the `src/` plugins:
  - it flattens a settings panel into a map of defaults;
  - it lays loaded values over the defaults;
  - it mirrors each value into the panel entry with the same id.

How the host's objects are represented:
- Messages are datatype values. A bulk-load event's messages are an `array<Message>` that the interceptor updates in place.
- The plugin objects are classes. Their list fields are `seq`s that the methods reassign.
- The interceptor of each revision is proved against `Mentions.Run`. `Run` is a fold over the batch, and the batch-level lemmas are stated about it.

## Model

| member | source | states |
|---|---|---|
| Lists.IndexOf | MentionFilter/MentionFilter.plugin.js:130 | `findIndex` by equality: -1 exactly when the value is absent, otherwise the first index holding it |
| Lists.FindIndex | MentionFilter/MentionFilter.plugin.js:137-138 | `findIndex` with a predicate: -1 exactly when no element satisfies it, otherwise the first index that does |
| Lists.RemoveAt | MentionFilter/MentionFilter.plugin.js:136 | `splice(i, 1)`: one element fewer, the elements before `i` in place, the ones after shifted by one, the multiset less exactly that element |
| Lists.RemoveAll | MentionFilter/MentionFilter.plugin.js:166 | `filter(item => item !== id)`: no copy of `id` is left, every other element keeps its count, and a list without `id` is unchanged |
| Lists.Includes | MentionFilter/MentionFilter.plugin.js:114 | `s.includes(t)` holds exactly when `t` occurs in `s` at some position as a contiguous substring |
| Lists.Lookup | src/shared/SettingsManager.js:29-31 | the own-key lookup itself; its contract is the definition, and the properties are proved about its users (`SharedSettings.SettingsManager.Get`, `MentionFilterSrc.ConfigOf`) |
| Scopes.WithIds | MentionFilter/MentionFilter.plugin.js:166 | `this[filter][type] = ids` replaces the list of one scope and leaves the other two alone |
| Scopes.ScopeQuery | MentionFilter/MentionFilter.plugin.js:200-201 | the context-menu query `{[type + "Id"]: id}` supplies the id for its own scope and null for the others |
| Scopes.Listed | MentionFilter/MentionFilter.plugin.js:173-179 | the body of `isWhitelisted` / `isBlacklisted`: empty lists list nothing, and a query with no ids is never listed |
| Scopes.Added | MentionFilter/MentionFilter.plugin.js:155-157 | the list part of `addToFilter`: the id is then in its list, that list's multiset grows by the id only if it was absent, and the other scopes are unchanged |
| Scopes.Removed | MentionFilter/MentionFilter.plugin.js:164-166 | the list part of `removeFromFilter`: no copy of the id is left, every other id keeps its count, and the other scopes are unchanged |
| Scopes.ListedIff | MentionFilter/MentionFilter.plugin.js:173-179 | `isWhitelisted` / `isBlacklisted` hold exactly when some supplied, non-empty id is in the list of its own scope |
| Scopes.AddedContents | MentionFilter/MentionFilter.plugin.js:155-157 | after `addToFilter` the id is in its list: once if it was absent, as often as before otherwise; other ids and other scopes are unchanged |
| Scopes.RemovedContents | MentionFilter/MentionFilter.plugin.js:164-166 | after `removeFromFilter` no copy of the id is left; other ids keep their counts and other scopes are unchanged |
| Scopes.ToggleFlips | MentionFilter/MentionFilter.plugin.js:199-224 | the context-menu toggle (remove if listed, add otherwise) flips the entity's membership for any non-empty id |
| Mentions.RecordIndex | MentionFilter/MentionFilter.plugin.js:137-138 | `suppressed.findIndex(s => s.messageId === id)` is negative exactly when no record is about message `id` |
| Mentions.Apply | MentionFilter/MentionFilter.plugin.js:133-148 | the change to one message: only `mentions` and `mentioned` can change; skip changes nothing; suppress clears `mentioned` and removes one mention of the user; force keeps `mentioned` and every mention and leaves the user mentioned |
| Mentions.Record | MentionFilter/MentionFilter.plugin.js:135-141 | the change to `suppressed`: it only appends, at most one record, and it appends exactly when the message was suppressed while it mentioned the user and had no record; the record is `{message.id, message.author.id}` |
| Mentions.Run | MentionFilter/MentionFilter.plugin.js:112-152 | the loop over a batch keeps its length and only appends to `suppressed` |
| Mentions.RunMessages | MentionFilter/MentionFilter.plugin.js:112-152 | each message of a batch comes out as the action decided for it made it |
| Mentions.RunStep | MentionFilter/MentionFilter.plugin.js:112 | messages are handled left to right: one more message processes it after all the earlier ones |
| Mentions.DropUser | MentionFilter/MentionFilter.plugin.js:160 | `suppressed.filter(s => !(s.userId === id))` keeps exactly the records of other users and keeps message ids unique |
| Mentions.SuppressEffect | MentionFilter/MentionFilter.plugin.js:133-136 | suppressing clears `mentioned` and splices out only the first mention of the user, with the others in order; nothing else changes |
| Mentions.ForceEffect | MentionFilter/MentionFilter.plugin.js:144-148 | forcing leaves a message that mentions the user as it is; otherwise it appends the user, who is then mentioned exactly once |
| Mentions.RecordEffect | MentionFilter/MentionFilter.plugin.js:135-141 | a record is pushed exactly when a mention was spliced out and the message had no record; ids stay unique and a suppressed message has its record |
| Mentions.RunKeepsUnique | MentionFilter/MentionFilter.plugin.js:137-141 | a whole batch never puts two records for one message in `suppressed` |
| Mentions.RecordHas | MentionFilter/MentionFilter.plugin.js:137-141 | after one message, a record for an id exists exactly when it existed before or that message was suppressed with a mention to splice |
| Mentions.SuppressedInSnoc | MentionFilter/MentionFilter.plugin.js:112 | a message suppressed in a batch was suppressed among the earlier messages or is the last one |
| Mentions.RunRecordsExactly | MentionFilter/MentionFilter.plugin.js:112-152 | after a batch, a message has a record exactly when it had one before or it was suppressed in the batch while it mentioned the user |
| Mentions.RunRecordsSound | MentionFilter/MentionFilter.plugin.js:140 | every record a batch adds is `{message.id, message.author.id}` of a suppressed message of the batch that mentioned the user |
| Mentions.RunAllSkipped | MentionFilter/MentionFilter.plugin.js:149-150 | a batch in which every message is skipped is returned unchanged, and so is `suppressed` |
| MentionFilterV1.FilteredOut | MentionFilter/MentionFilter.plugin.js:115-128 | the scope check: it never holds back with a filter value other than 1 or 2; an empty whitelist holds back nothing; an empty blacklist holds back every message |
| MentionFilterV1.Decide | MentionFilter/MentionFilter.plugin.js:113-150 | the gating of one message: it acts only on a message that mentions the user and is not a manual ping it must let through, never on one the scope check holds back, suppresses only in mode 1 and forces only in mode 2 |
| MentionFilterV1.MentionFilter.constructor | MentionFilter/MentionFilter.plugin.js:85-104 | default settings (disable mention, suppress mode, no scope filter, no manual pings), no records, empty lists |
| MentionFilterV1.MentionFilter.MessageInterceptor | MentionFilter/MentionFilter.plugin.js:106-153 | a non-message event changes nothing; otherwise the batch and `suppressed` become `Run` of the revision's `Decide`, and message ids in `suppressed` stay unique |
| MentionFilterV1.MentionFilter.FilterMessage | MentionFilter/MentionFilter.plugin.js:113-151 | the loop body with its `continue`s and `switch` gives the message and `suppressed` that `Apply` and `Record` give for `Decide`'s decision |
| MentionFilterV1.MentionFilter.AddToFilter | MentionFilter/MentionFilter.plugin.js:155-162 | nothing changes if the id is listed; otherwise it is appended, the lists are saved once, and for a user their records are dropped |
| MentionFilterV1.MentionFilter.RemoveFromFilter | MentionFilter/MentionFilter.plugin.js:164-171 | nothing changes if the id is absent; otherwise every copy goes, the lists are saved once, and for a user their records are dropped |
| MentionFilterV1.MentionFilter.IsWhitelisted | MentionFilter/MentionFilter.plugin.js:173-175 | true exactly when some supplied id of the query is on the whitelist of its scope |
| MentionFilterV1.MentionFilter.IsBlacklisted | MentionFilter/MentionFilter.plugin.js:177-179 | true exactly when some supplied id of the query is on the blacklist of its scope |
| MentionFilterV1.RemoveInterceptor | MentionFilter/MentionFilter.plugin.js:21-28 | removes only the first interceptor named `name` or `bound name`, if there is one, and returns the list |
| MentionFilterV1.NotMentionedUntouched | MentionFilter/MentionFilter.plugin.js:113 | a message that does not mention the current user is left untouched and adds no record |
| MentionFilterV1.ManualPingUntouched | MentionFilter/MentionFilter.plugin.js:114 | with manual pings allowed, a message whose text holds `<@user>` is left untouched in every mode |
| MentionFilterV1.ScopeFilterSkips | MentionFilter/MentionFilter.plugin.js:115-128 | whitelist scope with a whitelisted author, channel or guild, or blacklist scope with none of them blacklisted: the message is skipped in every mode |
| MentionFilterV1.SuppressModeEffect | MentionFilter/MentionFilter.plugin.js:133-141 | in suppress mode a message that passes is unflagged, loses exactly its first mention of the user, and is recorded only if it had no record |
| MentionFilterV1.ForceModeInert | MentionFilter/MentionFilter.plugin.js:144-148 | in this revision force mode never changes a message, because line 113 has already skipped every message that lacks the mention |
| MentionFilterV1.DefaultModeInert | MentionFilter/MentionFilter.plugin.js:149-150 | a mode other than 1 or 2 changes neither the batch nor `suppressed` |
| MentionFilterV1.SuppressBatchRecordsOnce | MentionFilter/MentionFilter.plugin.js:113-141 | in suppress mode with no list scope (a filter value other than 1 or 2), every message of a batch that mentions the user and is not a manual ping the settings let through gets a record, and none gets two, even if it arrives twice |
| MentionFilterSrc.Truthy | src/plugins/MentionFilter/index.jsx:58 | JavaScript truthiness of a setting: present and not `false`, `0` or the empty string |
| MentionFilterSrc.ConfigOf | src/plugins/MentionFilter/index.jsx:48-50 | the three settings the interceptor reads are present exactly when the settings manager holds them |
| MentionFilterSrc.Concerns | src/plugins/MentionFilter/index.jsx:53-57 | a message that mentions the user is looked at; one that does not is looked at only when it replies to one of the user's messages |
| MentionFilterSrc.SuppressHeldBack | src/plugins/MentionFilter/index.jsx:74 | the suppress-mode scope check: it never holds back with a filter value other than the number 1 or 2, and with an empty blacklist it holds back every message |
| MentionFilterSrc.ForceHeldBack | src/plugins/MentionFilter/index.jsx:88 | the force-mode scope check: it never holds back with a filter value other than the number 1 or 2, and with a list scope it holds back exactly what suppress mode's check lets through |
| MentionFilterSrc.Decide | src/plugins/MentionFilter/index.jsx:53-94 | the gating of one message: it acts only on a message that concerns the user and is not a manual ping it must let through; it suppresses only in mode 1 past the suppress check, and forces only in mode 2 past the force check |
| MentionFilterSrc.MentionFilter.constructor | src/plugins/MentionFilter/index.jsx:27-41 | a fresh settings manager over the plugin's panel and loaded values, no records, empty lists |
| MentionFilterSrc.MentionFilter.MessageInterceptor | src/plugins/MentionFilter/index.jsx:43-97 | a non-message event changes nothing; otherwise the settings are read once and the batch and `suppressed` become `Run` of this revision's `Decide`, with unique record ids |
| MentionFilterSrc.MentionFilter.FilterMessages | src/plugins/MentionFilter/index.jsx:52-96 | the loop over the batch, with the settings read before it, changes the messages in place and `suppressed` as `Run` of `Decide` does, and keeps record ids unique |
| MentionFilterSrc.MentionFilter.FilterMessage | src/plugins/MentionFilter/index.jsx:52-96 | the loop body with its `continue`s, `switch` and `break`s gives the message and `suppressed` that `Apply` and `Record` give for `Decide`'s decision |
| MentionFilterSrc.MentionFilter.AddToFilter | src/plugins/MentionFilter/index.jsx:99-106 | nothing changes if the id is listed; otherwise it is appended, the lists are saved once, and for a user their records are dropped |
| MentionFilterSrc.MentionFilter.RemoveFromFilter | src/plugins/MentionFilter/index.jsx:108-115 | nothing changes if the id is absent; otherwise every copy goes, the lists are saved once, and for a user their records are dropped |
| MentionFilterSrc.MentionFilter.IsWhitelisted | src/plugins/MentionFilter/index.jsx:117-123 | true exactly when some supplied id of the query is on the whitelist of its scope |
| MentionFilterSrc.MentionFilter.IsBlacklisted | src/plugins/MentionFilter/index.jsx:125-131 | true exactly when some supplied id of the query is on the blacklist of its scope |
| MentionFilterSrc.RemoveInterceptor | src/plugins/MentionFilter/index.jsx:17-24 | removes only the first interceptor named `name` or `bound name`, if there is one, and returns the list |
| MentionFilterSrc.UnconcernedUntouched | src/plugins/MentionFilter/index.jsx:53-57 | a message that neither mentions the user nor replies to one of the user's messages is left untouched |
| MentionFilterSrc.ManualPingUntouched | src/plugins/MentionFilter/index.jsx:58 | with manual pings allowed (truthy), a message whose text holds `<@user>` is left untouched in every mode |
| MentionFilterSrc.SuppressGating | src/plugins/MentionFilter/index.jsx:72-74 | in suppress mode a message is suppressed exactly when it is not (whitelist scope and whitelisted) and not (blacklist scope and not blacklisted); otherwise it is untouched |
| MentionFilterSrc.ForceGating | src/plugins/MentionFilter/index.jsx:87-88 | in force mode a message is forced exactly when it is not (whitelist scope and not whitelisted) and not (blacklist scope and blacklisted); otherwise it is untouched |
| MentionFilterSrc.OppositePolarity | src/plugins/MentionFilter/index.jsx:74-88 | with a whitelist or blacklist scope, force mode holds back exactly the messages that suppress mode lets through; with no scope, neither mode holds any back |
| MentionFilterSrc.ReplyOnlySuppression | src/plugins/MentionFilter/index.jsx:75-85 | a suppressed reply that does not mention the user only has `mentioned` cleared, and no record is added |
| MentionFilterSrc.SuppressModeEffect | src/plugins/MentionFilter/index.jsx:75-85 | suppressing a message that mentions the user clears `mentioned`, splices out exactly the first mention, and records the message only if it had no record |
| MentionFilterSrc.ForceModeEffect | src/plugins/MentionFilter/index.jsx:89-91 | a forced message that lacks the mention is a reply to the user and gets the user appended exactly once; a message that has the mention is unchanged |
| MentionFilterSrc.ForceModeActs | src/plugins/MentionFilter/index.jsx:87-92 | unlike in 1.0.0, force mode does act: a reply to the user's message gets the user mentioned |
| MentionFilterSrc.DefaultModeInert | src/plugins/MentionFilter/index.jsx:93-94 | a mode other than the number 1 or 2, or no mode at all, changes neither the batch nor `suppressed` |
| MentionFilterSrc.SuppressBatchRecordsOnce | src/plugins/MentionFilter/index.jsx:53-84 | in suppress mode with no list scope (a filter value other than the number 1 or 2, such as the panel's 0), every message of a batch that mentions the user and is not a manual ping the settings let through gets a record, and none gets two |
| SuppressReplyMentions.Assign | SuppressReplyMentions/SuppressReplyMentions.plugin.js:111 | `Object.assign(settings, stored)` over the three fields; its contract is the definition: each stored field replaces the current one and the others stay |
| SuppressReplyMentions.Processed | SuppressReplyMentions/SuppressReplyMentions.plugin.js:82-108 | the message after the interceptor: only `mentions` can change, a message the interceptor does not consider is unchanged, and a changed message replies to the user in mode 1 or 2 |
| SuppressReplyMentions.Logged | SuppressReplyMentions/SuppressReplyMentions.plugin.js:95-98 | what is pushed onto `suppressed`: nothing or the message id, and the id only when a mention was spliced out |
| SuppressReplyMentions.SuppressReplyMentions.constructor | SuppressReplyMentions/SuppressReplyMentions.plugin.js:15-21 | the module state starts with the current user, no suppressed ids, and the default settings |
| SuppressReplyMentions.SuppressReplyMentions.LoadSettings | SuppressReplyMentions/SuppressReplyMentions.plugin.js:111 | the stored settings are laid over the current ones |
| SuppressReplyMentions.SuppressReplyMentions.MessageInterceptor | SuppressReplyMentions/SuppressReplyMentions.plugin.js:82-108 | the returned message and the new `suppressed` are those that `Processed` and `Logged` give for the event |
| SuppressReplyMentions.RemoveInterceptor | SuppressReplyMentions/SuppressReplyMentions.plugin.js:23-30 | removes only the first interceptor whose name is exactly `value`, if there is one, and returns the list |
| SuppressReplyMentions.RemoveInterceptorEffect | SuppressReplyMentions/SuppressReplyMentions.plugin.js:23-30 | at most one interceptor goes, the first with that name; the others keep their order |
| SuppressReplyMentions.OnlyNewReplies | SuppressReplyMentions/SuppressReplyMentions.plugin.js:83-84 | anything other than a MESSAGE_CREATE event whose message has a referenced message is left untouched, and nothing is recorded |
| SuppressReplyMentions.ManualPingUntouched | SuppressReplyMentions/SuppressReplyMentions.plugin.js:86-89 | with manual pings allowed, a reply whose text holds `<@user>` is left untouched |
| SuppressReplyMentions.SuppressModeEffect | SuppressReplyMentions/SuppressReplyMentions.plugin.js:94-99 | in suppress mode a reply changes exactly when it replies to the user and mentions them; then only the first mention goes, `mentioned` stays, and the id is recorded |
| SuppressReplyMentions.ForceModeEffect | SuppressReplyMentions/SuppressReplyMentions.plugin.js:100-104 | in force mode a reply changes exactly when it replies to the user without mentioning them; then the user is appended once and nothing is recorded |
| SuppressReplyMentions.OtherModeInert | SuppressReplyMentions/SuppressReplyMentions.plugin.js:105-106 | any other mode value changes nothing |
| SuppressReplyMentions.RepeatedIds | SuppressReplyMentions/SuppressReplyMentions.plugin.js:95-98 | records are not deduplicated: a reply delivered twice is recorded twice, and a reply with two mentions of the user is recorded again on a second pass |
| FileViewer.BaseUrl | FileViewer/FileViewer.plugin.js:22-32 | each category's viewer address is non-empty, so a lookup hit is truthy |
| FileViewer.Insert | FileViewer/FileViewer.plugin.js:34 | the `forEach` adds every extension with the base URL and keeps the other keys' values |
| FileViewer.Reduce | FileViewer/FileViewer.plugin.js:20-38 | the `reduce` keeps every key of its accumulator, and if every value was a viewer base URL, every value still is |
| FileViewer.ExtensionSources | FileViewer/FileViewer.plugin.js:20-38 | every value of the table is one of the three viewer base URLs, so none is empty |
| FileViewer.ReduceKeys | FileViewer/FileViewer.plugin.js:20-38 | after the `reduce`, a key is present exactly when it was in the start map or some entry lists it |
| FileViewer.ReduceValue | FileViewer/FileViewer.plugin.js:20-38 | a listed key maps to the base URL of the last entry that lists it |
| FileViewer.ReduceUnlisted | FileViewer/FileViewer.plugin.js:20-38 | a key that no entry lists keeps its start value |
| FileViewer.ListsDisjoint | FileViewer/FileViewer.plugin.js:14-18 | no extension is listed under two categories |
| FileViewer.ListedArePlain | FileViewer/FileViewer.plugin.js:14-18 | no listed extension holds a dot or a slash |
| FileViewer.ExtensionSourcesKeys | FileViewer/FileViewer.plugin.js:14-38 | the table holds exactly the office, google and object extensions |
| FileViewer.ExtensionSourcesValues | FileViewer/FileViewer.plugin.js:14-38 | each listed extension maps to its own category's base URL |
| FileViewer.ExtensionSourcesContents | FileViewer/FileViewer.plugin.js:14-38 | the table holds exactly the listed extensions, each mapped to its category's base URL |
| FileViewer.BuildExtensionSources | FileViewer/FileViewer.plugin.js:20-38 | the nested loops of the `reduce` and `forEach` build exactly the table |
| FileViewer.LowerChar | FileViewer/FileViewer.plugin.js:46 | `toLowerCase` maps each ASCII capital to its small letter and leaves every other character alone |
| FileViewer.ToLower | FileViewer/FileViewer.plugin.js:46 | `toLowerCase` as a per-character map; its contract is the definition (length kept, each character lowered), and `FileViewer.CaseInsensitive` uses it |
| FileViewer.AfterLastDot | FileViewer/FileViewer.plugin.js:46 | `split(".").pop()` is a dot-free suffix that follows the last dot, or the whole string when there is no dot |
| FileViewer.Extension | FileViewer/FileViewer.plugin.js:46 | the extension looked up holds no dot and is no longer than the pathname |
| FileViewer.AfterLastDotOf | FileViewer/FileViewer.plugin.js:46 | the text after the last dot of `front.ext` is `ext`, whatever `front` holds |
| FileViewer.ExtensionOf | FileViewer/FileViewer.plugin.js:46 | the looked-up extension of `front.ext` is `ext` lower-cased |
| FileViewer.GetSourceUrl | FileViewer/FileViewer.plugin.js:45-49 | `getSourceUrl`: a viewer address exists only for an extension in the table, and it is longer than the url and ends with it |
| FileViewer.GetSourceUrlSpec | FileViewer/FileViewer.plugin.js:45-49 | there is a viewer address exactly when the lower-cased extension is listed, and it is the category's base URL followed by the unchanged url |
| FileViewer.CaseInsensitive | FileViewer/FileViewer.plugin.js:46 | pathnames that differ only in letter case get the same result |
| FileViewer.NoDotNoViewer | FileViewer/FileViewer.plugin.js:46-48 | a `/`-rooted pathname without a dot gets null |
| FileViewer.LastDotUpperCase | FileViewer/FileViewer.plugin.js:46-48 | only the text after the last dot counts, after lower-casing: `Report.v2.PDF` opens in the pdf viewer |
| FileViewer.FileViewerComponent.constructor | FileViewer/FileViewer.plugin.js:95-96 | the preview starts hidden |
| FileViewer.FileViewerComponent.HandleClick | FileViewer/FileViewer.plugin.js:98-100 | a click flips `isShown` |
| FileViewer.FileViewerComponent.Iframe | FileViewer/FileViewer.plugin.js:84-93 | nothing is rendered while hidden; when shown, the iframe's `src` is the viewer address, which may be null |
| FileViewer.ClickTwice | FileViewer/FileViewer.plugin.js:98-100 | two clicks restore both the state and what is rendered |
| SharedSettings.FromEntries | src/shared/SettingsManager.js:5-11 | `Object.fromEntries`: the keys are the ids, and each id maps to the value of its last entry |
| SharedSettings.Leaves | src/shared/SettingsManager.js:6-10 | the `flatMap` flattening of the panel; its contents are stated by `LeavesContents` |
| SharedSettings.LeavesContents | src/shared/SettingsManager.js:6-10 | the flattened panel holds every setting of every entry, at top level or inside a category, and nothing else |
| SharedSettings.LeavesIds | src/shared/SettingsManager.js:6-10 | an id is among the flattened ids exactly when some panel entry contributes it, itself or inside its category |
| SharedSettings.Defaults | src/shared/SettingsManager.js:5-11 | the defaults have a key for every setting of every entry of the panel |
| SharedSettings.DefaultsKeys | src/shared/SettingsManager.js:5-11 | the defaults have a key for every top-level setting and every setting one level inside a category, and no other keys |
| SharedSettings.DefaultsValues | src/shared/SettingsManager.js:5-11 | when ids are distinct, each setting's default is its own value |
| SharedSettings.UpdatePanel | src/shared/SettingsManager.js:22-27 | `updateSettingsPanel` keeps the panel's shape and ids and gives the first flattened entry with that id the value; an unknown id changes nothing |
| SharedSettings.UpdateLeaves | src/shared/SettingsManager.js:23-25 | `find` then `setting.value = value` on the flattened list: the ids stay, the first setting with the id holds the value, and every other setting is unchanged |
| SharedSettings.UpdateLeavesAppend | src/shared/SettingsManager.js:23-25 | `find` over a concatenation hits the first part when the id is there, and the second part otherwise |
| SharedSettings.LeavesCons | src/shared/SettingsManager.js:23-24 | flattening a panel is flattening its first entry followed by the rest |
| SharedSettings.SyncedLeaves | src/shared/SettingsManager.js:16-20 | syncing keeps the number of entries and their ids |
| SharedSettings.SyncStep | src/shared/SettingsManager.js:17-18 | one more `updateSettingsPanel(key, settings[key])` syncs one more key |
| SharedSettings.SyncedShows | src/shared/SettingsManager.js:13-20 | after a full sync the entry found for each key holds its current value, and entries whose ids are not keys keep their values |
| SharedSettings.SyncedDistinct | src/shared/SettingsManager.js:16-20 | with distinct ids, every entry whose id is a key holds that key's value after a sync |
| SharedSettings.SettingsManager.constructor | src/shared/SettingsManager.js:2-14 | the defaults come from the panel, loaded values override defaults key by key, and the panel is synced and shows every value |
| SharedSettings.SettingsManager.SyncSettingsPanel | src/shared/SettingsManager.js:16-20 | the loop over the keys leaves the panel synced with every key |
| SharedSettings.SettingsManager.UpdateSettingsPanel | src/shared/SettingsManager.js:22-27 | the panel becomes `UpdatePanel` of the old panel |
| SharedSettings.SettingsManager.Get | src/shared/SettingsManager.js:29-31 | a value exactly for the keys that are set, and then the current value |
| SharedSettings.SettingsManager.Set | src/shared/SettingsManager.js:33-37 | `get(key)` is then the new value and every other key is unchanged; one save; the matching panel entry is updated and the panel still shows every value |
| SharedSettings.SetKeepsShown | src/shared/SettingsManager.js:33-37 | setting a key and updating the panel with it keeps every current value shown in the panel |

## Left out

- Rendering is not modelled. This covers the suppressed-mention marker, the settings panels, the context-menu items as elements, the tooltips, the icons and the iframe markup. It is user interface only.
- Patching the host is not modelled. This covers `Patcher.before` and `Patcher.after`, `ContextMenu.patch`, `Utils.findInTree` and the webpack module lookups. These are foreign calls into the host's undocumented objects, so the reply-box patch that reads `disableMention` is left out.
- Storage is not modelled. `Data.load` becomes a constructor or method argument. `Data.save` becomes the ghost counter `saves`.
- `start()` is not modelled. This covers the changelog check against the stored version, the loading of the lists, and the registration of the interceptor.
- The settings panels of 1.0.0 and SuppressReplyMentions are not modelled. These panels write `settings` fields from the user interface. `settings` is a plain field that the interceptor reads.
- The current user is an id passed to the interceptor. `UserStore` is a host store.
- In `src/`, the plugin's `config.json` (its panel layout and changelog) is not part of this model. The panel is a constructor argument.
- `new URL(url).pathname` is a host library call. The pathname is an input next to the url.
- FileViewer.LowerChar: only ASCII letters are lower-cased. The source's `toLowerCase` also folds the case of other Unicode letters.
- `Host.Message` always has `mentions`, an author and `content`, and a reply always has the author of the message it replies to. The source does not check for these. A payload without `mentions` throws a TypeError at `message.mentions.some` (MentionFilter/MentionFilter.plugin.js:113, src/plugins/MentionFilter/index.jsx:54). A payload without `author` throws at `message.author.id` (MentionFilter/MentionFilter.plugin.js:118, src/plugins/MentionFilter/index.jsx:61). A referenced message without `author` throws at `message?.referenced_message?.author.id` (src/plugins/MentionFilter/index.jsx:55). The model assumes complete messages, so it never skips a message or stops a batch for these reasons.
- SharedSettings.SettingsManager.Get: only keys that were set have a value. `this.settings[key]` (src/shared/SettingsManager.js:30) also returns members inherited from `Object.prototype` for keys such as `toString` or `constructor`. `Lists.Lookup` has the same limit.
- FileViewer.GetSourceUrl: only the table's own keys are looked up. A JavaScript lookup also finds keys inherited from `Object.prototype`, such as `constructor`, so a pathname ending in `.constructor` gets a non-null result in the source.
- The `filter` and `type` arguments of `addToFilter` and `removeFromFilter` are enums (`ListKind`, `Scope`). The source's strings are always one of these, because the context menu builds them.
- The batch is an `array<Message>` that the interceptor updates in place. In the source, messages are objects whose `mentions` arrays are spliced in place. Aliasing between two messages that share one `mentions` array is not modelled.
- The SuppressReplyMentions interceptor returns the changed message instead of mutating its argument.
- A mention is the user's id. The source stores user objects and compares their `id`s. Force mode pushes the whole current-user object.
- `SharedSettings.SettingsManager`: a panel nests settings one level deep, in categories, which is what the source's `flatMap` handles. The panel is a value that methods reassign, so the aliasing between the panel and the caller's `config.settings` object is not modelled.
- `MentionFilterSrc.SettingValue` covers booleans, numbers and strings. Number settings are integers, so NaN and fractions are not modelled.

Where the code departs from what the plugins' own texts say, the model follows the code:
- 1.0.0 offers a "Force Mentions" mode (MentionFilter/MentionFilter.plugin.js:254). It never acts, because line 113 has already skipped every message that lacks the mention (`MentionFilterV1.ForceModeInert`). The scope check at lines 115-128 also uses the suppress polarity in force mode.
- In the rewrite, "Suppress Mentions" on a reply that does not mention the user clears `mentioned` and records nothing (src/plugins/MentionFilter/index.jsx:75-77; `MentionFilterSrc.ReplyOnlySuppression`). The "Mention Suppressed" marker is drawn only for messages with a record (line 227), so such a reply never gets it.
- SuppressReplyMentions pushes a message id every time it splices a mention out of that message (SuppressReplyMentions/SuppressReplyMentions.plugin.js:95-98), with no check for an earlier record (`SuppressReplyMentions.RepeatedIds`). MentionFilter makes that check (MentionFilter/MentionFilter.plugin.js:137-141).
