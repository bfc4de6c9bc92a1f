# TopMusicaLivePix — a Dafny model of the donation pipeline

TopMusicaLivePix turns LivePix donations into live-stream actions. A webhook body is checked,
the donation is extracted from it (status gate, amount, sender, message) and given a stable id.
A rule set then decides which actions the donation triggers: play or queue a YouTube track,
send Minecraft RCON commands, open a URL, play a sound. Each action runs behind a cooldown,
and the application state keeps the recent donations, the top donation, the music queue and
the player status. The same server keeps a moderation store (blocked senders and keywords),
an audit log with queries, a summary and a sender ranking, and a guarded outbound webhook
sender.

This project models that core in Dafny and proves what each part promises. Pure code is
written as functions with lemmas. Code that updates objects in place is written as classes
whose methods are proved against specification functions.

| module | file | models |
|---|---|---|
| `Opt`, `Text`, `Seqs`, `Records` | opt.dfy, text.dfy, seqs.dfy, records.dfy | option values, string helpers (trim, lower case, substrings), generic sequence folds, grouping and a stable sort, and the records shared by the other modules |
| `Js` | js.dfy | the JavaScript values the code handles (`undefined`, `null`, booleans, numbers, strings, arrays, objects), truthiness, `||`, `String(x)` and `Number(x)` |
| `Utils` | utils.dfy | `src/utils.js` |
| `Rules` | rules.dfy | `src/rules.js` |
| `State` | state.dfy | `AppState` in `src/state.js` |
| `Cooldowns` | cooldowns.dfy | `Cooldowns` in `src/cooldowns.js` |
| `Moderation` | moderation.dfy | `src/moderation.js` |
| `Audit` | audit.dfy | `src/audit.js` |
| `LivePix` | livepix.dfy | `src/livepix.js` |
| `Music` | music.dfy | `MusicManager` in `src/actions/music.js` |
| `OutboundWebhook` | outbound_webhook.dfy | `src/actions/outboundWebhook.js` up to the fetch |
| `Dispatcher` | dispatcher.dfy | `executeAction` and `processDonation` in `src/index.js` |
| `Webhook` | webhook.dfy | `handleLivePixWebhookEvent` in `src/index.js` up to the API lookup |

The environment is passed in as parameters:
- the clock (`now`) and fresh ids (`newId`);
- the regular-expression compiler and the URL parser;
- the RCON client's replies;
- whether LivePix API credentials are configured.

Broadcasts (`io.emit`) and `openUrl` calls are kept as ghost logs. File writes are not modelled (see "## Left out").

## Model

| member | source | states |
|---|---|---|
| Utils.ClampInt | src/utils.js:1-5 | input that does not parse as a base-10 integer gives the fallback; otherwise the result lies in [min, max] and is the parsed integer itself when that already lies in range |
| Utils.ClampIntOfInteger | src/utils.js:1-5 | an integer already within the bounds comes back unchanged |
| Utils.PathParts | src/utils.js:13-16 | every segment of a split dot path is non-empty and holds no dot |
| Utils.PathValue | src/utils.js:11-17 | a falsy path, or one with no non-blank segment, yields undefined |
| Utils.WalkAppend | src/utils.js:19-24 | walking the segments a + b is walking b from where a ends |
| Utils.WalkStopsAtNullish | src/utils.js:20-22 | once a prefix of the path reaches null or undefined, the lookup yields undefined |
| Utils.WalkIntoArray | src/utils.js:20-23 | a numeric segment steps into an array's element and `length` reads its size, as `cur[p]` does |
| Utils.GetByPath | src/utils.js:11-25 | the loop over the segments computes the path lookup PathValue |
| Utils.WalkParts | src/utils.js:19-24 | the segment loop computes Walk |
| Utils.FirstDefinedOf | src/utils.js:27-32 | the result is never null: when nothing is defined it is undefined |
| Utils.FirstDefinedIsFirst | src/utils.js:27-32 | the first argument that is neither null nor undefined is the result |
| Utils.FirstDefinedNone | src/utils.js:27-32 | when every argument is null or undefined the result is undefined |
| Utils.FirstDefined | src/utils.js:27-32 | the loop returns FirstDefinedOf of its arguments |
| Utils.CommaToPoint | src/utils.js:37 | only the first comma becomes a point; the length is kept and a string without a comma is unchanged |
| Utils.AsNumber | src/utils.js:34-42 | a number passes through, a string is read by parseFloat after trimming and turning its first comma into a point, anything else gives no number |
| Utils.AsNumberOfDigits | src/utils.js:34-42 | the decimal text of a natural number reads back as that number |
| Utils.AsNumberOfDecimalComma | src/utils.js:37-38 | a decimal comma reads exactly as a decimal point ("12,5" as "12.5") |
| Utils.NormalizeText | src/utils.js:44-49 | the result is lower case, its whitespace is single ASCII spaces and it neither starts nor ends with whitespace |
| Utils.NormalizeTextIdempotent | src/utils.js:44-49 | normalising normalised text changes nothing |
| Utils.UrlRun | src/utils.js:53 | the run taken after the scheme is the longest one free of whitespace and `<>()` |
| Utils.SchemeMatchAt | src/utils.js:53 | a match of the schemed pattern starting at i ends after i, within the text |
| Utils.FirstSchemeMatch | src/utils.js:53 | the reported match is a match of the schemed pattern |
| Utils.FirstSchemeMatchIsLeftmost | src/utils.js:53 | no schemed match starts before the reported one, and none exists when nothing is reported |
| Utils.LastBoundary | src/utils.js:60 | the backtracking end of the `www.` match is the last word boundary in the allowed range, and there is none when nothing is found |
| Utils.WwwMatchAt | src/utils.js:60 | a `www.` match starting at i covers more than the prefix and stays within the text |
| Utils.FirstWwwMatch | src/utils.js:60 | the reported match is a match of the `www.` pattern |
| Utils.FirstWwwMatchIsLeftmost | src/utils.js:60 | no `www.` match starts before the reported one, and none exists when nothing is reported |
| Utils.StripTrailing | src/utils.js:56 | the result is a prefix of the input that does not end in trailing punctuation, and everything removed was trailing punctuation |
| Utils.StripKeepsPrefix | src/utils.js:56 | stripping never removes a character at or before the last non-punctuation character |
| Utils.ExtractedUrlShape | src/utils.js:51-66 | an extracted URL is non-empty, does not end in punctuation and starts with `http://` or `https://` in any case |
| Utils.ExtractFallsBackToWww | src/utils.js:59-65 | with no schemed URL in the text, a result exists exactly when a `www.` match exists, and it starts with `https://www` |
| Utils.ExtractPrefersSchemed | src/utils.js:53-57 | when a schemed URL occurs anywhere, the result is the leftmost schemed match with its trailing punctuation stripped |
| Utils.SchemedStripKeepsScheme | src/utils.js:53-57 | stripping a schemed match keeps its scheme and leaves a non-empty URL |
| Utils.WwwStripKeepsScheme | src/utils.js:60-63 | stripping a `www.` match behind `https://` keeps the `https://www` prefix |
| Utils.PathSegments | src/utils.js:74 | the non-empty pieces of a path hold no slash |
| Utils.QueryGet | src/utils.js:80 | a found query value belongs to a pair with the asked name |
| Utils.ParseYoutubeVideoId | src/utils.js:68-94 | an id is never empty; an unparsable URL gives none; on youtu.be it is the first path segment; on a youtube.com host, `/watch` gives the non-empty `v` parameter and any other path gives the second segment exactly when the first is shorts, live or embed; no other host gives an id |
| Utils.LowerHosts | src/utils.js:101 | each allow-list entry is lowered pointwise |
| Utils.IsWhitelistedUrl | src/utils.js:96-106 | true exactly when the URL is non-empty, parses, the list is an array and some entry equals the host ignoring case |
| Cooldowns.NonPositiveWindowAllows | src/cooldowns.js:10-11 | a window of at most zero always lets the action run |
| Cooldowns.NonNumericWindowAllows | src/cooldowns.js:10-11 | a window that does not read as a number counts as 0 and lets the action run |
| Cooldowns.NeverMarked | src/cooldowns.js:14-15 | a key never marked counts as last run at time 0 |
| Cooldowns.AfterMark | src/cooldowns.js:13-20 | after a mark at t, a later check passes exactly when the window has elapsed since t |
| Cooldowns.MarkIsLocal | src/cooldowns.js:18-20 | marking one key leaves the answer for every other key unchanged |
| Cooldowns.Gate.constructor | src/cooldowns.js:2-4 | a new gate has no key marked |
| Cooldowns.Gate.CanRun | src/cooldowns.js:9-16 | the answer is the Allows rule on the current marks, the numeric window and the clock |
| Cooldowns.Gate.MarkRan | src/cooldowns.js:18-20 | the key's mark becomes `now` and no other mark changes |
| State.Admit | src/state.js:46-53 | the new donation comes first, the earlier ones follow in order, and the list is cut to the bound |
| State.NextTop | src/state.js:57-66 | after a donation there is always a top, worth at least the donation and at least the previous top; it changes only when the donation beats it strictly |
| State.TieKeepsTop | src/state.js:57 | a donation equal in value to the top does not replace it |
| State.TopMonotone | src/state.js:57-66 | over any run of donations the top value never drops and ends at least as large as every donation of the run |
| State.AppState.constructor | src/state.js:4-24 | a new state is empty: no donations, ids, top, music, player or timestamps, and it is valid |
| State.AppState.SeenIffListed | src/state.js:42-53 | a non-empty id counts as a re-delivery exactly while an entry with that id is still listed |
| State.AppState.RecordError | src/state.js:37-39 | the last error becomes the given id, time and message text; nothing else changes |
| State.AppState.AddDonation | src/state.js:41-69 | a re-delivered id changes nothing and reports a duplicate; a new one is admitted in front, the list is cut to the bound, the evicted non-empty ids leave the id set, the webhook time is set, the top is updated, and the result reports whether the top changed (with no `duplicate` field when it did); every id stays listed once |
| State.AppState.AdmitFront | src/state.js:46-47 | the donation is put in front and its id joins the set |
| State.AppState.Evict | src/state.js:48-53 | the pop loop leaves the admitted list and removes exactly the non-empty ids of the dropped entries |
| State.AppState.EvictedValid | src/state.js:48-53 | cutting the list keeps the state valid because listed ids are distinct |
| State.AppState.SetPlayerStatus | src/state.js:71-75 | only boolean parts are applied, the last-seen time is always set, and nothing else changes |
| State.AppState.SetMusicQueue | src/state.js:77-79 | the queue becomes the given one, and nothing else changes |
| State.AppState.SetMusicCurrent | src/state.js:81-83 | the current track becomes the given one, and nothing else changes |
| Moderation.CleanLabel | src/moderation.js:12-15 | a label has no whitespace at either end, and a falsy input gives the empty label |
| Moderation.NormalizeText | src/moderation.js:6-10 | the value is lower case with no whitespace at either end, and a falsy input gives `""`; the same function serves as `normalizeKey` in src/audit.js |
| Moderation.NormalizeTextIdempotent | src/moderation.js:6-10 | normalising a normalised value changes nothing |
| Moderation.CleanReason | src/moderation.js:17-21 | a reason is the trimmed text cut to its first 300 characters, and is the whole trimmed text when that is short enough |
| Moderation.ItemEntry | src/moderation.js:44-55 | a kept item's entry carries the item's normalised value and a reason of at most 300 characters |
| Moderation.NormalizedListIsNormalized | src/moderation.js:37-59 | a list read from disk has non-empty values, each value once |
| Moderation.NormalizeList | src/moderation.js:37-59 | the loop keeps, in order, the entry of the first item with each non-empty value, and gives nothing for a non-array |
| Moderation.Blocking | src/moderation.js:133-152 | an empty value fails with the missing reason, a listed value fails with `already_blocked`, and otherwise the entry (label falling back to the value, time `now`) is appended and returned |
| Moderation.BlockingKeepsNormalized | src/moderation.js:133-187 | blocking keeps values non-empty and unique; a success grows the list by exactly one, a failure leaves it as it was |
| Moderation.Without | src/moderation.js:159 | the filter keeps exactly the entries with another value, and shrinks the list exactly when the value was listed; WithoutAppend and WithoutOne give the order it keeps them in |
| Moderation.WithoutAppend | src/moderation.js:159 | filtering a concatenation filters each part and joins the results, so what is left keeps its list order |
| Moderation.WithoutOne | src/moderation.js:159 | a single entry stays exactly when its value differs from the removed one |
| Moderation.WithoutKeepsNormalized | src/moderation.js:159 | filtering keeps a list's values non-empty and unique |
| Moderation.Unblocking | src/moderation.js:154-166 | an empty value fails with the missing reason, an unlisted one with `not_found`, and otherwise the new list is the order-keeping filter `Without` of the old one, so every entry with the value is removed and only those |
| Moderation.Store.constructor | src/moderation.js:24-31 | a store without a file starts with both lists empty |
| Moderation.Store.Load | src/moderation.js:61-92 | a missing, blank or unreadable file leaves both lists empty; otherwise each list is the normalised list of its field, and the store stays valid |
| Moderation.Store.IsSenderBlocked | src/moderation.js:115-119 | an entry is found exactly when the normalised sender is non-empty and listed, and the entry found has that value |
| Moderation.Store.FindBlockedKeyword | src/moderation.js:121-131 | an empty normalised message matches nothing; otherwise the result is the first keyword entry whose value occurs in the message |
| Moderation.Store.ScanKeywords | src/moderation.js:125-130 | the loop returns the first keyword entry that occurs in the text |
| Moderation.FindValue | src/moderation.js:118 | an entry is found exactly when one with the key is listed, and it carries the key |
| Moderation.FirstKeywordHit | src/moderation.js:125-130 | the hit is the earliest entry with a non-empty value contained in the text, and no hit means no entry matches |
| Moderation.Store.BlockSender | src/moderation.js:133-152 | blocks the sender on the sender list alone, as Blocking states, keeping the store valid |
| Moderation.Store.UnblockSender | src/moderation.js:154-166 | unblocks on the sender list alone, as Unblocking states, keeping the store valid |
| Moderation.Store.BlockKeyword | src/moderation.js:168-187 | blocks the keyword on the keyword list alone, as Blocking states, keeping the store valid |
| Moderation.Store.UnblockKeyword | src/moderation.js:189-201 | unblocks on the keyword list alone, as Unblocking states, keeping the store valid |
| Audit.PositiveOr | src/audit.js:7-11 | a missing or non-positive count gives the fallback; a positive one is kept, capped at the maximum; the result is at least 1 when fallback and maximum are |
| Audit.AsPositiveIntOfInteger | src/audit.js:7-11 | on an integer the result is the fallback below 1 and the integer capped at the maximum otherwise |
| Audit.NormalizeName | src/audit.js:19-22 | a display name is never empty: the trimmed name, or `Anon` when that is blank |
| Audit.HoursOf | src/audit.js:128 | the report window is between 1 and 720 hours, 24 for an unreadable or zero count, the count itself within range, and clamped outside it |
| Audit.WindowHoursOfInteger | src/audit.js:128 | on an integer the window is 24 for 0, 1 below 1, 720 above 720 and the integer otherwise |
| Audit.ReplayedKeepsObjects | src/audit.js:48-65 | replay keeps at most the bound, and every kept event is a line of the file that parsed to an object |
| Audit.NewEntryFields | src/audit.js:82-87 | an appended entry has the fresh id and time unless the event's own fields override them; a non-object event is kept under `payload` |
| Audit.QueryResult | src/audit.js:98-125 | a query returns at most the limit, and only logged events that pass every non-empty filter |
| Audit.BumpAddsUp | src/audit.js:166-176 | counting an executed action keeps every total equal to ok + failed + skipped |
| Audit.SkippedWins | src/audit.js:167-175 | an action marked skipped counts as skipped even when it also reports ok; an action named after an `Object.prototype` member is not counted |
| Audit.InheritedNameNotCounted | src/audit.js:167-175 | a name `actionStats` inherits from `Object.prototype` already reads as truthy, so the action gets no counters of its own |
| Audit.TallyCounts | src/audit.js:141-164 | the donation count and value total sum the accepted in-window events; the blocked, duplicate and error counters count their in-window events |
| Audit.TallySenderSet | src/audit.js:150-151 | the set of senders is the key set of the accepted in-window events |
| Audit.TallySenders | src/audit.js:150-151 | a key is among the unique senders exactly when some accepted in-window event has that sender key |
| Audit.StepTop | src/audit.js:153-159 | one event replaces the top exactly when it is accepted in the window and is strictly larger, or there is no top yet |
| Audit.TallyTop | src/audit.js:141-160 | the summary's top donation is the first accepted in-window event of maximal value, and there is none when nothing was accepted |
| Audit.TallyStatsAddUp | src/audit.js:166-176 | every action's total is its ok, failed and skipped counts added up |
| Audit.AddRowStep | src/audit.js:214-226 | the loop body's row update is one AddRow step |
| Audit.CountDonation | src/audit.js:210-226 | one accepted donation updates its sender's row by the AddRow step |
| Audit.GroupRowsWellGrouped | src/audit.js:203-227 | the insertion order lists each sender key once, and exactly the keys with a row |
| Audit.GroupRowsSnoc | src/audit.js:205-227 | grouping one more donation is one more AddRow step |
| Audit.GroupKeys | src/audit.js:203-227 | a sender has a row exactly when some donation has its key |
| Audit.GroupTotals | src/audit.js:222-223 | each row counts and sums exactly that sender's donations |
| Audit.GroupSender | src/audit.js:221 | each row shows the name from that sender's latest donation |
| Audit.GroupLastAt | src/audit.js:224 | a row's last time is at least 0 and at least every one of its donation times, and is one of them unless it is 0 |
| Audit.RowsOf | src/audit.js:229 | the values of the map are listed in key order, each one a row of the map |
| Audit.RankingProps | src/audit.js:229-235 | the ranking has min(senders, limit) rows, ordered by total value, then count, then last time, all highest first; every row is a sender's row, and all rows are there when they fit the limit |
| Audit.Log.constructor | src/audit.js:25-33 | a new log is empty and its bound is the positive maximum from the option, at most 200000 |
| Audit.Log.Replay | src/audit.js:48-65 | the replay loop keeps the last `maxEvents` object lines in file order |
| Audit.Log.Append | src/audit.js:82-96 | the new entry is appended last, the oldest entries are dropped down to the bound, and the entry is returned |
| Audit.Log.Query | src/audit.js:98-125 | the result is, newest first, the passing events cut to the positive limit (at most 1000) |
| Audit.Log.Summary | src/audit.js:127-196 | the report counts, sums, unique senders, top donation and action statistics are those of the accepted and typed events in the window ending at `now` |
| Audit.Log.TopSenders | src/audit.js:198-236 | the result is the ranking of the sender rows grouped from the accepted in-window donations, cut to the positive limit (at most 100) |
| Rules.ParseDonationContext | src/rules.js:8-22 | the context holds the normalised message; a URL exactly when the first URL of the message is on the allow list; a video id only with a URL, and then the one parsed from it; and no new-top flag |
| Rules.IncludesKeyword | src/rules.js:24-28 | true exactly when the normalised keyword is non-empty and occurs in the normalised message |
| Rules.MatchRule | src/rules.js:30-71 | a rule matches exactly when it is an object not disabled and every present condition holds: minimum value, new-top flag, URL flag, any-keyword, all-keywords and a compiling regex that matches the message |
| Rules.BlankKeywordFailsAll | src/rules.js:53-58 | a blank keyword in `keywordsAll` makes the rule fail |
| Rules.BadRegexNeverMatches | src/rules.js:60-68 | a non-blank pattern that does not compile makes the rule fail rather than throw |
| Rules.ChannelOf | src/rules.js:73-78 | the channel is music exactly for a `music.` type, minecraft exactly for a `minecraft.` type, and system otherwise |
| Rules.MusicKindScore | src/rules.js:80-89 | play-now scores 2, enqueue 1, and every other type 0 |
| Rules.Stamp | src/rules.js:102-106 | a stamped action carries the rule's id (or `rule`) and priority (or 0) and keeps every other field of the action |
| Rules.StampedActionHasType | src/rules.js:101-106 | stamping keeps the action's truthy type |
| Rules.StampedPriority | src/rules.js:98-105 | a stamped action's priority is its rule's priority |
| Rules.CollectMembers | src/rules.js:95-108 | the collected actions are exactly the stamped well-formed actions of the rules that match |
| Rules.CollectedAreStamped | src/rules.js:95-108 | every collected action is an object with a type, stamped by a rule that matched |
| Rules.CollectMatched | src/rules.js:95-108 | the first loop computes the collected actions, in rule order |
| Rules.StampActions | src/rules.js:99-107 | the inner loop stamps each well-formed action of the rule, in order |
| Rules.ResolveStaysInChannel | src/rules.js:119-135 | the resolution of each channel only holds actions of that channel |
| Rules.ResolveChannels | src/rules.js:119-135 | the third loop yields each channel's resolution, channels in order of first appearance |
| Rules.ResolveChannel | src/rules.js:122-134 | one channel resolves to its best music action, or to all its actions sorted by priority |
| Rules.SortedGroupChannel | src/rules.js:119-138 | after the final sort each channel holds, as a multiset, the resolution of its collected actions |
| Rules.DecisionChannel | src/rules.js:91-141 | the decision's actions of each channel are, as a multiset, the resolution of that channel's matched actions |
| Rules.DecisionKeepsBestMusic | src/rules.js:122-130 | the decision keeps exactly one music action when any matched, the earliest of highest kind score and then highest priority, and none otherwise |
| Rules.DecisionKeepsOtherChannels | src/rules.js:132-134 | every matched action outside the music channel is kept, and nothing is added |
| Rules.DecisionOrder | src/rules.js:137-138 | the decision is sorted by priority, highest first, and actions of equal priority keep their grouped order |
| Rules.DecideActions | src/rules.js:91-141 | the method computes the decision of the rules for the donation and context |
| LivePix.UnitIsCaseInsensitive | src/livepix.js:7 | the unit name is read regardless of letter case |
| LivePix.UnitNames | src/livepix.js:7-9 | `cents` and `centavos` mean cents, `reais` and `brl` mean reais, and `auto` means auto |
| LivePix.NormalizeAmount | src/livepix.js:3-15 | there is an amount exactly when the value reads as a number, and it is that number or the number divided by 100: `cents`/`centavos` always divide by 100 and `reais`/`brl` keep the number |
| LivePix.AutoReadsWholeHundredsAsCents | src/livepix.js:11-13 | in auto mode a whole number of at least 100 is read as centavos |
| LivePix.AutoReadsTheRestAsReais | src/livepix.js:11-14 | in auto mode a fraction or a number below 100 is read as reais |
| LivePix.AmountBounds | src/livepix.js:3-15 | a non-negative amount stays non-negative and never grows, whatever the unit |
| LivePix.SecretHeadersComeFirst | src/livepix.js:18-22 | `x-webhook-secret`, then `x-livepix-secret`, then `x-hook-secret` win over every other source of the secret |
| LivePix.BearerToken | src/livepix.js:24-27 | without a secret header, an `authorization` header `Bearer <token>` (scheme in any case) yields the trimmed token |
| LivePix.QueryTokenBeforeSecret | src/livepix.js:29-30 | without headers, the query's `token` is read before its `secret` |
| LivePix.NothingProvided | src/livepix.js:17-33 | a request with none of the accepted forms provides the empty secret |
| LivePix.VerifyExactly | src/livepix.js:35-39 | no configured secret lets every request through; a configured string must equal the provided one exactly; a configured non-string never matches |
| LivePix.ProvidedSecretPasses | src/livepix.js:18-39 | the configured secret sent in `x-webhook-secret` passes the check |
| LivePix.NormalizeSender | src/livepix.js:41-49 | a sender name is never empty and has no whitespace at either end |
| LivePix.AnonymousSenders | src/livepix.js:41-48 | a falsy sender, a blank string and an object without a usable name are all `Anon` |
| LivePix.SenderOfObject | src/livepix.js:44-47 | an object sender is named by its first defined `name`, `fullName` or `username`, trimmed |
| LivePix.NormalizeSenderIdempotent | src/livepix.js:41-49 | normalising a normalised sender changes nothing |
| LivePix.NormalizeMessage | src/livepix.js:51-55 | a message is trimmed, and empty for null or undefined |
| LivePix.NormalizeMessageIdempotent | src/livepix.js:51-55 | normalising a normalised message changes nothing |
| LivePix.Configured | src/livepix.js:61 | an unset configured path reads nothing |
| LivePix.StatusOf | src/livepix.js:60-67 | the status is lower case and trimmed |
| LivePix.FirstAmountPicks | src/livepix.js:87-92 | the first candidate that is present and reads as an amount decides the amount |
| LivePix.FirstAmountNone | src/livepix.js:87-92 | the chain gives no amount exactly when no candidate is usable |
| LivePix.Decide | src/livepix.js:69-140 | an accepted donation carries the amount and status found, a trimmed message and a non-empty trimmed sender |
| LivePix.DecideStatusGate | src/livepix.js:69-72 | an accepted status is empty, unfiltered or listed; an unlisted one is rejected with `Ignored status=<status>` |
| LivePix.DecideMissingValue | src/livepix.js:104 | `Missing value` exactly when the status passes and no amount was found |
| LivePix.ScanCandidates | src/livepix.js:87-92 | the candidate loop returns the amount of the first usable candidate |
| LivePix.ExtractDonation | src/livepix.js:57-141 | the method computes DonationOf: status gate, amount chain, centavos fallback, message and sender chains |
| LivePix.StatusGate | src/livepix.js:60-72 | on whole bodies: an accepted donation's status passes the filter, and a filtered-out status is rejected with its reason |
| LivePix.MissingValue | src/livepix.js:87-104 | `Missing value` exactly when the status passes and neither the candidate chain nor the centavos fields give an amount |
| LivePix.ChainOrder | src/livepix.js:74-92 | the first usable candidate of the eight gives the accepted donation's value |
| LivePix.ValueFieldInReais | src/livepix.js:76-77 | without a configured value path, a numeric top-level `value` is the amount, in reais |
| LivePix.AcceptedFields | src/livepix.js:132-140 | an accepted donation has a trimmed message, a non-empty trimmed sender and a lower-case trimmed status |
| LivePix.InferredType | src/livepix.js:164-168 | the inferred type is `message`, `subscription` or empty, and trimmed |
| LivePix.RefOf | src/livepix.js:161-171 | a reference has a non-empty trimmed type and a non-empty trimmed id |
| LivePix.RefOfInferred | src/livepix.js:164-171 | with no type text, the inferred type and the trimmed id make the reference |
| LivePix.InferredMessage | src/livepix.js:143-171 | without any type field, a `messageId` names a `message` event with that id |
| LivePix.InferredSubscription | src/livepix.js:143-171 | without any type field or message id, a `subscriptionId` names a `subscription` event |
| LivePix.GivenType | src/livepix.js:161 | a given type is lower-cased and trimmed, and wins over the inference |
| LivePix.NoIdNoRef | src/livepix.js:152-170 | a body without any id field names no event |
| LivePix.ExternalIdOf | src/livepix.js:187-189 | an external id is non-empty and trimmed, and there is none exactly when the raw id is blank |
| LivePix.MessageIdIdentifies | src/livepix.js:143-190 | a non-blank `messageId` is both the external id and the id of the event reference |
| Music.BuildTrack | src/actions/music.js:40-57 | a track exists exactly when the context has a URL and a video id, and it carries them, the VIP flag and the donation's sender, value and message |
| Music.MusicManager.constructor | src/actions/music.js:5-9 | the manager works on the given state, and the interrupt behaviour defaults to `drop` |
| Music.MusicManager.OnPlayerConnected | src/actions/music.js:15-18 | the player is marked connected and seen now, the music is untouched, and one state update is broadcast |
| Music.MusicManager.OnPlayerDisconnected | src/actions/music.js:20-23 | the player is marked neither connected nor ready, the music is untouched, and one state update is broadcast |
| Music.MusicManager.PlayNext | src/actions/music.js:82-91 | the queue's head becomes current and leaves the queue, or nothing plays when the queue is empty; the interrupted track is gone; play or stop is broadcast, then the state |
| Music.MusicManager.OnPlayerReady | src/actions/music.js:25-38 | the player is marked ready; a current track is sent again; otherwise a non-empty queue starts on its head; the pending tracks stay the same |
| Music.MusicManager.PlayNow | src/actions/music.js:59-70 | a track plays at once; with `resume` the interrupted track returns to the front of the queue, otherwise the queue is unchanged; no track changes nothing |
| Music.MusicManager.Enqueue | src/actions/music.js:72-80 | the track joins the end of the pending tracks; a ready player with nothing playing starts on the queue's head; broadcasts `state:update`, then `music:play` and `state:update` when it starts playing; no track changes nothing |
| Music.MusicManager.Skip | src/actions/music.js:82-96 | the current track ends and the queue's head, if any, plays; broadcasts `music:play` with that head or `music:stop`, then `state:update` |
| Music.MusicManager.ClearQueue | src/actions/music.js:98-101 | the queue empties, the current track plays on, and one state update is broadcast |
| OutboundWebhook.KeyIndexIsFirst | src/actions/outboundWebhook.js:9 | the position found for a name is that of its first pair |
| OutboundWebhook.SetPropAppends | src/actions/outboundWebhook.js:9 | assigning a new name appends a pair at the end |
| OutboundWebhook.SetPropReplaces | src/actions/outboundWebhook.js:9 | assigning a name already present replaces its pair in place |
| OutboundWebhook.HeadersAreClean | src/actions/outboundWebhook.js:1-13 | the built header object has trimmed non-empty names, string values and no name twice |
| OutboundWebhook.StepKeeps | src/actions/outboundWebhook.js:5-10 | an entry that does not set a name leaves that header as it was |
| OutboundWebhook.LastKeptWins | src/actions/outboundWebhook.js:5-10 | the last kept entry whose trimmed name is the key decides that header's value, as `String(v)` |
| OutboundWebhook.StepSets | src/actions/outboundWebhook.js:5-10 | a kept entry sets its trimmed name to `String(v)` |
| OutboundWebhook.UnkeptIsAbsent | src/actions/outboundWebhook.js:6-8 | a name that no kept entry trims to is absent: blank names and names whose values were all null or undefined |
| OutboundWebhook.EmptyNameNeverSet | src/actions/outboundWebhook.js:6-7 | no header ever has an empty name |
| OutboundWebhook.NormalizeHeaders | src/actions/outboundWebhook.js:1-13 | the loop builds HeadersOf of the object's entries, and nothing for a non-object; a `__proto__` name, whose assignment sets no own property, is dropped |
| OutboundWebhook.ProtoNameNeverSet | src/actions/outboundWebhook.js:9 | no header is named `__proto__`: `out["__proto__"] = String(v)` reaches the prototype setter, which ignores a string |
| OutboundWebhook.IsHostAllowed | src/actions/outboundWebhook.js:15-28 | allowed exactly when the URL parses and the cleaned list holds `*` or the lowered host; an unparsable URL is refused |
| OutboundWebhook.AllowListMembers | src/actions/outboundWebhook.js:19-21 | a name is on the list exactly when it is non-empty and some array entry trims and lowers to it |
| OutboundWebhook.WildcardAllowsAll | src/actions/outboundWebhook.js:23 | a `*` entry, even with spaces around it, lets every parsable URL through |
| OutboundWebhook.HostMustMatchEntry | src/actions/outboundWebhook.js:24 | without a wildcard, the lowered host must equal one cleaned entry exactly; a suffix is not enough |
| OutboundWebhook.NonArrayRefuses | src/actions/outboundWebhook.js:19-21 | an allow-list that is not an array refuses everything |
| OutboundWebhook.TimeoutOf | src/actions/outboundWebhook.js:38 | the abort timer is never shorter than half a second |
| OutboundWebhook.DefaultTimeout | src/actions/outboundWebhook.js:38 | a missing, zero or non-numeric timeout is three seconds |
| OutboundWebhook.GivenTimeout | src/actions/outboundWebhook.js:38 | a non-zero numeric timeout is honoured, raised to 500 ms when below |
| OutboundWebhook.DistinctLastIsFirst | src/actions/outboundWebhook.js:43-46 | in an object with distinct names, spreading it over defaults gives each name its own value |
| OutboundWebhook.RequestHeaderLookup | src/actions/outboundWebhook.js:43-46 | the caller's headers override the default content type, which otherwise stays `application/json` |
| OutboundWebhook.LookupFindsKey | src/actions/outboundWebhook.js:43-46 | a name present with defined values is found |
| OutboundWebhook.Answer | src/actions/outboundWebhook.js:51-58 | a response gives ok, status and the body cut to 1000 characters; a throw gives its message as the reason |
| OutboundWebhook.PostJson | src/actions/outboundWebhook.js:30-62 | a blank URL is refused with `missing_url`, a host off the list with `host_not_allowed`, and otherwise the trimmed URL is posted and the answer returned |
| OutboundWebhook.GuardsPrecedeFetch | src/actions/outboundWebhook.js:31-35 | a refused call gives the same refusal whatever the network would do |
| OutboundWebhook.FetchedTargetAllowed | src/actions/outboundWebhook.js:30-56 | only a non-empty trimmed URL whose host is allowed is ever fetched, and the body returned is at most 1000 characters |
| Dispatcher.EntryOf | src/index.js:193-199 | a result carries its action's type, and a thrown error becomes a failure with the error's message |
| Dispatcher.KeyDefaultsToType | src/index.js:115 | an action without its own cooldown key shares the cooldown of its type |
| Dispatcher.OwnWindowWins | src/index.js:116-118 | a numeric `cooldownMs` on the action is the window, whatever the rules say |
| Dispatcher.RulesWindowApplies | src/index.js:116-119 | otherwise the rules' window for the type applies, and a missing or non-numeric one lets the action run |
| Dispatcher.SlotsOf | src/index.js:115-119 | each action is checked against its own key and window, in order |
| Dispatcher.MarkPersists | src/index.js:121-124 | an action that ran keeps its key marked at `now` for the rest of the donation |
| Dispatcher.SameKeyRunsOnce | src/index.js:121-124 | at the single clock reading the model uses for a whole donation, a later action under the same key with a positive window is skipped once an earlier one ran |
| Dispatcher.SoundsAreAdmitted | src/index.js:150-155 | every `sfx:play` the actions of a donation broadcast comes from an admitted `sfx.play` action with a non-blank source, with its trimmed source and volume |
| Dispatcher.AdmittedSoundsSent | src/index.js:150-155 | every admitted `sfx.play` action with a non-blank source is broadcast |
| Dispatcher.UrlsAreAdmittedOpens | src/index.js:145-149 | every URL the actions of a donation open is the context's URL, opened by an admitted `system.openUrl`, and every admitted one with a URL opens it |
| Dispatcher.UntouchedKey | src/index.js:121-124 | a key no earlier action used is checked against the marks from before the donation |
| Dispatcher.UnknownTypeRefused | src/index.js:156-157 | every type outside the six known ones is answered `unknown_action:<type>` |
| Dispatcher.ObsAndWebhookAreUnknown | src/index.js:126-158 | `obs.*` types and `webhook.request` are not cases of the switch |
| Dispatcher.MusicNeedsVideo | src/index.js:127-138 | a music action succeeds exactly when the context holds a URL with a video id, and fails with `track_not_supported` otherwise |
| Dispatcher.OpenAndSoundGuards | src/index.js:145-155 | opening a URL needs one in the context (`missing_url`), and playing a sound needs a non-blank source (`missing_src`) |
| Dispatcher.OnlyRconThrows | src/index.js:139-144 | only the RCON actions can throw or answer with a response of their own |
| Dispatcher.ErrorAfterThrows | src/index.js:196-199 | with no throw the last error is unchanged; otherwise it is the record of a thrown message |
| Dispatcher.EntryFor | src/index.js:167-180 | the donation entry keeps the donation's id and value, exposes the context's URL and summarises every action, in order |
| Dispatcher.NewTopAgrees | src/index.js:163-182 | the context's new-top flag is the judgement `addDonation` makes against the same earlier top: strictly greater, so a tie is no new top |
| Dispatcher.Pipeline.constructor | src/index.js:50-65 | the pipeline shares one state with the music manager, with nothing broadcast or opened yet |
| Dispatcher.Pipeline.ExecuteAction | src/index.js:113-159 | a blocked action is skipped and changes nothing; an admitted one marks its key at `now` before the switch answers, whatever that answer is, and has the switch's effect: play-now makes its track current, enqueue appends its track to the pending tracks, any other type or a missing track leaves the music state and its broadcasts alone, and its sound and URL are broadcast and opened |
| Dispatcher.Pipeline.Dispatch | src/index.js:126-158 | the answer is the switch's reply; play-now makes the track current, enqueue appends it to the pending tracks, `system.openUrl` opens the context's URL, `sfx.play` broadcasts the trimmed source and volume, and nothing else changes |
| Dispatcher.Pipeline.Attempt | src/index.js:192-194 | one action behind the gate: its call is what it was due; the gate, the broadcasts and the opened URLs advance by that action's fold step; an admitted action has the switch's music effect and a skipped one leaves the music state alone |
| Dispatcher.Pipeline.TryAction | src/index.js:193-199 | one action's call is what it was due; the gate, the broadcasts, the opened URLs and the last error advance by one step, a throw being recorded as the last error; the music state changes as the switch does for an admitted action and not at all for a skipped one |
| Dispatcher.Pipeline.RunActions | src/index.js:191-200 | the actions run in order with one result each; each call is the skip or the reply it was due; a throw does not stop the loop; the gate, the last error, the broadcasts (SoundsOf) and the opened URLs (UrlsOf) end as the folds over all actions say |
| Dispatcher.Pipeline.Record | src/index.js:161-189 | the context and the actions are computed against the earlier top; a re-delivery leaves the donation list, the id set, the top and the webhook time as they were and broadcasts nothing; every call leaves the cooldowns, the last error, the music state, the music log and the opened URLs alone; a new donation is admitted, the top updated, and exactly `donation:new`, `donation:top` when it beats the earlier top, and `state:update` broadcast |
| Dispatcher.Prepare | src/index.js:162-180 | the context is parsed from the donation with `isNewTop` judged against the given top, the actions are the ones `decideActions` returns for that context, and the entry is built from the donation, the context and those actions |
| Dispatcher.Pipeline.Admission | src/index.js:182-189 | the entry is a re-delivery exactly when its id was seen; a re-delivery leaves the donation list, id set, top and webhook time as they were and broadcasts nothing; a new entry is admitted, the top updated, and the opening broadcasts sent; cooldowns, last error, music state, music log and opened URLs never change |
| Dispatcher.Pipeline.Announce | src/index.js:187-189 | the broadcasts are `donation:new`, then `donation:top` with the new top exactly when `addDonation` reports one, then `state:update` |
| Dispatcher.Pipeline.Report | src/index.js:191-206 | the action loop as RunActions states it: what it broadcast is the admitted sounds and what it opened the admitted URLs; then `donation:actions` with the donation's id, the clock and the results as the last broadcast |
| Dispatcher.Pipeline.ProcessDonation | src/index.js:161-207 | a re-delivered id returns before any action runs and changes nothing: cooldowns, donation list, id set, top, webhook time, last error, music state, both broadcast logs and the opened URLs are as they were; otherwise the donation is admitted, every decided action runs in order behind the gate with its result recorded, the broadcasts are the opening ones, the admitted sounds and `donation:actions`, and the opened URLs are the admitted ones |
| Webhook.SkipUnsafe | src/index.js:216 | dropping a leading run of unsafe characters leaves a string that starts with a safe one, or nothing |
| Webhook.SafeIsSafe | src/index.js:216 | `safe` text holds only `[A-Za-z0-9_-]`, is never longer than its input, and is empty exactly for the empty input |
| Webhook.SafeKeepsSafe | src/index.js:216 | text made only of safe characters is kept as it is |
| Webhook.SafeIdempotent | src/index.js:216 | applying `safe` twice changes nothing more |
| Webhook.SkipUnsafeRun | src/index.js:216 | a whole unsafe run is skipped up to the next safe character |
| Webhook.RunCollapses | src/index.js:216 | a run of unsafe characters, however long, becomes a single `_` |
| Webhook.SafeCharCopied | src/index.js:216 | a safe character is copied, and the rest is rewritten on its own |
| Webhook.StableId | src/index.js:217-221 | the id is `lp_<type>_<id>` when the body names an event, else `lp_<externalId>` when it has one, else none |
| Webhook.AllSafeJoin | src/index.js:216-221 | joining two safe strings gives a safe string |
| Webhook.StableIdShape | src/index.js:217-221 | a stable id starts with `lp_`, is longer than that prefix and holds only safe characters |
| Webhook.StableIdKeepsSafeRef | src/index.js:218 | an event type and id already made of safe characters are kept verbatim in the id |
| Webhook.RedeliverySameId | src/index.js:213-224 | two bodies naming the same event (or, naming none, carrying the same external id) get the same donation id, whatever else they say |
| Webhook.BodyOf | src/index.js:210 | `body \|\| {}` is never null or undefined |
| Webhook.AcceptedIsProcessed | src/index.js:210-232 | the body reaches the pipeline exactly when the payment was accepted, with the payment's value, message, sender and status and the clock's time |
| Webhook.ProcessedId | src/index.js:223-224 | the processed donation's id is the stable one when the body identifies its event, and the fresh one otherwise |
| Webhook.RejectedWithoutRef | src/index.js:235-238 | a rejected body that names no event is ignored with the extraction's reason |
| Webhook.RejectedWithRef | src/index.js:235-246 | a rejected body that names an event is refused without API credentials and handed to the API lookup with them |
| Webhook.ReasonNeverEmpty | src/livepix.js:71-104 | extraction never rejects with an empty reason, so `unrecognized payload` is never logged |
| Webhook.Classify | src/index.js:209-246 | the method computes the route the handler takes for the body |
| Webhook.Deliver | src/index.js:223-246 | a `Process` route hands its donation to the pipeline by the pipeline's contract: admitted donation list and top, the gate and last error as the action folds say, the broadcasts and opened URLs as ProcessDonation states them, or nothing changed for a re-delivery; every other route changes nothing: donations, id set, top, webhook time, last error, cooldowns, music state, both broadcast logs and opened URLs are as they were |
| Webhook.HandleLivePixEvent | src/index.js:209-246 | the route is the handler's route for the body; an accepted payment is processed under its stable id with ProcessDonation's outcome (admission, gate, last error, the pipeline's broadcasts and opened URLs; no results and no change exactly for a re-delivery); every other route changes nothing: donations, id set, top, webhook time, last error, cooldowns, music state, both broadcast logs and opened URLs are as they were |

## Left out

- HTTP and WebSocket plumbing (src/index.js:55-111, 310-375): express routes, the rate limiter, static files, socket.io handlers and the server's start and shutdown. These are transport and I/O.
- `openUrl` (src/index.js:26-42) spawns an operating-system process. Here it is the ghost `openedUrls` log of the pipeline.
- The LivePix API fallback (src/index.js:248-307): fetching the message or subscription over the network, and the amount conversion done on its reply. The handler is modelled up to the `ApiLookup` route. `livepixApi.enabled()` is the `apiEnabled` parameter. src/livepixApi.js is not part of this model.
- The OBS, Minecraft and version clients, configuration loading and the logger (src/actions/obs.js, src/actions/minecraft.js, src/version.js, src/config.js, src/logger.js). These are network, process or console I/O. RCON replies, including thrown errors, are oracle fields of `Dispatcher.Env`.
- `Date.now()` and `newId` are parameters. One clock reading (`now`) serves a whole donation, so the model does not capture the clock advancing between the actions of one donation. Dispatcher.SameKeyRunsOnce holds at that single reading only: in the source each `canRun` reads the clock again after the earlier actions were awaited, and `minecraft.rconMulti` waits between its commands, so a later action under the same key runs when more time than the window has passed.
- `io.emit` broadcasts are ghost event logs. Concurrency and async interleaving are not modelled: every handler runs to completion.
- File persistence in the moderation store and the audit log: saves and appends are no-ops. Replay takes the file's lines already parsed (an object, or nothing for a corrupt or non-object line). `JSON.parse` and `JSON.stringify` are not modelled.
- The JavaScript regular-expression engine and the WHATWG URL parser are parameters. The model takes the regex compiler as "source to optional matcher", and a URL as a pre-parsed record or nothing.
- Numbers are exact reals. `Number(s)` and `parseFloat` cover decimal digits with an optional sign and fraction. The exponent, hexadecimal and `Infinity` forms are not modelled, nor are the exponent forms of `String(n)` or floating-point rounding.
- Lower-casing covers ASCII and Latin-1 letters only. There is no Unicode case folding or normalisation.
- Object keys keep their insertion order. JavaScript's ordering of integer-like keys first is not modelled.
- `Array.prototype.sort` is modelled by a stable sort function on sequences: the result is sorted and a permutation, and equal elements keep their order.
- Moderation.Store.Snapshot: `snapshot` only copies the two lists, and values have no aliasing, so there is nothing to prove beyond the contents.
- normalizeKey in src/audit.js is the same function as the moderation store's `normalizeText`, so both use `Moderation.NormalizeText`.
- Js.Get: a property read gives an object's own property, an array's or a string's element at a canonical decimal index, and their `length`. Inherited members (methods such as `toString`, and `constructor`) are not values in this model, so a path through them gives undefined.
- Audit.Log.Summary: an action type named after an `Object.prototype` member gets no counters and stays out of `actionStats`, as in the source. The source still writes `NaN` counters onto the inherited value it finds, onto `Object.prototype` itself for `__proto__`, which then shows through every object of the process; that global effect is not modelled.
- OutboundWebhook.NormalizeHeaders: a `__proto__` header is dropped, since assigning a string to that name sets no own property. Object spreads (`Js.Assign`) define own properties, so a `__proto__` pair there is copied.
- Moderation.CleanReason and OutboundWebhook.Answer: strings are sequences of Unicode code points, not UTF-16 code units. `.slice(0, 300)` and `.slice(0, 1000)` count UTF-16 units, so for text outside the Basic Multilingual Plane (emoji) the source keeps fewer characters and can split a surrogate pair, which a string of code points cannot hold. The same goes for `length` and string indexes in `Js.Get`.
- LivePix.ExtractDonation requires a body that is not `null` or `undefined`. Its only caller passes `body || {}` (see `Webhook.BodyOf`).
- State.AppState.AddDonation: it is modelled as written. Eviction deletes only truthy ids (`removed?.id`), so an evicted donation with the id `""` stays in the id set, and a re-delivery of it is still a duplicate. The id-set invariant therefore holds for every id except `""`.
- Dispatcher.Pipeline.ProcessDonation, Dispatcher.Pipeline.RunActions and Dispatcher.Pipeline.Report: they state the cooldowns, the last error, the donation list, the top donation, the pipeline's broadcasts and the opened URLs after the whole action loop. What the loop does to the music state is stated one action at a time, by `Dispatch`, `ExecuteAction`, `Attempt` and `TryAction`. Beyond that, the queue, the current track and the music manager's own broadcast log (`music:play`, `music:stop`, `state:update`) after a sequence of music actions are not stated.
- `Moderation`, `Audit` and `OutboundWebhook` are standalone. The HTTP routes that call them are out of scope, so they are not wired into the pipeline.
