# Social Saver dashboard — a verified model

Social Saver is a single-page dashboard for posts saved from Instagram,
Twitter/X and blogs. Each saved item has a category ("bucket"), a platform,
a summary, a caption, hashtags and optional like and view counts. This project
models the logic behind that page as pure Dafny functions, and proves what each
piece promises:

- **the visible list** (`QueryEngine`). It applies an exact category filter, an
  exact platform filter, and a case-insensitive substring search. The search is
  switched on by the trimmed text but matches the untrimmed text. Last comes a
  stable descending sort by saved time or by likes.
- **the random picker** (`RandomPicker`). "Inspire me" draws any item of the whole
  store. "Next" steps round the store modulo its size.
- **the card** (`Highlighting`, `CardDisplay`). `Highlighting` covers search
  highlighting: the query is escaped into a literal pattern, the text is split
  on its case-insensitive occurrences, and the parts are marked using the
  global pattern's `lastIndex`. `CardDisplay` covers the "K"/"M" number label,
  the first three hashtags with a "+k more" count, and the "Read more" toggle.
- **the hero statistics** (`HeroStats`). It computes the per-platform counts and
  the category tally built in first-seen order. The breakdown sorts the tally by
  count, and the top category is the head of that breakdown.
- **the chip bar** (`StatsBar`). It covers the badge counts on the category
  chips and which chip is highlighted as active.
- **the WhatsApp bot demo** (`BotChat`). It covers the blank-message guard,
  appending the user's message, and the delayed canned reply chosen from the
  message's text. It also covers the captions of the quick-demo link buttons,
  and opening and closing the modal, which throws the conversation away.

Shared building blocks:

- `Text`: JavaScript's `toLowerCase` (ASCII), `trim`, `includes`,
  `replace` with a string pattern and a replacement without `$` patterns,
  and decimal digits.
- `Seqs`: `Array.prototype.filter`.
- `StableSort`: a stable sort with a `(a, b) => key(b) - key(a)` comparator.
- `Items`: the item record and the query record.

Where the code and its own documentation differ, the model follows the code.
The search gate trims the text, but the match uses the untrimmed text
(`QueryEngine.UntrimmedSearchQuirk` shows a query that this hides). The bot
matches its link markers case-sensitively and only "help" case-insensitively
(`BotChat.MarkersAreCaseSensitive`).

## Model

| member | source | states |
|---|---|---|
| `QueryEngine.Evaluate` | src/App.tsx:18-53 | the visible list holds exactly the store's items that pass all three filters, never more copies than the store has, in non-increasing order of the chosen sort key |
| `QueryEngine.BySearch` | src/App.tsx:31-43 | a whitespace-only search keeps the list unchanged; any other search keeps exactly the items whose lower-cased summary, caption, category, author, hashtag or platform contains the lower-cased, untrimmed search text |
| `QueryEngine.ByCategory` | src/App.tsx:21-24 | "All" keeps the list unchanged; a category keeps exactly the items of that category |
| `QueryEngine.ByPlatform` | src/App.tsx:26-29 | "All" keeps the list unchanged; any other value keeps exactly the items whose platform key equals it |
| `QueryEngine.EvaluateIsSortedAdmitted` | src/App.tsx:18-53 | running the three filters in turn and then sorting equals sorting the one-pass selection of the items that satisfy the whole query |
| `QueryEngine.EvaluateCounts` | src/App.tsx:18-53 | the result is a permutation of the admitted items: every admitted item appears as often as in the store, every other item not at all |
| `QueryEngine.EvaluateStable` | src/App.tsx:45-50 | items with equal likes-or-0 (Popular) or equal timestamps (Newest) keep their store order |
| `QueryEngine.UnconstrainedIsPermutation` | src/App.tsx:18-53 | with both selections on "All" and a blank search, the list is a permutation of the whole store |
| `QueryEngine.UntrimmedSearchQuirk` | src/App.tsx:32-33 | " yoga" passes the trim gate and its trimmed form matches a yoga post, yet the post is filtered out, because " yoga" with the space is what must occur |
| `RandomPicker.PickRandom` | src/App.tsx:55-59 | the drawn index is the roll; on a non-empty store the picker shows the store's item at that index, and on an empty store nothing is shown |
| `RandomPicker.EveryItemCanBeDrawn` | src/App.tsx:55-59 | every item of the store is shown for some roll, whatever the query hides |
| `RandomPicker.PickNext` | src/App.tsx:61-65 | "Next" moves to the following index and wraps from the last index to 0, always showing the item at the new index |
| `RandomPicker.Dismiss` | src/App.tsx:182 | closing the modal returns the picker to showing nothing and keeps the index that the next "Next" starts from |
| `RandomPicker.AdvanceIndex` | src/App.tsx:61-65 | k presses of "Next" from index i land on index (i + k) mod N |
| `RandomPicker.FullCycle` | src/App.tsx:61-65 | N presses of "Next" return to the item the picker started on |
| `Highlighting.EscapedQueryIsLiteral` | src/components/SavedCard.tsx:41 | the escaped query holds only literal atoms, and the literal it stands for is exactly the query |
| `Highlighting.SplitPartsSound` | src/components/SavedCard.tsx:41-42 | the split alternates occurrence-free plain parts with parts equal to the query up to case, and it spells out the text |
| `Highlighting.TagAlternating` | src/components/SavedCard.tsx:45-53 | despite the `lastIndex` the global pattern carries between parts, exactly the odd-numbered parts are marked |
| `Highlighting.Highlight` | src/components/SavedCard.tsx:39-56 | an empty query gives one plain segment; otherwise plain and marked segments alternate, every marked segment is the query up to case, and no plain segment contains an occurrence; the segments always spell out the text |
| `Highlighting.HighlightLeftmost` | src/components/SavedCard.tsx:41-42 | no occurrence of the query starts inside a plain segment, so the marked segments are exactly the occurrences a left-to-right scan finds |
| `Highlighting.LiteralDotExample` | src/components/SavedCard.tsx:41 | searching "a.b" marks the literal "a.b" and leaves "axb" plain |
| `CardDisplay.FormatNumber` | src/components/SavedCard.tsx:63-67 | "M" is used from a million up, "K" from a thousand up, and below that the decimal digits, which read back as the number |
| `CardDisplay.HashtagView` | src/components/SavedCard.tsx:172-182 | at most three leading tags are shown, in order; the "+k more" count exists exactly when there are more than three, and together with the shown tags it accounts for every tag |
| `CardDisplay.MoreLabel` | src/components/SavedCard.tsx:179-181 | the overflow label is "+", then decimal digits that read back as the number of hidden tags, then " more" |
| `CardDisplay.ViewCard` | src/components/SavedCard.tsx:109-182 | summary and caption are highlighted with the query as typed and spell out the item's texts; "Read more" appears exactly for captions over 100 characters; the likes label appears exactly for non-zero likes |
| `CardDisplay.SpaceQueryStillHighlights` | src/components/SavedCard.tsx:40-42 | a one-space query, which filters out nothing, still marks the space of "a b" |
| `HeroStats.Platforms` | src/components/HeroStats.tsx:8-12 | each of the three fields counts the items of its own platform, and together they add up to the number of items |
| `HeroStats.PlatformsPartition` | src/components/HeroStats.tsx:8-12 | the Instagram, Twitter and blog counts add up to the number of items, since every item comes from exactly one platform |
| `HeroStats.CountPlatformPositive` | src/components/HeroStats.tsx:9-11 | a platform's count is positive exactly when some item comes from that platform |
| `HeroStats.CountPlatformIndices` | src/components/HeroStats.tsx:9-11 | a platform's count equals the number of positions in the store that hold an item of that platform |
| `HeroStats.CategoryCounts` | src/components/HeroStats.tsx:15-18 | the tally has one entry per category that occurs, none for a category that does not occur, each with that category's count, in order of first occurrence; the counts sum to the number of items |
| `HeroStats.CountCategoryPositive` | src/components/HeroStats.tsx:15-18 | a category's count is positive exactly when some item carries it |
| `HeroStats.Breakdown` | src/components/HeroStats.tsx:80-82 | the breakdown is a permutation of the tally, in non-increasing count order, and is empty exactly for an empty store |
| `HeroStats.TopCategory` | src/components/HeroStats.tsx:20 | none for an empty store; otherwise the top bucket's count is that category's true count, which is positive and at least every bucket's count |
| `HeroStats.TopCategoryTieBreak` | src/components/HeroStats.tsx:15-20 | among buckets tied for the top count, the top category is the one whose first item comes earliest in the store |
| `HeroStats.EmptyStoreStats` | src/components/HeroStats.tsx:8-20 | an empty store has zero platform counts, an empty breakdown and no top category |
| `StatsBar.CountByCategory` | src/components/StatsBar.tsx:17-18 | the badge of "All" is the number of items, and the badge of a category is the number of items in it |
| `StatsBar.BadgeMatchesResult` | src/components/StatsBar.tsx:17-18 | a chip's badge equals the length of the list shown when that chip is selected with the platform on "All" and an empty search |
| `StatsBar.BadgesPartition` | src/components/StatsBar.tsx:12-18 | the eight category badges add up to the "All" badge |
| `StatsBar.ActiveCategoryChip` | src/components/StatsBar.tsx:12-26 | whatever the selection, exactly one category chip is highlighted as active |
| `StatsBar.ActivePlatformChip` | src/components/StatsBar.tsx:56-61 | a selection among the four platform keys highlights exactly that one chip; any other selection highlights none |
| `StatsBar.PlatformChipsNamePlatforms` | src/components/StatsBar.tsx:13 | every platform's key is one of the chips after "All", and selecting that chip admits exactly the items of that platform |
| `BotChat.Classify` | src/components/Header.tsx:114-125 | the chosen reply is "not a link" exactly when the text carries no marker; otherwise the text carries that reply's marker, and no reply earlier in the `if` chain matches |
| `BotChat.EditInput` | src/components/Header.tsx:191 | typing replaces the input box's text and leaves the log, the typing indicator and the queued replies as they were |
| `BotChat.SendMessage` | src/components/Header.tsx:105-111 | a whitespace-only text changes nothing; any other text is appended verbatim as the user's message, clears the input, shows the typing indicator and queues a reply; it keeps the bot messages plus the queued replies equal to the user messages |
| `BotChat.DeliverReply` | src/components/Header.tsx:112-127 | the oldest queued reply fires: it hides the typing indicator and appends the bot reply chosen for that message's text; with nothing queued, nothing changes; it keeps the bot messages plus the queued replies equal to the user messages |
| `BotChat.Exchange` | src/components/Header.tsx:105-127 | sending a non-blank text and letting its reply fire grows the log by exactly the user's message and then the bot's answer, and leaves nothing queued |
| `BotChat.TypingClearedEarly` | src/components/Header.tsx:110-113 | with two messages sent before the first reply fires, that reply already hides the typing indicator while the second reply is still due |
| `BotChat.OpenedBalanced` | src/components/Header.tsx:92-95 | the opening greeting is balanced: the bot messages plus the queued replies equal the user messages |
| `BotChat.OpenDemo` | src/components/Header.tsx:84-95 | opening a closed demo mounts a modal, newer than every earlier one, that shows only the opening messages; an open modal is left as it is; the log stays balanced |
| `BotChat.CloseDemo` | src/components/Header.tsx:84-86 | closing unmounts the modal, so no conversation, input or pending reply survives, and the next modal gets a newer mount number |
| `BotChat.SendInDemo` | src/components/Header.tsx:105-111 | sending acts on the open modal's conversation and leaves its mount number alone; with the demo closed nothing changes; the log stays balanced |
| `BotChat.FireReply` | src/components/Header.tsx:84-127 | a reply timer delivers the oldest pending reply only in the modal mount that set it; a timer of an unmounted modal changes nothing, even when a newer modal is open; the log stays balanced |
| `BotChat.ClosingDiscardsChat` | src/components/Header.tsx:84-127 | send, close, reopen and send again: the new modal holds the opening messages and only the new text, the old modal's timer leaves it unchanged with its typing indicator still on, and only the new modal's own timer answers the new text |
| `BotChat.DemoLabel` | src/components/Header.tsx:180 | the button's caption is never longer than the link, and a link that starts with "https://" loses exactly that prefix |
| `BotChat.DemoLabelKeepsLaterScheme` | src/components/Header.tsx:180 | only the first "https://" is removed |
| `BotChat.DemoLabels` | src/components/Header.tsx:174-180 | each demo button shows its link without the scheme |
| `BotChat.DemoLinksClassified` | src/components/Header.tsx:99-120 | the three demo links get the Instagram, Twitter and blog replies respectively |
| `BotChat.HelpInAnyCase` | src/components/Header.tsx:121 | "HELP" in capitals gets the help reply |
| `BotChat.MarkersAreCaseSensitive` | src/components/Header.tsx:115 | "Instagram.com" with a capital I is not recognised as an Instagram link and gets the "not a link" reply |
| `Text.Trim` | src/App.tsx:32 | the trimmed text is the slice between a whitespace-only prefix and a whitespace-only suffix; it starts and ends with a non-whitespace character; it is empty exactly when the text is whitespace only |
| `Text.FirstOccurrence` | src/App.tsx:36-41 | the result is the first index at or after the start where the needle occurs, and none when there is no such index |
| `Text.ReplaceFirst` | src/components/Header.tsx:180 | the text is unchanged when the pattern does not occur; otherwise the leftmost occurrence, and only it, is swapped for the replacement |
| `Text.DecimalRoundTrip` | src/components/SavedCard.tsx:66 | the decimal digits of a number read back as that number |
| `StableSort.SortDesc` | src/App.tsx:47-49 | the sorted sequence is a permutation of the input in non-increasing key order |
| `StableSort.SortStable` | src/App.tsx:47-49 | elements with equal keys keep their relative input order |
| `Seqs.FilterCount` | src/App.tsx:23 | a filter keeps every copy of a passing element and drops every failing one |

## Left out

- The JSX rendering is not modelled: markup, icons, colours, labels, and the
  `key` props of the lists. The model stops at the data each component renders.
- `formatNumber`'s `toFixed` rounding is not modelled. It is floating-point
  formatting, so `CardDisplay.FormatNumber` returns the divisor and suffix
  instead of the printed digits.
- `formatDate` and `new Date(...).getTime()` are not modelled. They are clock
  and locale code, so `savedAt` is an already parsed integer timestamp.
- `Math.random` is not modelled. It becomes the `roll` parameter of `RandomPicker.PickRandom`.
- `setTimeout` is replaced by an explicit step. The 1500 ms reply timer is
  `BotChat.DeliverReply`, and the set timers are a queue fired oldest first,
  because every timer has the same delay. At the level of the header,
  `BotChat.FireReply` takes the number of the modal mount that set the timer,
  because the order of timers from different mounts depends on when each
  message was sent. The 2000 ms "copied" reset of a card
  is left out with the clipboard.
- `navigator.clipboard.writeText` and the "copied" tick are left out; they are
  browser I/O.
- `toLowerCase` is modelled for ASCII letters only. Full Unicode case mapping
  is outside this model. This applies to the search, the highlight and the
  "help" check.
- `RandomPicker.PickNext` requires a non-empty store. On an empty store the
  source computes `x % 0`, which is `NaN`, and that has no integer counterpart.
- `BotChat.SendMessage` reads the current log. The source's closure reads the
  `messages` of the render it was created in, so two sends within one render
  would lose the first. That is React scheduling, which is not modelled.
- The card's stats overlay condition `(item.views || item.likes) && ...`
  renders a literal "0" when a count is 0. That is a JSX rendering quirk and is
  not modelled; `CardDisplay.ViewCard` models only when the likes label itself
  is shown.
- The views label is left out, since it is only printed.
- The sample data in `mockData` is not part of this model. The store is a
  parameter of every operation.
- The `RandomInspiration` and `ArchitectureDiagram` components are display-only
  and are not part of this model.
- The header's search-box clear button and the bot's Enter-key handler are
  not modelled as steps of their own. The clear button sets the search text to
  "", which `QueryEngine.Evaluate` covers as an empty search; the Enter key
  calls `BotChat.SendMessage`.
  The bot modal's open and close buttons are modelled by `BotChat.OpenDemo`
  and `BotChat.CloseDemo`.
- `CardDisplay.ViewCard` counts string lengths in Unicode code points, as
  Dafny strings do. JavaScript's `.length` counts UTF-16 code units, so a
  character outside the Basic Multilingual Plane, such as an emoji, counts
  twice in the source. The "Read more" test therefore differs on such
  captions: a 95-character caption with 6 emoji has `.length` 101 and gets the
  toggle in the source but not in the model. The same holds for every other
  length in the model.
- `HeroStats.TopCategory`: the source picks a bucket by `Object.entries` order,
  and the model keeps the tally in first-seen order. That is the insertion
  order JavaScript uses for non-integer keys, and category names are never
  integers.
