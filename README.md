# Portfolio page data layer, modelled in Dafny

`index.tsx` is a one-page personal portfolio. At start-up it fetches eight tabs of a Google
spreadsheet through the Sheets API v4 (`Profile`, `SkillsCore`, `SkillsTechnical`, `Experience`,
`Projects`, `Education`, `Awards`, `Testimonials`). Each tab comes back as rows of strings. It
then fills the page from them:

- a header, footer and contact block from a key/value `Profile` tab;
- two skill lists;
- an Experience timeline whose items open and close like an accordion;
- project cards, education entries, an awards list and testimonial cards.

Any failed fetch replaces the page with an error panel.

This project models that data path:

- the configuration checks made before each request;
- the error messages for each kind of failure, and the rule that decides whether a caught error is rethrown or wrapped;
- the profile lookup and the values shown from it;
- the guards, row-skipping rules, fallback texts and description splitting of each section;
- the accordion's state;
- the way loading picks between the rendered page and the error panel.

The model follows JavaScript's truthiness. A cell past the end of a short row (`undefined`) and
the empty string are both falsy. Every other string is truthy, including one made only of
whitespace. `trim` removes the JavaScript whitespace set.

Modules:

| module | file | what it holds |
|---|---|---|
| `Wrappers` | `wrappers.dfy` | `Option`, `Result` |
| `Text` | `text.dfy` | `trim`, `startsWith`, `includes`, `split`/`join`, decimal formatting |
| `Sheet` | `sheet.dfy` | rows, cells, truthiness, `value \|\| fallback` |
| `SheetFetch` | `fetch.dfy` | `fetchSheetData`, with the configuration and the network's answer as parameters |
| `Profile` | `profile.dfy` | `getProfileValue`, `renderProfile` |
| `Sections` | `sections.dfy` | the six section renderers, as one renderer over a `Section` kind |
| `Accordion` | `accordion.dfy` | the timeline's `active` classes: a `Timeline` class over an `array<bool>` |
| `Page` | `page.dfy` | the start-up handler |

## Model

| member | source | states |
|---|---|---|
| `Text.Trim` | index.tsx:103 | the result has no JavaScript whitespace at either end and is no longer than the input |
| `Text.TrimStartDropsWhitespace` | index.tsx:103 | trimming the front removes exactly a leading run of whitespace and keeps the rest as a suffix |
| `Text.TrimEndDropsWhitespace` | index.tsx:103 | trimming the end removes exactly a trailing run of whitespace and keeps the rest as a prefix |
| `Text.TrimDropsWhitespace` | index.tsx:103 | `trim` keeps one contiguous middle part of its input; everything before and after that part is whitespace, and the three parts put together give the input back |
| `Text.TrimKeepsChars` | index.tsx:228 | every character of a trimmed string occurs in the original |
| `Text.TrimOfTrimmed` | index.tsx:134 | trimming an already trimmed value changes nothing |
| `Text.TrimIdempotent` | index.tsx:151 | trimming twice is trimming once |
| `Text.TrimEmptyIff` | index.tsx:187 | a string trims to `""` exactly when it consists only of whitespace |
| `Text.StartsWith` | index.tsx:54 | `startsWith`: the string begins with the pattern; used for the client-secret check, the rethrow rule and the link schemes (also lines 86 and 136-137), and stated through `Text.StartsWithAppend` and the message lemmas below |
| `Text.StartsWithAppend` | index.tsx:54 | `startsWith` survives appending text after the string: a prefix stays a prefix (also lines 86 and 136-137) |
| `Text.Contains` | index.tsx:86 | `includes`, read as "the pattern is a prefix of some suffix"; `Text.ContainsIffOccurs` ties it to the plain reading |
| `Text.ContainsIffOccurs` | index.tsx:86 | `includes` holds exactly when the pattern occurs at some index of the string |
| `Text.Split` | index.tsx:228 | `split(';')` gives at least one piece, no piece holds the separator, and joining the pieces gives the input back |
| `Text.SplitJoin` | index.tsx:228 | splitting a join of separator-free pieces gives those pieces back |
| `Text.SplitAtSep` | index.tsx:228 | splitting at a separator that stands between two parts gives the pieces of the first part followed by those of the second, in order |
| `Text.Decimal` | index.tsx:69 | a status code is written as a non-empty run of digits, with a leading `0` only for the single digit of status 0 |
| `Text.DecimalRoundTrip` | index.tsx:69 | reading the written digits back gives the status code |
| `Sheet.Or` | index.tsx:115 | `value \|\| fallback` returns one of its operands; it is truthy exactly when one operand is, and it is the value whenever the value is truthy |
| `Sheet.CellOr` | index.tsx:232-236 | a present cell is shown unchanged; an absent or empty one shows its non-empty fallback |
| `SheetFetch.Request` | index.tsx:44-61 | the three checks in their order: an unset spreadsheet ID, then an unset key, then a key that looks like a client secret. The first that fails gives its `CRITICAL:` message. Otherwise the call goes on to the request URL, and this happens exactly when all three checks pass |
| `SheetFetch.IdMessage` | index.tsx:45 | the spreadsheet-ID message starts with `CRITICAL:` |
| `SheetFetch.KeyMessage` | index.tsx:51 | the API-key message starts with `CRITICAL:` |
| `SheetFetch.ClientSecretMessage` | index.tsx:55 | the client-secret message starts with `CRITICAL:` |
| `SheetFetch.SheetUrl` | index.tsx:61 | the request URL built from the configuration and the tab name; `SheetFetch.SheetUrlParts` states its parts |
| `SheetFetch.SheetUrlParts` | index.tsx:61 | the request URL starts with the Sheets API base, the spreadsheet ID, `/values/` and the tab name, and ends with `?key=` and the API key |
| `SheetFetch.Guidance` | index.tsx:71-77 | help text is appended exactly for statuses 403, 400 and 404 |
| `SheetFetch.StatusError` | index.tsx:69-78 | a non-success status gives a message containing `Could not fetch data` that ends with that status's help text |
| `SheetFetch.StatusErrorHelp` | index.tsx:69-77 | the status message ends with the 403 help for 403, the 400 help for 400, the not-found help naming the spreadsheet and the tab for 404, and with the bare `. ` of the base message for any other status |
| `SheetFetch.StatusErrorNamesStatus` | index.tsx:69 | the status message contains the status code written in decimal |
| `SheetFetch.IsOk` | index.tsx:67 | `response.ok`: a status from 200 to 299; `SheetFetch.Attempt` and `SheetFetch.FetchSucceedsOnlyOnOk` state that only such a status gives a table |
| `SheetFetch.Attempt` | index.tsx:63-83 | the `try` block returns a table only for a 2xx response. A rejected request fails with its own message; a 2xx response with `values` returns exactly those rows, and one whose body does not parse fails with the parse error |
| `SheetFetch.Rethrown` | index.tsx:84-91 | a caught message is rethrown unchanged exactly when it starts with `CRITICAL:` or contains `Could not fetch data`; any other is wrapped: the result starts with `Failed to fetch or process data for sheet` and ends with `Original error: ` followed by the original message |
| `SheetFetch.FetchSheetData` | index.tsx:42-92 | the checks, then the `try` block, then the catch's rethrow-or-wrap rule; the lemmas below state what it returns for each kind of input |
| `SheetFetch.PreFlightBeforeRequest` | index.tsx:44-58 | a failed check fails the call with a `CRITICAL:` message, whatever the network would have answered |
| `SheetFetch.FetchErrorsClassified` | index.tsx:42-92 | every failure message is of one of three kinds: `CRITICAL:`, a status error, or a wrapped error |
| `SheetFetch.StatusErrorPassesThrough` | index.tsx:67-88 | a non-success status fails with exactly the status message; the catch does not wrap it |
| `SheetFetch.MissingValuesIsEmpty` | index.tsx:82-83 | a 2xx response without a `values` field gives the empty table |
| `SheetFetch.ValuesReturned` | index.tsx:82-83 | with a configuration that passes the checks, a 2xx response carrying `values` makes `fetchSheetData` return exactly those rows |
| `SheetFetch.UnreachableWrapped` | index.tsx:63-91 | with a configuration that passes the checks, a rejected request fails with its message put through the catch's rethrow-or-wrap rule |
| `SheetFetch.UnparseableWrapped` | index.tsx:82-91 | with a configuration that passes the checks, a 2xx response whose body does not parse fails with the parse error put through the catch's rethrow-or-wrap rule |
| `SheetFetch.FetchSucceedsOnlyOnOk` | index.tsx:42-92 | a table comes back only when all checks pass and the response is 2xx |
| `Profile.Matches` | index.tsx:102 | the `find` predicate: the row has a first cell and it equals the key; `Profile.FindRow` states the search built on it |
| `Profile.FindRow` | index.tsx:102 | `find`: the first row whose first cell is the key; if there is none, no row has that key |
| `Profile.ProfileValue` | index.tsx:101-104 | the value read for a key is always trimmed |
| `Profile.ProfileValueFirstMatch` | index.tsx:101-104 | the first row carrying the key decides the value: its trimmed second cell, or `""` when that cell is absent or empty |
| `Profile.ProfileValueMissing` | index.tsx:101-104 | a key that no row carries reads as `""` |
| `Profile.ProfileValueIgnoresLaterRows` | index.tsx:102 | rows appended after a matching row never change the value |
| `Profile.NormalizeLink` | index.tsx:134-139 | the LinkedIn link always carries one of `http://`, `https://`, `mailto:` or `tel:`. A value that already has one is kept; any other gets `https://` in front |
| `Profile.NormalizeLinkIdempotent` | index.tsx:136-139 | normalising a normalised link changes nothing |
| `Profile.ContactBlock` | index.tsx:130-170 | the contact entries built from the four looked-up values; `Profile.ContactBlockOrder`, `Profile.ContactLinkedInHref`, `Profile.ContactEmailEntry` and `Profile.ContactPhoneLocationEntries` state their order, presence and contents |
| `Profile.ShownIf` | index.tsx:132-170 | a contact entry is shown exactly when its looked-up value is non-empty |
| `Profile.ContactBlockOrder` | index.tsx:130-170 | contact entries appear in the fixed order LinkedIn, Email, Phone, Location, and each one appears exactly when its value is non-empty |
| `Profile.ContactLinkedInHref` | index.tsx:132-140 | the LinkedIn entry's link is the normalised trimmed value |
| `Profile.ContactEmailEntry` | index.tsx:149-153 | the email entry links to `mailto:` plus the trimmed address and shows that address |
| `Profile.ContactPhoneLocationEntries` | index.tsx:161-169 | the Phone entry shows the trimmed phone number and the Location entry the trimmed location |
| `Profile.ContactEmailHref` | index.tsx:149-153 | on the page, the email link is `mailto:` plus the looked-up address, unchanged |
| `Profile.RenderProfile` | index.tsx:113-171 | the header, footer and contact values shown for a `Profile` tab; `Profile.RenderProfileFallbacks`, `Profile.RenderProfileFooterLinks` and `Profile.ContactEmailHref` state them |
| `Profile.RenderProfileFallbacks` | index.tsx:113-126 | name, title, picture, resume link and objective each show the looked-up value or their default text, and none is empty |
| `Profile.RenderProfileFooterLinks` | index.tsx:141-157 | each footer link is shown exactly when its value is non-empty. It points where the matching contact entry points |
| `Profile.ProfileValueExample` | index.tsx:101-104 | on a one-row profile the stored name is found and another key reads as `""` |
| `Sections.Keep` | index.tsx:185 | the row-skipping test of each renderer; `Sections.KeepIffAnyPresent` states it (also lines 215-218, 278-280, 307-309, 337 and 361-363) |
| `Sections.KeepIffAnyPresent` | index.tsx:185 | a row produces an item exactly when one of the columns its section reads is truthy (also lines 215-218, 278-280, 307-309, 337 and 361-363) |
| `Sections.TrimEachAppend` | index.tsx:228 | `map(s => s.trim())` works piece by piece: on two lists put together it gives the two results put together |
| `Sections.DropEmpty` | index.tsx:228 | `filter(s => s)` returns only non-empty pieces of its input, keeps every non-empty piece, and changes nothing when no piece is empty |
| `Sections.DropEmptyAppend` | index.tsx:228 | `filter(s => s)` on two lists put together gives the two filtered lists put together, so the kept pieces keep their order and their repeats |
| `Sections.DropEmptySingle` | index.tsx:228 | a single piece is kept exactly when it is non-empty |
| `Sections.Points` | index.tsx:228 | every description point, after `split`, `Sections.TrimEach` and `Sections.DropEmpty`, is non-empty, trimmed and free of `;` |
| `Sections.PointsOfJoin` | index.tsx:228 | points written out joined by `;` are read back as the same points |
| `Sections.PointsUnguarded` | index.tsx:228 | the `descriptionString ?` guard changes nothing: an empty description splits into one empty piece, which the filter drops |
| `Sections.PointsAtSeparator` | index.tsx:228 | the points of two parts joined by `;` are the points of the first part followed by those of the second |
| `Sections.PointsOfSinglePiece` | index.tsx:228 | a description without `;` is one point, its trimmed text, unless that text is empty |
| `Sections.Details` | index.tsx:239 | an Experience item lists its points, or the single line `Details not available.` when it has none |
| `Sections.MakeItem` | index.tsx:231-243 | the item a kept row becomes: the trimmed first cell (Skills, Awards), or each cell as written or its fallback text (table sections); `Sections.TableItemFieldsNonEmpty` and `Sections.Details` state its fields (also lines 284-287, 313-317 and 367-370) |
| `Sections.TableItemFieldsNonEmpty` | index.tsx:232-236 | in the Experience, Projects, Education and Testimonials items, every field is non-empty (also lines 285-286, 314-316 and 368-369) |
| `Sections.KeptIndices` | index.tsx:214-218 | the rows that produce items, each once, in row order, and no other row |
| `Sections.SectionView` | index.tsx:205-244 | what a renderer puts on the page: its placeholder message, or one item per kept row; `Sections.SectionViewShape` and `Sections.RenderSection` state it (also lines 183-193, 272-292, 301-322, 331-347 and 355-373) |
| `Sections.SectionViewShape` | index.tsx:209-212 | a section shows its placeholder message exactly when the table is empty or its first row has fewer cells than the section reads. Otherwise item `k` is made from the `k`-th kept row (also lines 183, 272, 301, 331 and 355) |
| `Sections.CollectItems` | index.tsx:214-244 | the `forEach` loop appends exactly one item per kept row, in row order |
| `Sections.RenderSection` | index.tsx:205-244 | a renderer (the guard, then the loop) produces exactly `SectionView` |
| `Sections.ShortFirstRowHidesAll` | index.tsx:209 | a first row that is too short hides the whole section, whatever rows follow |
| `Sections.NoQualifyingRows` | index.tsx:214-218 | a table that passes the guard but has no kept row gives an empty list, not the placeholder |
| `Sections.ItemsFollowRows` | index.tsx:214-244 | of two kept rows, the earlier one's item comes first |
| `Sections.SkillsWhitespaceRow` | index.tsx:185-188 | a whitespace-only skill cell is truthy, so it gives an entry whose text is `""` |
| `Accordion.InitialActive` | index.tsx:223-225 | one flag per rendered item |
| `Accordion.InitialAtMostOne` | index.tsx:223-225 | after rendering, at most one item is active |
| `Accordion.InitialActiveIsRowZero` | index.tsx:223-225 | an item starts active exactly when table row 0 produced an item, and that item is the first one |
| `Accordion.AfterClick` | index.tsx:249-258 | after any click, at most one item is active |
| `Accordion.ClickActiveCollapsesAll` | index.tsx:251-257 | clicking the open item closes it and leaves none open |
| `Accordion.ClickInactiveExpandsOnlyIt` | index.tsx:251-257 | clicking a closed item makes it the only open one |
| `Accordion.DoubleClickCollapses` | index.tsx:249-258 | opening a closed item and clicking it again leaves nothing open |
| `Accordion.Timeline.constructor` | index.tsx:220-225 | the new flag array holds `InitialActive` of the items' rows |
| `Accordion.Timeline.Click` | index.tsx:249-258 | the click handler turns the flags into `AfterClick` of the old flags |
| `Accordion.ExperienceInitialExpansion` | index.tsx:214-225 | after rendering Experience, at most one item is open, and one is open exactly when row 0 was kept |
| `Page.FirstFailure` | index.tsx:528-537 | a failed fetch exists exactly when the result is `Some`. The result names a failed fetch with every earlier fetch succeeded |
| `Page.TimelineFlags` | index.tsx:205-225 | one accordion flag per rendered Experience item, and none when the placeholder is shown |
| `Page.LoadPage` | index.tsx:516-579 | the page becomes the error panel exactly when some fetch failed, and the panel shows the message of a fetch that failed |
| `Page.MisconfiguredShowsCritical` | index.tsx:44-58 | with a configuration that fails a check, the eight fetches of `Page.FetchAll` (one configuration, the eight tab names in order) all fail alike, so the page always ends in the error panel with that check's `CRITICAL:` message, whichever request settles first (also lines 528-559) |
| `Page.RenderedSections` | index.tsx:540-546 | when every fetch succeeds, each section is rendered from its own tab, and the timeline starts with at most one item open |

## Left out

- Network I/O, JSON parsing and the `Promise`s are not modelled. What each request returned is a parameter: a rejection, or a status with its text, body and payload (`values`, no `values`, or a parse error).
- The configured spreadsheet ID and API key are a `Config` parameter, not constants.
- DOM updates, HTML markup and the lack of HTML escaping when cells go into `innerHTML` are not modelled. Each renderer is modelled by the data it puts on the page.
- Calls to `console.error` are left out.
- `initializeInteractivity` (back-to-top button, scroll-based nav highlighting, smooth scrolling) and the particle effects depend on the DOM, timers and `Math.random`, so they are not modelled.
- A thrown value that is not an `Error` (`String(error)`) is not modelled. Every failure carries a message string.
- Strings are sequences of Unicode scalar values, not UTF-16 code units.
- `trim` removes the JavaScript whitespace set listed in `text.dfy`.
- Page.LoadPage: `Promise.all` rejects with whichever failure comes first in time. That timing is not modelled. The function takes the first failure in tab order, and its contract promises only that the panel shows some failed fetch's message. When the failure is a configuration error, every fetch fails with the same message, so the panel's text is fully determined (`Page.MisconfiguredShowsCritical`).
- Hiding the header, footer and other sections behind the error panel, the static checklist text, and the loading indicator are page markup. They are not modelled.
- A whitespace-only skill or award cell is truthy, so the code renders an entry with empty text rather than skipping the row. The model follows the code (`Sections.SkillsWhitespaceRow`).
- Only the item built from table row 0 starts open. If row 0 is skipped, no item starts open. The model follows the code (`Accordion.InitialActiveIsRowZero`).
