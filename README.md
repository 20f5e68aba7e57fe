# A verified model of the school site's data-driven rendering

The site's script (`assets/js/script.js`) fills its pages from JSON data files.

- Elements marked with `data-json` and `data-component` are *mount points*. Each one is hydrated with the output of its renderer, one of seven: events, announcements, projects, members, resources, prizes and winners. A component name outside the seven gives empty content. A failed load, or a renderer that throws, gives a fallback card.
- The projects page has a search box and category and grade selects.
- The events page has a category select.
- Everything interpolated into markup goes through `safeHTML`.
- Every link built from a data field goes through `normalizeHref`, except the `mailto:` link of a member's email.

This project models that core in Dafny and proves what it promises. The seven files:

- `js_values.dfy` holds the JavaScript values after `JSON.parse`: truthiness, `String(v)`, `join`, `trim`, and the string order of the default `sort`, compared by code point.
- `escaping.dfy` holds `safeHTML`.
  - Its output is always safe markup text.
  - Decoding the four references gives back the input.
  - Escaping is injective.
  - Escaping twice equals escaping once exactly when the text has no metacharacter.
- `links.dfy` holds `normalizeHref` (its cases, result shape and idempotence) and the string branch of `normalizePathForCompare`.
- `sequences.dfy` holds the array operations the script composes: a stable insertion sort (sorted, a permutation, stable), `filter`, `slice(0, limit || n)`, and the distinct values of a `Set`.
- `renderers.dfy` holds the seven renderers, each producing a structured `Fragment` (cards or table rows) whose every interpolated text is proved escaped. It also proves:
  - the selection and ordering each renderer applies (only the upcoming events when any exist, otherwise all of them, in ascending date order; newest-first announcements; latest-year-first winners; input order otherwise);
  - the effect of `limit`;
  - which optional blocks appear.
- `hydration.dfy` holds the `renderers` table and `hydrateMountpoints` as a loop over `MountPoint` objects whose content it writes. Each fetch outcome is an input.
- `filter_pages.dfy` holds:
  - the project filter, with its throw condition, its meaning, and its conjunctive structure;
  - the event filter;
  - the option vocabularies: distinct, sorted, and every offered string-valued option keeping at least one record in the filter's result;
  - the two pages as classes whose `Setup` and `Apply` methods update the page's list, count and selects.

The browser environment is a parameter, `Renderers.Env`. It holds the current time, the date parser, `Number` on strings, and the date formatter.

## Model

| member | source | states |
|---|---|---|
| JsValues.Trim | assets/js/script.js:40 | `trim` cuts removable characters (whitespace and line terminators), and only those, from both ends: the result is the input from its first kept character on, every character cut before or after it is removable, none is left at either end, and text already trimmed comes back unchanged |
| JsValues.Truthy | assets/js/script.js:39 | JavaScript truthiness of a parsed JSON value: `undefined`, `null`, `false`, `0` and "" are falsy; it has no contract of its own, and Renderers.WhenTruthy states how each optional block follows it |
| JsValues.ToString | assets/js/script.js:35 | `String(v)` of a parsed JSON value, arrays joined with `,`; no contract of its own, and Escaping.SafeHtmlRoundTrip states that it is what a label reads back as |
| JsValues.Lower | assets/js/script.js:403 | lower-casing keeps the length and maps each character on its own |
| JsValues.Contains | assets/js/script.js:408 | `s.includes(t)`: `t` occurs at some position of `s`; no contract of its own, and FilterPages.FilterProjectsMeaning states how the search box uses it |
| JsValues.StrLeTotal | assets/js/script.js:397-398 | any two strings are ordered one way or the other by the default sort's string order |
| JsValues.StrLeAntisymmetric | assets/js/script.js:397-398 | two strings ordered both ways are equal |
| JsValues.StrLeTransitive | assets/js/script.js:397-398 | the default sort's string order is transitive |
| Escaping.SafeEscapeChar | assets/js/script.js:35 | each replacement of the callback is safe text |
| Escaping.SafeConcat | assets/js/script.js:35 | safe texts concatenate to safe text |
| Escaping.Escape | assets/js/script.js:35 | the escaped text is safe (no raw `<`, `>`, `"`, and every `&` starts one of the four references) and never shorter than the input |
| Escaping.SafeHtml | assets/js/script.js:34-36 | the output is safe; a falsy value gives ""; a truthy one gives `String(v)` escaped |
| Escaping.Decode | assets/js/script.js:35 | replaces the four references by their characters, the inverse of the replacement; no contract of its own, and Escaping.DecodeEscape states that it undoes escaping |
| Escaping.DecodeEscapeChar | assets/js/script.js:35 | decoding one replacement gives back its character, whatever follows |
| Escaping.DecodeEscape | assets/js/script.js:35 | decoding the escaped text gives back the original text |
| Escaping.EscapeInjective | assets/js/script.js:35 | two different texts never escape to the same output |
| Escaping.SafeHtmlRoundTrip | assets/js/script.js:34-36 | for a truthy value, decoding `safeHTML(v)` gives `String(v)` |
| Escaping.EscapeConcat | assets/js/script.js:35 | escaping a concatenation is concatenating the escapes |
| Escaping.EscapeFixedPoint | assets/js/script.js:35 | escaping leaves text unchanged if and only if it has none of `&<>"` |
| Escaping.EscapeMetaFree | assets/js/script.js:35 | the escaped text is free of `&<>"` if and only if the input is |
| Escaping.EscapeIdempotentIff | assets/js/script.js:35 | escaping twice equals escaping once if and only if the text has none of `&<>"` |
| Links.StripLeadingSlashes | assets/js/script.js:44 | the input is a run of `/` followed by the result, which does not start with `/` |
| Links.NormalizeHref | assets/js/script.js:38-45 | `normalizeHref(h)`; no contract of its own, and Links.NormalizeHrefCases, Links.NormalizeHrefResult and Links.NormalizeHrefIdempotent state what it returns |
| Links.NormalizeHrefCases | assets/js/script.js:38-45 | a falsy href is returned as it is; otherwise the trimmed text is returned as is for a fragment, scheme-absolute, protocol-relative or rooted link, and with `/` in front otherwise |
| Links.KeptAsIsNonEmpty | assets/js/script.js:41-43 | a link matched by one of the three pass-through tests is non-empty |
| Links.RootedTrimmed | assets/js/script.js:44 | `/` + trimmed text is trimmed, rooted and passed through |
| Links.NormalizeHrefResult | assets/js/script.js:38-45 | a truthy href normalizes to a non-empty trimmed string that is a fragment, scheme-absolute or rooted link, and rooted whenever it was rewritten |
| Links.NormalizeHrefFixes | assets/js/script.js:39-43 | a non-empty trimmed link that passes one of the tests normalizes to itself |
| Links.NormalizeHrefIdempotent | assets/js/script.js:38-45 | normalizing twice equals normalizing once |
| Links.BeforeFirst | assets/js/script.js:56 | `split(sep)[0]` is the longest prefix of the input free of `sep`: it holds no `sep`, and it is the whole input or is followed by a `sep` |
| Links.DropTrailingSlashShape | assets/js/script.js:58 | a rooted path stays rooted; one other than `/` that ends in `/` loses exactly that `/`; any other path is unchanged |
| Links.DropIndexShape | assets/js/script.js:59 | a rooted path ending in `/index.html` loses exactly that suffix, becoming `/` when nothing else is left; any other path is unchanged; the result is a rooted prefix of the input |
| Links.CanonicalPathShape | assets/js/script.js:58-59 | the shared tail gives a rooted prefix of a rooted path: `/` stays `/`; a path ending in `/` loses it, and a `/index.html` before it as well; a path not ending in `/` loses a trailing `/index.html`; a path that is nothing but the removed part becomes `/`; any other path is unchanged |
| Links.CanonicalPath | assets/js/script.js:58-59 | the shared tail of both branches of `normalizePathForCompare`; no contract of its own, and Links.CanonicalPathShape states what it does |
| Links.BeforeFirstQueryCut | assets/js/script.js:56 | `split('?')[0].split('#')[0]` is the longest prefix of the text holding neither `?` nor `#` |
| Links.QueryCutUnique | assets/js/script.js:56 | a text has only one longest prefix holding neither `?` nor `#` |
| Links.RootedPathShape | assets/js/script.js:56-57 | after cutting at `?` and `#` and rooting, the path starts with `/` and holds neither `?` nor `#` |
| Links.StringPathResult | assets/js/script.js:56-60 | the string branch yields the canonical form (as in Links.CanonicalPathShape) of the rooted longest prefix of the text holding neither `?` nor `#`; it is non-empty, rooted, and holds no `?` or `#` |
| Links.NormalizePathResult | assets/js/script.js:47-61 | a falsy input gives ""; for a truthy one (through the string branch) the result is the canonical form of the rooted longest prefix of `String(h)` holding neither `?` nor `#`, a non-empty rooted path with no query or fragment |
| Links.NormalizePathForCompare | assets/js/script.js:47-61 | `normalizePathForCompare(h)` through its string branch; no contract of its own, and Links.NormalizePathResult states what it returns |
| Sequences.Insert | assets/js/script.js:205 | inserting adds exactly the one element |
| Sequences.SortBy | assets/js/script.js:205 | the sorted copy is a permutation of the input |
| Sequences.InsertSorted | assets/js/script.js:205 | inserting into a sorted sequence keeps it sorted, for a total preorder |
| Sequences.SortBySorted | assets/js/script.js:205 | the sorted copy is ordered by the comparator's key |
| Sequences.InsertStable | assets/js/script.js:205 | insertion keeps the relative order of equal-key elements, the new one first |
| Sequences.SortByStable | assets/js/script.js:205 | the sort is stable: for every key the elements with that key keep their input order |
| Sequences.Filter | assets/js/script.js:206 | the kept elements are exactly the input's elements that pass, and there are no more of them than inputs |
| Sequences.FilterConcat | assets/js/script.js:206 | filtering distributes over concatenation |
| Sequences.FilterAll | assets/js/script.js:438 | when every element passes, the filter returns its input |
| Sequences.SubsequenceReflexive | assets/js/script.js:438 | the unfiltered list is a subsequence of itself |
| Sequences.FilterSubsequence | assets/js/script.js:406 | the filter's result is an order-preserving subsequence of its input |
| Sequences.FilterFilter | assets/js/script.js:406-411 | filtering by one predicate and then another is filtering by their conjunction |
| Sequences.FilterNone | assets/js/script.js:206-207 | when nothing passes, the filter returns nothing |
| Sequences.FilterSorted | assets/js/script.js:205-206 | filtering a sorted list keeps it sorted |
| Sequences.SliceTo | assets/js/script.js:207 | `slice(0, end)` is a prefix of the input: `end` elements (capped) for `end >= 0`, all but `-end` for `end < 0` |
| Sequences.PrefixMembers | assets/js/script.js:207 | every element of a slice is in the sliced list |
| Sequences.SliceLimit | assets/js/script.js:207 | `slice(0, limit \|\| n)` keeps everything for a missing or zero limit, the first `limit` for a positive one, and drops `-limit` from the end for a negative one |
| Sequences.Distinct | assets/js/script.js:397-398 | `Array.from(new Set(s))` has no duplicates and exactly the values of `s` |
| Sequences.PermutationNoDuplicates | assets/js/script.js:397-398 | sorting a duplicate-free list keeps it duplicate-free |
| Sequences.CountAtMostOne | assets/js/script.js:397-398 | a duplicate-free list holds each value at most once |
| Renderers.WhenTruthy | assets/js/script.js:214 | an optional block is present if and only if its field is truthy |
| Renderers.Href | assets/js/script.js:214 | a normalized, escaped link is safe text |
| Renderers.IntOrders | assets/js/script.js:205 | the ascending and descending subtraction comparators are total preorders |
| Renderers.EventCandidates | assets/js/script.js:205-207 | `upcoming.length ? upcoming : sorted`; no contract of its own, and Renderers.CandidatesAscending and Renderers.CandidatesUpcoming state its order and contents |
| Renderers.SelectEvents | assets/js/script.js:205-207 | the events `renderEvents` shows; no contract of its own, and Renderers.EventsAscending, Renderers.EventsUpcomingOnly, Renderers.EventsFallback and Renderers.EventsLimit state which and in what order |
| Renderers.EventCardOf | assets/js/script.js:208-215 | an event card is escaped, and has the "Learn more" link if and only if the event's link is truthy |
| Renderers.RenderEvents | assets/js/script.js:204-216 | one card per selected event, in selection order, each that event's own escaped card (Renderers.EventCardOf), with the link block if and only if the event's link is truthy |
| Renderers.SortedEventsAscending | assets/js/script.js:205 | the sorted events are in ascending date order and a permutation of the input |
| Renderers.CandidatesAscending | assets/js/script.js:205-207 | the candidate events (upcoming or all) are ascending by date and drawn from the input |
| Renderers.EventsAscending | assets/js/script.js:204-208 | the events shown are in ascending date order and all come from the input |
| Renderers.CandidatesUpcoming | assets/js/script.js:206-207 | when an event is upcoming, the candidates are the upcoming events of the sorted list |
| Renderers.EventsUpcomingOnly | assets/js/script.js:206-207 | when any event is dated no earlier than a day before now, every event shown is |
| Renderers.EventsFallback | assets/js/script.js:206-207 | when no event is upcoming, what is shown is a prefix of all events sorted by date |
| Renderers.EventsLimit | assets/js/script.js:207 | the number of events shown for a missing, zero, positive or negative limit |
| Renderers.SelectAnnouncements | assets/js/script.js:219-220 | the announcements `renderAnnouncements` shows; no contract of its own, and Renderers.AnnouncementsNewestFirst states their order and contents |
| Renderers.AnnouncementCardOf | assets/js/script.js:220-226 | an announcement card is escaped, with the "Read more" link if and only if the link is truthy |
| Renderers.RenderAnnouncements | assets/js/script.js:218-227 | one card per selected announcement, in selection order, each that announcement's own escaped card (Renderers.AnnouncementCardOf), with the link block if and only if the link is truthy |
| Renderers.AnnouncementsNewestFirst | assets/js/script.js:219-220 | announcements are shown newest first; without a limit each appears exactly once; announcements with equal dates keep their input order |
| Renderers.SelectInOrder | assets/js/script.js:230 | `list.slice(0, limit \|\| list.length)`; no contract of its own, and Renderers.InOrderSelection states what it keeps |
| Renderers.InOrderSelection | assets/js/script.js:230 | projects and prizes show a prefix of the input: all of it for a missing or zero limit, `min(limit, n)` for a positive one, all but `-limit` for a negative one |
| Renderers.ImageOf | assets/js/script.js:232 | `(p.images && p.images[0]) \|\| placeholder`; no contract of its own, and Renderers.ProjectCardOf states that its text is escaped |
| Renderers.ProjectCardOf | assets/js/script.js:230-238 | a project card is escaped, has one chip per category entry, and the "View details" link if and only if `detailsLink` is truthy |
| Renderers.RenderProjects | assets/js/script.js:229-239 | throws if and only if a shown record has a truthy non-array category; otherwise one card per shown record in input order, each that record's own escaped card (Renderers.ProjectCardOf), with one chip per array entry and the details block if and only if `detailsLink` is truthy |
| Renderers.MailtoSafe | assets/js/script.js:248 | the literal `mailto:` prefix is safe text |
| Renderers.MailtoHref | assets/js/script.js:248 | the `mailto:` link built from an escaped email is safe |
| Renderers.MemberCardOf | assets/js/script.js:242-249 | a member card is escaped, with the "Email" link if and only if the email is truthy |
| Renderers.RenderMembers | assets/js/script.js:241-250 | every member in input order, one escaped card each, with the email block if and only if the email is truthy |
| Renderers.ResourceRowOf | assets/js/script.js:253-258 | every text of a resource row is escaped |
| Renderers.RenderResources | assets/js/script.js:252-260 | always the table, with one escaped row per resource in input order, opening in a new tab if and only if `external` is truthy |
| Renderers.MissingUrlLinksToFragment | assets/js/script.js:255 | a resource without a url links to `#` |
| Renderers.PrizeCardOf | assets/js/script.js:263-269 | a prize card is escaped, with the sponsor and category blocks if and only if those fields are truthy |
| Renderers.RenderPrizes | assets/js/script.js:262-270 | one card per shown prize, in input order, each that prize's own escaped card (Renderers.PrizeCardOf), with the sponsor and category blocks if and only if those fields are truthy |
| Renderers.YearKey | assets/js/script.js:273 | `w.year \|\| 0` as the comparator's subtraction reads it; no contract of its own, and Renderers.WinnersLatestFirst states that a falsy year counts as 0 |
| Renderers.SelectWinners | assets/js/script.js:273-274 | the winners `renderWinners` shows; no contract of its own, and Renderers.WinnersLatestFirst states their order and contents |
| Renderers.WinnerCardOf | assets/js/script.js:274-279 | a winner card is escaped, with the student, category and link parts if and only if those fields are truthy |
| Renderers.RenderWinners | assets/js/script.js:272-280 | one card per shown winner, in selection order, each that winner's own escaped card (Renderers.WinnerCardOf), with the optional parts if and only if their fields are truthy |
| Renderers.WinnersLatestFirst | assets/js/script.js:273-274 | winners are shown with non-increasing year, a falsy year counting as 0; without a limit each winner appears exactly once |
| Hydration.LimitOfCases | assets/js/script.js:299 | a missing, non-numeric or zero `data-limit` means no limit; any other number is passed on |
| Hydration.LimitOf | assets/js/script.js:299 | `Number(el.getAttribute('data-limit')) \|\| undefined`; no contract of its own, and Hydration.LimitOfCases states its cases |
| Hydration.TableSafe | assets/js/script.js:282-290 | the table has exactly the seven names; every renderer's output is escaped, and only the projects renderer throws |
| Hydration.Hydrated | assets/js/script.js:300-305 | the content one mount point gets from a renderer table; no contract of its own, and Hydration.HydratedCases states its cases for the script's table |
| Hydration.HydratedCases | assets/js/script.js:300-305 | with the script's table, a failed load gives the fallback card; an unknown name gives empty content; a known name gives the renderer's output, or the fallback card when `renderProjects` throws; the content is always escaped |
| Hydration.HydrateMountpoints | assets/js/script.js:295-308 | after the loop, every mount point holds the content its own component, limit and load call for, and only mount points are written |
| FilterPages.FilterProjectsThrows | assets/js/script.js:406-407 | the project filter throws if and only if some record has a truthy category that is neither an array nor a string |
| FilterPages.Haystack | assets/js/script.js:407 | the lower-cased text the search box is matched against; no contract of its own, and FilterPages.FilterProjectsMeaning states how it is used |
| FilterPages.Verdict | assets/js/script.js:406-411 | the `data.filter` callback on one record; no contract of its own, and FilterPages.FilterProjectsThrows and FilterPages.FilterProjectsMeaning state when it throws and what it keeps |
| FilterPages.FilterProjects | assets/js/script.js:406-412 | `data.filter(...)` for the three controls; no contract of its own, and FilterPages.FilterProjectsThrows and FilterPages.FilterProjectsMeaning state when it throws and what it keeps |
| FilterPages.FilterProjectsMeaning | assets/js/script.js:406-412 | the filter keeps an order-preserving subsequence of the data: exactly the records matching the query, the category and the grade |
| FilterPages.EmptyFiltersKeepAll | assets/js/script.js:403-412 | with the search box and both selects empty, the filter keeps every project, whenever it does not throw |
| FilterPages.FilterConjunctive | assets/js/script.js:408-411 | filtering by all three controls is filtering by query, then category, then grade |
| FilterPages.NonStringGradeNeverMatches | assets/js/script.js:410 | a record whose grade is not a string never matches a selected grade |
| FilterPages.SortKeyOrder | assets/js/script.js:397-398 | the default sort's order (`String(v)` compared character by character, `undefined` last) is a total preorder |
| FilterPages.VocabularyProperties | assets/js/script.js:397-398 | a select's options list each value of the data exactly once, nothing else, in default sort order |
| FilterPages.CategoryValuesMembership | assets/js/script.js:397 | a value is among the `flatMap`ped categories if and only if some record contributes it |
| FilterPages.CategoryValues | assets/js/script.js:397 | `data.flatMap(p => p.category \|\| [])`; no contract of its own, and FilterPages.CategoryValuesMembership states its members |
| FilterPages.Vocabulary | assets/js/script.js:397-398 | `Array.from(new Set(values)).sort()`; no contract of its own, and FilterPages.VocabularyProperties states its contents and order |
| FilterPages.OptionLabels | assets/js/script.js:399-400 | one label per value, each markup-safe, decoding back to `String(v)` for a truthy value and empty for a falsy one |
| FilterPages.CategoryOptionSelects | assets/js/script.js:397-412 | choosing any string-valued category the select offers keeps at least one project in that category in the filter's result, whenever the filter does not throw |
| FilterPages.GradeOptionSelects | assets/js/script.js:398-412 | choosing any string-valued grade the select offers keeps at least one project with that grade in the filter's result, whenever the filter does not throw |
| FilterPages.FilterEventsMeaning | assets/js/script.js:436-440 | an empty category shows every event; any other shows, in order, exactly the events with that category |
| FilterPages.FilterEvents | assets/js/script.js:438 | `!cat ? data : data.filter(e => e.category === cat)`; no contract of its own, and FilterPages.FilterEventsMeaning states what it keeps |
| FilterPages.EventOptionSelects | assets/js/script.js:434-438 | choosing any string-valued type the events select offers keeps at least one event of that type in the filter's result |
| FilterPages.CountWithinTotal | assets/js/script.js:414 | the count never claims more projects than were loaded |
| FilterPages.CountText | assets/js/script.js:414 | `${shown} of ${total}`; no contract of its own, and FilterPages.CountWithinTotal states that it never claims more than were loaded |
| FilterPages.ProjectsPage.ListAfter | assets/js/script.js:413 | what `apply` leaves in the list; no contract of its own, and FilterPages.ProjectsPage.Apply states that it is the new list |
| FilterPages.ProjectsPage.CountAfter | assets/js/script.js:414 | what `apply` leaves in the count; no contract of its own, and FilterPages.ProjectsPage.Apply states that it is the new count |
| FilterPages.ProjectsPage.Apply | assets/js/script.js:402-415 | the list gets the rendered filtered projects and the count "shown of total"; a throw in the filter or renderer leaves them as they were; nothing else changes |
| FilterPages.ProjectsPage.FillSelects | assets/js/script.js:397-400 | each present select gets the escaped vocabulary of its field |
| FilterPages.ProjectsPage.Setup | assets/js/script.js:381-419 | without the wrapper nothing changes; a failed load shows the notice; otherwise the data is kept, the selects filled, and `apply` run with both selects empty |
| FilterPages.EventsPage.Apply | assets/js/script.js:436-440 | the list gets the rendered events of the selected category |
| FilterPages.EventsPage.Setup | assets/js/script.js:422-443 | without the wrapper nothing changes; a failed load shows the notice; otherwise the select gets the category vocabulary and the list all events |

## Left out

- The `URL` branch of `normalizePathForCompare` (lines 49-54) needs the browser's URL parser. The model covers the `catch` branch and the shared tail.
- `loadJSON` and the fetch are left out. Each load is an input (`Load`), so the HTTP status, caching and the error message are not modelled. `console.error` is left out.
- `formatNZDate`, `new Date(...)`, `Date.now()` and `Number(...)` on strings are parameters (`Env`). Invalid dates are therefore not modelled: they give `NaN`, which makes the JavaScript comparators inconsistent.
- Numbers are integers. Fractional limits and years are not modelled, nor floating-point subtraction in the comparators.
- Data files are arrays of objects. A file holding anything else, and records that are not objects, are not modelled.
- Lookup of a component name through the prototype is not modelled: the model gives empty content for every name outside the seven. In the script, `renderers[component]` at line 302 also finds the members of `Object.prototype`. `toString`, `constructor` and the other methods are functions and get called with the data, and `__proto__` is an object, so calling it throws and the catch shows the fallback card.
- `Set` here compares values structurally. In JavaScript, two distinct arrays or objects with equal contents are distinct `Set` members.
- JsValues.StrLe compares characters by code point, where JavaScript's default `sort` compares UTF-16 code units. The two orders differ only between characters above U+FFFF and those from U+E000 to U+FFFF, so FilterPages.SortKeyOrder and FilterPages.VocabularyProperties may order such strings differently from the script.
- Renderers.ImageOf takes the first character of a string `images`, where JavaScript takes its first UTF-16 code unit, which is half of a surrogate pair for a character above U+FFFF.
- `toLowerCase` is modelled as ASCII lower-casing. Full Unicode case mapping is not modelled.
- Markup is modelled as structured fragments (cards, table rows), not as HTML strings. Fixed markup around the fields, attributes such as `width` and `loading`, and the exact whitespace are not modelled.
- The menu, submenus, theme toggle, lightbox, year-in-footer, mutation observer and the initial `init` sequence are not part of this model.
- Hydration.HydrateMountpoints: the loop runs with the table as a parameter, and `HydratedCases` states what the script's own table gives. Awaiting each load is sequential in the script; the model takes all outcomes in advance.
- FilterPages.ProjectsPage.Apply and FilterPages.EventsPage.Apply run once per call; the input-event listeners that call them are not modelled.

Behaviour a reader might not expect from the code:

- `safeHTML` turns every falsy value (including `0` and `false`) into "".
- Escaping is idempotent only for text with none of `&<>"`. Already escaped text that holds a reference gets its `&` escaped again.
- Announcements and winners come out in non-increasing order, not strictly decreasing. Ties keep their input order.
- A negative limit drops entries from the end rather than truncating to the first N.
- `renderMembers` and `renderResources` ignore the limit.
- `renderResources` emits the table even for an empty list.
- An "upcoming" event is one dated no earlier than 24 hours before now.
- With a string category, the project filter matches a substring. `renderProjects` throws on such a record. During hydration the `catch` then shows the fallback card. On the projects page, `apply` has no `catch`: the exception escapes, and the list and count stay as they were.
- The `replace(/^\/+/, '')` at line 44 has no effect: a link starting with `/` has already been returned by line 43.
