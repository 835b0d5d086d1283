# IP Locator content scripts, modelled in Dafny

IP Locator is a browser extension. It finds IPv4-shaped strings in a web page
and shows where each address is located: country flag, city, region, country
and ISP. The lookup asks a public geolocation service. The extension has
three `IPLocator` content scripts:

- **hover variant** (`content-debug.js`): hovering over an element shows a
  tooltip for the first address in its text. The tooltip follows the mouse
  until the result arrives. A result for an address the mouse has since
  left is dropped.
- **selection variant** (`content.js`): selecting text shows a tooltip for the
  first address in the trimmed selection. An empty selection, a selection
  without an address, or a click outside the tooltip hides it. A copy button
  composes a line from the cached record.
- **inline variant** (`content-simple.js`): once, on page load, every accepted
  text node is split into plain text and one wrapper element per address.
  Each wrapper shows the location once it is known.

All three share the same address pattern, flag mapping and location line.
Each keeps a cache and a counter, and answers the popup's messages.

The project has one module per concern:

| module | file | contents |
|---|---|---|
| `IpPattern` | `ip_pattern.dfy` | the regex `\b(?:[0-9]{1,3}\.){3}[0-9]{1,3}\b` as a backtracking matcher; its agreement with a declarative "dotted quad between word boundaries"; the leftmost, non-overlapping global scan of `String.prototype.match` |
| `Text` | `text.dfy` | JavaScript `trim`, `indexOf` with a start position, and `filter(Boolean).join(', ')` |
| `Flag` | `flag.dfy` | `getCountryFlag`: upper-casing, UTF-16 code units, the shift into the Regional Indicator Symbols |
| `Placement` | `placement.dfy` | the tooltip placement rule |
| `Geo` | `geo.dfy` | the endpoint payloads; the three variants' lookup logic over abstract fetch outcomes; the cache update |
| `Protocol` | `protocol.dfy` | the popup's actions and the reply objects |
| `HoverLocator` | `hover_locator.dfy` | the hover variant: transitions on a `State` value, their properties, and the class `Locator` proved to make them |
| `SelectionLocator` | `selection_locator.dfy` | the selection variant, in the same form, plus the copy text |
| `InlineLocator` | `inline_locator.dfy` | the inline variant: the node filter, the splitting loop with its cursor, wrapper creation, the page pass and the dispatcher |

The network is an input. A fetch either is rejected with a message, or gives a
response with an `ok` flag whose body parses as JSON or does not. Every
`async getLocationInfo` is cut at its first `await` into two steps:

- `BeginLookup` / `Begun`: the cache check and the counter, which run
  synchronously inside the event.
- `CompleteLookup` / `Completed`: everything after the fetches settle.

This makes the hover variant's staleness guard observable in a sequential
model. Strings are sequences of Unicode code points. Mouse coordinates and
viewport sizes are `real`.

The variants differ in small ways, and the model keeps each one as the code
has it, including where the code does something its authors may not have
meant:

- The selection variant's `getStats` reply has no `success` field.
- Its `clearCache` keeps the query counter; the hover variant's resets it.
- Its unknown actions get no reply at all.
- The hover variant's `test` action shows 8.8.8.8 without making it the
  current IP, so the lookup result for 8.8.8.8 is never rendered
  (`TestResultNeverRendered`).
- The selection variant is also triggered by `keyup` and `selectionchange`,
  which carry no mouse coordinates. A selection reported by them is placed
  centred in the viewport (`UndefinedSelectionCentred`). A `mouseup` that
  follows a `selectionchange` with no click between them leaves it centred
  (`DragStaysCentred`). A drag usually ends with a `click` as well: its
  handler runs before the delayed `mouseup` handler and hides the tooltip,
  so the `mouseup` shows the IP again at the mouse and, on a cache miss,
  counts a second query (`DragClickReplaces`).
- In the inline variant, `indexOf` can stop on an earlier occurrence of a
  match's text that is not itself a match (`PositionAtMatch`).

## Model

| member | source | states |
|---|---|---|
| IpPattern.LastGroup | content-debug.js:101 | the final greedy `[0-9]{1,3}\b` tried from k digits down; an end lies after the start, within k characters |
| IpPattern.Groups | content-debug.js:101 | the repeated `[0-9]{1,3}\.` with backtracking to shorter counts; any end lies after the start and inside the text |
| IpPattern.MatchAt | content-debug.js:101 | one attempt of the whole pattern at a start position; a match ends after it starts |
| IpPattern.LastGroupShape | content-debug.js:101 | the final group, trying at most k digits, ends at e exactly when the digit run there is at most k long, 1-3 digits, and ends at e on a word boundary |
| IpPattern.GroupsShape | content-debug.js:101 | the backtracking repetition ends at e exactly when each remaining group is a whole digit run of 1-3 digits followed by a dot, the last one ending at e on a word boundary |
| IpPattern.ShapeIsMatch | content-debug.js:101 | the greedy shape after a boundary is equivalent to a dotted quad between word boundaries |
| IpPattern.ShapeImpliesMatch | content-debug.js:101 | a greedy shape after a boundary is a dotted quad between boundaries |
| IpPattern.MatchImpliesShape | content-debug.js:101 | a dotted quad between boundaries has the greedy shape |
| IpPattern.MatchAtIsMatch | content-debug.js:101 | the matcher gives end e at p exactly when text[p..e] is four dot-separated groups of 1-3 digits with a word boundary on each side |
| IpPattern.NoRangeCheck | content-debug.js:101 | groups are not range-checked: "999.999.999.999" matches whole |
| IpPattern.FourDigitsRejected | content-debug.js:101 | a four-digit group does not match: "1234.1.1.1" has no match at its start |
| IpPattern.Scan | content-debug.js:102 | the `g`-flag scan: spans in order, each a successful match attempt, none overlapping the previous one |
| IpPattern.ScanLeftmost | content-debug.js:102 | no match starts before the first span, between two spans, or after the last: the matches are leftmost |
| IpPattern.ScanSkips | content-debug.js:102 | the scan from p equals the scan from q when no match starts in between |
| IpPattern.Matches | content-debug.js:102 | the array `text.match(ipRegex)`: the substring of each span, in order |
| IpPattern.FirstMatch | content-debug.js:104-105 | `matches[0]`: none exactly when no position matches; otherwise the substring of a match with no match before it |
| IpPattern.FirstMatchIsFirst | content-debug.js:104-105 | the first match is the first element of `match`'s array |
| Text.TrimStart | content.js:89 | drops a white-space prefix; the rest is a suffix not starting with white space |
| Text.TrimEnd | content.js:89 | drops a white-space suffix; the rest is a prefix not ending with white space |
| Text.Trim | content.js:89 | `trim()`: no longer than the input, neither starting nor ending with white space |
| Text.TrimIsPiece | content.js:89 | the trimmed text is the input between a white-space prefix and a white-space suffix |
| Text.PrefixOfSuffix | content.js:89 | a prefix, ending in white space, of a suffix is a slice of the whole |
| Text.TrimEmpty | content.js:89-92 | the trimmed selection is empty exactly when the selection is all white space |
| Text.SearchFrom | content-simple.js:86 | the first occurrence at or after k, or -1, with no occurrence in between |
| Text.IndexOf | content-simple.js:86 | `indexOf(pat, from)`: the first occurrence at or after the clamped start, or -1 when there is none |
| Text.IndexOfFinds | content-simple.js:86 | a search from before a known occurrence finds one, no later than it |
| Text.Kept | content-debug.js:397-401 | `filter(Boolean)`: no more parts than fields, none empty; one field gives its value exactly when it is truthy, else nothing |
| Text.KeptAppend | content-debug.js:397-401 | filtering keeps order: the kept values of a + b are those of a followed by those of b |
| Text.Join | content-debug.js:397-401 | `join` of one part is the part itself |
| Text.JoinAppend | content-debug.js:397-401 | joining one more part appends the separator and the part |
| Text.JoinEmpty | content-debug.js:397-401 | joining non-empty parts gives "" exactly when there are none |
| Text.LocationText | content-debug.js:397-401 | the location line is empty exactly when city, region and country are all falsy; for every other combination it is the truthy ones, in that order, separated by ", " |
| Flag.AsciiUpper | content-debug.js:441 | `toUpperCase` moves 'a'..'z' down by 32 and leaves the rest |
| Flag.Upper | content-debug.js:441 | upper-cases each character, keeping the length |
| Flag.CodeUnits | content-debug.js:442-443 | a character's UTF-16 units: one unit below U+10000, a surrogate pair above |
| Flag.Units | content-debug.js:442-443 | `split('')` then `charCodeAt`: 16-bit units, at least one per character |
| Flag.UnitsOfBmp | content-debug.js:442-443 | for characters of the Basic Multilingual Plane the units are the characters themselves |
| Flag.Indicators | content-debug.js:443-445 | each unit u becomes the code point 127397 + u |
| Flag.CountryFlag | content-debug.js:437-446 | a falsy code gives the globe |
| Flag.FlagRoundTrip | content-debug.js:440-445 | subtracting 127397 from the flag's code points gives back the upper-cased code's units |
| Flag.LettersGiveIndicators | content-debug.js:440-445 | a code of ASCII letters gives one Regional Indicator Symbol (U+1F1E6..U+1F1FF) per letter, the n-th letter giving the n-th symbol |
| Flag.CaseInsensitive | content-debug.js:441 | codes equal up to ASCII case give the same flag |
| Flag.UnitedStates | content-debug.js:437-446 | "US" gives U+1F1FA U+1F1F8 |
| Placement.HorizontalSide | content-debug.js:246-255 | right exactly when it fits right; left exactly when it does not fit right but fits left; centred otherwise |
| Placement.VerticalSide | content-debug.js:258-267 | above exactly when it fits above; below exactly when it does not fit above but fits below; centred otherwise |
| Placement.LeftEdge | content-debug.js:246-255 | right: starts a margin after the mouse and ends inside the viewport; left: ends a margin before the mouse and starts inside it; centred: half the free width, (vw - width) / 2, from the left, or the margin when that is larger |
| Placement.TopEdge | content-debug.js:258-267 | above: ends a margin above the mouse and starts inside the viewport; below: starts a margin under the mouse and ends inside it; centred: half the free height, (vh - height) / 2, from the top, or the margin when that is larger |
| Placement.MouseUncovered | content-debug.js:239-267 | unless centred both ways, the tooltip's box does not cover the mouse |
| Placement.SidePlacementInside | content-debug.js:239-267 | for the mouse inside the viewport, a side placement keeps the box inside it |
| Placement.HoverNearTopRight | content-debug.js:239-267 | viewport 1000 x 800, mouse at (900, 50): left of the mouse at 560, below it at 70 |
| Placement.HoverWithRoom | content-debug.js:239-267 | viewport 1000 x 800, mouse at (500, 400): right at 520, above at 280 |
| Placement.SelectionThresholds | content.js:160-182 | with 350 x 120 and margin 20, right needs x + 370 < vw and above needs y - 140 > 0, whatever the viewport height |
| Placement.EventLeft | content.js:167-172 | for an event with coordinates, the rule's left edge; without them every comparison with NaN fails and the tooltip is centred: the larger of the margin and half the free width |
| Placement.EventTop | content.js:176-181 | for an event with coordinates, the rule's top edge; without them the larger of the margin and half the free height |
| Placement.UndefinedIsCentred | content.js:171-181 | an event without coordinates gets the same place as a mouse with no room on any side |
| Placement.SelectionWithoutCoordinates | content.js:153-186 | viewport 1000 x 800, selection size, no coordinates: left 325, top 340 |
| Geo.HoverResolve | content-debug.js:303-367 | one request exactly when the primary gives data, which is then the result with region taken from regionName; otherwise the result is located exactly when an ok secondary response says success; a failure reads "query failed: " then the body's message or "unknown error" |
| Geo.HoverSecondaryUnused | content-debug.js:331 | once the primary gives data, the secondary's outcome does not matter |
| Geo.HoverPrimaryFields | content-debug.js:312-321 | a primary body is mapped field by field: country_name, country_code, city, region, and org as both ISP and org |
| Geo.HoverBothFail | content-debug.js:364-366 | both endpoints failing gives a failure with a non-empty reason |
| Geo.ErrorMessage | content.js:346 | `data?.message \|\| error?.message \|\| '网络错误'`: never empty, with that precedence |
| Geo.SelectionResolve | content.js:308-347 | one request exactly when the primary gives data; a result is located exactly when the primary gives data or the secondary body, whatever its status, says success; a located result has status success; when only the secondary succeeds, the result is its whole body; a failure carries the error message |
| Geo.SelectionErrorPrecedence | content.js:325-347 | when both fail: the secondary body's message, else the message of the last caught error, else "network error" |
| Geo.StatusCheckDiffers | content.js:332-333 | the selection variant accepts a non-ok secondary response with a success body; the hover variant rejects it |
| Geo.InlineResolve | content-simple.js:148-173 | located exactly when the parsed body says success, with region from regionName; another status gives "query failed"; a rejected fetch or unparsable body gives "network error" |
| Geo.Store | content-debug.js:362 | only a success is cached, under the IP; a failure leaves the cache; other keys are kept |
| HoverLocator.HoverOutcome | content-debug.js:99-113 | no match, or the current IP again, changes nothing; a new first match becomes current and is placed and shown; on a cache hit the record is rendered and fixed with no query, on a miss the tooltip loads and the counter rises by one |
| HoverLocator.HoverDependsOnFirstMatch | content-debug.js:104-105 | texts with the same first match have the same effect |
| HoverLocator.MouseOutForgets | content-debug.js:116-119 | mouse-out hides and forgets the current IP; cache and counter are kept |
| HoverLocator.MoveWhileLoading | content-debug.js:122-127 | the tooltip follows the mouse exactly while an IP is current and no result is fixed |
| HoverLocator.ShowCountsMisses | content-debug.js:286-293 | showing counts one query exactly on a cache miss and leaves the cache |
| HoverLocator.StaleResultDropped | content-debug.js:376 | a result for an IP that is no longer current only fills the cache |
| HoverLocator.CurrentResultRendered | content-debug.js:375-416 | a result for the current IP is rendered and fixes the tooltip |
| HoverLocator.WarmCache | content-debug.js:286-290 | after a successful lookup, leaving and hovering the same text again renders the cached record with no new query |
| HoverLocator.StatsReport | content-debug.js:456-462 | `getStats` replies success, the cache size and the counter |
| HoverLocator.ClearResets | content-debug.js:463-468 | `clearCache` empties the cache and zeroes the counter, so the next `getStats` reports zeros |
| HoverLocator.UnknownRefused | content-debug.js:475-476 | an unknown action changes nothing and gets `{ success: false }` |
| HoverLocator.TestResultNeverRendered | content-debug.js:469-474 | `test` shows 8.8.8.8 without making it current, so its lookup result is never rendered |
| HoverLocator.Locator.constructor | content-debug.js:10-13 | empty cache, zero counter, no current IP |
| HoverLocator.Locator.UpdateTooltipPosition | content-debug.js:232-273 | sets left and top by the 320 x 100 rule; nothing else changes |
| HoverLocator.Locator.HideTooltip | content-debug.js:276-280 | hides; nothing else changes |
| HoverLocator.Locator.UpdateTooltip | content-debug.js:375-416 | does nothing unless the IP is current; otherwise fixes the tooltip and renders the record or the error |
| HoverLocator.Locator.BeginLookup | content-debug.js:286-293 | a hit renders the cached record; a miss counts a query and reports the lookup pending |
| HoverLocator.Locator.CompleteLookup | content-debug.js:303-367 | caches a success, renders through the guard, and reports one or two requests |
| HoverLocator.Locator.ShowTooltip | content-debug.js:207-229 | unfixes, places, shows loading, then begins the lookup |
| HoverLocator.Locator.MouseOver | content-debug.js:99-113 | makes the hover transition; a lookup goes out only for an uncached first match |
| HoverLocator.Locator.MouseOut | content-debug.js:116-119 | makes the mouse-out transition |
| HoverLocator.Locator.MouseMove | content-debug.js:122-127 | makes the mouse-move transition |
| HoverLocator.Locator.DoubleClick | content-debug.js:130-140 | copies nothing when there is no match; otherwise copies the first element of `match`'s array |
| HoverLocator.Locator.HandleMessage | content-debug.js:452-478 | makes the dispatcher's transition and gives its reply |
| SelectionLocator.CopyText | content.js:215-233 | the bare IP exactly when nothing is cached; otherwise the IP, " - ", the flag, a space, the location line from city, regionName and country, and " (isp)" exactly when the ISP is truthy |
| SelectionLocator.CopyPieces | content.js:229-232 | where each piece lies in the concatenated copy text |
| SelectionLocator.BlankSelectionHides | content.js:89-95 | a selection of white space only hides and forgets the current IP |
| SelectionLocator.SelectionOutcome | content.js:87-114 | no match hides; the current IP again changes nothing; a new first match becomes current and is placed and shown, counting a query exactly on a cache miss |
| SelectionLocator.UndefinedSelectionCentred | content.js:67-76 | a new IP selected by keyboard or reported by `selectionchange` is shown centred in the viewport |
| SelectionLocator.DragStaysCentred | content.js:62-76 | after a `selectionchange` showed a new IP centred, a `mouseup` for the same selection with no click between them changes nothing, so the tooltip stays centred |
| SelectionLocator.DragClickReplaces | content.js:62-83 | a `selectionchange`, then a click outside, then the `mouseup`: the IP is shown again at the mouse by the 350 x 120 rule, and a cache miss is counted twice |
| SelectionLocator.ReselectAfterHide | content.js:189-195 | hiding forgets the current IP, so selecting the same IP again shows it again |
| SelectionLocator.ClickOutsideHides | content.js:79-83 | a click outside hides and forgets the current IP; a click inside changes nothing |
| SelectionLocator.ShowCountsMisses | content.js:297-302 | showing counts one query exactly on a cache miss and leaves the cache |
| SelectionLocator.ResultAlwaysRendered | content.js:356-358 | with no staleness guard, a result is rendered whatever IP is current |
| SelectionLocator.CopyAfterSuccess | content.js:340-343 | a success caches the whole response object, after which the copy text is more than the IP |
| SelectionLocator.CopyAfterFailure | content.js:344-347 | a failure is not cached, so the copy text stays the bare IP |
| SelectionLocator.StatsReport | content.js:415-420 | `getStats` replies the cache size and the counter, without a success field |
| SelectionLocator.ClearKeepsCount | content.js:421-424 | `clearCache` empties the cache and keeps the counter |
| SelectionLocator.UnknownUnanswered | content.js:414-431 | an unknown action changes nothing and gets no reply |
| SelectionLocator.Locator.constructor | content.js:9-12 | empty cache, zero counter, no current IP |
| SelectionLocator.Locator.UpdateTooltipPosition | content.js:153-186 | sets left and top by the 350 x 120 rule, centred for an event without coordinates |
| SelectionLocator.Locator.HideTooltip | content.js:189-195 | hides and forgets the current IP |
| SelectionLocator.Locator.UpdateTooltip | content.js:356-397 | renders the record, or "query failed: " and the error |
| SelectionLocator.Locator.BeginLookup | content.js:297-302 | a hit renders the cached object; a miss counts a query and reports the lookup pending |
| SelectionLocator.Locator.CompleteLookup | content.js:308-347 | caches a success, renders the result, and reports one or two requests |
| SelectionLocator.Locator.ShowTooltip | content.js:117-150 | places by the event's coordinates or centred without them, shows loading, then begins the lookup |
| SelectionLocator.Locator.HandleTextSelection | content.js:87-114 | makes the selection transition, for a `mouseup` with coordinates or a `keyup` or `selectionchange` without them |
| SelectionLocator.Locator.Click | content.js:79-83 | makes the click transition |
| SelectionLocator.Locator.CopyToClipboard | content.js:215-233 | hands the copy text of the current cache to the clipboard; nothing changes |
| SelectionLocator.Locator.HandleMessage | content.js:413-432 | makes the dispatcher's transition and gives its reply |
| InlineLocator.AcceptedNodes | content-simple.js:45-62 | exactly the accepted nodes, each from the input: none in a SCRIPT, STYLE, processed or wrapper parent; one node is kept exactly when it is accepted |
| InlineLocator.AcceptedNodesAppend | content-simple.js:45-62 | the walker keeps document order and multiplicity: the accepted nodes of a + b are those of a followed by those of b |
| InlineLocator.Wrapper.constructor | content-simple.js:117-125 | a wrapper for the IP, showing the loading state |
| InlineLocator.Wrapper.UpdateLocationDisplay | content-simple.js:177-201 | shows the error, or the flag, the location line from city, region and country, and the ISP when truthy |
| InlineLocator.Appended | content-simple.js:85-104 | appending a fragment extends the spelled text, the wrapper IPs, their offsets and the wrapper set by that fragment |
| InlineLocator.AppendedShows | content-simple.js:85-104 | appending keeps every wrapper showing what it showed at creation |
| InlineLocator.Positions | content-simple.js:86 | the k-th entry is where the k-th search finds its IP |
| InlineLocator.AppendGap | content-simple.js:89-92 | the text before the IP is added only when non-empty, and then it completes the spelling up to the IP |
| InlineLocator.AppendPieces | content-simple.js:85-98 | one turn spells the text up to the end of the IP and adds its wrapper at the search position |
| InlineLocator.StepShows | content-simple.js:85-98 | one turn adds exactly one wrapper object, and every wrapper still shows its state at creation |
| InlineLocator.ProgressStep | content-simple.js:85-98 | one turn keeps the loop's state: the cursor never goes back, and the next IP lies at or after it, inside the text |
| InlineLocator.CursorNext | content-simple.js:86-98 | the search from the cursor finds the IP at or after it; the cursor moves to the IP's end |
| InlineLocator.Finish | content-simple.js:101-105 | the tail, added only when non-empty, completes the spelling of the whole text |
| InlineLocator.SliceJoin | content-simple.js:90 | text up to b is text up to a followed by text[a..b] |
| InlineLocator.SearchFindsMatch | content-simple.js:86 | each search finds its IP at or after the cursor and no later than the match it stands for, ending no later than that match |
| InlineLocator.FoundMatches | content-simple.js:85-86 | every search of the loop finds its IP |
| InlineLocator.PositionAtMatch | content-simple.js:86 | a wrapper lands on its match exactly when the IP does not occur between the cursor and the match |
| InlineLocator.CountStep | content-simple.js:29-33 | counting one more node adds its match indicator and its number of matches |
| InlineLocator.MessagesKeepCount | content-simple.js:222-237 | `clearCache` empties the cache and keeps the wrapper counter; `getStats` reports both; `test` is refused |
| InlineLocator.Locator.constructor | content-simple.js:3-6 | empty cache, zero wrappers |
| InlineLocator.Locator.GetTextNodes | content-simple.js:39-64 | the walker's loop collects exactly the accepted nodes, in order |
| InlineLocator.Locator.CreateIPWrapper | content-simple.js:117-145 | a fresh wrapper for the IP, showing the cached record on a hit, else loading; the counter rises by one |
| InlineLocator.Locator.FinishLookup | content-simple.js:147-173 | caches a success only, and shows the record or the error in the wrapper |
| InlineLocator.Locator.ProcessTextNode | content-simple.js:67-114 | changes nothing and reports false when there is no match; otherwise marks the parent processed, so the node is no longer accepted, and reports true; the fragments spell the text with no empty plain piece and one wrapper per match, in order, each at its search position; the counter rises by the number of matches |
| InlineLocator.Locator.Split | content-simple.js:82-105 | the loop's fragments spell the text, hold no empty plain piece, have one wrapper per match in order at the search positions, and are fresh; the counter rises by the number of matches |
| InlineLocator.Locator.ProcessPage | content-simple.js:22-36 | the result counts the accepted nodes that hold a match; the counter rises by their total number of matches |
| InlineLocator.Locator.HandleMessage | content-simple.js:219-238 | makes the dispatcher's transition and gives its reply |

## Left out

- The DOM is not modelled. Tooltip and wrapper markup, CSS, animations and
  notification toasts are reduced to the view values they display.
  `replaceChild` of the text node by the fragment and the tree walker's
  traversal are also left out: the walker's node list is an input in
  document order.
- `fetch` and JSON parsing are inputs (`Geo.Fetch`, `Geo.Body`). JSON bodies
  are objects whose fields are strings or absent. A body that is `null`, a
  number or an array, and non-string field values, are not modelled.
- Clipboard access is not modelled: `navigator.clipboard.writeText`, the
  `execCommand` fallback and its text-area selection. The model gives only
  the text that is copied.
- The selection variant's copy fallback is not modelled. There, `copyText` is
  declared inside the `try` block and read in the `catch` block, so that read
  would throw a ReferenceError.
- Timers are not modelled: the 10 ms delay before selection handling, and
  the hide scheduled by `test`. A scheduled hide is a separate `HideTooltip`
  step.
- Interleaving of asynchronous lookups is not modelled. A lookup's completion
  is a separate step that the caller may take at any point.
- `chrome.runtime` messaging is not modelled. Only the dispatch on
  `request.action` and the reply object are.
- The `window.ipLocatorInstance` singleton guard is not modelled, nor is
  console logging.
- The null checks on the tooltip element are not modelled. The model assumes
  the tooltip exists, because `createTooltip` always runs first.
- The outer `try`/`catch` of `getLocationInfo` in the hover and selection
  variants is not modelled. Their inner `try` blocks already catch the fetch
  and JSON failures, so the outer one catches only failures of DOM calls,
  which are not modelled. The inline variant has a single `try`/`catch`. It
  catches the fetch and JSON failures, and `Geo.InlineResolve` models it.
- `popup.js` and `generate_icons.js` are not part of this model. They are UI
  and build helpers outside the content scripts.
- Flag.AsciiUpper: `toUpperCase` is modelled for ASCII letters only. Other
  letters do not occur in country codes.
- Placement.LeftEdge and Placement.TopEdge: coordinates are exact `real`
  numbers, not IEEE 754 doubles. Rounding and infinite values are not
  modelled. Missing coordinates, which make the sums NaN, are modelled by
  `Placement.EventLeft` and `Placement.EventTop`.
- SelectionLocator.CopyText: the source's `!locationInfo.error` test is not
  modelled. Only success records, which carry no `error` field, ever enter
  the cache.
- In the inline variant, each wrapper's lookup is a separate `FinishLookup`
  step. The model does not fix when, relative to the page pass, that step
  happens.
