# Pokédex component logic in Dafny

This project models the decision and arithmetic rules inside the React components of the
Pokédex web app, written as pure functions over immutable records:

- **`PokemonScanner`**: when the scan button may start a scan, how the classifier's
  free-text reply becomes a label (`trim()`, `"Unknown"` as the default), the
  `"unknown"` sentinel, and the case-insensitive first-match lookup in the entry list.
- **`PokemonCard`**: the type→colour table, the sprite fallback chain, the base-stat total,
  height and weight rendered with one decimal, the region lookup, and the null-entry early return.
- **`App`**: filtering the type list, the lowercased single-entry lookup, and
  `filterByType` with its empty-type exit, the cut to 24 members, the order-preserving
  `Promise.all`, and the error reset. Each handler is a transition on a state record. It
  also reports the remote reads it issued.
- **`SearchBar`**: the submit guard that calls back with the trimmed query and clears the input.

Remote reads (the catalog service and the classifier) are inputs. A read is a function
from the request key to `Fetched(value)` or `FetchFailed`, or, for the classifier, a
`Reply` value. The camera, the canvas and React's hooks are not modelled.

Modules: `Wrappers` (Option), `Text` (JavaScript `trim`, ASCII `toLowerCase`), `Decimal`
(digit strings and the one-decimal rendering), `Pokemon` (the entry record), `Card`,
`Scanner`, `SearchBar`, `App`.

## Model

| member | source | states |
|---|---|---|
| Text.Trim | src/components/SearchBar.jsx:8-9 | `trim()` leaves no whitespace at either end, never lengthens, and gives the empty string exactly when the input is all whitespace |
| Text.TrimExact | src/components/SearchBar.jsx:8-9 | whitespace + core + whitespace trims to exactly the core, when the core has no outer whitespace |
| Text.TrimIdempotent | src/components/SearchBar.jsx:9 | trimming an already trimmed string changes nothing |
| Text.Lower | src/App.js:40 | `toLowerCase()` keeps the length and lowercases each character on its own |
| Text.SameLetterIffSameLower | src/components/PokemonScanner.jsx:184-186 | two characters are equal or an ASCII upper/lower pair exactly when their lowercase forms are equal |
| Text.CaseVariantsIffSameLower | src/components/PokemonScanner.jsx:184-186 | two strings have the same lowercase form exactly when, position by position, their characters are equal or an ASCII upper/lower pair |
| Text.TrimLowerCommute | src/components/PokemonScanner.jsx:180-186 | lowercasing the trimmed text equals trimming the lowercased text |
| Decimal.NatToString | src/components/PokemonCard.jsx:40 | the integer part is a non-empty digit string with no leading zero whose last digit is `n mod 10` |
| Decimal.ParseNatToString | src/components/PokemonCard.jsx:40 | reading the digit string back gives the original number |
| Decimal.NatToStringInjective | src/components/PokemonCard.jsx:40 | two numbers have the same digit string exactly when they are equal |
| Decimal.Tenths | src/components/PokemonCard.jsx:40 | `(n / 10).toFixed(1)` is digits, a point, and one digit whose value is `n mod 10` |
| Decimal.TenthsRoundTrip | src/components/PokemonCard.jsx:40 | reading the rendering back gives the original integer, so distinct values render differently |
| Decimal.TenthsParts | src/components/PokemonCard.jsx:40 | the part before the point is the decimal rendering of `n div 10` and reads back as `n div 10` |
| Decimal.TenthsExamples | src/components/PokemonCard.jsx:43 | 69 renders as "6.9", 7 as "0.7" and 1000 as "100.0" |
| Card.TypeColour | src/components/PokemonCard.jsx:4-23 | the colour table is defined for exactly the 18 listed type names and for no other name |
| Card.SentinelTypesUncoloured | src/components/PokemonCard.jsx:148 | "unknown", "shadow" and "stellar" have no colour entry |
| Card.Badges | src/components/PokemonCard.jsx:141-152 | one badge per type, in the entry's type order, each with that type's table colour |
| Card.BadgesConcat | src/components/PokemonCard.jsx:141 | the badges of a joined type list are the badges of each part, in order |
| Card.MainImage | src/components/PokemonCard.jsx:29-32 | the home sprite if it is a non-empty URI, else the official artwork if it is, else the default front sprite as it is |
| Card.MainImagePicksPresent | src/components/PokemonCard.jsx:29-32 | the chosen image is one of the three URIs, and it is usable exactly when at least one of them is |
| Card.SumStatsAppend | src/components/PokemonCard.jsx:37 | the total of no stats is 0, and appending a stat adds exactly its `base_stat` |
| Card.SumStatsConcat | src/components/PokemonCard.jsx:37 | the total of a joined stat list is the sum of the parts' totals |
| Card.TotalBaseStat | src/components/PokemonCard.jsx:37 | the left-to-right `reduce` from 0 equals the reference sum of all `base_stat` values |
| Card.HeightInMetres | src/components/PokemonCard.jsx:40 | the metres string is the digits of `height div 10` (no leading zero), a point, and the digit `height mod 10`, and it reads back as the height in decimetres |
| Card.WeightInKilograms | src/components/PokemonCard.jsx:43 | the kilograms string is the digits of `weight div 10` (no leading zero), a point, and the digit `weight mod 10`, and it reads back as the weight in hectograms |
| Card.RegionsAsWritten | src/components/PokemonCard.jsx:46 | as written: a missing region map throws; a present map gives the name's regions, or the empty list for an absent name |
| Card.RegionsAsWrittenThrowsWithoutMap | src/App.js:105-111 | the card rendered with no region map prop throws |
| Card.Regions | src/components/PokemonCard.jsx:46 | an absent name (or no map) yields the empty list; a present name yields exactly its mapped regions |
| Card.RegionsAgreeWhenMapPresent | src/components/PokemonCard.jsx:46 | wherever the written lookup does not throw, the corrected lookup returns the same regions |
| Card.RenderCard | src/components/PokemonCard.jsx:25-46 | the card with the corrected region lookup (see Findings): a null entry renders nothing; otherwise the card carries the entry's name and id, the chosen image, ordered badges each coloured from the type table, the regions, height and weight strings made of the `div 10` digits, a point and the `mod 10` digit, and the stat total |
| Card.RenderCardAsWritten | src/components/PokemonCard.jsx:25-46 | the card as written: a null entry returns nothing; an entry without a region map throws; an entry with a map gives exactly the corrected card |
| Card.CardWithoutMapThrows | src/App.js:105-111 | an entry rendered the way `App` renders it, with no region map, throws a TypeError as written, while the corrected card shows it with no regions |
| Scanner.Label | src/components/PokemonScanner.jsx:178-180 | a missing part or blank text gives "Unknown", other text gives its trimmed form, a part without text throws; a label is never empty and never has outer whitespace |
| Scanner.FindFrom | src/components/PokemonScanner.jsx:185-187 | the result is the smallest index at or after the start whose name matches case-insensitively, or none when no such index exists |
| Scanner.Reconcile | src/components/PokemonScanner.jsx:184-191 | the "unknown" sentinel (any case) gives none; a result is a list member whose lowercased name equals the lowercased label, and no earlier entry matches; a match in the list is always found |
| Scanner.ReconcileCaseInsensitive | src/components/PokemonScanner.jsx:184-186 | labels that differ only in letter case reconcile to the same result |
| Scanner.Identify | src/components/PokemonScanner.jsx:139-194 | a failed classifier call, or a part without text, is a failed scan that identifies nothing; an identified entry is in the list and matches the trimmed answer |
| Scanner.BlankAnswerIdentifiesNothing | src/components/PokemonScanner.jsx:179-184 | an all-whitespace answer falls back to "Unknown" and identifies nothing, without failing |
| Scanner.AnswerIdentifiesFirstMatch | src/components/PokemonScanner.jsx:179-190 | a non-blank, non-sentinel answer identifies the first entry whose name matches the trimmed answer |
| Scanner.TrimCaseVariants | src/components/PokemonScanner.jsx:180 | trimming two case variants leaves case variants |
| Scanner.IdentifyCaseInsensitive | src/components/PokemonScanner.jsx:179-187 | answers that differ only in letter case identify the same entry |
| Scanner.CaptureAndScan | src/components/PokemonScanner.jsx:111-213 | no video, no canvas or an inactive camera refuses the scan and calls nothing; a missing API key does the same; a scan that proceeds reports null, then the entry `Identify` finds from the reply if there is one; it asks for that entry's description only; it shows the failure toast exactly when the scan failed, then the success toast with the capitalised name or the no-match toast; and it stops the camera |
| Scanner.MatchingScanReportsEntry | src/components/PokemonScanner.jsx:184-209 | a ready scan whose answer is non-blank, is not the sentinel, and first matches entry i reports null then entry i, asks for entry i's description, shows only the success toast with its capitalised name, and stops the camera |
| Scanner.FailedScanIdentifiesNothing | src/components/PokemonScanner.jsx:192-212 | a failed classifier call reports only null, shows the failure and the no-match toasts, and stops the camera |
| SearchBar.HandleSubmit | src/components/SearchBar.jsx:6-12 | the callback runs exactly when the trimmed query is non-empty, with the trimmed query, which is never empty and has no outer whitespace; the input is then cleared; otherwise nothing changes |
| SearchBar.SubmitSearchesCore | src/components/SearchBar.jsx:8-10 | a query padded with whitespace searches for exactly its core and clears the input |
| SearchBar.ResubmitAfterSearchIsInert | src/components/SearchBar.jsx:8-10 | submitting again right after a search calls nothing |
| App.ValidTypes | src/App.js:20-22 | no kept type is named "unknown" or "shadow", and a type is kept exactly when it is listed and not one of those two |
| App.ValidTypesConcat | src/App.js:20-22 | filtering a joined list filters each part, so kept types stay in their original relative order |
| App.ValidTypesKeepsValid | src/App.js:20-22 | a list without the two sentinel names comes through unchanged |
| App.LoadTypes | src/App.js:16-28 | one type-list read; on success the stored types are the filtered list, holding exactly the listed types other than "unknown" and "shadow"; on failure the types stay and the types error is set; the entry, grid and loading flag are untouched |
| App.Begin | src/App.js:34-37 | before the first await, loading is on, the error is cleared and neither a single entry nor a grid is shown |
| App.FetchPokemon | src/App.js:33-49 | the single read is under the lowercased query; success stores the entry with no error, failure stores none with the not-found error (whether the stored entry's card draws is the subject of Findings); the grid is cleared and loading is off |
| App.FetchPokemonCaseInsensitive | src/App.js:39-41 | queries that differ only in letter case issue the same request and end in the same state |
| App.Truncate | src/App.js:67 | the member list used is the prefix of length min(n, 24) |
| App.DetailRequests | src/App.js:70-72 | one detail read per member, in member order |
| App.JoinAll | src/App.js:70-73 | the joined read succeeds exactly when every member read does, and then holds each member's result at that member's position |
| App.FilterByType | src/App.js:52-82 | every path ends with loading off, no single entry, the types untouched, and either no error or the type-filter error with an empty grid |
| App.FilterByEmptyType | src/App.js:53-62 | the placeholder type clears the view, sets no error, turns loading off and issues no read |
| App.FilterByTypeReadsPrefix | src/App.js:65-72 | after the type read, exactly min(n, 24) detail reads are issued, for the first members, in order |
| App.FilterByTypeResults | src/App.js:64-78 | when all reads succeed the grid holds one result per truncated member in member order with no error; any failed read leaves the grid empty and sets the error |
| App.Render | src/App.js:95-120 | which branch of the page's conditional is chosen: the grid branch, holding exactly the filtered entries, exactly when that list is non-empty; otherwise the single-entry branch, for exactly the stored entry, when there is one; otherwise the hint, only when nothing is loading and there is no error. The error text shown is exactly the stored error. Whether a card inside a branch draws is `Card.RenderCardAsWritten` (see Findings) |
| App.FoundEntrySelectsSingle | src/App.js:109-112 | after a successful lookup the page chooses the single-entry branch for that entry, with no loading line and no error; as written the card in that branch throws (see Findings) |
| App.SearchRequestKey | src/App.js:33-41 | a submitted search is read from the catalog under the lowercased trimmed input, which is non-empty and has no outer whitespace; a blank input reads nothing |

## Left out

- Network I/O: the catalog reads (src/App.js:18, 39, 65, 71) and the classifier POST (src/components/PokemonScanner.jsx:143-178) are inputs; URLs, request payloads, the prompt text and HTTP status handling are not modelled beyond success or failure.
- Camera start and stop, MediaStream, video, canvas capture and base64 extraction (src/components/PokemonScanner.jsx:35-105, 127-137) are browser I/O. Only their effect on the camera-active flag after a scan is kept.
- The API key from the environment is the `apiKey` field of `Scanner.ScanEnv`.
- React hooks and effects, `console` logging, the `onClose` and `onScanningChange` callbacks, and all JSX and Tailwind layout strings are not modelled. Toasts are kept only as which toast appears, not its text.
- The card's layout variants (the shiny image and the description shown only in the horizontal layout, the `onError` placeholder images) and the abilities and stats lists, which are copied from the entry as they are.
- `FilterType.jsx` is markup only. `Footer.jsx` is markup plus the current date.
- Card.RenderCard: the shiny image, regions, height and weight are computed for every card (src/components/PokemonCard.jsx:34-46) but drawn only when `layout` is "horizontal" (src/components/PokemonCard.jsx:103, 164, 180); `App` never passes a layout (src/App.js:106, 111), so in the app as shown they are computed and not drawn. The layout is not modelled.
- Handlers that overlap in time, and stale responses arriving late, are not modelled: each transition runs to completion before the next. `App.Begin` is the only intermediate state stated.
- Decimal.Tenths: models `toFixed(1)` for non-negative integers only, with exact integer digits. Floating-point rounding, which makes the real output differ for very large n (from about 5.6·10^15), is not modelled.
- Text.Lower: lowercases ASCII letters only. JavaScript's full Unicode case mapping is not modelled, and neither is `Text.UpperChar` beyond ASCII in the scan toast.
- Card.TypeColour: names inherited from `Object.prototype` (for example `"constructor"`), which a JavaScript object lookup would also find, are not modelled.

## Findings

| source | as written | input that shows it | evidently intended | confidence | as-written member | corrected member |
|---|---|---|---|---|---|---|
| src/components/PokemonCard.jsx:46 | `pokemonToRegionMap[pokemon.name]` indexes the prop without checking it is there | `App` renders `<PokemonCard pokemon={p} />` with no region map (src/App.js:106, 111), so the lookup reads a property of `undefined` and throws | a missing map behaves like an empty one, and the card shows no regions | high, not executed | Card.RenderCardAsWritten, Card.CardWithoutMapThrows, Card.RegionsAsWrittenThrowsWithoutMap | Card.RenderCard, Card.Regions |
