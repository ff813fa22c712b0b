# Race entry-fee index: display helpers and Airtable client

This project models the two parts of the race entry-fee site that hold logic of their own, and proves properties of them in Dafny.

- **The cost-per-km index page** (`src/app/cost/page.tsx`) turns Airtable entry-fee records into table rows. It has these helpers:
  - `asText` collapses a field value into one display string.
  - `countryToCode` looks a country name up in a fixed table of ISO 3166-1 alpha-2 codes, ignoring case and surrounding white space.
  - `flagUrl` builds a flag image address from a code.
  - `getBandColor` and `formatBand` classify a free-text price-band label by ordered substring tests.

  For each record the page derives a positive fee and €/km rate, a location line, a race name and a link target.
- **The Airtable client** (`src/lib/airtable.ts`) has one function, `airtableFetch`. It does three things:
  - It puts the defined query parameters on the request URL. Each one goes through `URLSearchParams.set`, which changes the URL's parameter list in place.
  - It classifies the response. The status comes first, then an embedded `error`, then the `records` array.
  - It returns the records, or throws one of three errors.

The model has three modules:

- `Js` holds the JavaScript semantics both files rely on:
  - truthiness;
  - `String(v)`;
  - `toLowerCase`, for ASCII letters only;
  - `trim`, with the exact white-space set of ECMA-262;
  - `includes`;
  - `Array.prototype.join` and `filter(Boolean)`;
  - optional-chaining property reads and `??`;
  - the decimal text of a status code.
- `CostPage` models the page helpers and the per-row values. These are pure functions.
- `Airtable` models the client:
  - a `SearchParams` class whose `Set` method updates its pair list;
  - the parameter loop `AddParams`, proved against the function `ApplyParams`;
  - the classification `Classify`, into `Records`, `ApiError` or `Malformed`;
  - the thrown messages `Thrown`.

  The network request is a function parameter `server`, from the query sent to the response received. `JSON.stringify` is a function parameter `stringify`.

## Model

| member | source | states |
|---|---|---|
| `CostPage.AsText` | src/app/cost/page.tsx:42-46 | null and undefined become ""; any value that is not an array becomes `String(v)` |
| `CostPage.AsTextStrings` | src/app/cost/page.tsx:43 | a list of strings becomes its non-empty strings joined by ", " |
| `CostPage.AsTextStringsEmpty` | src/app/cost/page.tsx:43 | a list of strings collapses to "" exactly when every string in it is empty |
| `Js.FilterTruthy` | src/app/cost/page.tsx:43 | `filter(Boolean)` keeps exactly the truthy elements |
| `Js.FilterTruthyAppend` | src/app/cost/page.tsx:43 | filtering a concatenation is the concatenation of the filtered parts, so the kept elements keep their order and their repeats |
| `Js.FilterTruthySingle` | src/app/cost/page.tsx:43 | one element is kept exactly when it is truthy |
| `CostPage.CountryCode` | src/app/cost/page.tsx:48-112 | every code the country table gives has two characters |
| `CostPage.CountryToCode` | src/app/cost/page.tsx:114-118 | the empty name gives null; a code comes back exactly when the lower-cased, trimmed name is a key of the table, and it is that key's code |
| `CostPage.CountryToCodePadded` | src/app/cost/page.tsx:116 | white space added on either side of the name does not change the result |
| `CostPage.CountryToCodeCaseless` | src/app/cost/page.tsx:116 | two names that differ only in letter case give the same result |
| `Js.Trim` | src/app/cost/page.tsx:116 | the trimmed text is empty or starts and ends with a character that is not white space |
| `Js.TrimSplit` | src/app/cost/page.tsx:116 | the text is white space, then the trimmed text, then white space, so trimming removes only white space and only at the ends |
| `Js.TrimPadded` | src/app/cost/page.tsx:116 | trimming ignores white space added on either side |
| `CostPage.CountryToCodeFrance` | src/app/cost/page.tsx:49 | "France" and " France " both give "fr" |
| `CostPage.CountryToCodeUnknown` | src/app/cost/page.tsx:114-118 | "Atlantis" and "" give null |
| `CostPage.CountryToCodeAsWritten` | src/app/cost/page.tsx:117 | the lookup as written agrees with the own-entry lookup on every name whose key is not an inherited `Object.prototype` member |
| `CostPage.CountryToCodeAsWrittenLeaks` | src/app/cost/page.tsx:117 | as written, "Constructor" returns the inherited `constructor` member instead of null |
| `CostPage.FlagUrl` | src/app/cost/page.tsx:120-122 | the address is the flag prefix, then the code unchanged, then ".png" |
| `CostPage.FlagUrlRoundTrip` | src/app/cost/page.tsx:120-122 | the code can be read back from every flag address, and only a flag address reads back to a code |
| `CostPage.BandColor` | src/app/cost/page.tsx:124-153 | a falsy band gets exactly the neutral-100 classes; a truthy one gets one of the other four class strings |
| `CostPage.BandColorPrecedence` | src/app/cost/page.tsx:127-152 | the cheap tests come before the mid tests, which come before the expensive tests; the neutral-50 classes come exactly when no test matches |
| `CostPage.BandColorDollars` | src/app/cost/page.tsx:124-153 | a label made only of dollar signs is classified by its length: "$" emerald, "$$" amber, "$$$" rose, longer ones neutral |
| `CostPage.BandColorExamples` | src/app/cost/page.tsx:124-153 | exact "$", "$$" and "$$$" map to emerald, amber and rose |
| `CostPage.BandColorCheapBeforeMid` | src/app/cost/page.tsx:127-142 | a label with both "cheap" and "mid" is coloured as cheap |
| `CostPage.FormatBand` | src/app/cost/page.tsx:155-188 | a falsy band gives the em dash; otherwise the result is one of "0–1", "1–2", "2–3", "3+" or `String(band)` in its original case |
| `CostPage.FormatBandUnderOneFirst` | src/app/cost/page.tsx:158-165 | an explicit under-one label gives "0–1" even beside "3+" or "expensive" |
| `CostPage.FormatBandMid` | src/app/cost/page.tsx:166-171 | "mid" without a "3" gives "1–2" unless an under-one label came first |
| `CostPage.FormatBandWordsLast` | src/app/cost/page.tsx:173-186 | the expensive words give "3+" and the cheap words "0–1" only when no earlier test matched |
| `CostPage.FormatBandByWords` | src/app/cost/page.tsx:155-188 | a label without the digits 1, 2 and 3 is classified by its words alone, in the source's order |
| `CostPage.FormatBandBySymbols` | src/app/cost/page.tsx:155-188 | a label without letters, spaces, hyphens or angle brackets gives "3+" when it holds "3+" and is otherwise shown unchanged |
| `CostPage.FormatBandSymbolText` | src/app/cost/page.tsx:155-188 | the same for a string label, which is then shown exactly as given |
| `CostPage.FormatBandLessThanOne` | src/app/cost/page.tsx:158-165 | "less than 1" gives "0–1" |
| `CostPage.FormatBandBudget` | src/app/cost/page.tsx:183-184 | "budget" gives "0–1" |
| `CostPage.FormatBandPremium` | src/app/cost/page.tsx:172-182 | "premium" gives "3+" |
| `CostPage.FormatBandLabelStable` | src/app/cost/page.tsx:155-188 | each label the function produces, the em dash included, formats to itself |
| `CostPage.FormatBandIdempotent` | src/app/cost/page.tsx:155-188 | formatting an already formatted, non-empty label gives it back |
| `CostPage.PerKmCell` | src/app/cost/page.tsx:407-409 | the cell shows the em dash exactly when there is no rate, and otherwise the rate itself |
| `CostPage.PositiveNumber` | src/app/cost/page.tsx:311-316 | a fee or rate is kept exactly when it is a number greater than zero, and then unchanged |
| `CostPage.PerKmCellNeverZero` | src/app/cost/page.tsx:407-409 | the €/km cell shows the em dash exactly when the rate is not a positive number, and never shows a rate that is not positive (before rounding) |
| `CostPage.Location` | src/app/cost/page.tsx:319 | country and region joined by " · " when both are non-empty, otherwise the non-empty one, otherwise "" |
| `CostPage.RaceName` | src/app/cost/page.tsx:330 | the name is empty exactly when both the ID text and the race-event text are empty |
| `CostPage.RaceNameFallsBack` | src/app/cost/page.tsx:330 | a non-empty ID text is the name; an empty one gives the race-event text |
| `CostPage.RaceNameFallback` | src/app/cost/page.tsx:330 | a numeric ID is shown even when it is zero; an empty ID text falls back to the race event |
| `CostPage.Slug` | src/app/cost/page.tsx:310 | a slug exists exactly when the race-slug list is present and non-empty, and it is the list's first element |
| `CostPage.RowHref` | src/app/cost/page.tsx:331 | a link exists exactly when the slug is a non-empty string, and it starts with "/races/" |
| `CostPage.RowHrefRoundTrip` | src/app/cost/page.tsx:310-331 | a link exists exactly when the first race slug is non-empty, and the slug can be read back from it unchanged |
| `CostPage.DeriveRow` | src/app/cost/page.tsx:310-331 | a fee or rate in the row is a positive number that the record's field holds; a link starts with "/races/" |
| `CostPage.DeriveRowProperties` | src/app/cost/page.tsx:310-331 | prices in a row are positive when present; the location is empty only when both parts are; the link exists exactly when the first slug is non-empty |
| `Airtable.SearchParams.constructor` | src/lib/airtable.ts:17-19 | a URL built from the base address has no query parameters |
| `Airtable.SearchParams.Set` | src/lib/airtable.ts:23 | `set` replaces the first pair with that name, drops the others, or appends a new pair |
| `Airtable.SetEntry` | src/lib/airtable.ts:23 | after `set(name, value)` that name holds exactly the one value, and the pairs of every other name stay in place and in order |
| `Airtable.ValuesOfSetEntry` | src/lib/airtable.ts:23 | after `set(name, value)` that name holds exactly the one value, and every other name keeps its values |
| `Airtable.AddParams` | src/lib/airtable.ts:21-24 | the loop leaves the parameter list equal to `ApplyParams` of the old list and the parameters |
| `Airtable.ApplyParams` | src/lib/airtable.ts:21-24 | each key ends up holding `String` of the last defined value given for it, or what it held before when no defined value was given |
| `Airtable.LastDefinedDistinct` | src/lib/airtable.ts:21 | with distinct keys, a key's last defined value is its own value unless that is undefined |
| `Airtable.QueryOfParams` | src/lib/airtable.ts:21-24 | on a fresh URL, a parameter whose value is undefined never appears; every other key appears exactly once with value `String(v)`; no other name appears |
| `Airtable.Data` | src/lib/airtable.ts:31 | a body that is not valid JSON is read as `{}` |
| `Js.Prop` | src/lib/airtable.ts:36 | an optional-chaining read on anything but an object is `undefined` |
| `Airtable.Classify` | src/lib/airtable.ts:31-52 | a status that is not ok always gives an API error carrying that status, whatever the body holds; an ok status never gives one with a status; records come back only with an ok status and are the body's `records` array |
| `Airtable.ClassifyNotOkIgnoresRecords` | src/lib/airtable.ts:33-40 | with a status that is not ok and an error message present, adding a `records` field does not change the outcome |
| `Airtable.ClassifyNotOkFields` | src/lib/airtable.ts:35-38 | with a status that is not ok, the type is `error.type` or "HTTP_ERROR"; the message is `error.message`, else the body when it is a string, else its serialisation |
| `Airtable.ClassifyUnparseable` | src/lib/airtable.ts:31-50 | an unparseable body gives an "HTTP_ERROR" carrying the serialisation of `{}` when the status is not ok, and the missing-records failure when it is ok |
| `Airtable.ClassifyEmbeddedError` | src/lib/airtable.ts:42-46 | an ok status with a truthy `error` still fails with an API error, with the type and message rendered as text |
| `Airtable.ClassifyRecords` | src/lib/airtable.ts:48-52 | records come back exactly when the status is ok, there is no error and `records` is an array, and they are that array; otherwise an ok status without an error is the missing-records failure |
| `Airtable.ClassifyEmptyRecords` | src/lib/airtable.ts:52 | an ok `{ records: [] }` gives an empty record list, not an error |
| `Airtable.Thrown` | src/lib/airtable.ts:39-49 | an error is thrown exactly when the outcome is not the records |
| `Js.DecimalRoundTrip` | src/lib/airtable.ts:39 | the decimal text of a status reads back to that status |
| `Airtable.ThrownRoundTrip` | src/lib/airtable.ts:39-49 | the three thrown messages can be told apart, and the HTTP status can be read back from the message exactly |
| `Airtable.AirtableFetch` | src/lib/airtable.ts:13-53 | the query sent is the parameter list built from a fresh URL, and the outcome is the classification of the response to that query |

## Left out

- The network request, the `no-store` cache setting and the bearer header (src/lib/airtable.ts:26-29) are not modelled. The response is an input: the `server` parameter of `AirtableFetch`.
- The environment check at module load (src/lib/airtable.ts:6-11) is not modelled.
- The base URL, `encodeURIComponent(tableName)` and the serialisation of the URL to text (src/lib/airtable.ts:17-19, 26) are not modelled. The model keeps only the list of query pairs.
- `JSON.stringify` is the `stringify` parameter. `res.json()` is taken as already done: the body is given as a parsed value, or as absent when it is not valid JSON.
- `Object.entries` puts integer-like keys first, in ascending order. The model takes the parameters in the order given. `AddParams` and `ApplyParams` hold for any order.
- `String(obj)` on an object with a `toString` or `Symbol.toPrimitive` member is not modelled. Every object renders as "[object Object]".
- Numbers are a value paired with their `String(n)` text. NaN is not modelled, and neither is the conversion of a number to text.
- `toLowerCase` is modelled for the ASCII letters only. Other letters keep their case, so a country name with a non-ASCII capital does not match its table key in the model.
- `epk.toFixed(2)`, `fee.toLocaleString(...)` and the start-date formatting (src/app/cost/page.tsx:320-327, 408, 425) are not modelled. They are floating-point and locale formatting; only the positivity filter is modelled.
- CostPage.PerKmCellNeverZero: a rate below 0.005 is positive but still shows as €0.00, because the rounding of `toFixed(2)` is not modelled.
- The JSX, the `Link`/`Image` components and the layout (src/app/cost/page.tsx:190-488) are not modelled. `getBandColor`, `formatBand`, `countryToCode` and `flagUrl` are defined in that file but not called in its render.
- CostPage.CountryCode: states only that each code has two characters, not that both are lower-case letters. The table-wide letter check is too costly for the solver.
- The debug route `src/app/api/debug-entry-fees/route.ts`, `src/lib/airtableConfig.ts` and `next.config.ts` are not part of this model.

## Findings

| source | as written | input that shows it | evidently intended | confidence | as-written member | corrected member |
|---|---|---|---|---|---|---|
| src/app/cost/page.tsx:117 | `COUNTRY_CODES[lower] \|\| null` reads a plain object literal, so keys inherited from `Object.prototype` are found too | `countryToCode("Constructor")` lower-cases to "constructor" and returns the `Object` function, not a code or null; "__proto__" returns `Object.prototype` | only the table's own entries are found, and any other name gives null | not executed | `CostPage.CountryToCodeAsWrittenLeaks` | `CostPage.CountryToCode` |
