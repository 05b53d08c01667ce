# Sevco device lookup extension: verified model of its decision logic

The extension adds a context-menu entry, "Look up … in Sevco", to the browser.
When the user picks it on selected text, the background worker does four things:

- It trims the selection, rejects empty or over-long terms, and classifies the term as an IPv4 literal or a hostname.
- It asks the Sevco device-search API for matching devices, sending one rule (`ips equals` or `hostnames contains`) with a page limit of 50.
- It maps the HTTP outcome to an ordered list of errors, or flattens each returned item into one display record. Every record is stamped with the list of all configured source ids, which a second "facet" call fetches on a best-effort basis.
- It overwrites the single `lastLookup` storage slot with either the devices or the error message.

The popup reads that slot and picks a view: no data, an error, a list of devices, or one device.
For a device it derives:

- the source-status list: every observed source first, then each configured source that did not observe the device;
- severity tiers, formatted arrays, source names and relative times;
- a vulnerability summary and a location line.

The model has seven modules, one file each:

| file | module | what it holds |
|---|---|---|
| `wrappers.dfy` | `Wrappers` | `Option` and `Result` |
| `strings.dfy` | `Strings` | JavaScript `trim`, one-character `split`, `join`, UTF-16 `length`, decimal `String(n)`, ASCII upper-casing |
| `json.dfy` | `JsValues` | JavaScript values from `JSON.parse` plus `undefined`; truthiness, property reads, `String(v)` and object spread |
| `classifier.dfy` | `Classifier` | validation and IPv4 classification of the selected term (background.js) |
| `device_search.dfy` | `DeviceSearch` | `lookupDevice` and `fetchAllSources` as pure functions of abstract network outcomes (background.js) |
| `display.dfy` | `Display` | the popup helpers, with `extractSources` as an imperative two-pass method proved against a specification function (popup.js) |
| `handoff.dfy` | `Handoff` | the `lastLookup` slot as a class, the context-menu handler that writes it, and the popup's choice of view (both files) |

## Model

| member | source | states |
|---|---|---|
| Strings.Trim | background.js:13 | The trimmed text is the slice of the selection between its leading and trailing JavaScript whitespace. Everything cut off is whitespace, the result has no whitespace at either end, and it is empty exactly when the selection is all whitespace. |
| Strings.TrimIdempotent | background.js:13 | Trimming an already trimmed term changes nothing. |
| Strings.Utf16Length | background.js:16 | `length` counts UTF-16 code units. It lies between the number of characters and twice that, and equals the number of characters when all of them are in the Basic Multilingual Plane. A single character counts 2 exactly when it lies outside that plane. |
| Strings.Utf16LengthConcat | background.js:16 | The UTF-16 length of a concatenation is the sum of the lengths. |
| Strings.Split | popup.js:499 | `split('-')` gives one more piece than there are hyphens, and no piece contains a hyphen. |
| Strings.JoinSplit | popup.js:498-501 | Joining the pieces of a split with the same separator gives back the original string. |
| Strings.SplitJoin | popup.js:498-501 | Splitting a join of separator-free pieces gives back the pieces. |
| Strings.IntToString | background.js:118 | The decimal form of a status code is non-empty and starts with '-' exactly when the code is negative. After the sign come only ASCII digits, with no leading zero, whose decimal value is the magnitude of the code. |
| Strings.DecimalRoundTrip | background.js:118 | Reading the decimal form of a non-negative number back gives the number. |
| Strings.UpperAscii | popup.js:500 | `toUpperCase` maps an ASCII lower-case letter to its upper-case form and leaves every other character alone. |
| JsValues.Spread | background.js:139 | `...device.attributes` copies an object's own fields, an array's or a string's elements under their decimal indices (one key per element, so a string gives as many keys as characters), and nothing for any other value. |
| Classifier.KindName | background.js:24 | The stored type is "ip" exactly for an IP query and "hostname" exactly for a hostname query. |
| Classifier.ScanQuadSplit | background.js:22-23 | The hand-written scanner for `^(\d{1,3}\.){3}\d{1,3}$` agrees, from any state, with the view of the rest of the input split on '.'. |
| Classifier.DottedQuadIff | background.js:22-23 | The scanner accepts exactly the strings that split on '.' into four groups of one to three ASCII digits. |
| Classifier.Classify | background.js:13-24 | A selection is rejected exactly when its trim is empty or longer than 253 UTF-16 code units. Otherwise the term is the trim, and the query is an IP query exactly when the term has the four-digit-group shape. |
| Classifier.DottedQuadExamples | background.js:22-23 | "999.999.999.999" and "192.168.1.1" are IPs, since no octet range is checked. "1.2.3.4.5", "1234.1.1.1", "1..2.3" and "db01.internal" are not. |
| DeviceSearch.BuildDeviceRequest | background.js:72-93 | The request holds one `device` rule in one group, with value = the term and limit = 50. It uses `ips`/`equals` exactly for an IP and `hostnames`/`contains` exactly for a hostname. |
| DeviceSearch.RequestRoundTrip | background.js:72-93 | The term and the search type can be read back from the request body. |
| DeviceSearch.ErrorMessage | background.js:65-131 | Every error of the lookup has a non-empty message. A runtime TypeError keeps the runtime's message. The message for a failed request embeds the decimal status and then ends with the response text. The "no devices" message embeds the search type and ends with the quoted term. |
| DeviceSearch.RequestFailedMessage | background.js:118 | "API request failed (<status>): <text>": the status's decimal form at offset 20, the body text at the end, and nothing else but the fixed words. |
| DeviceSearch.NoDevicesMessage | background.js:130 | "No devices found for <type>: \"<term>\"": the type name at offset 21, the term and a closing quote at the end, and nothing else but the fixed words. |
| DeviceSearch.ReadError | background.js:137-138 | Reading a property of a `null` or `undefined` item gives a non-empty TypeError message. |
| DeviceSearch.FlatRecord | background.js:137-146 | The record takes `sources`, `source_ids`, both timestamps and `exp_vulns` from the raw item, overriding attributes of the same name. `all_sources` is the shared list. `id` comes from the attributes when they have one, else from the item. Every other key is exactly an attribute. |
| DeviceSearch.FlattenAll | background.js:137-146 | `items.map` succeeds exactly when no item is `null` or `undefined`, giving one record per item in order. Otherwise it throws the TypeError of the first such item. |
| DeviceSearch.BucketKeys | background.js:173 | The keys come in bucket order, one per bucket. The map fails exactly when some bucket is `null` or `undefined`. |
| DeviceSearch.AllSources | background.js:149-182 | `fetchAllSources` gives the bucket keys in order. It gives `[]` when the call throws, on a non-OK status, an unparsable body, missing `source_ids` or `buckets`, or a null bucket. It never fails. |
| DeviceSearch.DevicesFromBody | background.js:122-146 | After parsing, the lookup succeeds exactly when the body is an object whose `items` is a non-empty array with no `null` or `undefined` item. It fails with "no devices" exactly when `items` is missing, falsy or of length 0. Each TypeError is pinned with its message: reading `items` of a `null` body, `items.map` on a non-array, and reading `id` of the first nullish item. On success there is one record per item, and at least one item. |
| DeviceSearch.LookupDevice | background.js:61-147 | An ordered decision: missing credentials, then no response, then 401/403, then 404, then any other non-OK status (with the status and body text), then an unparsable body, then no items. Each case holds exactly when all earlier ones do not. A TypeError is raised exactly when an OK, parsed body is neither well-formed nor one without items. Success holds exactly when the request is configured, answered with an OK status and a body whose items are well-formed. Every error has a non-empty message. Success holds one stamped record per item. |
| DeviceSearch.SharedSourceList | background.js:134-146 | Every record of one lookup carries the identical `all_sources` list. |
| DeviceSearch.FlatRecordWithoutSources | background.js:137-146 | Two flattenings of one item differ at most in `all_sources`. |
| DeviceSearch.FacetNeverFailsLookup | background.js:133-146 | The facet call never changes whether the lookup succeeds, nor its error. On success the records differ only in `all_sources`. |
| Display.SeverityColor | popup.js:436-440 | Red exactly from 7.0 up, orange exactly from 4.0 up to below 7.0, yellow exactly below 4.0. |
| Display.SeverityText | popup.js:442-446 | High exactly from 7.0 up, Medium exactly from 4.0 up to below 7.0, Low exactly below 4.0. |
| Display.SeverityAgree | popup.js:436-446 | Text and colour always name the same tier. |
| Display.SeverityMonotone | popup.js:436-446 | A higher severity never gets a lower tier. |
| Display.FormatArray | popup.js:448-454 | The result is null exactly for a falsy value or an empty array. A non-empty array gives its elements joined with ", ", and any other truthy value gives `String(value)`. |
| Display.JoinedCommaFree | popup.js:151 | Comma-free strings joined with ", " contain a comma exactly when there are at least two of them. |
| Display.FormatArrayPlural | popup.js:113-151 | For a non-empty array of comma-free addresses, the label's plural test (`includes(',')`) holds exactly when there is more than one address. |
| Display.TitledAt | popup.js:494-502 | The reference title-casing maps each position from the id's character there and the character before it. |
| Display.TitledSplit | popup.js:498-501 | The reference title-casing equals the first split piece followed by a space and the capitalised later pieces. |
| Display.TitleCaseIsTitled | popup.js:498-501 | Split on '-', capitalise each word, join with ' ': this equals the character-by-character reference. |
| Display.FormatSourceName | popup.js:494-502 | The name is "Unknown" for a falsy id. Otherwise it has the id's length. |
| Display.SourceNameChars | popup.js:494-502 | In a formatted name each hyphen becomes a space. The first character and each character after a hyphen are upper-cased, and all other characters are kept. |
| Display.TitledCounts | popup.js:498-501 | The title-casing keeps the length and leaves no hyphen. Its spaces are the input's spaces plus one per hyphen. |
| Display.SourceNameCounts | popup.js:494-502 | A formatted name has no hyphen, and its spaces are the id's spaces plus one per hyphen. |
| Display.ElapsedSince | popup.js:504-521 | The count is the floor of the difference by the chosen unit. The unit is years exactly from 365 days, months exactly from 30 days, and so on down to seconds below a minute. Every unit except seconds has a count of at least 1. |
| Display.FloorChain | popup.js:507-513 | The chained floors by 1000, 60, 60, 24, 30 and 365 are single floors by each unit's length in milliseconds. |
| Display.ElapsedMonotone | popup.js:515-520 | A longer time never reports a smaller unit. |
| Display.UnitWord | popup.js:515-520 | The unit word is the unit's English name, with an 's' added exactly when the count is not 1. |
| Display.FormatTimeAgo | popup.js:504-521 | The text is the decimal count of the unit `ElapsedSince` chose, a space, that unit's word and " ago". The word is plural exactly when the count is not 1. |
| Display.TimeAgoBelowMinute | popup.js:504-521 | 59,999 ms is "59 seconds ago". |
| Display.TimeAgoOneMinute | popup.js:504-521 | 60,000 ms is "1 minute ago". |
| Display.TimeAgoDayAndHalf | popup.js:504-521 | A day and a half is floored to "1 day ago". |
| Display.TimeAgoTwoMonths | popup.js:504-521 | Sixty days is "2 months ago". |
| Display.ExtractVulnerabilities | popup.js:523-533 | The count is the number of items. An `exp_vulns` array is passed through unchanged, and anything else gives an empty summary. |
| Display.VulnerabilitiesPassThrough | popup.js:523-533 | For a flattened record the summary is that of the raw item's own `exp_vulns`, whatever the attributes say. |
| Display.ListLocation | popup.js:77-79 | The location is never empty. It is "Unknown" without `geo_ip`, and also when the trimmed city/country line is empty. Otherwise it is that trimmed line. |
| Display.ListLocationBoth | popup.js:77-79 | With a tidy city and a tidy country the line is "city, country". |
| Display.ListLocationCityOnly | popup.js:77-79 | With only a city the line is the city, with no separator. |
| Display.ListLocationCountryOnly | popup.js:77-79 | With only a country the line is the country. |
| Display.ObservedStatus | popup.js:462-474 | An observed entry is marked observed and carries the source's `source` field as its id. Its name is `FormatSourceName` of that id. Its status is "Last activity " followed by the time since `last_activity_timestamp`, or by "Unknown" when that is falsy. |
| Display.UnobservedStatus | popup.js:480-487 | An unobserved entry is marked not observed, carries the configured id, and has status "Not observed". Its name is `FormatSourceName` of the id. |
| Display.ObservedIds | popup.js:458-467 | Every observed source's id is in the set. |
| Display.ObservedStatuses | popup.js:461-475 | There is one entry per observed source. |
| Display.UnobservedStatuses | popup.js:478-489 | There are at most as many unobserved entries as configured ids. |
| Display.ObservedStep | popup.js:462-474 | One more observed source appends its entry and adds its id to the set. |
| Display.UnobservedStep | popup.js:479-488 | One more configured id appends its entry exactly when it was not observed. |
| Display.ExtractSources | popup.js:456-492 | The two-pass loop returns exactly the specified list: the observed entries, then the unobserved ones. |
| Display.CollectObserved | popup.js:458-476 | The first pass builds one entry per observed source and the set of their ids. |
| Display.AppendUnobserved | popup.js:478-490 | The second pass appends an entry for each configured id not in the set, in order. |
| Display.ObservedStatusesAt | popup.js:461-475 | Entry i of the observed part is the i-th source's entry, so the original order is kept. |
| Display.ObservedIdsExact | popup.js:458-467 | An id is in the observed set exactly when some observed source has it. |
| Display.UnobservedEntries | popup.js:478-489 | Every unobserved entry is a configured id outside the observed set, not observed, with status "Not observed". |
| Display.UnobservedIds | popup.js:478-489 | The unobserved ids are the configured ids outside the set, in configured order. |
| Display.UnseenMultiplicity | popup.js:478-489 | Filtering keeps every occurrence of an unseen id and drops every seen one. |
| Display.UnobservedMultiplicity | popup.js:458-489 | An id outside the set appears among the unobserved entries as often as in `all_sources`, so duplicates are not collapsed. An observed id never appears there. |
| Display.SourceStatusesShape | popup.js:456-492 | The observed sources come first, in order, each marked observed with its `source` id. After them come only unobserved entries whose ids are configured. No unobserved entry shares an id with an observed one. |
| Display.SourceStatusesCount | popup.js:456-492 | The number of unobserved entries with a given id is 0 when some observed source has that id. Otherwise it is the id's number of occurrences in `all_sources`. |
| Handoff.LookupSlot.Publish | background.js:31-53 | Writing the slot replaces the previous record. |
| Handoff.PublishedRecord | background.js:31-53 | The record holds the term, its type and the time. It holds the devices (one object per record, in order) exactly on success, and the error's message exactly on failure. |
| Handoff.OnContextMenuClick | background.js:11-58 | Another menu entry, or a selection that fails validation, leaves the slot unchanged. Otherwise the slot holds the record of this lookup. |
| Handoff.ChooseView | popup.js:7-54 | No record gives the no-data panel, and a truthy `error` wins. More than one device gives the list, and exactly one gives the single view, titled by its hostname or else the term. No devices renders nothing. The term falls back to legacy `hostname`, and the type defaults to "hostname". |
| Handoff.PublishedView | popup.js:23-54 | Under `ChooseView`, a record the handler writes shows as its error with the term, or as its devices. Among the views `ChooseView` tells apart, it is never the no-data panel, the catch-all error or an empty page. |

## Left out

- Everything rendered as HTML is left out, because it is presentation: `innerHTML` templates, `escapeHtml`, event listeners, the back button and the settings links.
- The fetch machinery and browser APIs are left out:
  - `fetch`, request headers and URLs, `response.json()`/`text()`, and the 10-second abort timer;
  - the `chrome.storage`, `contextMenus` and `action.openPopup` calls.
  - Network results are parameters instead (`HttpOutcome`, `FacetOutcome`), and storage is the `LookupSlot` field.
- `Date.now()` and `new Date(timestamp)` are parameters:
  - `OnContextMenuClick` takes `now`;
  - `FormatTimeAgo` takes the millisecond difference;
  - `ExtractSources` takes an `elapsed` function from a timestamp to that difference.
- The stale-record check (popup.js:30) is left out, because its result is never used.
- Concurrency is left out: the race between two clicks writing the one slot, and the `Promise.all` fan-out of user and vulnerability details.
- `displayDeviceInfo` is left out, apart from its title argument. This includes:
  - `lookupUser` and `lookupVulnerability`;
  - the detail fetches;
  - the location line of popup.js:116;
  - `toFixed(1)`.
- options.js is not part of this model.
- Numbers are integers (`JNum(int)`), except severity, which is a `real`. NaN, infinities and fractions are not modelled. Integers of 1e21 and above, which JavaScript prints in exponent form, are printed in full.
- Display.FormatSourceName: `toUpperCase` is modelled for ASCII letters only. Any other character is kept unchanged.
- Display.ExtractSources requires a `sources` list with no `null` entries, and ids that are strings or falsy. The original throws a TypeError otherwise.
- Display.ExtractSources compares ids by value. The original's `Set` compares object-valued ids by identity.
- Handoff.ChooseView treats a `devices` value that is not an array as having no length. A string, which the handler never writes, would have one in JavaScript.
- Handoff.ChooseView reads a record of the current or the legacy shape only. Arbitrary stored JSON is not modelled.
- Handoff.ChooseView models the popup's outer `try`/`catch` (popup.js:56-61) only for reading `hostname` of a `null` single device, which shows as `UnexpectedError`. TypeErrors thrown inside `displayDeviceInfo` are left out with it. For example, `extractSources` throws on `sources: [null]` (popup.js:463), and the popup then shows the catch-all error. The same holds for `displayDeviceList`: a list with a `null` device throws at popup.js:75 (`device.hostname`) and shows the catch-all, where `ChooseView` gives `DeviceListView`.
- Handoff.PublishedView: its "never the catch-all error" holds of `ChooseView` only. A handler-written single device whose `sources` hold `null` would still reach the catch-all while it renders.
- JsValues.Spread on a string copies one key per Unicode character. JavaScript copies one per UTF-16 code unit, so `{..."😀"}` has the keys "0" and "1" there.
- `chrome.storage.local.set` (background.js:31, background.js:46) stores the record as JSON. Undefined properties are dropped, and undefined array elements become `null`, for example an `all_sources` entry from a bucket without `key`. The model keeps `JUndefined` in the slot, so `ExtractSources` on a record read back from storage can differ (popup.js:467, popup.js:480).
- The wording of runtime TypeError messages follows the V8 engine. Other engines word them differently.
- Property order of the flattened records is not modelled. A record is a map from key to value.
- `console` logging is left out.
