# wifilamp service browser, modelled in Dafny

This project models the discovery core of the wifilamp iOS app
(`app-ios/wifilamp/Services/Browser.swift`): the `Browser` that searches
the local multicast-DNS domain for `_wifilamp._tcp.` services, resolves each
one it finds, keeps a pending list and a resolved list, and tells its
delegate when a search starts and when a record is found or removed; and the
`BrowserRecord` builder that turns a resolved service into a record (display
name without the "The Cave " branding, `http://` URL from the host name, chip
id from the TXT entry `chipid`) and classifies it as a lamp or an unknown
device.

Files:

- `wrappers.dfy` — `Option`, for Swift optionals.
- `utf8.dfy` — `String(data:encoding: .utf8)` as a strict UTF-8 decoder
  (RFC 3629), with its encoder as partner: decoding returns the one string
  whose encoding is the input, and every string survives a round trip.
- `removal.dfy` — the array extensions `removeFirst(where:)` and
  `removeFirst(element:)`: remove the first match, if any, and return it.
- `records.dfy` — `Handle` (a `NetService`), `BrowserRecord`,
  `BrowserRecord.from` as `From`, `toDevice` as `ToDevice`.
- `services.dfy` — the class `Browser`, one method per public operation and
  per discovery callback. Two ghost logs record its side effects: `requests`
  (calls into the discovery primitive) and `notifications` (calls on the
  delegate). Its invariant `Valid()` says the resolved list is exactly what
  an observer rebuilds from the notifications since the last silent reset
  (did-stop and did-not-search empty the list without telling the delegate),
  and that every record in it is well formed.
- `scenarios.dfy` — event sequences proved from the class's contracts
  alone: a default-constructed browser's first search, a refresh cycle, a repeated start, found-then-resolved,
  found-then-not-resolved, a search followed by any number of resolutions,
  removal of the newest record, resolved-then-removed,
  resolved twice.

The code appends to both lists without checking (Browser.swift lines 95 and
111), so a service found or resolved twice is listed twice; the model admits
duplicates (`Scenarios.ResolvedTwice` shows a record listed and reported
twice).

## Model

| member | source | states |
|---|---|---|
| `Utf8.DecodeFirst` | app-ios/wifilamp/Services/Browser.swift:138 | the character decoded at the head of the bytes encodes back to exactly the bytes it consumed (1 to 4 of them) |
| `Utf8.Decode` | app-ios/wifilamp/Services/Browser.swift:138 | a chip id decoded from a TXT value is the string whose UTF-8 encoding is that value; malformed input gives none |
| `Utf8.DecodeFirstEncodeChar` | app-ios/wifilamp/Services/Browser.swift:138 | the encoding of any character, followed by anything, decodes back to that character and its length |
| `Utf8.DecodeEncode` | app-ios/wifilamp/Services/Browser.swift:138 | every string survives encoding then decoding |
| `Removal.FirstIndexWhere` | app-ios/wifilamp/Services/Browser.swift:102 | the index found satisfies the test and no earlier element does; none exactly when no element does |
| `Removal.RemoveFirstWhere` | app-ios/wifilamp/Services/Browser.swift:102 | returns none and the list unchanged when nothing matches; otherwise a matching element and the list one shorter (which position goes, and that the rest keep their order and elements, is stated by `RemoveFirstWhereAt` and `RemoveFirstWhereMultiset`) |
| `Removal.RemoveFirstWhereMultiset` | app-ios/wifilamp/Services/Browser.swift:102 | the list left behind, with the removed element added back, has the same elements as before |
| `Removal.RemoveFirst` | app-ios/wifilamp/Services/Browser.swift:101 | removes one occurrence of the element exactly when it is present and otherwise changes nothing |
| `Removal.RemoveFirstMultiset` | app-ios/wifilamp/Services/Browser.swift:101 | removing an element takes exactly one copy of it out of the list's elements |
| `Removal.FirstIndexWhereAt` | app-ios/wifilamp/Services/Browser.swift:102 | a matching element preceded by no match is the one found |
| `Removal.RemoveFirstWhereAt` | app-ios/wifilamp/Services/Browser.swift:102 | removing the first match removes exactly that position, keeping the order of the rest |
| `Records.DisplayName` | app-ios/wifilamp/Services/Browser.swift:142-145 | with the "The Cave " prefix put back the result is the instance name; without that prefix the name is unchanged |
| `Records.From` | app-ios/wifilamp/Services/Browser.swift:132-148 | a record exists iff TXT data, a host name and a UTF-8 `chipid` entry all exist; it carries the service, the host name, `http://` + host as url, the display name, and a chip id whose encoding is the entry |
| `Records.FromSucceeds` | app-ios/wifilamp/Services/Browser.swift:132-148 | a service whose `chipid` entry encodes a string yields exactly the record with that chip id |
| `Records.FromExample` | app-ios/wifilamp/Services/Browser.swift:132-158 | "The Cave WiFiLamp1" on "wifilamp-ab12.local" becomes the record named "WiFiLamp1" at http://wifilamp-ab12.local, carrying whatever chip id its `chipid` entry encodes, and that record is classified as a lamp with the same chip id, name and url |
| `Records.ToDevice` | app-ios/wifilamp/Services/Browser.swift:152-158 | a lamp exactly when the host name starts with "wifilamp"; chip id, name and url carried over |
| `Services.ReplayAfterStart` | app-ios/wifilamp/Services/Browser.swift:11-15 | whatever was notified before, an observer told "started" and then only "found" holds exactly the records found since, in order: the list a delegate rebuilds after a search starts |
| `Services.ReplayRemoved` | app-ios/wifilamp/Services/Browser.swift:102-104 | removing the first record of a service is what an observer does on being told that record was removed, and keeps the rest well formed |
| `Services.Browser.constructor` | app-ios/wifilamp/Services/Browser.swift:30-38 | a new browser is idle, with empty lists, no restart pending and nothing requested; its service type is the one given, "_wifilamp._tcp." when none is |
| `Services.Browser.StartSearch` | app-ios/wifilamp/Services/Browser.swift:40-45 | exactly one search request for the service type in "local." when idle; nothing at all when searching |
| `Services.Browser.StopSearch` | app-ios/wifilamp/Services/Browser.swift:47-49 | exactly one stop request and no change of state |
| `Services.Browser.Refresh` | app-ios/wifilamp/Services/Browser.swift:51-58 | while searching: restart flag set and one stop request, lists and flag `searching` untouched; while idle: exactly as a start |
| `Services.Browser.ClearResults` | app-ios/wifilamp/Services/Browser.swift:60-63 | both lists empty, nothing else touched |
| `Services.Browser.DidNotSearch` | app-ios/wifilamp/Services/Browser.swift:65-69 | both lists empty, idle, restart flag untouched, nothing requested or notified; invariant kept |
| `Services.Browser.WillSearch` | app-ios/wifilamp/Services/Browser.swift:71-76 | both lists empty, searching, exactly one "started" notification; invariant kept |
| `Services.Browser.DidStopSearch` | app-ios/wifilamp/Services/Browser.swift:78-87 | both lists empty, idle, flag cleared; exactly one new search request if a restart was pending, none otherwise; nothing notified |
| `Services.Browser.DidFind` | app-ios/wifilamp/Services/Browser.swift:89-96 | the service appended to the pending list, a stop then a resolve with timeout 10 requested, resolved list and notifications untouched |
| `Services.Browser.DidRemove` | app-ios/wifilamp/Services/Browser.swift:98-105 | first occurrence left the pending list; if some record is of that service the first such leaves the resolved list and exactly one "removed" carries it, otherwise the list is unchanged and nothing is notified |
| `Services.Browser.DidResolveAddress` | app-ios/wifilamp/Services/Browser.swift:107-115 | first occurrence left the pending list; a buildable record is appended and reported found exactly once, otherwise nothing changes; a stop of the sender is requested either way |
| `Services.Browser.DidNotResolve` | app-ios/wifilamp/Services/Browser.swift:117-120 | only the pending list changes, losing the first occurrence of the sender |
| `Scenarios.DefaultSearch` | app-ios/wifilamp/Services/Browser.swift:30-45 | a browser made without arguments, once started, has asked for exactly one search, for "_wifilamp._tcp." in "local." |
| `Scenarios.RefreshWhileSearching` | app-ios/wifilamp/Services/Browser.swift:51-87 | refresh, did-stop, will-search: one stop and one search request, exactly one "started", empty lists, searching |
| `Scenarios.StartSearchTwice` | app-ios/wifilamp/Services/Browser.swift:40-45 | a second start after will-search requests nothing: one search request, one "started" |
| `Scenarios.ResolvedAfterStart` | app-ios/wifilamp/Services/Browser.swift:71-115 | will-search followed by any number of resolutions, each building a record: searching, the resolved list is exactly those records in order, the notifications are one "started" then one "found" per record, and replaying the whole notification log gives the resolved list |
| `Scenarios.ResolveAll` | app-ios/wifilamp/Services/Browser.swift:107-115 | resolutions delivered one after another, each building a record, append those records in order and report each found once, keeping the invariant and the searching flag |
| `Scenarios.FoundThenResolved` | app-ios/wifilamp/Services/Browser.swift:89-115 | find then resolve with complete data: one record appended, one "found", pending list as before |
| `Scenarios.FoundThenNotResolved` | app-ios/wifilamp/Services/Browser.swift:89-120 | find then resolve failure: no record, no notification, pending list as before |
| `Scenarios.ResolvedThenRemoved` | app-ios/wifilamp/Services/Browser.swift:98-115 | a record of a service found and then withdrawn is reported found once and removed once (the same record, of that service), and both lists are as before |
| `Scenarios.RemovedLast` | app-ios/wifilamp/Services/Browser.swift:98-105 | withdrawing the service of the last record, when no earlier record has it, takes off exactly that record and reports it removed once |
| `Scenarios.ResolvedTwice` | app-ios/wifilamp/Services/Browser.swift:107-115 | a service resolved twice is listed and reported found twice: the resolved list is not deduplicated |

## Left out

- The discovery primitive itself (`NetServiceBrowser`, `NetService`, multicast DNS and DNS-SD on the wire, `includesPeerToPeer`, the real resolve timeout): a foreign asynchronous service; its calls appear only as entries of `requests`, and its callbacks are the Browser's methods.
- `browser.delegate = self` and `service.delegate = self` (lines 37 and 92): they route callbacks to this browser, which the model takes as given.
- NetService identity: a `Handle` is its instance name, type and domain, and two handles are equal when those are.
- Parsing of TXT data (`NetService.dictionary(fromTXTRecord:)`): `From` and `DidResolveAddress` take the parsed dictionary, or none when the service has no TXT data.
- Records.From: does not model `URL(string:)` rejecting a host name; the url `http://` + host is always formed, and a url is kept as its text.
- Utf8.Decode: Foundation's handling of a leading byte-order mark is not modelled; U+FEFF decodes as an ordinary character.
- Records.DisplayName: compares and strips Unicode scalar values, whereas Swift's `hasPrefix` and `removeFirst(_:)` work on grapheme clusters; the two differ only when the character after "The Cave " is a grapheme-extending character (a combining mark, a zero-width joiner, a variation selector, an emoji modifier).
- Records.ToDevice: tests the "wifilamp" prefix by Unicode scalar values, whereas Swift's `hasPrefix` compares grapheme clusters; on a host name such as "wifilamp" followed by U+0301 the model says lamp and Swift says unknown device. Strings are sequences of scalars here and grapheme segmentation is not modelled.
- The `weak` delegate: `notifications` logs every `delegate?.…` call site, whether or not a delegate is attached to receive it.
- The `Device`, `WiFiLamp` and `UnknownDevice` types defined elsewhere in the app: a two-case datatype with their three fields.
- `debugPrint` and `print` output, including the `toDevice()` call made only for logging at line 110.
- The `moreComing` flags and the error dictionaries: accepted as parameters and ignored, as the code ignores them.
- The `records` accessor is `Browser.Records`, with no contract of its own: it returns the resolved list.
