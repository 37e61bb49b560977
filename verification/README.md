# mfctscan, modelled in Dafny

mfctscan reads domain names on standard input. It looks each one up in
Google's certificate-transparency search and resolves every host name found
there. It writes one CSV row per address (or per failed lookup). The program
is a three-stage pipeline:

- **Input filter** (main.go, modelled by `Input.InputDomains`): trims each
  line and drops blank lines and `#` comments.
- **Scan stage** (Go's `(Scanner).ScanStream` and `(Scanner).scan` in
  scanner.go, modelled by `ScanStage.ScanStream` and `Scanner.Scan`):
  - Normalizes each domain and skips domains it has already seen.
  - Pages through the search results with a first-page request and then
    continuation-token requests, stopping at `maxPages`, at an empty token or
    at the first error.
  - Strips the `)]}'` anti-XSSI guard from each body and reads the
    positional JSON with `parseCTData`.
  - Marks each record with the domain it came from.
- **Resolve stage** (Go's `(Resolver).Resolve` in resolver.go, modelled by
  `Resolver.ResolveStream`): skips names already seen, forwards wildcard (`*`) and quoted (`"`) names untouched, and gives
  every other name one DNS lookup.
- **Sink** (main.go, modelled by `Sink.AllRows` and `Sink.WriteRows`): expands
  each record into CSV rows.

The model replaces goroutines and channels with one worker per stage. Each
worker is a fold over a sequence that threads its seen-set through an atomic
test-and-insert (`Dedup.TestAndInsert`), so the properties proved here are
those of a single interleaving. The HTTP service, the JSON text decoder and
DNS are oracle functions passed in as parameters:

- `Scanner.Upstream` holds `fetch: Request -> Exchange` and
  `decode: bytes -> Option<Json>`.
- The resolver takes `lookup: string -> Answer`.

Modules, one per file:

- `Outcomes`: `Option` and `Result`.
- `Dedup`: the atomic test-and-insert on a seen-set, and distinctness of
  sequences.
- `Text`: Go's `strings.TrimSpace` and `unicode.IsSpace`.
- `JsonTree`: decoded JSON and the simplejson getters.
- `Records`: `Record`.
- `CtData`: the XSSI strip and `parseCTData`.
- `Scanner`: `normalizeDomain` and `scan`, plus a declarative description of
  a scan (`Paginates`) and the proof that `scan` meets it.
- `ScanStage`: `ScanStream`.
- `Resolver`: `Resolve`.
- `Input`: the filter on standard input lines.
- `Sink`: the row expansion.
- `Pipeline`: the composition and worked scenarios.

Go bounds `b[:4]` by the capacity of the slice and `b[4:]` by its length. So
on a body shorter than four bytes the guard comparison reads bytes that the
read buffer holds past the body, and the panic comes from `b[4:]`, only when
those extra bytes complete the guard. `CtData.StripXssiAsWritten` models
exactly that; see Findings. The scan itself uses the length-guarded
`CtData.StripXssi`.

## Model

| member | source | states |
|---|---|---|
| Text.TrimSpace | scanner.go:142-144 | the result has no white space at either end and is no longer than the input |
| Text.TrimSpaceFrames | scanner.go:142-144 | the trim is the infix of the input left after removing only white space from both ends |
| Text.TrimSpaceUnique | scanner.go:142-144 | any trimmed infix framed by white space on both sides is the trim, so the trim is fully determined |
| Text.TrimSpaceIdempotent | main.go:76 | trimming a trimmed string changes nothing |
| Scanner.NormalizeDomain | scanner.go:142-144 | a normalized domain has no surrounding white space and is no longer than the input |
| Scanner.NormalizeDomainTrims | scanner.go:142-144 | normalizing removes white space from the two ends and nothing else |
| Scanner.NormalizeDomainOfTrimmed | scanner.go:142-144 | a domain without surrounding white space is its own normal form |
| Scanner.NormalizeDomainIdempotent | scanner.go:46 | normalizing twice is normalizing once, so re-trimming lines the filter already trimmed changes nothing |
| Scanner.ResponseBody | scanner.go:96-115 | a body comes back exactly for a sent request with a 2xx status, a working gzip reader and a complete read; otherwise each of the four checks yields its own error, in source order |
| Scanner.FetchPage | scanner.go:96-125 | a page comes back exactly when the body checks pass and the stripped body parses, and it is that parse; a failed body check is returned as it is, and a parse failure is returned wrapped in `ParseFailed` |
| Scanner.RequestFor | scanner.go:69-78 | the loop's request: the first-page request for the domain while the token is empty, a continuation request carrying the token otherwise; `Scanner.ScanFirstRequestOnly` and `Scanner.PaginatesPrefix` state the consequences for a whole scan |
| Scanner.Stamp | scanner.go:126-130 | records are marked with the domain in page order; the count and every other field are unchanged |
| Scanner.Pages | scanner.go:65-137 | the loop issues at most `remaining` requests, and when it runs at all the first request is the one the current token selects |
| Scanner.Scan | scanner.go:64-66 | a scan issues at most `maxPages` requests, none and no error when `maxPages <= 0`, and otherwise starts with `First(domain)` |
| Scanner.PagesShape | scanner.go:65-137 | from any token and any remaining budget the loop's run satisfies the invariant: each request follows the previous page's token, the run stops at an error, an empty token or the budget, and the records are the pages' records in order |
| Scanner.ScanPaginates | scanner.go:64-139 | `Scan` meets the declarative description `Paginates` |
| Scanner.PaginatesPrefix | scanner.go:69-78 | two runs meeting the description agree request by request |
| Scanner.PageBeforeLastContinues | scanner.go:132-136 | every page before the last one of a run parsed and offered a non-empty token |
| Scanner.ShorterRunContradicts | scanner.go:132-136 | a run meeting the description cannot stop while another continues |
| Scanner.PaginatesUnique | scanner.go:64-139 | only one run meets the description, so `Scan` is characterised by it |
| Scanner.EmittedFrom | scanner.go:126-130 | every record a scan emits carries the scanned domain in `from` |
| Scanner.ScanStopsAtMaxPages | scanner.go:66 | a service that always offers another page is asked exactly `maxPages` times |
| Scanner.ScanFirstRequestOnly | scanner.go:69-78 | only the first request of a scan is a first-page request, and it names the scanned domain |
| CtData.StripXssiAsWritten | scanner.go:117-120 | the strip as written fails (panics) only on bodies shorter than four bytes; otherwise it returns the body or the body without the guard |
| CtData.StripXssiAsWrittenPanics | scanner.go:117-119 | the three-byte body `)]}` with `'` left in the read buffer passes the guard test and then panics |
| CtData.StripXssi | scanner.go:117-120 | the guard is removed exactly when the body starts with it; any other body is left as it is |
| CtData.StripXssiRoundTrip | scanner.go:117-120 | stripping undoes prefixing with the guard |
| CtData.StripXssiAgreesWithSource | scanner.go:117-120 | the source never panics on bodies of four bytes or more, and whenever it does not panic it computes `StripXssi` |
| CtData.EnvelopeStripping | scanner.go:117-125 | a body with the guard parses like the same body without it, when that body does not itself start with the guard |
| CtData.EntryRecords | scanner.go:232-242 | one record per entry, in order, each read from its entry |
| CtData.EntryRecord | scanner.go:236-241 | one entry read positionally: name and issuer from indices 1 and 2, the two times from indices 3 and 4, under simplejson's defaults; `CtData.NonArrayEntryDefaults` states the defaults and `CtData.ParseEncodeRoundTrip` the inverse |
| CtData.ParseTree | scanner.go:227-246 | fails exactly when `[0][1]` is not an array; otherwise one unresolved record per element with name, issuer and times from indices 1-4 under simplejson's defaults, and the token from `[0][3][1]` |
| CtData.ParseCTData | scanner.go:221-247 | an undecodable body is a JSON error; a decoded one gives what `ParseTree` gives |
| CtData.NonArrayEntryDefaults | scanner.go:235-241 | an entry that is not an array reads as empty strings and zero times |
| CtData.ParseEncodeRoundTrip | scanner.go:165-216 | parsing the page layout of the example response returns the page encoded, for every page of unresolved records |
| ScanStage.ScanStream | scanner.go:44-61 | the scan worker over its feed, with the seen-set threaded through the atomic test-and-insert; `ScanStage.ScanStreamCovers`, `ScanStreamDistinct`, `ScanStreamFresh` and `ScanStreamEmitted` characterise its run |
| ScanStage.ScanStreamScanned | scanner.go:47-53 | the final seen-set is the starting set plus the domains scanned |
| ScanStage.ScanStreamScannedAll | scanner.go:45-60 | with no scan error, the final seen-set holds every normalized domain of the feed |
| ScanStage.ScanStreamFresh | scanner.go:48-52 | no domain of the starting seen-set is scanned |
| ScanStage.ScanStreamDistinct | scanner.go:45-58 | no domain is scanned twice |
| ScanStage.ScanStreamWithin | scanner.go:45-46 | every scanned domain is the normal form of a domain of the feed |
| ScanStage.ScanStreamCovers | scanner.go:45-60 | with no scan error, the scanned domains are exactly the feed's normalized domains not in the starting set |
| ScanStage.ScanStreamRequests | scanner.go:56-58 | the worker's requests are its scans' requests, domain after domain |
| ScanStage.ScanWithFirstOnlyAtStart | scanner.go:69-78 | every scan's only first-page request is its first request, naming its domain |
| ScanStage.ScanRequestsFirstDomain | scanner.go:69-73 | a first-page request in a series of scans names a domain of the series |
| ScanStage.ScanRequestsFirstOnce | scanner.go:45-58 | over distinct domains no first-page request repeats |
| ScanStage.ScanStreamQueriesOnce | scanner.go:45-58 | each distinct normalized domain is queried at most once, and never when it was in the starting seen-set |
| ScanStage.ScanStreamEmitted | scanner.go:126-130 | the worker's records are its scans' records, domain after domain |
| ScanStage.ScanEmittedFrom | scanner.go:128 | records of scans that mark them with their own domain come from a domain of the series |
| ScanStage.WorkerFrom | scanner.go:126-130 | every record a worker emits comes from a domain it scanned |
| Resolver.SkipsLookup | resolver.go:30 | the bypass test on a name starting with `*` or `"`; `Resolver.SkipsLookupIsPrefixTest` ties it to the two `HasPrefix` tests |
| Resolver.SkipsLookupIsPrefixTest | resolver.go:30 | the bypass test is the source's two `HasPrefix` tests |
| Resolver.Enrich | resolver.go:30-37 | the certificate fields are never changed; bypassed records go out untouched; others get exactly the lookup's addresses and error |
| Resolver.ResolveStream | resolver.go:19-40 | the resolve worker over its feed of records; `Resolver.ResolveStreamSound` and `ResolveStreamComplete` characterise what it forwards, `ResolveStreamLookups` what it looks up |
| Resolver.ResolveStreamResolved | resolver.go:21-28 | the final seen-set is the starting set plus every name of the feed, bypassed names included |
| Resolver.ResolveStreamNewNames | resolver.go:21-28 | forwarded names were not in the starting set, and they are all of the feed's names that were not |
| Resolver.ResolveStreamDistinct | resolver.go:21-28 | no name is forwarded twice |
| Resolver.ResolveStreamLookups | resolver.go:30-37 | the names looked up are the forwarded names that are not bypassed, in order |
| Resolver.ResolveStreamLooksUpOnce | resolver.go:21-37 | each name is looked up at most once, never when bypassed or already seen, and only names of the feed are looked up |
| Resolver.ResolveStreamShorter | resolver.go:20-38 | at most one record is forwarded per record read |
| Resolver.ForwardedAt | resolver.go:20-38 | each forwarded record is the enrichment of a first sighting of its name |
| Resolver.ResolveStreamSound | resolver.go:20-38 | every forwarded record is the enrichment of a record that survived deduplication |
| Resolver.ResolveStreamComplete | resolver.go:20-38 | every record that survives deduplication is forwarded, enriched |
| Input.InputDomains | main.go:73-82 | the input filter; `Input.InputDomainsMembers` characterises what it forwards, in both directions, and `Input.InputDomainsAppend` that it keeps input order |
| Input.InputDomainsClean | main.go:73-82 | forwarded lines are trimmed, non-empty and not comments, at most one per input line |
| Input.InputDomainsMembers | main.go:73-82 | a domain is forwarded exactly when some line trims to it and it is neither empty nor a comment |
| Input.InputDomainsAppend | main.go:73-82 | the filter works line by line, so input order is kept |
| Input.InputDomainsIdempotent | main.go:76-81 | filtering filtered output changes nothing |
| Sink.AddressRows | main.go:106-116 | one row `[from, name, addr, ""]` per address, in order |
| Sink.RowsOfRecord | main.go:99-117 | a record with an error gives exactly the one error row whatever its addresses; one without gives one row per address, so none when it has no address |
| Sink.RowsOf | main.go:98-117 | the rows of one record; `Sink.RowsOfRecord` states them case by case |
| Sink.AllRows | main.go:97-118 | the rows of all records, record after record; `Sink.WriteRows` is the source's loop and is proved to write exactly these |
| Sink.RowCountEquation | main.go:97-118 | the number of rows is the sum over records of 1 per error and otherwise the number of addresses |
| Sink.RowShape | main.go:100-115 | every row has four columns, the first two being the `from` and `name` of some record |
| Sink.WriteRows | main.go:96-118 | the output loop, which reuses one row and overwrites its third column, writes exactly the rows of the expansion, as many as the row-count equation gives |
| Pipeline.Run | main.go:68-119 | the whole program: the filter feeds the scan worker, whose records feed the resolve worker, whose records become rows, or the fatal end at a scan error; `Pipeline.EndToEnd` states its properties |
| Pipeline.NormalizedSetOfTrimmed | scanner.go:46 | the scan stage's normalization of already trimmed input is the identity |
| Pipeline.EndToEnd | main.go:68-118 | the run is fatal exactly when a scan fails, with that error; no domain is scanned twice; no first-page request repeats; with no error every input domain is scanned; no name is looked up twice; the rows obey the row-count equation |
| Pipeline.InputOfClean | main.go:73-82 | input that is already trimmed and free of blanks and comments passes the filter unchanged |
| Pipeline.StreamOfTwo | scanner.go:44-60 | two distinct domains that scan successfully give their records in feed order |
| Pipeline.OneDomainScanPhase | main.go:73-82 | one clean input line served one page gives that page's one record |
| Pipeline.TwoDomainScanPhase | main.go:73-82 | two clean, distinct input lines whose scans succeed give both scans' records in input order |
| Pipeline.ResolveSameNameTwice | resolver.go:21-28 | of two records with the same name only the first is forwarded or looked up |
| Pipeline.ScenarioResolved | main.go:97-116 | a domain whose page names a host resolving to one address gives the row domain, host, address, empty error |
| Pipeline.ScenarioLookupFails | main.go:99-105 | a failed lookup gives one row carrying the error text and no address |
| Pipeline.ScenarioWildcard | resolver.go:30-34 | a wildcard name is never looked up and gives no row |
| Pipeline.ScenarioSharedName | resolver.go:21-37 | two domains naming the same host give one lookup and one row, attributed to the first domain |

## Left out

- Concurrency: goroutines, `errgroup`, channels and the close cascade of main.go:50-94. Each stage is one sequential worker, and every property is stated for a single interleaving of the atomic test-and-insert.
- What the other workers do after one scanner fails. `log.Fatal` ends the process; the model stops at the first scan error, and `Pipeline.Run` returns `Fatal` with no rows.
- HTTP request construction and headers (scanner.go:15-28, 67-94, 146-151), the cookie jar and `getGoogleCookie` (scanner.go:252-273). They are I/O; the request is the abstract `First(domain)` or `Next(token)`.
- The `http.NewRequest` error (scanner.go:91-93). The URL is built from fixed parts and encoded values, so it is not modelled as an outcome.
- Gzip decompression and `ioutil.ReadAll`. They are library I/O and belong to the `fetch` oracle, which reports `BadGzip` or `ReadFailed` as payloads.
- JSON text decoding by go-simplejson (scanner.go:222-225). It is the `decode` oracle; the model starts from a decoded `Json` value. JSON objects and floating-point numbers are not modelled: `MustInt64` gives 0 for anything but an integer in `int64` range.
- `net.LookupHost` (resolver.go:36) is the `lookup` oracle, and its error is carried as its text.
- CSV quoting and escaping by `encoding/csv`, `w.Flush`, flag parsing (main.go:17-21) and `bufio` line splitting. These are output and process plumbing; the input is a sequence of lines.
- Go strings are byte strings; the model's strings are sequences of code points, so invalid UTF-8 is not modelled.
- Scanner.FetchPage: strips the guard with the length-guarded `CtData.StripXssi`, not with the strip as written, so the panic of the Finding never shows up in `Scanner.Scan`, `ScanStage.ScanStream` or `Pipeline.Run`; the as-written strip and its panic are modelled only in `CtData.StripXssiAsWritten`.
- Scanner.NormalizeDomain: its own contract states only the trimmed shape and the length bound; that the result is the input with white space removed from the ends is stated in `Scanner.NormalizeDomainTrims`.
- The worked scenarios in `Pipeline` describe the oracles only at the requests and bodies the scenario reaches.

## Findings

| source | as written | input that shows it | evidently intended | confidence | as-written member | corrected member |
|---|---|---|---|---|---|---|
| scanner.go:117-119 | `string(b[:4]) == ")]}'"` compares before any length test, and `b = b[4:]` follows it | the three-byte body `)]}` read into a buffer whose next byte is `'`: the capacity-bounded `b[:4]` matches the guard, and `b[4:]` exceeds the length of `b` and panics | strip the guard only when the body is at least four bytes long and starts with it, and otherwise keep the body | not executed | CtData.StripXssiAsWritten, CtData.StripXssiAsWrittenPanics | CtData.StripXssi |
