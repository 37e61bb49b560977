/** The whole program of main.go with one worker per stage: the input
    filter feeds the scan worker, whose records feed the resolve worker,
    whose records become CSV rows. */
module Pipeline {
  import opened Outcomes
  import opened Text
  import opened Dedup
  import opened Records
  import opened CtData
  import opened Scanner
  import opened ScanStage
  import opened Resolver
  import opened Input
  import opened Sink

  /** How the process ends: every row written and flushed, or a fatal scan
      error (`log.Fatal`, after which nothing is promised about the output). */
  datatype Outcome = Finished(rows: seq<Row>) | Fatal(err: ScanError)

  /** The scan stage's run on the filtered input. */
  function ScanPhase(up: Upstream, maxPages: int, lines: seq<string>): StreamRun {
    Worker(up, maxPages, {}, InputDomains(lines))
  }

  /** The resolve stage's run on the scan stage's records. */
  function ResolvePhase(up: Upstream, lookup: string -> Answer, maxPages: int, lines: seq<string>): ResolveRun {
    ResolveStream(lookup, {}, ScanPhase(up, maxPages, lines).emitted)
  }

  function Run(up: Upstream, lookup: string -> Answer, maxPages: int, lines: seq<string>): Outcome {
    var scan := ScanPhase(up, maxPages, lines);
    match scan.err
    case Some(e) => Fatal(e)
    case None => Finished(AllRows(ResolveStream(lookup, {}, scan.emitted).out))
  }

  /** Normalizing domains that are already trimmed changes none of them. */
  lemma {:induction false} NormalizedSetOfTrimmed(ds: seq<string>)
    requires forall k :: 0 <= k < |ds| ==> Trimmed(ds[k])
    ensures NormalizedSet(ds) == Elems(ds)
  {
    if ds != [] {
      NormalizedSetOfTrimmed(ds[1..]);
      TrimSpaceOfTrimmed(ds[0]);
      assert Elems(ds) == {ds[0]} + Elems(ds[1..]);
    }
  }

  /** The properties of the composed pipeline: each input domain is queried
      at most once and, when nothing fails, every one of them is scanned;
      each discovered name is looked up at most once; and the row count is
      the sum over forwarded records of one per error or one per address. */
  lemma EndToEnd(up: Upstream, lookup: string -> Answer, maxPages: int, lines: seq<string>)
    ensures Run(up, lookup, maxPages, lines).Fatal? <==> ScanPhase(up, maxPages, lines).err.Some?
    ensures Run(up, lookup, maxPages, lines).Fatal? ==>
              Run(up, lookup, maxPages, lines).err == ScanPhase(up, maxPages, lines).err.value
    ensures Distinct(ScanPhase(up, maxPages, lines).order)
    ensures var rs := ScanPhase(up, maxPages, lines).requests;
            forall i, j :: 0 <= i < j < |rs| && rs[i].First? ==> rs[j] != rs[i]
    ensures ScanPhase(up, maxPages, lines).err.None? ==>
              Elems(ScanPhase(up, maxPages, lines).order) == Elems(InputDomains(lines))
    ensures Distinct(ResolvePhase(up, lookup, maxPages, lines).lookups)
    ensures Run(up, lookup, maxPages, lines).Finished? ==>
              |Run(up, lookup, maxPages, lines).rows| == TotalRows(ResolvePhase(up, lookup, maxPages, lines).out)
  {
    var domains := InputDomains(lines);
    var scan := ScanWith(up, maxPages);
    var s := ScanPhase(up, maxPages, lines);
    assert s == ScanStream(scan, {}, domains);
    ScanStreamDistinct(scan, {}, domains);
    if s.err.None? {
      ScanStreamCovers(scan, {}, domains);
    }
    InputDomainsClean(lines);
    NormalizedSetOfTrimmed(domains);
    ScanStreamQueriesOnce(up, maxPages, {}, domains);
    ResolveStreamLooksUpOnce(lookup, {}, s.emitted);
    RowCountEquation(ResolvePhase(up, lookup, maxPages, lines).out);
  }

  // ---------------------------------------------------------------------
  // Worked scenarios: a service that answers
  // the first request for a domain with a single page holding one entry.

  function OneEntry(name: string): Page {
    Page([Record("", name, "R3", 0, 0, [], None)], "")
  }

  /** The service answers the first-page request for `domain` with status
      200 and a body that is the XSSI guard followed by `text`, the JSON
      text of the page carrying one entry for `name` and no continuation
      token. */
  predicate ServesOnePage(up: Upstream, domain: string, text: seq<byte>, name: string) {
    && up.fetch(First(domain)) == Answered(200, Bytes(XssiPrefix + text))
    && up.decode(text) == Some(EncodePage(OneEntry(name)))
  }

  /** The record the scan of `domain` emits for that entry. */
  function Found(domain: string, name: string): Record {
    Record(domain, name, "R3", 0, 0, [], None)
  }

  lemma OnePageScan(up: Upstream, domain: string, text: seq<byte>, name: string, maxPages: int)
    requires maxPages > 0 && ServesOnePage(up, domain, text, name)
    ensures Scan(up, domain, maxPages) == ScanRun([First(domain)], [Found(domain, name)], None)
  {
    StripXssiRoundTrip(text);
    ParseEncodeRoundTrip(OneEntry(name));
    assert FetchPage(up, First(domain)) == Ok(OneEntry(name));
  }

  /** A trimmed, non-comment line passes the filter as it is. */
  lemma {:induction false} InputOfClean(lines: seq<string>)
    requires forall k :: 0 <= k < |lines| ==> Trimmed(lines[k]) && Kept(lines[k])
    ensures InputDomains(lines) == lines
  {
    if lines != [] {
      var tail := lines[1..];
      forall k | 0 <= k < |tail| ensures Trimmed(tail[k]) && Kept(tail[k]) {
        assert tail[k] == lines[k + 1];
      }
      InputOfClean(tail);
      CleanHeadKept(lines);
    }
  }

  lemma CleanHeadKept(lines: seq<string>)
    requires lines != [] && Trimmed(lines[0]) && Kept(lines[0])
    ensures InputDomains(lines) == [lines[0]] + InputDomains(lines[1..])
  {
    TrimSpaceOfTrimmed(lines[0]);
  }

  /** A worker fed one domain in normal form that it has not seen, whose
      scan succeeds. */
  lemma StreamOfOne(scan: string -> ScanRun, scanned: set<string>, d: string)
    requires NormalizeDomain(d) == d && d !in scanned && scan(d).err == None
    ensures ScanStream(scan, scanned, [d])
            == StreamRun(scanned + {d}, [d], scan(d).requests, scan(d).emitted, None)
  {
    ScanStreamStep(scan, scanned, [d]);
    assert [d][1..] == [];
  }

  /** A worker fed two distinct domains in normal form whose scans succeed. */
  lemma StreamOfTwo(scan: string -> ScanRun, d1: string, d2: string)
    requires NormalizeDomain(d1) == d1 && NormalizeDomain(d2) == d2 && d1 != d2
    requires scan(d1).err == None && scan(d2).err == None
    ensures ScanStream(scan, {}, [d1, d2]).err == None
    ensures ScanStream(scan, {}, [d1, d2]).emitted == scan(d1).emitted + scan(d2).emitted
  {
    var none: set<string> := {};
    assert none + {d1} == {d1};
    StreamOfOne(scan, {d1}, d2);
    assert [d1, d2][1..] == [d2];
    ScanStreamStep(scan, none, [d1, d2]);
  }

  /** The scan stage on a one-line input naming a clean domain. */
  lemma OneDomainScanPhase(up: Upstream, d: string, text: seq<byte>, name: string, maxPages: int)
    requires maxPages > 0 && Trimmed(d) && Kept(d) && ServesOnePage(up, d, text, name)
    ensures ScanPhase(up, maxPages, [d]).err == None
    ensures ScanPhase(up, maxPages, [d]).emitted == [Found(d, name)]
  {
    var scan := ScanWith(up, maxPages);
    InputOfClean([d]);
    OnePageScan(up, d, text, name, maxPages);
    assert scan(d) == Scan(up, d, maxPages);
    NormalizeDomainOfTrimmed(d);
    StreamOfOne(scan, {}, d);
  }

  /** The scan stage on two clean distinct domains whose scans succeed: their
      records, in input order. */
  lemma TwoDomainScanPhase(up: Upstream, d1: string, d2: string, maxPages: int)
    requires Trimmed(d1) && Kept(d1) && Trimmed(d2) && Kept(d2) && d1 != d2
    requires Scan(up, d1, maxPages).err == None && Scan(up, d2, maxPages).err == None
    ensures ScanPhase(up, maxPages, [d1, d2]).err == None
    ensures ScanPhase(up, maxPages, [d1, d2]).emitted
            == Scan(up, d1, maxPages).emitted + Scan(up, d2, maxPages).emitted
  {
    var scan := ScanWith(up, maxPages);
    InputOfClean([d1, d2]);
    NormalizeDomainOfTrimmed(d1);
    NormalizeDomainOfTrimmed(d2);
    StreamOfTwo(scan, d1, d2);
  }

  /** The resolve stage on a single new record, and the rows it gives. */
  lemma ResolveOne(lookup: string -> Answer, rec: Record)
    ensures ResolveStream(lookup, {}, [rec]).out == [Enrich(lookup, rec)]
    ensures ResolveStream(lookup, {}, [rec]).lookups == LookedUp([rec.name])
    ensures AllRows([Enrich(lookup, rec)]) == RowsOf(Enrich(lookup, rec))
  {
    ResolveStep(lookup, {}, [rec]);
    assert [rec][1..] == [];
    var e := Enrich(lookup, rec);
    assert [e][..0] == [];
  }

  /** The single row of a record with one address. */
  lemma OneAddressRow(rec: Record, addr: string)
    requires rec.err == None && rec.addrs == [addr]
    ensures AllRows([rec]) == [[rec.from, rec.name, addr, ""]]
  {
    RowsOfRecord(rec);
    assert [rec][..0] == [];
  }

  /** A domain whose page names one host that resolves to one address
      gives one row: domain, host, address, no error. */
  lemma ScenarioResolved(up: Upstream, lookup: string -> Answer, domain: string, text: seq<byte>, name: string,
                         addr: string, maxPages: int)
    requires maxPages > 0 && Trimmed(domain) && Kept(domain) && ServesOnePage(up, domain, text, name)
    requires !SkipsLookup(name) && lookup(name) == Answer([addr], None)
    ensures Run(up, lookup, maxPages, [domain]) == Finished([[domain, name, addr, ""]])
  {
    OneDomainScanPhase(up, domain, text, name, maxPages);
    ResolveOne(lookup, Found(domain, name));
    OneAddressRow(Enrich(lookup, Found(domain, name)), addr);
  }

  /** The same page when the lookup fails: one row carrying the error text
      and no address. */
  lemma ScenarioLookupFails(up: Upstream, lookup: string -> Answer, domain: string, text: seq<byte>, name: string,
                            msg: string, maxPages: int)
    requires maxPages > 0 && Trimmed(domain) && Kept(domain) && ServesOnePage(up, domain, text, name)
    requires !SkipsLookup(name) && lookup(name) == Answer([], Some(msg))
    ensures Run(up, lookup, maxPages, [domain]) == Finished([[domain, name, "", msg]])
  {
    OneDomainScanPhase(up, domain, text, name, maxPages);
    ResolveOne(lookup, Found(domain, name));
    RowsOfRecord(Enrich(lookup, Found(domain, name)));
  }

  /** A wildcard (or quoted) name is never looked up and yields no row. */
  lemma ScenarioWildcard(up: Upstream, lookup: string -> Answer, domain: string, text: seq<byte>, name: string, maxPages: int)
    requires maxPages > 0 && Trimmed(domain) && Kept(domain) && ServesOnePage(up, domain, text, name)
    requires SkipsLookup(name)
    ensures ResolvePhase(up, lookup, maxPages, [domain]).lookups == []
    ensures Run(up, lookup, maxPages, [domain]) == Finished([])
  {
    OneDomainScanPhase(up, domain, text, name, maxPages);
    ResolveOne(lookup, Found(domain, name));
    assert LookedUp([name]) == [];
    RowsOfRecord(Found(domain, name));
  }

  /** A single name is looked up unless it is bypassed. */
  lemma LookedUpOne(name: string)
    ensures LookedUp([name]) == if SkipsLookup(name) then [] else [name]
  {
    assert [name][1..] == [];
  }

  /** The resolve stage on two records with the same name: the second is
      dropped. */
  lemma ResolveSameNameTwice(lookup: string -> Answer, recA: Record, recB: Record)
    requires recA.name == recB.name
    ensures ResolveStream(lookup, {}, [recA, recB]).out == [Enrich(lookup, recA)]
    ensures ResolveStream(lookup, {}, [recA, recB]).lookups == LookedUp([recA.name])
  {
    var none: set<string> := {};
    ResolveStep(lookup, none, [recA, recB]);
    assert [recA, recB][1..] == [recB];
    ResolveStep(lookup, none + {recA.name}, [recB]);
    assert [recB][1..] == [];
  }

  /** Two domains whose pages both name the same host: one lookup, and one
      row, attributed to the first domain. */
  lemma ScenarioSharedName(up: Upstream, lookup: string -> Answer, d1: string, d2: string, text: seq<byte>,
                           name: string, addr: string, maxPages: int)
    requires maxPages > 0 && Trimmed(d1) && Kept(d1) && Trimmed(d2) && Kept(d2) && d1 != d2
    requires ServesOnePage(up, d1, text, name) && ServesOnePage(up, d2, text, name)
    requires !SkipsLookup(name) && lookup(name) == Answer([addr], None)
    ensures ResolvePhase(up, lookup, maxPages, [d1, d2]).lookups == [name]
    ensures Run(up, lookup, maxPages, [d1, d2]) == Finished([[d1, name, addr, ""]])
  {
    OnePageScan(up, d1, text, name, maxPages);
    OnePageScan(up, d2, text, name, maxPages);
    TwoDomainScanPhase(up, d1, d2, maxPages);
    ResolveSameNameTwice(lookup, Found(d1, name), Found(d2, name));
    LookedUpOne(name);
    OneAddressRow(Enrich(lookup, Found(d1, name)), addr);
  }
}
