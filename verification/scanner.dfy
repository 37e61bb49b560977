/** The per-domain scan of scanner.go: a bounded pagination loop against the
    certificate-search service. The service is an oracle from request to
    exchange; the JSON decoder is an oracle from bytes to a document. */
module Scanner {
  import opened Outcomes
  import opened Text
  import opened JsonTree
  import opened Records
  import opened CtData

  /** `First(d)` is the first-page request (`domain=d`,
      `include_subdomains=true`); `Next(t)` is the follow-up request `p=t`. */
  datatype Request = First(domain: string) | Next(token: string)

  /** What reading the response body produced. Gzip decompression is part of
      the oracle: `BadGzip` is a failed `gzip.NewReader`, `ReadFailed` a
      failed `ReadAll`. */
  datatype Payload = Bytes(data: seq<byte>) | BadGzip | ReadFailed

  /** One HTTP exchange: the request could not be sent, or a status code and
      a payload came back. */
  datatype Exchange = SendFailed | Answered(status: int, payload: Payload)

  /** The errors that end a scan, one per `return fmt.Errorf(...)`. */
  datatype ScanError =
    | SendError
    | StatusError(status: int)
    | GzipError
    | ReadError
    | ParseFailed(cause: ParseError)

  /** The service and the JSON decoder, both out of reach of the model. */
  datatype Upstream = Upstream(fetch: Request -> Exchange, decode: seq<byte> -> Option<Json>)

  /** What one call of `scan` did: the requests it issued in order, the
      records it sent downstream in order, and the error it returned. */
  datatype ScanRun = ScanRun(requests: seq<Request>, emitted: seq<Record>, err: Option<ScanError>)

  /** `normalizeDomain`: surrounding white space removed, nothing else. */
  function NormalizeDomain(d: string): (r: string)
    ensures Trimmed(r)
    ensures |r| <= |d|
  {
    TrimSpace(d)
  }

  /** Normalizing cuts white space off the ends of `d` and nothing else. */
  lemma NormalizeDomainTrims(d: string)
    ensures exists i, j :: Frames(d, i, j) && NormalizeDomain(d) == d[i..j]
  {
    TrimSpaceFrames(d);
  }

  /** A domain with no surrounding white space is its own normal form. */
  lemma NormalizeDomainOfTrimmed(d: string)
    requires Trimmed(d)
    ensures NormalizeDomain(d) == d
  {
    TrimSpaceOfTrimmed(d);
  }

  /** A domain normalized twice is normalized once, so the scanner's trim of
      lines the input filter already trimmed changes nothing. */
  lemma NormalizeDomainIdempotent(d: string)
    ensures NormalizeDomain(NormalizeDomain(d)) == NormalizeDomain(d)
  {
    TrimSpaceIdempotent(d);
  }

  /** The checks between sending a request and holding its body: a 2xx
      status, then a working gzip reader, then a complete read. */
  function ResponseBody(x: Exchange): (r: Result<seq<byte>, ScanError>)
    ensures r.Ok? <==> x.Answered? && 200 <= x.status <= 299 && x.payload.Bytes?
    ensures r.Ok? ==> r.value == x.payload.data
    ensures x.SendFailed? ==> r == Err(SendError)
    ensures x.Answered? && !(200 <= x.status <= 299) ==> r == Err(StatusError(x.status))
    ensures x.Answered? && 200 <= x.status <= 299 && x.payload.BadGzip? ==> r == Err(GzipError)
    ensures x.Answered? && 200 <= x.status <= 299 && x.payload.ReadFailed? ==> r == Err(ReadError)
  {
    match x
    case SendFailed => Err(SendError)
    case Answered(status, payload) =>
      if status < 200 || status > 299 then Err(StatusError(status))
      else match payload
        case BadGzip => Err(GzipError)
        case ReadFailed => Err(ReadError)
        case Bytes(b) => Ok(b)
  }

  /** One iteration's I/O: fetch, strip the prefix, parse. A failed body
      check is the page's error as it is, a parse failure is wrapped in
      `ParseFailed`, and a page is the parse of the stripped body. */
  function FetchPage(up: Upstream, req: Request): (r: Result<Page, ScanError>)
    ensures r.Ok? <==> ResponseBody(up.fetch(req)).Ok?
                       && ParseCTData(up.decode, StripXssi(ResponseBody(up.fetch(req)).value)).Ok?
    ensures ResponseBody(up.fetch(req)).Err? ==> r == Err(ResponseBody(up.fetch(req)).error)
    ensures ResponseBody(up.fetch(req)).Ok?
            ==> var parsed := ParseCTData(up.decode, StripXssi(ResponseBody(up.fetch(req)).value));
                && (parsed.Err? ==> r == Err(ParseFailed(parsed.error)))
                && (parsed.Ok? ==> r == Ok(parsed.value))
  {
    match ResponseBody(up.fetch(req))
    case Err(e) => Err(e)
    case Ok(b) =>
      match ParseCTData(up.decode, StripXssi(b))
      case Err(pe) => Err(ParseFailed(pe))
      case Ok(page) => Ok(page)
  }

  /** The request the loop builds from the current token: the first-page
      request while the token is empty, a follow-up otherwise. */
  function RequestFor(domain: string, token: string): Request {
    if token == "" then First(domain) else Next(token)
  }

  /** Every record of a page, marked with the domain it came from; nothing
      else about it changes and the order is kept. */
  function Stamp(recs: seq<Record>, domain: string): (rs: seq<Record>)
    ensures |rs| == |recs|
    ensures forall i :: 0 <= i < |rs| ==> rs[i] == recs[i].(from := domain)
  {
    if recs == [] then [] else [recs[0].(from := domain)] + Stamp(recs[1..], domain)
  }

  /** The pagination loop from the point where `token` is the current token
      and `remaining` iterations are left (`maxPages - i`). */
  function Pages(up: Upstream, domain: string, token: string, remaining: nat): (r: ScanRun)
    ensures |r.requests| <= remaining
    ensures remaining > 0 ==> |r.requests| > 0 && r.requests[0] == RequestFor(domain, token)
    decreases remaining
  {
    if remaining == 0 then ScanRun([], [], None)
    else
      var req := RequestFor(domain, token);
      match FetchPage(up, req)
      case Err(e) => ScanRun([req], [], Some(e))
      case Ok(page) =>
        var found := Stamp(page.records, domain);
        if page.token == "" then ScanRun([req], found, None)
        else
          var rest := Pages(up, domain, page.token, remaining - 1);
          ScanRun([req] + rest.requests, found + rest.emitted, rest.err)
  }

  /** The number of loop iterations `maxPages` allows. */
  function PageLimit(maxPages: int): nat {
    if maxPages <= 0 then 0 else maxPages
  }

  /** `scan(domain)`, starting with an empty token. */
  function Scan(up: Upstream, domain: string, maxPages: int): (r: ScanRun)
    ensures |r.requests| <= PageLimit(maxPages)
    ensures maxPages <= 0 ==> r == ScanRun([], [], None)
    ensures maxPages > 0 ==> |r.requests| > 0 && r.requests[0] == First(domain)
  {
    Pages(up, domain, "", PageLimit(maxPages))
  }

  // ---------------------------------------------------------------------
  // A declarative description of a scan, and proof that `Scan` meets it.

  /** `next` is the request that follows `prev`: the page for `prev` parsed
      and carried a non-empty token, and `next` asks for that token. */
  predicate Continues(up: Upstream, prev: Request, next: Request) {
    var page := FetchPage(up, prev);
    page.Ok? && page.value.token != "" && next == Next(page.value.token)
  }

  /** The scan may stop after `last`: its page failed (and the scan returns
      that error), had an empty token, or the page budget is spent. */
  predicate Ends(up: Upstream, last: Request, budgetSpent: bool, err: Option<ScanError>) {
    match FetchPage(up, last)
    case Err(e) => err == Some(e)
    case Ok(page) => err == None && (page.token == "" || budgetSpent)
  }

  /** The records a request contributes: its page stamped with the domain. */
  function PageOutput(up: Upstream, domain: string, req: Request): seq<Record> {
    match FetchPage(up, req)
    case Ok(page) => Stamp(page.records, domain)
    case Err(_) => []
  }

  function Emitted(up: Upstream, domain: string, rs: seq<Request>): seq<Record> {
    if rs == [] then [] else PageOutput(up, domain, rs[0]) + Emitted(up, domain, rs[1..])
  }

  /** A run of `scan(domain)` as its contract describes it: at most
      `maxPages` requests, the first one `First(domain)`, each later one the
      token of the page before it, stopping at the first error, the first
      empty token or the budget, and emitting the pages' records in order. */
  ghost predicate Paginates(up: Upstream, domain: string, maxPages: int, run: ScanRun) {
    var rs := run.requests;
    var limit := PageLimit(maxPages);
    && |rs| <= limit
    && (|rs| == 0 <==> limit == 0)
    && (|rs| > 0 ==> rs[0] == First(domain))
    && (forall k :: 0 < k < |rs| ==> Continues(up, rs[k - 1], rs[k]))
    && (|rs| > 0 ==> Ends(up, rs[|rs| - 1], |rs| == limit, run.err))
    && (|rs| == 0 ==> run.err == None)
    && run.emitted == Emitted(up, domain, rs)
  }

  /** The part of `Paginates` that holds at every point of the loop, with
      `remaining` iterations left. */
  ghost predicate Shaped(up: Upstream, domain: string, remaining: nat, run: ScanRun) {
    var rs := run.requests;
    && (|rs| == 0 <==> remaining == 0)
    && (forall k :: 0 < k < |rs| ==> Continues(up, rs[k - 1], rs[k]))
    && (|rs| > 0 ==> Ends(up, rs[|rs| - 1], |rs| == remaining, run.err))
    && (|rs| == 0 ==> run.err == None)
    && run.emitted == Emitted(up, domain, rs)
  }

  /** One more loop iteration in front of a well-shaped rest keeps the shape. */
  lemma ShapedCons(up: Upstream, domain: string, remaining: nat, req: Request, rest: ScanRun)
    requires remaining > 0 && Shaped(up, domain, remaining - 1, rest)
    requires FetchPage(up, req).Ok? && FetchPage(up, req).value.token != ""
    requires |rest.requests| > 0 ==> rest.requests[0] == Next(FetchPage(up, req).value.token)
    ensures Shaped(up, domain, remaining,
                   ScanRun([req] + rest.requests, PageOutput(up, domain, req) + rest.emitted, rest.err))
  {
    var rs := [req] + rest.requests;
    assert rs[1..] == rest.requests;
    forall k | 0 < k < |rs|
      ensures Continues(up, rs[k - 1], rs[k])
    {
      if k > 1 {
        assert rs[k - 1] == rest.requests[k - 2] && rs[k] == rest.requests[k - 1];
      }
    }
    if |rest.requests| > 0 {
      assert rs[|rs| - 1] == rest.requests[|rest.requests| - 1];
    }
  }

  /** The loop from any point keeps the shape. */
  lemma {:induction false} PagesShape(up: Upstream, domain: string, token: string, remaining: nat, run: ScanRun)
    requires run == Pages(up, domain, token, remaining)
    ensures Shaped(up, domain, remaining, run)
    decreases remaining
  {
    if remaining > 0 {
      var req := RequestFor(domain, token);
      var fetched := FetchPage(up, req);
      if fetched.Err? {
        assert run == ScanRun([req], [], Some(fetched.error));
        assert Emitted(up, domain, [req]) == PageOutput(up, domain, req) + Emitted(up, domain, []);
      } else if fetched.value.token == "" {
        assert run == ScanRun([req], Stamp(fetched.value.records, domain), None);
        assert Emitted(up, domain, [req]) == PageOutput(up, domain, req) + Emitted(up, domain, []);
      } else {
        var rest := Pages(up, domain, fetched.value.token, remaining - 1);
        assert run == ScanRun([req] + rest.requests, PageOutput(up, domain, req) + rest.emitted, rest.err);
        PagesShape(up, domain, fetched.value.token, remaining - 1, rest);
        ShapedCons(up, domain, remaining, req, rest);
      }
    }
  }

  /** `Scan` meets the declarative description. */
  lemma ScanPaginates(up: Upstream, domain: string, maxPages: int)
    ensures Paginates(up, domain, maxPages, Scan(up, domain, maxPages))
  {
    PagesShape(up, domain, "", PageLimit(maxPages), Scan(up, domain, maxPages));
  }

  /** Two runs meeting the description on the page indices both have issue
      the same requests. */
  lemma {:induction false} PaginatesPrefix(up: Upstream, domain: string, maxPages: int,
                                           a: ScanRun, b: ScanRun, k: nat)
    requires Paginates(up, domain, maxPages, a) && Paginates(up, domain, maxPages, b)
    requires k < |a.requests| && k < |b.requests|
    ensures a.requests[k] == b.requests[k]
  {
    if k > 0 {
      PaginatesPrefix(up, domain, maxPages, a, b, k - 1);
      assert Continues(up, a.requests[k - 1], a.requests[k]);
      assert Continues(up, b.requests[k - 1], b.requests[k]);
    }
  }

  /** The description determines the run: `Scan` is the only run meeting it. */
  lemma PaginatesUnique(up: Upstream, domain: string, maxPages: int, a: ScanRun, b: ScanRun)
    requires Paginates(up, domain, maxPages, a) && Paginates(up, domain, maxPages, b)
    ensures a == b
  {
    var ra, rb := a.requests, b.requests;
    if |ra| < |rb| {
      ShorterRunContradicts(up, domain, maxPages, a, b);
    } else if |rb| < |ra| {
      ShorterRunContradicts(up, domain, maxPages, b, a);
    }
    forall k | 0 <= k < |ra|
      ensures ra[k] == rb[k]
    {
      PaginatesPrefix(up, domain, maxPages, a, b, k);
    }
    assert ra == rb;
  }

  /** Inside a run meeting the description, every page but the last offers a
      next page. */
  lemma PageBeforeLastContinues(up: Upstream, domain: string, maxPages: int, b: ScanRun, m: nat)
    requires Paginates(up, domain, maxPages, b)
    requires m + 1 < |b.requests|
    ensures FetchPage(up, b.requests[m]).Ok? && FetchPage(up, b.requests[m]).value.token != ""
  {
    assert Continues(up, b.requests[m], b.requests[m + 1]);
  }

  /** A run meeting the description cannot stop while another one goes on. */
  lemma ShorterRunContradicts(up: Upstream, domain: string, maxPages: int, a: ScanRun, b: ScanRun)
    requires Paginates(up, domain, maxPages, a) && Paginates(up, domain, maxPages, b)
    ensures |a.requests| >= |b.requests|
  {
    var ra, rb := a.requests, b.requests;
    if 0 < |ra| < |rb| {
      var m := |ra| - 1;
      PageBeforeLastContinues(up, domain, maxPages, b, m);
      PaginatesPrefix(up, domain, maxPages, a, b, m);
      // The last page of a offers a next page, so a ended on its budget,
      // which b cannot exceed.
      assert false;
    }
  }

  /** Every record a scan emits is marked with the scanned domain. */
  lemma {:induction false} EmittedFrom(up: Upstream, domain: string, rs: seq<Request>)
    ensures forall k :: 0 <= k < |Emitted(up, domain, rs)| ==> Emitted(up, domain, rs)[k].from == domain
  {
    if rs != [] {
      EmittedFrom(up, domain, rs[1..]);
    }
  }

  /** A service that always offers another page is asked exactly `maxPages`
      times. */
  lemma ScanStopsAtMaxPages(up: Upstream, domain: string, maxPages: int)
    requires forall req :: FetchPage(up, req).Ok? && FetchPage(up, req).value.token != ""
    ensures |Scan(up, domain, maxPages).requests| == PageLimit(maxPages)
  {
    ScanPaginates(up, domain, maxPages);
  }

  /** Only the first request of a scan is a first-page request, and it names
      the scanned domain. */
  lemma ScanFirstRequestOnly(up: Upstream, domain: string, maxPages: int, k: nat)
    requires k < |Scan(up, domain, maxPages).requests|
    ensures Scan(up, domain, maxPages).requests[k].First? <==> k == 0
    ensures k == 0 ==> Scan(up, domain, maxPages).requests[k] == First(domain)
  {
    ScanPaginates(up, domain, maxPages);
    var rs := Scan(up, domain, maxPages).requests;
    if k > 0 {
      assert Continues(up, rs[k - 1], rs[k]);
    }
  }
}
