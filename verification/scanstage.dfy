/** `ScanStream` (scanner.go): one scan worker draining the domain feed,
    skipping domains it has already scanned. */
module ScanStage {
  import opened Outcomes
  import opened Records
  import opened Dedup
  import opened Scanner

  /** What the worker did: the final seen-set, the domains it scanned in
      order, all requests and emitted records in order, and the error it
      returned (the first scan error; nothing after it is consumed). */
  datatype StreamRun = StreamRun(
    scanned: set<string>,
    order: seq<string>,
    requests: seq<Request>,
    emitted: seq<Record>,
    err: Option<ScanError>)

  /** The normalized form of every domain in the feed. */
  function NormalizedSet(domains: seq<string>): set<string> {
    if domains == [] then {} else {NormalizeDomain(domains[0])} + NormalizedSet(domains[1..])
  }

  /** The worker loop, with `scanned` the seen-set it starts from and `scan`
      the per-domain scan (`Scan` with the worker's service and page limit). */
  function ScanStream(scan: string -> ScanRun, scanned: set<string>, domains: seq<string>): StreamRun
    decreases |domains|
  {
    if domains == [] then StreamRun(scanned, [], [], [], None)
    else
      var d := NormalizeDomain(domains[0]);
      var step := TestAndInsert(scanned, d);
      if step.0 then ScanStream(scan, step.1, domains[1..])
      else
        var run := scan(d);
        if run.err.Some? then StreamRun(step.1, [d], run.requests, run.emitted, run.err)
        else
          var rest := ScanStream(scan, step.1, domains[1..]);
          StreamRun(rest.scanned, [d] + rest.order, run.requests + rest.requests,
                    run.emitted + rest.emitted, rest.err)
  }

  /** `Scan` with a fixed service and page limit, as a worker calls it. */
  function ScanWith(up: Upstream, maxPages: int): string -> ScanRun {
    d => Scan(up, d, maxPages)
  }

  /** A worker of scanner.go: `ScanStream` with `scan` as its per-domain scan. */
  function Worker(up: Upstream, maxPages: int, scanned: set<string>, domains: seq<string>): StreamRun {
    ScanStream(ScanWith(up, maxPages), scanned, domains)
  }

  /** One iteration of the worker loop. */
  lemma ScanStreamStep(scan: string -> ScanRun, scanned: set<string>, domains: seq<string>)
    requires domains != []
    ensures NormalizeDomain(domains[0]) in scanned ==>
              ScanStream(scan, scanned, domains)
              == ScanStream(scan, scanned + {NormalizeDomain(domains[0])}, domains[1..])
    ensures var d := NormalizeDomain(domains[0]);
            d !in scanned && scan(d).err.Some? ==>
              ScanStream(scan, scanned, domains)
              == StreamRun(scanned + {d}, [d], scan(d).requests, scan(d).emitted, scan(d).err)
    ensures var d := NormalizeDomain(domains[0]);
            var rest := ScanStream(scan, scanned + {d}, domains[1..]);
            d !in scanned && scan(d).err.None? ==>
              ScanStream(scan, scanned, domains)
              == StreamRun(rest.scanned, [d] + rest.order, scan(d).requests + rest.requests,
                           scan(d).emitted + rest.emitted, rest.err)
  {
  }

  /** The seen-set after the worker is the starting set plus the domains it
      scanned. */
  lemma {:induction false} ScanStreamScanned(scan: string -> ScanRun, scanned: set<string>, domains: seq<string>)
    ensures ScanStream(scan, scanned, domains).scanned
            == scanned + Elems(ScanStream(scan, scanned, domains).order)
    decreases |domains|
  {
    if domains != [] {
      var d := NormalizeDomain(domains[0]);
      var rest := ScanStream(scan, scanned + {d}, domains[1..]);
      ScanStreamStep(scan, scanned, domains);
      ScanStreamScanned(scan, scanned + {d}, domains[1..]);
      if d in scanned {
        assert scanned + {d} == scanned;
      } else if scan(d).err.Some? {
        ElemsCons(d, []);
        assert [d] + [] == [d];
      } else {
        ElemsCons(d, rest.order);
      }
    }
  }

  /** With no scan error the seen-set ends up holding every normalized
      domain of the feed. */
  lemma ScanStreamScannedAll(scan: string -> ScanRun, scanned: set<string>, domains: seq<string>)
    requires ScanStream(scan, scanned, domains).err.None?
    ensures ScanStream(scan, scanned, domains).scanned == scanned + NormalizedSet(domains)
  {
    ScanStreamScanned(scan, scanned, domains);
    ScanStreamCovers(scan, scanned, domains);
  }

  /** The domains a worker scans were not in its starting set. */
  lemma {:induction false} ScanStreamFresh(scan: string -> ScanRun, scanned: set<string>, domains: seq<string>)
    ensures Elems(ScanStream(scan, scanned, domains).order) !! scanned
    decreases |domains|
  {
    if domains != [] {
      var d := NormalizeDomain(domains[0]);
      var rest := ScanStream(scan, scanned + {d}, domains[1..]);
      ScanStreamStep(scan, scanned, domains);
      ScanStreamFresh(scan, scanned + {d}, domains[1..]);
      if d !in scanned && scan(d).err.None? {
        ElemsCons(d, rest.order);
      } else if d !in scanned {
        ElemsCons(d, []);
        assert [d] + [] == [d];
      }
    }
  }

  /** The domains a worker scans are distinct: no domain is scanned twice. */
  lemma {:induction false} ScanStreamDistinct(scan: string -> ScanRun, scanned: set<string>, domains: seq<string>)
    ensures Distinct(ScanStream(scan, scanned, domains).order)
    decreases |domains|
  {
    if domains != [] {
      var d := NormalizeDomain(domains[0]);
      var rest := ScanStream(scan, scanned + {d}, domains[1..]);
      ScanStreamStep(scan, scanned, domains);
      ScanStreamDistinct(scan, scanned + {d}, domains[1..]);
      if d !in scanned && scan(d).err.None? {
        ScanStreamFresh(scan, scanned + {d}, domains[1..]);
        assert d !in Elems(rest.order);
        DistinctCons(d, rest.order);
      } else if d !in scanned {
        assert ScanStream(scan, scanned, domains).order == [d];
      }
    }
  }

  /** The domains a worker scans are normalized domains of its feed. */
  lemma {:induction false} ScanStreamWithin(scan: string -> ScanRun, scanned: set<string>, domains: seq<string>)
    ensures Elems(ScanStream(scan, scanned, domains).order) <= NormalizedSet(domains)
    decreases |domains|
  {
    if domains != [] {
      var d := NormalizeDomain(domains[0]);
      var rest := ScanStream(scan, scanned + {d}, domains[1..]);
      ScanStreamStep(scan, scanned, domains);
      ScanStreamWithin(scan, scanned + {d}, domains[1..]);
      ElemsCons(d, rest.order);
    }
  }

  /** Unless a scan failed, the domains a worker scans are all of the feed's
      normalized domains that were not in the starting set. */
  lemma {:induction false} ScanStreamCovers(scan: string -> ScanRun, scanned: set<string>, domains: seq<string>)
    requires ScanStream(scan, scanned, domains).err.None?
    ensures Elems(ScanStream(scan, scanned, domains).order) == NormalizedSet(domains) - scanned
    decreases |domains|
  {
    if domains != [] {
      var d := NormalizeDomain(domains[0]);
      var rest := ScanStream(scan, scanned + {d}, domains[1..]);
      ScanStreamStep(scan, scanned, domains);
      ScanStreamCovers(scan, scanned + {d}, domains[1..]);
      if d !in scanned {
        ElemsCons(d, rest.order);
      }
    }
  }

  /** The requests of a worker are the requests of its scans, domain after
      domain. */
  function ScanRequests(scan: string -> ScanRun, order: seq<string>): seq<Request> {
    if order == [] then [] else scan(order[0]).requests + ScanRequests(scan, order[1..])
  }

  lemma {:induction false} ScanStreamRequests(scan: string -> ScanRun, scanned: set<string>, domains: seq<string>)
    ensures var r := ScanStream(scan, scanned, domains);
            r.requests == ScanRequests(scan, r.order)
    decreases |domains|
  {
    if domains != [] {
      var d := NormalizeDomain(domains[0]);
      ScanStreamRequests(scan, scanned + {d}, domains[1..]);
      var r := ScanStream(scan, scanned, domains);
      if d !in scanned {
        assert r.order[0] == d;
        if scan(d).err.Some? {
          assert r.order[1..] == [];
        } else {
          assert r.order[1..] == ScanStream(scan, scanned + {d}, domains[1..]).order;
        }
      }
    }
  }

  /** Each scan's first-page request is its first request, names the scanned
      domain, and is its only first-page request. */
  ghost predicate FirstOnlyAtStart(scan: string -> ScanRun) {
    forall d, k :: 0 <= k < |scan(d).requests| ==>
      && (scan(d).requests[k].First? <==> k == 0)
      && (k == 0 ==> scan(d).requests[k] == First(d))
  }

  /** `Scan` has that property for every domain. */
  lemma ScanWithFirstOnlyAtStart(up: Upstream, maxPages: int)
    ensures FirstOnlyAtStart(ScanWith(up, maxPages))
  {
    var scan := ScanWith(up, maxPages);
    forall d, k | 0 <= k < |scan(d).requests|
      ensures scan(d).requests[k].First? <==> k == 0
      ensures k == 0 ==> scan(d).requests[k] == First(d)
    {
      ScanFirstRequestOnly(up, d, maxPages, k);
    }
  }

  /** A first-page request among a series of scans names a domain of the
      series. */
  lemma {:induction false} ScanRequestsFirstDomain(scan: string -> ScanRun, order: seq<string>, k: nat)
    requires FirstOnlyAtStart(scan)
    requires k < |ScanRequests(scan, order)| && ScanRequests(scan, order)[k].First?
    ensures ScanRequests(scan, order)[k].domain in order
    decreases |order|
  {
    var head := scan(order[0]).requests;
    var rest := ScanRequests(scan, order[1..]);
    assert ScanRequests(scan, order) == head + rest;
    if k >= |head| {
      assert ScanRequests(scan, order)[k] == rest[k - |head|];
      ScanRequestsFirstDomain(scan, order[1..], k - |head|);
    }
  }

  /** Over a series of distinct domains no first-page request repeats. */
  lemma {:induction false} ScanRequestsFirstOnce(scan: string -> ScanRun, order: seq<string>, k: nat)
    requires FirstOnlyAtStart(scan) && Distinct(order)
    requires k < |ScanRequests(scan, order)| && ScanRequests(scan, order)[k].First?
    ensures forall k' :: k < k' < |ScanRequests(scan, order)| ==>
              ScanRequests(scan, order)[k'] != ScanRequests(scan, order)[k]
    decreases |order|
  {
    var head := scan(order[0]).requests;
    var rest := ScanRequests(scan, order[1..]);
    var all := ScanRequests(scan, order);
    assert all == head + rest;
    DistinctTail(order);
    if k < |head| {
      forall k' | k < k' < |all|
        ensures all[k'] != all[k]
      {
        if k' >= |head| && all[k'].First? {
          assert all[k'] == rest[k' - |head|];
          ScanRequestsFirstDomain(scan, order[1..], k' - |head|);
        }
      }
    } else {
      ScanRequestsFirstOnce(scan, order[1..], k - |head|);
      forall k' | k < k' < |all|
        ensures all[k'] != all[k]
      {
        assert all[k'] == rest[k' - |head|];
      }
    }
  }

  /** Each distinct normalized domain is queried at most once: no first-page
      request repeats over the whole run of a worker, and none names a domain
      of the starting seen-set. */
  lemma ScanStreamQueriesOnce(up: Upstream, maxPages: int, scanned: set<string>, domains: seq<string>)
    ensures var r := Worker(up, maxPages, scanned, domains);
            forall i :: 0 <= i < |r.requests| && r.requests[i].First? ==> r.requests[i].domain !in scanned
    ensures var r := Worker(up, maxPages, scanned, domains);
            forall i, j :: 0 <= i < j < |r.requests| && r.requests[i].First? ==> r.requests[j] != r.requests[i]
  {
    var scan := ScanWith(up, maxPages);
    var r := ScanStream(scan, scanned, domains);
    ScanStreamDistinct(scan, scanned, domains);
    ScanStreamFresh(scan, scanned, domains);
    ScanStreamRequests(scan, scanned, domains);
    ScanWithFirstOnlyAtStart(up, maxPages);
    forall i | 0 <= i < |r.requests| && r.requests[i].First?
      ensures r.requests[i].domain !in scanned
    {
      ScanRequestsFirstDomain(scan, r.order, i);
    }
    forall i, j | 0 <= i < j < |r.requests| && r.requests[i].First?
      ensures r.requests[j] != r.requests[i]
    {
      ScanRequestsFirstOnce(scan, r.order, i);
    }
  }

  /** Each record was emitted by the scan of a domain in the run's order. */
  predicate FromScanned(r: StreamRun) {
    forall k :: 0 <= k < |r.emitted| ==> r.emitted[k].from in r.order
  }

  /** Each scan marks its records with its own domain. */
  ghost predicate StampsOwnDomain(scan: string -> ScanRun) {
    forall d, k :: 0 <= k < |scan(d).emitted| ==> scan(d).emitted[k].from == d
  }

  /** The records of a worker are the records of its scans, domain after
      domain. */
  function ScanEmitted(scan: string -> ScanRun, order: seq<string>): seq<Record> {
    if order == [] then [] else scan(order[0]).emitted + ScanEmitted(scan, order[1..])
  }

  lemma {:induction false} ScanStreamEmitted(scan: string -> ScanRun, scanned: set<string>, domains: seq<string>)
    ensures var r := ScanStream(scan, scanned, domains);
            r.emitted == ScanEmitted(scan, r.order)
    decreases |domains|
  {
    if domains != [] {
      var d := NormalizeDomain(domains[0]);
      ScanStreamEmitted(scan, scanned + {d}, domains[1..]);
      var r := ScanStream(scan, scanned, domains);
      if d !in scanned {
        assert r.order[0] == d;
        if scan(d).err.Some? {
          assert r.order[1..] == [];
        } else {
          assert r.order[1..] == ScanStream(scan, scanned + {d}, domains[1..]).order;
        }
      }
    }
  }

  /** Records of scans that mark them with their own domain carry a domain
      of the series. */
  lemma {:induction false} ScanEmittedFrom(scan: string -> ScanRun, order: seq<string>)
    requires StampsOwnDomain(scan)
    ensures forall k :: 0 <= k < |ScanEmitted(scan, order)| ==> ScanEmitted(scan, order)[k].from in order
  {
    if order != [] {
      ScanEmittedFrom(scan, order[1..]);
      var head := scan(order[0]).emitted;
      var all := ScanEmitted(scan, order);
      forall k | 0 <= k < |all|
        ensures all[k].from in order
      {
        if k < |head| {
          assert all[k] == head[k];
        } else {
          assert all[k] == ScanEmitted(scan, order[1..])[k - |head|];
        }
      }
    }
  }

  /** The records of a worker all come from the domains it scanned. */
  lemma WorkerFrom(up: Upstream, maxPages: int, scanned: set<string>, domains: seq<string>)
    ensures FromScanned(Worker(up, maxPages, scanned, domains))
  {
    var scan := ScanWith(up, maxPages);
    forall d, k | 0 <= k < |scan(d).emitted|
      ensures scan(d).emitted[k].from == d
    {
      ScanPaginates(up, d, maxPages);
      EmittedFrom(up, d, Scan(up, d, maxPages).requests);
    }
    ScanStreamEmitted(scan, scanned, domains);
    ScanEmittedFrom(scan, ScanStream(scan, scanned, domains).order);
    assert Worker(up, maxPages, scanned, domains) == ScanStream(scan, scanned, domains);
  }
}
