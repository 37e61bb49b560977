/** `Resolve` (resolver.go): one resolve worker draining the record feed,
    looking each new name up once and forwarding it. DNS is an oracle. */
module Resolver {
  import opened Outcomes
  import opened Text
  import opened Records
  import opened Dedup

  /** What `net.LookupHost` returns: the addresses and the error (as its text). */
  datatype Answer = Answer(addrs: seq<string>, err: Option<string>)

  /** Wildcard names (`*.example.com`) and quoted non-DNS subjects are not
      looked up: the name starts with `*` or with `"`. */
  predicate SkipsLookup(name: string) {
    |name| > 0 && (name[0] == '*' || name[0] == '"')
  }

  /** `SkipsLookup` is the source's test,
      `HasPrefix(name, "*") || HasPrefix(name, "\"")`. */
  lemma SkipsLookupIsPrefixTest(name: string)
    ensures SkipsLookup(name) <==> HasPrefix(name, "*") || HasPrefix(name, "\"")
  {
  }

  /** What happens to a record whose name is new: bypassed names go out
      untouched, every other record gets the lookup's addresses and error. */
  function Enrich(lookup: string -> Answer, rec: Record): (r: Record)
    ensures SameCertificate(r, rec)
    ensures SkipsLookup(rec.name) ==> r == rec
    ensures !SkipsLookup(rec.name) ==> r.addrs == lookup(rec.name).addrs && r.err == lookup(rec.name).err
  {
    if SkipsLookup(rec.name) then rec
    else
      var answer := lookup(rec.name);
      rec.(addrs := answer.addrs, err := answer.err)
  }

  /** What the worker did: the final seen-set, the names it looked up in
      order, and the records it forwarded in order. There is no error: the
      loop returns nil. */
  datatype ResolveRun = ResolveRun(resolved: set<string>, lookups: seq<string>, out: seq<Record>)

  function Names(recs: seq<Record>): (ns: seq<string>)
    ensures |ns| == |recs| && forall i :: 0 <= i < |recs| ==> ns[i] == recs[i].name
  {
    if recs == [] then [] else [recs[0].name] + Names(recs[1..])
  }

  /** The names among `names` that get a DNS lookup. */
  function LookedUp(names: seq<string>): seq<string> {
    if names == [] then []
    else (if SkipsLookup(names[0]) then [] else [names[0]]) + LookedUp(names[1..])
  }

  /** The worker loop, with `resolved` the seen-set it starts from. The name
      enters the set before the bypass test, so bypassed names are
      deduplicated too. */
  function ResolveStream(lookup: string -> Answer, resolved: set<string>, recs: seq<Record>): ResolveRun
    decreases |recs|
  {
    if recs == [] then ResolveRun(resolved, [], [])
    else
      var rec := recs[0];
      var step := TestAndInsert(resolved, rec.name);
      var rest := ResolveStream(lookup, step.1, recs[1..]);
      if step.0 then rest
      else
        var looked := if SkipsLookup(rec.name) then [] else [rec.name];
        ResolveRun(rest.resolved, looked + rest.lookups, [Enrich(lookup, rec)] + rest.out)
  }

  /** `recs[i]` is the first record with its name and the name was not seen
      before the worker started: the record survives deduplication. */
  predicate FirstSighting(recs: seq<Record>, resolved: set<string>, i: int)
    requires 0 <= i < |recs|
  {
    recs[i].name !in resolved && forall j :: 0 <= j < i ==> recs[j].name != recs[i].name
  }

  /** One iteration of the worker loop. */
  lemma ResolveStep(lookup: string -> Answer, resolved: set<string>, recs: seq<Record>)
    requires recs != []
    ensures var r := ResolveStream(lookup, resolved, recs);
            var rest := ResolveStream(lookup, resolved + {recs[0].name}, recs[1..]);
            && (recs[0].name in resolved ==> r == rest)
            && (recs[0].name !in resolved ==>
                  && r.out == [Enrich(lookup, recs[0])] + rest.out
                  && r.lookups == LookedUp([recs[0].name]) + rest.lookups)
  {
    var n := recs[0].name;
    assert [n][1..] == [];
    assert LookedUp([n]) == (if SkipsLookup(n) then [] else [n]);
  }

  /** The seen-set after the worker is the starting set plus every name of
      the feed. */
  lemma {:induction false} ResolveStreamResolved(lookup: string -> Answer, resolved: set<string>, recs: seq<Record>)
    ensures ResolveStream(lookup, resolved, recs).resolved == resolved + Elems(Names(recs))
    decreases |recs|
  {
    if recs != [] {
      var name := recs[0].name;
      ResolveStep(lookup, resolved, recs);
      ResolveStreamResolved(lookup, resolved + {name}, recs[1..]);
      assert ResolveStream(lookup, resolved, recs).resolved
             == ResolveStream(lookup, resolved + {name}, recs[1..]).resolved;
      assert Names(recs) == [name] + Names(recs[1..]);
      ElemsCons(name, Names(recs[1..]));
    }
  }

  /** Forwarded names are new, and they are all the new names of the feed. */
  lemma {:induction false} ResolveStreamNewNames(lookup: string -> Answer, resolved: set<string>, recs: seq<Record>)
    ensures var r := ResolveStream(lookup, resolved, recs);
            && (forall k :: 0 <= k < |r.out| ==> r.out[k].name !in resolved)
            && Elems(Names(r.out)) == Elems(Names(recs)) - resolved
    decreases |recs|
  {
    if recs != [] {
      var name := recs[0].name;
      var r := ResolveStream(lookup, resolved, recs);
      var rest := ResolveStream(lookup, resolved + {name}, recs[1..]);
      ResolveStreamNewNames(lookup, resolved + {name}, recs[1..]);
      ResolveStep(lookup, resolved, recs);
      assert Elems(Names(recs)) == {name} + Elems(Names(recs[1..]));
      if name !in resolved {
        assert Names(r.out) == [name] + Names(rest.out);
        assert Elems(Names(r.out)) == {name} + Elems(Names(rest.out));
        forall k | 0 <= k < |r.out|
          ensures r.out[k].name !in resolved
        {
          if k > 0 {
            assert r.out[k] == rest.out[k - 1];
          }
        }
      }
    }
  }

  /** No name is forwarded twice. */
  lemma {:induction false} ResolveStreamDistinct(lookup: string -> Answer, resolved: set<string>, recs: seq<Record>)
    ensures Distinct(Names(ResolveStream(lookup, resolved, recs).out))
    decreases |recs|
  {
    if recs != [] {
      var name := recs[0].name;
      var r := ResolveStream(lookup, resolved, recs);
      var rest := ResolveStream(lookup, resolved + {name}, recs[1..]);
      ResolveStreamDistinct(lookup, resolved + {name}, recs[1..]);
      ResolveStep(lookup, resolved, recs);
      if name !in resolved {
        ResolveStreamNewNames(lookup, resolved + {name}, recs[1..]);
        assert Names(r.out) == [name] + Names(rest.out);
        assert name !in Elems(Names(rest.out));
        DistinctCons(name, Names(rest.out));
      }
    }
  }

  /** The names looked up are the forwarded names that are not bypassed, in
      order. */
  lemma {:induction false} ResolveStreamLookups(lookup: string -> Answer, resolved: set<string>, recs: seq<Record>)
    ensures var r := ResolveStream(lookup, resolved, recs);
            r.lookups == LookedUp(Names(r.out))
    decreases |recs|
  {
    if recs != [] {
      var name := recs[0].name;
      var r := ResolveStream(lookup, resolved, recs);
      var rest := ResolveStream(lookup, resolved + {name}, recs[1..]);
      ResolveStreamLookups(lookup, resolved + {name}, recs[1..]);
      ResolveStep(lookup, resolved, recs);
      if name !in resolved {
        var ns := Names(r.out);
        assert ns == [name] + Names(rest.out);
        assert ns[1..] == Names(rest.out);
        assert LookedUp([name]) == (if SkipsLookup(name) then [] else [name]) + LookedUp([]);
      }
    }
  }

  /** Each distinct name is looked up at most once, and never when it is
      bypassed or was seen before the worker started. */
  lemma ResolveStreamLooksUpOnce(lookup: string -> Answer, resolved: set<string>, recs: seq<Record>)
    ensures var r := ResolveStream(lookup, resolved, recs);
            && Distinct(r.lookups)
            && forall n :: n in r.lookups ==> n !in resolved && !SkipsLookup(n) && n in Names(recs)
  {
    var r := ResolveStream(lookup, resolved, recs);
    ResolveStreamDistinct(lookup, resolved, recs);
    ResolveStreamLookups(lookup, resolved, recs);
    ResolveStreamNewNames(lookup, resolved, recs);
    DistinctLookedUp(Names(r.out));
    forall n | n in r.lookups
      ensures n !in resolved && n in Names(recs)
    {
      assert n in Names(r.out);
      var k :| 0 <= k < |r.out| && Names(r.out)[k] == n;
      assert n in Elems(Names(r.out));
    }
  }

  /** Looking up a subsequence of distinct names keeps them distinct. */
  lemma {:induction false} DistinctLookedUp(names: seq<string>)
    requires Distinct(names)
    ensures Distinct(LookedUp(names))
    ensures forall n :: n in LookedUp(names) ==> n in names && !SkipsLookup(n)
  {
    if names != [] {
      var tail := names[1..];
      DistinctTail(names);
      DistinctLookedUp(tail);
      var all := LookedUp(names);
      if SkipsLookup(names[0]) {
        assert all == LookedUp(tail);
      } else {
        assert all == [names[0]] + LookedUp(tail);
        DistinctCons(names[0], LookedUp(tail));
      }
    }
  }

  /** A first sighting in the tail, with the head's name added to the set,
      is a first sighting in the whole feed one place later, and back. */
  lemma FirstSightingShift(recs: seq<Record>, resolved: set<string>, i: int)
    requires 0 <= i < |recs| - 1
    ensures FirstSighting(recs[1..], resolved + {recs[0].name}, i) <==> FirstSighting(recs, resolved, i + 1)
  {
    var tail := recs[1..];
    assert tail[i] == recs[i + 1];
    if FirstSighting(tail, resolved + {recs[0].name}, i) {
      forall j | 0 <= j < i + 1 ensures recs[j].name != recs[i + 1].name {
        if j > 0 { assert recs[j] == tail[j - 1]; }
      }
    }
    if FirstSighting(recs, resolved, i + 1) {
      forall j | 0 <= j < i ensures tail[j].name != tail[i].name {
        assert tail[j] == recs[j + 1];
      }
    }
  }

  /** Every record the worker forwards is the enrichment of a record that
      survived deduplication. */
  lemma {:induction false} ResolveStreamSound(lookup: string -> Answer, resolved: set<string>, recs: seq<Record>)
    ensures forall k :: 0 <= k < |ResolveStream(lookup, resolved, recs).out| ==>
              EnrichesFirstSighting(lookup, resolved, recs, ResolveStream(lookup, resolved, recs).out[k])
  {
    forall k | 0 <= k < |ResolveStream(lookup, resolved, recs).out|
      ensures EnrichesFirstSighting(lookup, resolved, recs, ResolveStream(lookup, resolved, recs).out[k])
    {
      var i := ForwardedAt(lookup, resolved, recs, k);
      assert 0 <= i < |recs| && FirstSighting(recs, resolved, i);
    }
  }

  /** `e` is the enrichment of a record of the feed that survives
      deduplication. */
  ghost predicate EnrichesFirstSighting(lookup: string -> Answer, resolved: set<string>, recs: seq<Record>, e: Record) {
    exists i :: 0 <= i < |recs| && FirstSighting(recs, resolved, i) && e == Enrich(lookup, recs[i])
  }

  /** Where the `k`th forwarded record comes from: the head, or the tail's
      run at the same place or one place earlier. */
  lemma OutAt(lookup: string -> Answer, resolved: set<string>, recs: seq<Record>, k: int)
    requires 0 <= k < |ResolveStream(lookup, resolved, recs).out|
    ensures recs != []
    ensures recs[0].name in resolved ==>
              var rest := ResolveStream(lookup, resolved + {recs[0].name}, recs[1..]).out;
              k < |rest| && ResolveStream(lookup, resolved, recs).out[k] == rest[k]
    ensures recs[0].name !in resolved && k == 0 ==>
              ResolveStream(lookup, resolved, recs).out[k] == Enrich(lookup, recs[0])
    ensures recs[0].name !in resolved && k > 0 ==>
              var rest := ResolveStream(lookup, resolved + {recs[0].name}, recs[1..]).out;
              k - 1 < |rest| && ResolveStream(lookup, resolved, recs).out[k] == rest[k - 1]
  {
    ResolveStreamShorter(lookup, resolved, recs);
    ResolveStep(lookup, resolved, recs);
  }

  /** The worker forwards at most one record per record it reads. */
  lemma {:induction false} ResolveStreamShorter(lookup: string -> Answer, resolved: set<string>, recs: seq<Record>)
    ensures |ResolveStream(lookup, resolved, recs).out| <= |recs|
    decreases |recs|
  {
    if recs != [] {
      ResolveStep(lookup, resolved, recs);
      ResolveStreamShorter(lookup, resolved + {recs[0].name}, recs[1..]);
    }
  }

  /** The `k`th forwarded record is the enrichment of the first sighting `i`. */
  lemma {:induction false} ForwardedAt(lookup: string -> Answer, resolved: set<string>, recs: seq<Record>, k: int)
    returns (i: int)
    requires 0 <= k < |ResolveStream(lookup, resolved, recs).out|
    ensures 0 <= i < |recs| && FirstSighting(recs, resolved, i)
    ensures ResolveStream(lookup, resolved, recs).out[k] == Enrich(lookup, recs[i])
    decreases |recs|
  {
    var name := recs[0].name;
    OutAt(lookup, resolved, recs, k);
    if name !in resolved && k == 0 {
      assert FirstSighting(recs, resolved, 0);
      return 0;
    }
    var j := ForwardedAt(lookup, resolved + {name}, recs[1..], if name in resolved then k else k - 1);
    assert recs[1..][j] == recs[j + 1];
    assert FirstSighting(recs, resolved, j + 1) by {
      FirstSightingShift(recs, resolved, j);
    }
    i := j + 1;
  }

  /** Every record that survives deduplication is forwarded, enriched. */
  lemma {:induction false} ResolveStreamComplete(lookup: string -> Answer, resolved: set<string>, recs: seq<Record>, i: int)
    requires 0 <= i < |recs| && FirstSighting(recs, resolved, i)
    ensures Enrich(lookup, recs[i]) in ResolveStream(lookup, resolved, recs).out
    decreases |recs|
  {
    ResolveStep(lookup, resolved, recs);
    if i > 0 {
      FirstSightingShift(recs, resolved, i - 1);
      ResolveStreamComplete(lookup, resolved + {recs[0].name}, recs[1..], i - 1);
      assert recs[1..][i - 1] == recs[i];
    }
  }
}
