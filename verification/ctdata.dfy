/** One page of certificate-search results: the anti-XSSI prefix on the
    response body, and `parseCTData`, which reads a positional nested-array
    JSON tree into records and a continuation token (scanner.go). */
module CtData {
  import opened Outcomes
  import opened JsonTree
  import opened Records

  newtype byte = b: int | 0 <= b < 256

  /** `)]}'`, which the service puts in front of every JSON body so that the
      body cannot be run as a script. */
  const XssiPrefix: seq<byte> := [0x29, 0x5D, 0x7D, 0x27]

  predicate HasXssiPrefix(b: seq<byte>) {
    |b| >= 4 && b[..4] == XssiPrefix
  }

  /** The strip exactly as scanner.go writes it. Go bounds `b[:4]` by the
      capacity of the slice, not its length, so on a body shorter than four
      bytes the comparison also reads `spare`, the bytes the read buffer holds
      past the body; `b[4:]` is bounded by the length. `None` is a panic. */
  function StripXssiAsWritten(b: seq<byte>, spare: seq<byte>): (r: Option<seq<byte>>)
    ensures r.None? ==> |b| < 4
    ensures r.Some? ==> r.value == b || b == XssiPrefix + r.value
  {
    var buffer := b + spare;
    if |buffer| < 4 then None
    else if buffer[..4] == XssiPrefix then
      if |b| < 4 then None else
        assert b == b[..4] + b[4..];
        Some(b[4..])
    else Some(b)
  }

  /** A three-byte body `)]}` whose read buffer holds `'` right after it
      passes the prefix test, and `b[4:]` then panics. */
  lemma StripXssiAsWrittenPanics()
    ensures StripXssiAsWritten([0x29, 0x5D, 0x7D], [0x27]) == None
  {
    var buffer: seq<byte> := [0x29, 0x5D, 0x7D] + [0x27];
    assert buffer[..4] == XssiPrefix;
  }

  /** The strip with the length test the source leaves out: never fails, and
      removes the prefix exactly when the body starts with it. */
  function StripXssi(b: seq<byte>): (r: seq<byte>)
    ensures HasXssiPrefix(b) ==> b == XssiPrefix + r
    ensures !HasXssiPrefix(b) ==> r == b
  {
    if HasXssiPrefix(b) then
      assert b == b[..4] + b[4..];
      b[4..]
    else b
  }

  /** Stripping undoes the service's prefixing. */
  lemma StripXssiRoundTrip(body: seq<byte>)
    ensures StripXssi(XssiPrefix + body) == body
  {
    assert (XssiPrefix + body)[..4] == XssiPrefix;
  }

  /** Wherever the source does not panic, it computes what `StripXssi` does,
      and on bodies of four bytes or more it never panics. */
  lemma StripXssiAgreesWithSource(b: seq<byte>, spare: seq<byte>)
    ensures |b| >= 4 ==> StripXssiAsWritten(b, spare) == Some(StripXssi(b))
    ensures StripXssiAsWritten(b, spare).Some? ==> StripXssiAsWritten(b, spare).value == StripXssi(b)
  {
    if |b| >= 4 {
      assert (b + spare)[..4] == b[..4];
    }
  }

  datatype ParseError = MalformedJson | RecordsNotArray

  /** The records of one result page and the token for the next page ("" when
      there is none). */
  datatype Page = Page(records: seq<Record>, token: string)

  /** `[0][1]`: the array of certificate entries. */
  function EntriesNode(j: Json): Json {
    GetIndex(GetIndex(j, 0), 1)
  }

  /** `[0][3][1]`: the continuation token. */
  function TokenNode(j: Json): Json {
    GetIndex(GetIndex(GetIndex(j, 0), 3), 1)
  }

  /** One certificate entry: index 1 the name, 2 the issuer, 3 and 4 the
      validity window in epoch milliseconds. */
  function EntryRecord(e: Json): Record {
    Record("", MustString(GetIndex(e, 1)), MustString(GetIndex(e, 2)),
           MustInt64(GetIndex(e, 3)), MustInt64(GetIndex(e, 4)), [], None)
  }

  function EntryRecords(es: seq<Json>): (rs: seq<Record>)
    ensures |rs| == |es|
    ensures forall i :: 0 <= i < |es| ==> rs[i] == EntryRecord(es[i])
  {
    if es == [] then [] else [EntryRecord(es[0])] + EntryRecords(es[1..])
  }

  /** `parseCTData` on an already-decoded document: fails exactly when `[0][1]`
      is not an array; otherwise one unresolved record per entry, in order,
      each field read with simplejson's defaults, and the token from
      `[0][3][1]`. */
  function ParseTree(j: Json): (r: Result<Page, ParseError>)
    ensures r.Err? <==> !EntriesNode(j).JArray?
    ensures r.Err? ==> r.error == RecordsNotArray
    ensures r.Ok? ==> |r.value.records| == |EntriesNode(j).elems|
    ensures r.Ok? ==> forall i :: 0 <= i < |r.value.records| ==>
              var e := EntriesNode(j).elems[i];
              && Unresolved(r.value.records[i])
              && r.value.records[i].name == MustString(GetIndex(e, 1))
              && r.value.records[i].issuer == MustString(GetIndex(e, 2))
              && r.value.records[i].notBefore == MustInt64(GetIndex(e, 3))
              && r.value.records[i].notAfter == MustInt64(GetIndex(e, 4))
    ensures r.Ok? ==> r.value.token == MustString(TokenNode(j))
  {
    var entries := EntriesNode(j);
    if !entries.JArray? then Err(RecordsNotArray)
    else Ok(Page(EntryRecords(entries.elems), MustString(TokenNode(j))))
  }

  /** `parseCTData(b)`: `decode` stands for go-simplejson's decoder. */
  function ParseCTData(decode: seq<byte> -> Option<Json>, b: seq<byte>): (r: Result<Page, ParseError>)
    ensures decode(b).None? ==> r == Err(MalformedJson)
    ensures decode(b).Some? ==> r == ParseTree(decode(b).value)
  {
    match decode(b)
    case None => Err(MalformedJson)
    case Some(j) => ParseTree(j)
  }

  /** A prefixed body parses as the same body without the prefix. */
  lemma EnvelopeStripping(decode: seq<byte> -> Option<Json>, body: seq<byte>)
    requires !HasXssiPrefix(body)
    ensures ParseCTData(decode, StripXssi(XssiPrefix + body)) == ParseCTData(decode, StripXssi(body))
  {
    StripXssiRoundTrip(body);
  }

  /** An entry that is not an array reads as empty strings and zero times. */
  lemma NonArrayEntryDefaults(e: Json)
    requires !e.JArray?
    ensures EntryRecord(e) == Record("", "", "", 0, 0, [], None)
  {
  }

  /** The service's page layout, as the example response in scanner.go shows
      it: `[["https.ct.cdsr", [entries], [issuers], [null, token, ...]]]`. */
  function EncodeEntry(r: Record): Json {
    JArray([JNull, JString(r.name), JString(r.issuer), JNumber(r.notBefore), JNumber(r.notAfter)])
  }

  function EncodePage(p: Page): Json {
    var entries := seq(|p.records|, i requires 0 <= i < |p.records| => EncodeEntry(p.records[i]));
    JArray([JArray([JString("https.ct.cdsr"), JArray(entries), JArray([]), JArray([JNull, JString(p.token)])])])
  }

  /** Parsing inverts the layout for every page the parser could produce. */
  lemma ParseEncodeRoundTrip(p: Page)
    requires forall i :: 0 <= i < |p.records| ==> Unresolved(p.records[i])
    ensures ParseTree(EncodePage(p)) == Ok(p)
  {
    var r := ParseTree(EncodePage(p));
    assert EntriesNode(EncodePage(p)).JArray?;
    var recs := r.value.records;
    assert |recs| == |p.records|;
    forall i | 0 <= i < |recs|
      ensures recs[i] == p.records[i]
    {
      assert recs[i] == EntryRecord(EncodeEntry(p.records[i]));
    }
    assert recs == p.records;
    assert TokenNode(EncodePage(p)) == JString(p.token);
  }
}
