/** The value that flows through all three stages (scanner.go, `Record`). */
module Records {
  import opened Outcomes
  import opened JsonTree

  /** One certificate entry and what resolution made of its name. `err` holds
      the text of the Go error (`Err.Error()`), `None` for a nil error. */
  datatype Record = Record(
    from: string,
    name: string,
    issuer: string,
    notBefore: Int64,
    notAfter: Int64,
    addrs: seq<string>,
    err: Option<string>)

  /** A record as the parser creates it: no source domain yet, not resolved. */
  predicate Unresolved(r: Record) {
    r.from == "" && r.addrs == [] && r.err == None
  }

  /** The fields the resolver must leave alone. */
  predicate SameCertificate(a: Record, b: Record) {
    a.from == b.from && a.name == b.name && a.issuer == b.issuer
    && a.notBefore == b.notBefore && a.notAfter == b.notAfter
  }
}
