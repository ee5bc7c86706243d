/** Signed endpoint records and the order in which they supersede each other. */
module Records {
  import opened Wire

  /**
   * Times are seconds; issuedAt is None when the text does not parse. Addresses, names and
   * keys are compared only for equality.
   */
  datatype EndpointRecord = EndpointRecord(
    version: nat,
    sequence: nat,
    nodeId: string,
    nodeName: string,
    address: string,
    publicKey: string,
    issuedAt: Option<int>,
    expiresAt: int,
    signature: string)

  function Newer(candidate: EndpointRecord, current: EndpointRecord): bool {
    if candidate.version != current.version then candidate.version > current.version
    else if candidate.version >= 2 then candidate.sequence > current.sequence
    else candidate.issuedAt.Some? && current.issuedAt.Some? && candidate.issuedAt.value > current.issuedAt.value
  }

  /** A record that can be compared: sequences always can, issue times if they parse. */
  predicate Readable(r: EndpointRecord) {
    r.version >= 2 || r.issuedAt.Some?
  }

  /** The order is strict, and records that can be compared chain. */
  lemma NewerOrder(a: EndpointRecord, b: EndpointRecord, c: EndpointRecord)
    ensures !Newer(a, a)
    ensures Newer(a, b) ==> !Newer(b, a)
    ensures Newer(a, b) && Newer(b, c) ==> Newer(a, c)
    ensures Readable(b) && !Newer(a, b) && !Newer(b, c) ==> !Newer(a, c)
  {
  }
}
