/** Values found under a key, and which of two is the newer. */
module Values {
  import opened Ordering

  /** A value that passed validation, as far as later decisions depend on it. */
  datatype Value = Value(
    raw: string, verified: bool, family: string, fingerprint: string,
    issuedAt: int, expiresAt: int, version: nat, sequenceBased: bool,
    publisher: string, enveloped: bool, authoritative: bool)

  /** What a fingerprint stands for. */
  datatype Core = Core(verified: bool, family: string, fingerprint: string, issuedAt: int, version: nat, sequenceBased: bool)

  function CoreOf(v: Value): Core {
    Core(v.verified, v.family, v.fingerprint, v.issuedAt, v.version, v.sequenceBased)
  }

  predicate After(a: string, b: string) {
    !StringLe(a, b)
  }

  predicate IsNewer(candidate: Value, current: Value) {
    if candidate.version != current.version then candidate.version > current.version
    else if candidate.sequenceBased && current.sequenceBased then After(candidate.fingerprint, current.fingerprint)
    else if candidate.issuedAt != current.issuedAt then candidate.issuedAt > current.issuedAt
    else After(candidate.fingerprint, current.fingerprint)
  }

  /** Values of one kind whose fingerprints tell them apart. */
  ghost predicate Uniform(s: set<Value>) {
    && (forall a, b :: a in s && b in s ==> a.sequenceBased == b.sequenceBased)
    && (forall a, b :: a in s && b in s && a.fingerprint == b.fingerprint ==> CoreOf(a) == CoreOf(b))
  }

  lemma AfterOrder(a: string, b: string)
    ensures After(a, b) ==> !After(b, a)
    ensures a != b ==> After(a, b) || After(b, a)
    ensures !After(a, a)
  {
    StringTotal(a, b);
    StringTotal(a, a);
  }

  lemma AfterTransitive(a: string, b: string, c: string)
    ensures !After(a, b) && !After(b, c) ==> !After(a, c)
    ensures After(a, b) && After(b, c) ==> After(a, c)
  {
    if !After(a, b) && !After(b, c) {
      StringTransitive(a, b, c);
    }
    if After(a, b) && After(b, c) {
      AfterOrder(a, b);
      AfterOrder(b, c);
      AfterOrder(a, c);
      StringTransitive(c, b, a);
      StringTotal(a, c);
      if a == c {
        StringTotal(b, c);
      }
    }
  }

  /** Among values of one kind, newer is a strict order that only equal fingerprints escape. */
  lemma NewerOrder(s: set<Value>, a: Value, b: Value, c: Value)
    requires Uniform(s) && a in s && b in s && c in s
    ensures !IsNewer(a, a) && (IsNewer(a, b) ==> !IsNewer(b, a))
    ensures !IsNewer(a, b) && !IsNewer(b, a) <==> a.fingerprint == b.fingerprint
    ensures !IsNewer(a, b) && !IsNewer(b, c) ==> !IsNewer(a, c)
  {
    hide After;
    AfterOrder(a.fingerprint, b.fingerprint);
    AfterOrder(b.fingerprint, c.fingerprint);
    AfterOrder(a.fingerprint, c.fingerprint);
    AfterOrder(a.fingerprint, a.fingerprint);
    AfterTransitive(a.fingerprint, b.fingerprint, c.fingerprint);
  }

  /**
   * What newer means: the higher version; of one version the later issue, unless both are sequenced; and last
   * the later fingerprint in the order of strings.
   */
  lemma NewerSays(a: Value, b: Value)
    ensures a.version > b.version ==> IsNewer(a, b) && !IsNewer(b, a)
    ensures a.version == b.version && !(a.sequenceBased && b.sequenceBased) && a.issuedAt > b.issuedAt ==>
      IsNewer(a, b) && !IsNewer(b, a)
    ensures a.version == b.version && ((a.sequenceBased && b.sequenceBased) || a.issuedAt == b.issuedAt) ==>
      (IsNewer(a, b) <==> Precedes(b.fingerprint, a.fingerprint))
  {
    hide StringLe, Precedes;
    StringLeIs(a.fingerprint, b.fingerprint);
    StringLeIs(b.fingerprint, a.fingerprint);
    StringTotal(a.fingerprint, b.fingerprint);
    NotBefore(a.fingerprint);
  }

  /** The same as one condition. */
  ghost predicate Outranks(a: Value, b: Value) {
    || a.version > b.version
    || (a.version == b.version && !(a.sequenceBased && b.sequenceBased) && a.issuedAt > b.issuedAt)
    || (a.version == b.version && ((a.sequenceBased && b.sequenceBased) || a.issuedAt == b.issuedAt) && Precedes(b.fingerprint, a.fingerprint))
  }

  lemma NewerIff(a: Value, b: Value)
    ensures IsNewer(a, b) <==> Outranks(a, b)
  {
    hide IsNewer, Precedes;
    NewerSays(a, b);
    NewerSays(b, a);
  }

  lemma NotBefore(s: string)
    ensures !Precedes(s, s)
  {
  }

  /** The order of one kind, put to any two values. */
  predicate NewerAs(sequenced: bool, a: Value, b: Value) {
    IsNewer(a.(sequenceBased := sequenced), b.(sequenceBased := sequenced))
  }

  lemma KindOrder(sequenced: bool, a: Value, b: Value, c: Value)
    ensures !NewerAs(sequenced, a, b) || !NewerAs(sequenced, b, a)
    ensures !NewerAs(sequenced, a, b) && !NewerAs(sequenced, b, c) ==> !NewerAs(sequenced, a, c)
  {
    hide After;
    AfterOrder(a.fingerprint, b.fingerprint);
    AfterTransitive(a.fingerprint, b.fingerprint, c.fingerprint);
  }

  // ------------------------------------------------------------------ mixed kinds

  /** Issue time first, then fingerprint: how two values compare when either is not sequence-based. */
  predicate Later(a: Value, b: Value) {
    a.issuedAt > b.issuedAt || (a.issuedAt == b.issuedAt && After(a.fingerprint, b.fingerprint))
  }

  /** c, which carries no sequence, was issued between two values whose sequences tie the other way round. */
  predicate Straddled(a: Value, b: Value, c: Value) {
    && a.version == b.version == c.version
    && a.sequenceBased && b.sequenceBased && !c.sequenceBased
    && After(a.fingerprint, b.fingerprint) && Later(b, c) && Later(c, a)
  }

  /** Three values can each be newer than the next, and exactly this is when. */
  lemma CyclicIff(a: Value, b: Value, c: Value)
    ensures IsNewer(a, b) && IsNewer(b, c) && IsNewer(c, a)
       <==> Straddled(a, b, c) || Straddled(b, c, a) || Straddled(c, a, b)
  {
    hide After;
    AfterOrder(a.fingerprint, b.fingerprint);
    AfterOrder(b.fingerprint, c.fingerprint);
    AfterOrder(c.fingerprint, a.fingerprint);
    AfterTransitive(a.fingerprint, b.fingerprint, c.fingerprint);
    AfterTransitive(b.fingerprint, c.fingerprint, a.fingerprint);
    AfterTransitive(c.fingerprint, a.fingerprint, b.fingerprint);
  }

  lemma CycleExists()
    ensures exists a, b, c :: IsNewer(a, b) && IsNewer(b, c) && IsNewer(c, a)
  {
    var a := Value("", true, "f", "2", 0, 0, 1, true, "", false, false);
    var b := a.(fingerprint := "1", issuedAt := 2);
    var c := a.(fingerprint := "3", issuedAt := 1, sequenceBased := false);
    assert Straddled(a, b, c);
    CyclicIff(a, b, c);
  }
}
