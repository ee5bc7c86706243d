/** What a set of reports amounts to, independently of the order in which they arrive. */
module Evidence {
  import opened Wire
  import opened Ordering
  import opened Values

  /** A peer that reported a value, how far it is trusted, and the lookup branch it was reached on. */
  datatype Source = Source(nodeId: string, addr: string, trust: int, branch: int)

  datatype Report = Report(source: Source, value: Value)

  /** Validation for one key at one time, and the address prefixes sources are grouped by; "" is none. */
  datatype Rules = Rules(check: string -> Option<Value>, blank: string -> bool,
                         provider: string -> string, asn: string -> string, network: string -> string)

  function WeightFor(r: Report): int {
    r.source.trust + (if r.value.enveloped then 1 else 0) + (if r.value.authoritative then 1 else 0)
  }

  /** A part of the reports: a family, one value of it, or one unverified value. */
  datatype Part = Family(family: string) | Exact(family: string, fingerprint: string) | Unverified(fingerprint: string)

  predicate Within(part: Part, r: Report) {
    match part
    case Family(f) => r.value.verified && r.value.family == f
    case Exact(f, fp) => r.value.verified && r.value.family == f && r.value.fingerprint == fp
    case Unverified(fp) => !r.value.verified && r.value.fingerprint == fp
  }

  ghost function Sources(reports: seq<Report>, part: Part): set<string> {
    set r | r in reports && Within(part, r) :: r.source.nodeId
  }

  ghost function Networks(rules: Rules, reports: seq<Report>, part: Part): set<string> {
    set r | r in reports && Within(part, r) && rules.network(r.source.addr) != "" :: rules.network(r.source.addr)
  }

  ghost function Providers(rules: Rules, reports: seq<Report>, part: Part): set<string> {
    set r | r in reports && Within(part, r) && rules.provider(r.source.addr) != "" :: rules.provider(r.source.addr)
  }

  ghost function Asns(rules: Rules, reports: seq<Report>, part: Part): set<string> {
    set r | r in reports && Within(part, r) && rules.asn(r.source.addr) != "" :: rules.asn(r.source.addr)
  }

  ghost function Branches(reports: seq<Report>, part: Part): set<int> {
    set r | r in reports && Within(part, r) && r.source.branch >= 0 :: r.source.branch
  }

  ghost function Publishers(reports: seq<Report>, part: Part): set<string> {
    set r | r in reports && Within(part, r) && r.value.publisher != "" :: r.value.publisher
  }

  function Weight(reports: seq<Report>, part: Part): int {
    if reports == [] then 0
    else
      var last := reports[|reports| - 1];
      Weight(reports[..|reports| - 1], part) + (if Within(part, last) then WeightFor(last) else 0)
  }

  ghost function ValuesOf(reports: seq<Report>): set<Value> {
    set r | r in reports :: r.value
  }

  ghost function Families(reports: seq<Report>): set<string> {
    set r | r in reports && r.value.verified :: r.value.family
  }

  ghost function Fingerprints(reports: seq<Report>): set<string> {
    set r | r in reports && !r.value.verified :: r.value.fingerprint
  }

  /** Every source reports once. */
  ghost predicate OnceEach(reports: seq<Report>) {
    forall i, j :: 0 <= i < j < |reports| ==> reports[i].source.nodeId != reports[j].source.nodeId
  }

  /** v is a newest value of its family among the reports. */
  ghost predicate Newest(reports: seq<Report>, v: Value) {
    && (exists r :: r in reports && r.value == v)
    && v.verified
    && (forall r <- reports :: Within(Family(v.family), r) ==> !IsNewer(r.value, v))
  }

  /** The i-th report was as new as anything before it when it came in. */
  ghost predicate Leads(reports: seq<Report>, family: string, i: nat)
    requires i < |reports|
  {
    && Within(Family(family), reports[i])
    && forall j :: 0 <= j < i && Within(Family(family), reports[j]) ==> !IsNewer(reports[j].value, reports[i].value)
  }

  // ------------------------------------------------------------- one more report

  lemma SourcesSnoc(reports: seq<Report>, r: Report, part: Part)
    ensures Sources(reports + [r], part) == Sources(reports, part) + (if Within(part, r) then {r.source.nodeId} else {})
    ensures Branches(reports + [r], part)
         == Branches(reports, part) + (if Within(part, r) && r.source.branch >= 0 then {r.source.branch} else {})
    ensures Publishers(reports + [r], part)
         == Publishers(reports, part) + (if Within(part, r) && r.value.publisher != "" then {r.value.publisher} else {})
    ensures Weight(reports + [r], part) == Weight(reports, part) + (if Within(part, r) then WeightFor(r) else 0)
  {
    hide Within;
    assert (reports + [r])[..|reports|] == reports;
  }

  lemma NetworksSnoc(rules: Rules, reports: seq<Report>, r: Report, part: Part)
    ensures var n := rules.network(r.source.addr);
      Networks(rules, reports + [r], part) == Networks(rules, reports, part) + (if Within(part, r) && n != "" then {n} else {})
    ensures var p := rules.provider(r.source.addr);
      Providers(rules, reports + [r], part) == Providers(rules, reports, part) + (if Within(part, r) && p != "" then {p} else {})
    ensures var a := rules.asn(r.source.addr);
      Asns(rules, reports + [r], part) == Asns(rules, reports, part) + (if Within(part, r) && a != "" then {a} else {})
  {
    hide Within;
  }

  lemma NothingThere(rules: Rules, reports: seq<Report>, part: Part)
    requires forall r <- reports :: !Within(part, r)
    ensures Sources(reports, part) == {} && Branches(reports, part) == {} && Publishers(reports, part) == {}
    ensures Networks(rules, reports, part) == {} && Providers(rules, reports, part) == {} && Asns(rules, reports, part) == {}
    ensures Weight(reports, part) == 0
  {
    hide Within;
    NoWeight(reports, part);
  }

  lemma {:induction false} NoWeight(reports: seq<Report>, part: Part)
    requires forall r <- reports :: !Within(part, r)
    ensures Weight(reports, part) == 0
  {
    hide Within;
    if reports != [] {
      NoWeight(reports[..|reports| - 1], part);
    }
  }

  lemma UniformPrefix(reports: seq<Report>, r: Report)
    requires Uniform(ValuesOf(reports + [r]))
    ensures Uniform(ValuesOf(reports))
    ensures forall q <- reports :: q.value in ValuesOf(reports + [r])
    ensures r.value in ValuesOf(reports + [r])
  {
    assert ValuesOf(reports) <= ValuesOf(reports + [r]);
    forall q <- reports
      ensures q.value in ValuesOf(reports + [r])
    {
      assert q in reports + [r];
    }
    assert r in reports + [r];
  }

  // ------------------------------------------------------------- order is nothing

  lemma {:induction false} WeightPermuted(a: seq<Report>, b: seq<Report>, part: Part)
    requires multiset(a) == multiset(b)
    ensures Weight(a, part) == Weight(b, part)
    decreases |a|
  {
    hide Within;
    if a == [] {
      assert |multiset(b)| == 0;
    } else {
      var i := TakeLast(a, b);
      WeightPermuted(a[..|a| - 1], b[..i] + b[i + 1..], part);
      WeightWithout(b[..i], b[i], b[i + 1..], part);
      assert b == b[..i] + [b[i]] + b[i + 1..];
    }
  }

  lemma {:induction false} WeightWithout(left: seq<Report>, r: Report, right: seq<Report>, part: Part)
    ensures Weight(left + [r] + right, part) == Weight(left + right, part) + (if Within(part, r) then WeightFor(r) else 0)
    decreases |right|
  {
    hide Within;
    if right == [] {
      assert left + [r] + right == left + [r] && left + right == left;
      assert (left + [r])[..|left|] == left;
    } else {
      var front, last := right[..|right| - 1], right[|right| - 1];
      WeightWithout(left, r, front, part);
      assert (left + [r] + right)[..|left| + |right|] == left + [r] + front;
      assert (left + right)[..|left| + |right| - 1] == left + front;
    }
  }

  lemma PartPermuted(rules: Rules, a: seq<Report>, b: seq<Report>, part: Part)
    requires multiset(a) == multiset(b)
    ensures Sources(a, part) == Sources(b, part) && Branches(a, part) == Branches(b, part)
    ensures Publishers(a, part) == Publishers(b, part) && Weight(a, part) == Weight(b, part)
    ensures Networks(rules, a, part) == Networks(rules, b, part) && Providers(rules, a, part) == Providers(rules, b, part)
    ensures Asns(rules, a, part) == Asns(rules, b, part)
  {
    hide Within;
    SameElements(a, b);
    WeightPermuted(a, b, part);
  }

  /** All newest values of a family have one core. */
  lemma NewestUnique(a: seq<Report>, b: seq<Report>, v: Value, w: Value)
    requires multiset(a) == multiset(b) && Uniform(ValuesOf(a)) && Newest(a, v) && Newest(b, w) && v.family == w.family
    ensures CoreOf(v) == CoreOf(w)
  {
    hide IsNewer;
    SameElements(a, b);
    var p :| p in a && p.value == v;
    var q :| q in b && q.value == w;
    assert v in ValuesOf(a) && w in ValuesOf(a);
    NewerOrder(ValuesOf(a), v, w, v);
  }
}
