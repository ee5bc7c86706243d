/** One peer known under two records: when the voices behind a found value are different peers, and when not. */
module TwoRecords {
  import opened Wire
  import opened Routing
  import opened Lookup
  import opened Values
  import opened Evidence
  import opened Collector
  import opened Agreement
  import opened ValueLookup
  import Records

  /** Where a voice was asked; the store nowhere. */
  function Address(w: Walk, voice: Voice): Option<string> {
    if voice.Neighbour? && voice.id in w.known then Some(w.known[voice.id].addr) else None
  }

  /** No two known records share an address. */
  ghost predicate Apart(w: Walk) {
    forall a, b :: a in w.known && b in w.known && a != b ==> w.known[a].addr != w.known[b].addr
  }

  /** Then the voices behind a settled value are at different addresses. */
  lemma VouchersApart(q: Query, w: Walk, v: Value)
    requires Settles(q, w, v) && Apart(w)
    ensures exists a, b :: Vouches(q, w, a, v) && Vouches(q, w, b, v) && Address(w, a) != Address(w, b)
  {
    hide Says, IsNewer;
    var a, b :| a != b && Vouches(q, w, a, v) && Vouches(q, w, b, v);
    assert Address(w, a) != Address(w, b);
  }

  /** A peer is dialled at its address, so two records with one address get one answer. */
  ghost predicate ByAddress(world: World) {
    forall a: NodeInfo, b: NodeInfo :: a.addr == b.addr ==> world.net(a) == world.net(b)
  }

  /** Nobody but one peer has answered, once under each of two records, and its value carries a publisher's envelope. */
  ghost predicate Alone(q: Query, w: Walk, branches: map<string, int>, m: NodeInfo, n: NodeInfo, v: Value) {
    && ByAddress(q.world) && m.addr == n.addr && m.id != n.id
    && m.id in w.known && w.known[m.id] == m && n.id in w.known && w.known[n.id] == n
    && w.done == {m.id, n.id} && Reading(q.rules, q.stored).None?
    && Says(q, m) == Some(v) && v.verified && (v.enveloped || v.authoritative)
    && m.id in branches && n.id in branches && 0 <= branches[m.id] && 0 <= branches[n.id] && branches[m.id] != branches[n.id]
  }

  function ReportOf(n: NodeInfo, branches: map<string, int>, v: Value): Report
    requires n.id in branches
  {
    Report(Source(n.id, n.addr, 1, branches[n.id]), v)
  }

  lemma TwoReports(q: Query, w: Walk, branches: map<string, int>, reports: seq<Report>, m: NodeInfo, n: NodeInfo, v: Value)
    requires Alone(q, w, branches, m, n, v) && Gathered(q, w, branches, reports)
    ensures var x, y := ReportOf(m, branches, v), ReportOf(n, branches, v); reports == [x, y] || reports == [y, x]
  {
    hide Reading, IsNewer;
    var x, y := ReportOf(m, branches, v), ReportOf(n, branches, v);
    assert Says(q, n) == Says(q, m);
    assert Answer(q, w, Neighbour(m.id)) == Some(v) && Answer(q, w, Neighbour(n.id)) == Some(v);
    assert x in reports && y in reports;
    forall r <- reports
      ensures r == x || r == y
    {
      var voice :| Spoken(q, w, branches, voice, r);
    }
    JustTwo(reports, x, y);
  }

  lemma JustTwo(reports: seq<Report>, x: Report, y: Report)
    requires OnceEach(reports) && x in reports && y in reports && x.source.nodeId != y.source.nodeId
    requires forall r <- reports :: r == x || r == y
    ensures reports == [x, y] || reports == [y, x]
  {
    var i :| 0 <= i < |reports| && reports[i] == x;
    var j :| 0 <= j < |reports| && reports[j] == y;
    AtEither(reports, x, y, i, j, 0);
    AtEither(reports, x, y, i, j, 1);
    AtEither(reports, x, y, i, j, 2);
  }

  lemma AtEither(reports: seq<Report>, x: Report, y: Report, i: nat, j: nat, k: nat)
    requires OnceEach(reports) && forall r <- reports :: r == x || r == y
    requires i < |reports| && reports[i] == x && j < |reports| && reports[j] == y
    ensures k < |reports| ==> k == i || k == j
  {
    if k < |reports| {
      assert reports[k] in reports;
    }
  }

  /** What two reports of one value amount to. */
  lemma PairAmounts(a: seq<Report>, x: Report, y: Report, v: Value)
    requires (a == [x, y] || a == [y, x]) && x.value == y.value == v && v.verified && x.source.nodeId != y.source.nodeId
    requires x.source.branch >= 0 && y.source.branch >= 0
    ensures var part := Exact(v.family, v.fingerprint);
      && Sources(a, part) == {x.source.nodeId, y.source.nodeId} && Weight(a, part) == WeightFor(x) + WeightFor(y)
      && LeadBranches(a, v.family) == {x.source.branch, y.source.branch} && Families(a) == {v.family} && Uniform(ValuesOf(a))
  {
    AfterOrder(v.fingerprint, v.fingerprint);
    assert !IsNewer(v, v);
    hide IsNewer;
    var part := Exact(v.family, v.fingerprint);
    assert a[0] in a && a[1] in a && forall r <- a :: r == x || r == y;
    assert a[..1] == [a[0]] && [a[0]][..0] == [];
    assert Weight([a[0]], part) == WeightFor(a[0]);
    assert Leads(a, v.family, 0) && Leads(a, v.family, 1);
    assert ValuesOf(a) == {v};
  }

  /** Such a peer's value is found on its word alone. */
  lemma OnePeerConfirms(q: Query, r: LookupResult, collector: LookupCollector, w: Walk, branches: map<string, int>, rounds: nat, cut: bool,
                        m: NodeInfo, n: NodeInfo, v: Value)
    requires Looked(q, w, branches, rounds, cut, collector) && Ends(r, collector, w, cut) && !cut
    requires Alone(q, w, branches, m, n, v)
    ensures r.outcome == Agreement.Found && r.verified && r.value == v.raw
  {
    hide Gathered, Consistent, Branched, Rejections, Stopped, Alone, Confirmed, Families, Fingerprints, Uniform, OnceEach;
    var reports := collector.reports;
    TwoReports(q, w, branches, reports, m, n, v);
    OncePerVoice(q, w, branches, reports);
    var x, y := ReportAt(q, w, branches, m, n, v);
    PairAmounts(reports, x, y, v);
    PairConfirmed(collector, reports, x, y, v);
    var c :| collector.Resolved(c) && r == Overall(c, |w.asked|, Unasked(w), w.failures);
    assert |{v.family}| == 1;
    var f :| collector.Concludes(f, c);
    assert f == v.family;
  }

  lemma ReportAt(q: Query, w: Walk, branches: map<string, int>, m: NodeInfo, n: NodeInfo, v: Value) returns (x: Report, y: Report)
    requires Alone(q, w, branches, m, n, v)
    ensures m.id in branches && n.id in branches && x == ReportOf(m, branches, v) && y == ReportOf(n, branches, v)
    ensures v.verified && x.source.nodeId != y.source.nodeId && x.source.branch != y.source.branch
    ensures x.source.branch >= 0 && y.source.branch >= 0 && WeightFor(x) + WeightFor(y) >= MIN_SCORE
  {
    x, y := ReportOf(m, branches, v), ReportOf(n, branches, v);
  }

  lemma PairConfirmed(collector: LookupCollector, reports: seq<Report>, x: Report, y: Report, v: Value)
    requires collector.Valid() && collector.reports == reports && OnceEach(reports) && Uniform(ValuesOf(reports))
    requires (reports == [x, y] || reports == [y, x]) && x.value == y.value == v && v.verified
    requires x.source.nodeId != y.source.nodeId && x.source.branch != y.source.branch && WeightFor(x) + WeightFor(y) >= MIN_SCORE
    requires var part := Exact(v.family, v.fingerprint);
      && Sources(reports, part) == {x.source.nodeId, y.source.nodeId} && Weight(reports, part) == WeightFor(x) + WeightFor(y)
      && LeadBranches(reports, v.family) == {x.source.branch, y.source.branch} && Families(reports) == {v.family}
    ensures collector.verified.Keys == {v.family} && Confirmed(collector.verified[v.family]) && collector.verified[v.family].value == v
  {
    hide Sources, Weight, LeadBranches, Families, Fingerprints, Uniform, OnceEach, Networks, Providers, Asns, Branches, Publishers,
         LeadProviders, LeadAsns, Backed, IsNewer;
    var o := collector.verified[v.family];
    assert Summarises(collector.rules, o, reports, v.family);
    var own :| own in reports && own.value == o.value;
    assert own == x || own == y;
    assert |o.exactSources| == |o.exactSources.Keys| == |{x.source.nodeId, y.source.nodeId}| == 2;
    assert |{x.source.branch, y.source.branch}| == 2;
  }

  // -------------------------------------------------------------------- the input

  /** A configured peer stands in a client's table as a seed and under its own ID. */
  function Configured(addr: string, id: string, stamp: Records.EndpointRecord): (NodeInfo, NodeInfo) {
    (NodeInfo("seed:" + addr, "", "", addr, stamp), NodeInfo(id, "", "", addr, stamp))
  }

  /** Nothing but that peer around, answering a text and no referrals. */
  function Lonely(space: Space, target: Target, m: NodeInfo, n: NodeInfo, text: string): World {
    World(space, target, Limits(1, 2, 2), [Seed(m, true, false), Seed(n, true, false)], [], (_: NodeInfo) => Answered([], text))
  }

  /** The walk that has asked both. */
  function Both(m: NodeInfo, n: NodeInfo): Walk {
    Walk(map[m.id := m, n.id := n], [m.id, n.id], {m.id, n.id}, 0, [])
  }

  lemma LonelyWalk(space: Space, target: Target, m: NodeInfo, n: NodeInfo, text: string)
    requires m.id != n.id
    ensures var world := Lonely(space, target, m, n, text);
      Consistent(world, Both(m, n)) && ByAddress(world) && forall x :: Mentioned(world, x) ==> x == m || x == n
  {
    var world, w := Lonely(space, target, m, n, text), Both(m, n);
    assert world.seeds[0] in world.seeds && world.seeds[1] in world.seeds;
    assert Seeded(world, m) && Seeded(world, n);
    assert forall from, x :: !Refers(world, from, x);
    hide Refers, Seeded;
    assert Rooted(world, w, 0) && Rooted(world, w, 1);
  }

  /** In such a world, where the walk has asked the peer under both records, it is alone. */
  lemma SeedCountsTwice(space: Space, target: Target, rules: Rules, self: string, addr: string, id: string, stamp: Records.EndpointRecord, text: string)
    requires id != "" && id != "seed:" + addr && id != LOCAL + self
    requires Reading(rules, text).Some? && Reading(rules, text).value.verified
    requires Reading(rules, text).value.enveloped || Reading(rules, text).value.authoritative
    ensures var (m, n) := Configured(addr, id, stamp);
      var q, w := Query(Lonely(space, target, m, n, text), rules, self, ""), Both(m, n);
      var branches := map[m.id := 1, n.id := 2];
      && Nameable(q) && Consistent(q.world, w) && Branched(q, w, branches) && Unasked(w) == false && Contacted(q.world, w)
      && Alone(q, w, branches, m, n, Reading(rules, text).value)
  {
    hide Reading, Consistent, Mentioned, Refers;
    var (m, n) := Configured(addr, id, stamp);
    var q, w := Query(Lonely(space, target, m, n, text), rules, self, ""), Both(m, n);
    var branches := map[m.id := 1, n.id := 2];
    assert ("seed:" + addr)[0] == 's' && (LOCAL + self)[0] == 'l';
    LonelyWalk(space, target, m, n, text);
    assert Sprouts(q.world, m, 0) && Sprouts(q.world, n, 1);
    assert Explained(q, w, branches, m.id) && Explained(q, w, branches, n.id);
    BlankStore(rules);
  }

  lemma BlankStore(rules: Rules)
    ensures Reading(rules, "").None?
  {
  }
}
