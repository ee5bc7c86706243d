/** Which conclusions of the collector depend on the order of the reports, and which do not. */
module OrderFree {
  import opened Wire
  import opened Ordering
  import opened Values
  import opened Evidence
  import opened Collector
  import opened Agreement

  /** Two observations that agree on everything the order of arrival cannot touch. */
  ghost predicate Same(o: Observation, p: Observation) {
    && CoreOf(o.value) == CoreOf(p.value)
    && o.sources.Keys == p.sources.Keys && o.networks == p.networks && o.providers == p.providers && o.asns == p.asns && o.branches == p.branches
    && o.exactSources == p.exactSources && o.exactNetworks == p.exactNetworks && o.publishers == p.publishers
    && o.exactWeight == p.exactWeight
  }

  /** Whatever order the same reports come in, the collector keeps the same value and the same support for it. */
  lemma VerifiedOrderFree(rules: Rules, a: seq<Report>, b: seq<Report>, family: string, o: Observation, p: Observation)
    requires multiset(a) == multiset(b) && Uniform(ValuesOf(a)) && OnceEach(a)
    requires Summarises(rules, o, a, family) && Summarises(rules, p, b, family)
    ensures Same(o, p)
  {
    hide Sources, Branches, Networks, Providers, Asns, Publishers, Weight, Newest, Trail, Uniform, OnceEach, Backed;
    NewestUnique(a, b, o.value, p.value);
    PartPermuted(rules, a, b, Family(family));
    PartPermuted(rules, a, b, Exact(family, o.value.fingerprint));
    SameSources(a, b, o, p, Exact(family, o.value.fingerprint));
  }

  lemma SameSources(a: seq<Report>, b: seq<Report>, o: Observation, p: Observation, part: Part)
    requires multiset(a) == multiset(b) && OnceEach(a) && Backed(o, a, part) && Backed(p, b, part)
    requires o.exactSources.Keys == p.exactSources.Keys
    ensures o.exactSources == p.exactSources
  {
    hide Within;
    SameElements(a, b);
    forall id | id in o.exactSources
      ensures o.exactSources[id] == p.exactSources[id]
    {
      assert id in p.exactSources;
      var r :| r in a && Within(part, r) && r.source == o.exactSources[id] && r.source.nodeId == id;
      var q :| q in b && Within(part, q) && q.source == p.exactSources[id] && q.source.nodeId == id;
      assert q in a;
      var i :| 0 <= i < |a| && a[i] == r;
      var j :| 0 <= j < |a| && a[j] == q;
      assert !(i < j) && !(j < i);
    }
  }

  /** For unverified values the winner, too, is the same in any order. */
  lemma RawOrderFree(rules: Rules, a: seq<Report>, b: seq<Report>, raw: map<string, Observation>, raw': map<string, Observation>, fp: string)
    requires multiset(a) == multiset(b) && OnceEach(a)
    requires raw.Keys == Fingerprints(a) && raw'.Keys == Fingerprints(b) && fp in raw
    requires forall x :: x in raw ==> SummarisesRaw(rules, raw[x], a, x)
    requires forall x :: x in raw' ==> SummarisesRaw(rules, raw'[x], b, x)
    requires forall x :: x in raw && x != fp ==> Stronger(raw[fp], raw[x])
    ensures fp in raw' && raw'[fp].exactSources == raw[fp].exactSources && raw'[fp].exactWeight == raw[fp].exactWeight
    ensures forall x :: x in raw' && x != fp ==> Stronger(raw'[fp], raw'[x])
  {
    hide SummarisesRaw, Stronger, Fingerprints;
    SamePrints(a, b);
    RawSame(rules, a, b, raw[fp], raw'[fp], fp);
    forall x | x in raw' && x != fp
      ensures Stronger(raw'[fp], raw'[x])
    {
      RawSame(rules, a, b, raw[x], raw'[x], x);
      StrengthSame(raw[fp], raw'[fp], raw[x], raw'[x]);
    }
  }

  lemma SamePrints(a: seq<Report>, b: seq<Report>)
    requires multiset(a) == multiset(b)
    ensures Fingerprints(a) == Fingerprints(b) && Families(a) == Families(b)
  {
    SameElements(a, b);
  }

  ghost predicate AsStrong(o: Observation, p: Observation) {
    && o.value.fingerprint == p.value.fingerprint && o.exactSources == p.exactSources && o.exactWeight == p.exactWeight
    && o.exactProviders == p.exactProviders && o.exactNetworks == p.exactNetworks
  }

  lemma RawSame(rules: Rules, a: seq<Report>, b: seq<Report>, o: Observation, p: Observation, fp: string)
    requires multiset(a) == multiset(b) && OnceEach(a) && SummarisesRaw(rules, o, a, fp) && SummarisesRaw(rules, p, b, fp)
    ensures AsStrong(o, p)
  {
    hide Sources, Branches, Networks, Providers, Asns, Publishers, Weight, OnceEach, Backed;
    PartPermuted(rules, a, b, Unverified(fp));
    SameSources(a, b, o, p, Unverified(fp));
  }

  lemma StrengthSame(o: Observation, o': Observation, p: Observation, p': Observation)
    requires AsStrong(o, o') && AsStrong(p, p')
    ensures Stronger(o, p) <==> Stronger(o', p')
  {
  }

  // ----------------------------------------------------------- what Found means

  /**
   * A verified value is found only if the reports name one family, the value is the newest of
   * it, and at least two sources of total weight four or more reported exactly that value.
   */
  lemma VerifiedFound(rules: Rules, verified: map<string, Observation>, raw: map<string, Observation>, reports: seq<Report>, f: string)
    requires Keyed(verified, raw, reports) && Summed(rules, verified, raw, reports)
    requires verified.Keys == {f} && Confirmed(verified[f])
    ensures var v := verified[f].value;
      && Families(reports) == {f} && Newest(reports, v)
      && (exists r, q :: Concur(reports, Exact(f, v.fingerprint), r, q))
      && Weight(reports, Exact(f, v.fingerprint)) >= MIN_SCORE
  {
    hide Weight, Networks, Publishers, Trail, Broad, Newest;
    var o := verified[f];
    var part := Exact(f, o.value.fingerprint);
    assert Summarises(rules, o, reports, f) && o.value.verified;
    assert |o.exactSources.Keys| >= 2;
    var x, y := TwoOf(o.exactSources.Keys);
    var r :| r in reports && Within(part, r) && r.source.nodeId == x;
    var q :| q in reports && Within(part, q) && q.source.nodeId == y;
    assert Concur(reports, part, r, q);
  }

  /** Two different sources made reports within the part. */
  ghost predicate Concur(reports: seq<Report>, part: Part, r: Report, q: Report) {
    r in reports && q in reports && r.source.nodeId != q.source.nodeId && Within(part, r) && Within(part, q)
  }

  lemma TwoOf<T>(s: set<T>) returns (x: T, y: T)
    requires |s| >= 2
    ensures x in s && y in s && x != y
  {
    x :| x in s;
    var rest := s - {x};
    assert |rest| >= 1;
    y :| y in rest;
  }

  // ------------------------------------------------------ the branches that stay

  /** Branches on which the value kept was itself reported. */
  ghost function OwnBranches(reports: seq<Report>, v: Value): set<int> {
    Branches(reports, Exact(v.family, v.fingerprint))
  }

  /** Every report of the value kept was the newest when it came in. */
  lemma OwnLead(reports: seq<Report>, v: Value)
    requires Uniform(ValuesOf(reports)) && Newest(reports, v)
    ensures OwnBranches(reports, v) <= LeadBranches(reports, v.family)
  {
    hide IsNewer;
    var s := ValuesOf(reports);
    forall b | b in OwnBranches(reports, v)
      ensures b in LeadBranches(reports, v.family)
    {
      var r :| r in reports && Within(Exact(v.family, v.fingerprint), r) && r.source.branch >= 0 && r.source.branch == b;
      var i :| 0 <= i < |reports| && reports[i] == r;
      forall j | 0 <= j < i && Within(Family(v.family), reports[j])
        ensures !IsNewer(reports[j].value, r.value)
      {
        assert reports[j] in reports;
        var x :| x in reports && x.value == v;
        NewerOrder(s, r.value, v, v);
        NewerOrder(s, reports[j].value, v, r.value);
        NewerOrder(s, v, r.value, v);
      }
      assert Leads(reports, v.family, i);
    }
  }

  lemma LeadWithin(reports: seq<Report>, family: string)
    ensures LeadBranches(reports, family) <= Branches(reports, Family(family))
  {
    hide IsNewer;
    forall b | b in LeadBranches(reports, family)
      ensures b in Branches(reports, Family(family))
    {
      var i :| 0 <= i < |reports| && Leads(reports, family, i) && reports[i].source.branch >= 0 && reports[i].source.branch == b;
      assert reports[i] in reports;
    }
  }

  /** The collector's observation of a family after its reports, in the order given. */
  function Collected(rules: Rules, reports: seq<Report>): Observation
    requires reports != []
  {
    if |reports| == 1 then Take(rules, NewObservation(reports[0].value), reports[0])
    else Take(rules, Collected(rules, reports[..|reports| - 1]), reports[|reports| - 1])
  }

  /** Reports of one family and one kind, one from each source. */
  ghost predicate OneFamily(reports: seq<Report>, family: string) {
    && reports != [] && Uniform(ValuesOf(reports)) && OnceEach(reports)
    && forall r <- reports :: Within(Family(family), r)
  }

  lemma {:induction false} CollectedSummarises(rules: Rules, reports: seq<Report>, family: string)
    requires OneFamily(reports, family)
    ensures Summarises(rules, Collected(rules, reports), reports, family)
    decreases |reports|
  {
    hide Uniform, OnceEach, Summarises, Take;
    var n := |reports| - 1;
    var front, last := reports[..n], reports[n];
    assert reports == front + [last] && last in reports;
    if n == 0 {
      assert front == [] && Families(front) == {};
      FirstSummarises(rules, front, last);
    } else {
      UniformPrefix(front, last);
      OnceBefore(front, last);
      CollectedSummarises(rules, front, family);
      OfFamily(rules, Collected(rules, front), front, family);
      TakeSummarises(rules, Collected(rules, front), front, last);
    }
  }

  lemma OfFamily(rules: Rules, o: Observation, reports: seq<Report>, family: string)
    requires Summarises(rules, o, reports, family)
    ensures o.value.family == family && o.value.verified
  {
  }

  lemma OneFamilyPermuted(a: seq<Report>, b: seq<Report>, family: string)
    requires OneFamily(a, family) && multiset(a) == multiset(b)
    ensures OneFamily(b, family)
  {
    hide Uniform;
    SameElements(a, b);
    assert a[0] in b;
    assert ValuesOf(a) == ValuesOf(b);
    OncePermuted(a, b);
  }

  lemma OncePermuted(a: seq<Report>, b: seq<Report>)
    requires OnceEach(a) && multiset(a) == multiset(b)
    ensures OnceEach(b)
  {
    SameElements(a, b);
    assert NoRepeats(a) by {
      forall i, j | 0 <= i < j < |a|
        ensures a[i] != a[j]
      {
        assert a[i].source.nodeId != a[j].source.nodeId;
      }
    }
    NoRepeatsByCount(b, a);
    forall i, j | 0 <= i < j < |b|
      ensures b[i].source.nodeId != b[j].source.nodeId
    {
      assert b[i] in a && b[j] in a;
      var k :| 0 <= k < |a| && a[k] == b[i];
      var l :| 0 <= l < |a| && a[l] == b[j];
      assert b[i] != b[j];
    }
  }

  // --------------------------------------------------------- when it is confirmed

  /** Enough sources and weight for the value, whatever the branches. */
  ghost predicate Weighty(a: seq<Report>, v: Value) {
    |Sources(a, Exact(v.family, v.fingerprint))| >= MIN_SOURCES && Weight(a, Exact(v.family, v.fingerprint)) >= MIN_SCORE
  }

  /** What confirmation comes to for one order of arrival. */
  lemma ConfirmedIs(rules: Rules, a: seq<Report>, v: Value, b: seq<Report>)
    requires OneFamily(a, v.family) && Newest(a, v) && b != [] && multiset(a) == multiset(b)
    ensures Confirmed(Collected(rules, b)) <==>
      Weighty(a, v) && (OnlyLoopback(Networks(rules, a, Exact(v.family, v.fingerprint))) || |LeadBranches(b, v.family)| >= MIN_BRANCHES)
  {
    hide Sources, Networks, Weight, LeadBranches, OneFamily, Collected, OnlyLoopback, Newest, Broad, Backed;
    OneFamilyPermuted(a, b, v.family);
    CollectedSummarises(rules, b, v.family);
    var o := Collected(rules, b);
    SameCore(rules, a, v, b, o);
    PartPermuted(rules, a, b, Exact(v.family, v.fingerprint));
    OfFamily(rules, o, b, v.family);
    assert |o.exactSources| == |o.exactSources.Keys|;
  }

  lemma SameCore(rules: Rules, a: seq<Report>, v: Value, b: seq<Report>, o: Observation)
    requires OneFamily(a, v.family) && Newest(a, v) && multiset(a) == multiset(b) && Summarises(rules, o, b, v.family)
    ensures o.value.fingerprint == v.fingerprint
  {
    hide Newest;
    NewestUnique(a, b, v, o.value);
  }

  lemma LeadBetween(a: seq<Report>, v: Value, b: seq<Report>)
    requires OneFamily(a, v.family) && Newest(a, v) && multiset(a) == multiset(b)
    ensures OwnBranches(a, v) <= LeadBranches(b, v.family) <= Branches(a, Family(v.family))
  {
    hide LeadBranches, Branches;
    SameElements(a, b);
    assert ValuesOf(a) == ValuesOf(b);
    assert Newest(b, v) by {
      var r :| r in a && r.value == v;
      assert r in b;
    }
    var rules := Rules(_ => None, _ => false, _ => "", _ => "", _ => "");
    PartPermuted(rules, a, b, Exact(v.family, v.fingerprint));
    PartPermuted(rules, a, b, Family(v.family));
    OwnLead(b, v);
    LeadWithin(b, v.family);
  }

  // ------------------------------------------------- the two extreme orders

  function OlderFirst(sequenced: bool): (Report, Report) -> bool {
    (x: Report, y: Report) => !NewerAs(sequenced, x.value, y.value)
  }

  function NewerFirst(sequenced: bool): (Report, Report) -> bool {
    (x: Report, y: Report) => !NewerAs(sequenced, y.value, x.value)
  }

  lemma AgeRanks(sequenced: bool)
    ensures Ranking(OlderFirst(sequenced)) && Ranking(NewerFirst(sequenced))
  {
    hide NewerAs;
    forall x: Report, y: Report
      ensures !NewerAs(sequenced, x.value, y.value) || !NewerAs(sequenced, y.value, x.value)
    {
      KindOrder(sequenced, x.value, y.value, y.value);
    }
    forall x: Report, y: Report, z: Report | !NewerAs(sequenced, x.value, y.value) && !NewerAs(sequenced, y.value, z.value)
      ensures !NewerAs(sequenced, x.value, z.value)
    {
      KindOrder(sequenced, x.value, y.value, z.value);
    }
  }

  lemma KindIs(reports: seq<Report>, sequenced: bool, x: Report, y: Report)
    requires Uniform(ValuesOf(reports)) && reports != [] && reports[0].value.sequenceBased == sequenced && x in reports && y in reports
    ensures NewerAs(sequenced, x.value, y.value) == IsNewer(x.value, y.value)
  {
    assert reports[0] in reports;
    assert x.value in ValuesOf(reports) && y.value in ValuesOf(reports) && reports[0].value in ValuesOf(reports);
    assert x.value.(sequenceBased := sequenced) == x.value && y.value.(sequenceBased := sequenced) == y.value;
  }

  /** Oldest first, every report leads when it comes in. */
  lemma OldestFirst(a: seq<Report>, family: string) returns (b: seq<Report>)
    requires OneFamily(a, family)
    ensures multiset(b) == multiset(a) && LeadBranches(b, family) == Branches(a, Family(family))
  {
    hide IsNewer, NewerAs, Sort, Ranking, Uniform;
    var kind := a[0].value.sequenceBased;
    var le := OlderFirst(kind);
    b := Sort(le, a);
    AgeRanks(kind);
    SortSorts(le, a);
    SameElements(b, a);
    LeadWithin(b, family);
    forall i | 0 <= i < |b|
      ensures Leads(b, family, i)
    {
      assert b[i] in a;
      forall j | 0 <= j < i
        ensures !IsNewer(b[j].value, b[i].value)
      {
        assert le(b[j], b[i]) && b[j] in a;
        KindIs(a, kind, b[j], b[i]);
      }
    }
    AllLead(a, b, family);
  }

  lemma AllLead(a: seq<Report>, b: seq<Report>, family: string)
    requires multiset(a) == multiset(b) && forall i :: 0 <= i < |b| ==> Leads(b, family, i)
    ensures LeadBranches(b, family) == Branches(a, Family(family))
  {
    hide Leads;
    LeadWithin(b, family);
    SameElements(a, b);
    forall x | x in Branches(a, Family(family))
      ensures x in LeadBranches(b, family)
    {
      var r :| r in a && Within(Family(family), r) && r.source.branch >= 0 && r.source.branch == x;
      assert r in b;
      var i :| 0 <= i < |b| && b[i] == r;
      assert Leads(b, family, i);
    }
    assert Branches(a, Family(family)) == Branches(b, Family(family));
  }

  /** Newest first, nothing but the value kept ever leads. */
  lemma NewestFirst(a: seq<Report>, v: Value) returns (b: seq<Report>)
    requires OneFamily(a, v.family) && Newest(a, v)
    ensures multiset(b) == multiset(a) && LeadBranches(b, v.family) == OwnBranches(a, v)
  {
    hide IsNewer, NewerAs, Sort, Ranking, Uniform, Leads;
    var kind := a[0].value.sequenceBased;
    var le := NewerFirst(kind);
    b := Sort(le, a);
    AgeRanks(kind);
    SortSorts(le, a);
    SameElements(b, a);
    LeadBetween(a, v, b);
    var r :| r in a && r.value == v;
    var k :| 0 <= k < |b| && b[k] == r;
    forall i | 0 <= i < |b| && Leads(b, v.family, i)
      ensures b[i].value.fingerprint == v.fingerprint
    {
      assert b[i] in a;
      LeaderIsNewest(a, b, v, kind, i, k);
    }
    forall x | x in LeadBranches(b, v.family)
      ensures x in OwnBranches(a, v)
    {
      var i :| 0 <= i < |b| && Leads(b, v.family, i) && b[i].source.branch >= 0 && b[i].source.branch == x;
      assert b[i] in a;
    }
  }

  lemma LeaderIsNewest(a: seq<Report>, b: seq<Report>, v: Value, kind: bool, i: nat, k: nat)
    requires OneFamily(a, v.family) && Newest(a, v) && kind == a[0].value.sequenceBased && (forall r <- b :: r in a)
    requires Sorted(NewerFirst(kind), b) && i < |b| && k < |b| && b[k].value == v && Leads(b, v.family, i)
    ensures b[i].value.fingerprint == v.fingerprint
  {
    hide IsNewer, NewerAs, Uniform;
    var s := ValuesOf(a);
    assert b[i] in b && b[k] in b && b[i].value in s && v in s;
    NewerOrder(s, b[i].value, v, v);
    if i < k {
      assert NewerFirst(kind)(b[i], b[k]);
      KindIs(a, kind, b[k], b[i]);
    } else if k < i {
      assert !IsNewer(b[k].value, b[i].value);
    }
  }

  // ------------------------------------------------------ does the order matter

  ghost predicate Order(a: seq<Report>, b: seq<Report>) {
    b != [] && multiset(a) == multiset(b)
  }

  /**
   * Enough for the value but for its branches: it was itself reported on fewer than two, not
   * all over loopback, while reports of the family reached two.
   */
  ghost predicate Hanging(rules: Rules, a: seq<Report>, v: Value) {
    && Weighty(a, v) && !OnlyLoopback(Networks(rules, a, Exact(v.family, v.fingerprint)))
    && |OwnBranches(a, v)| < MIN_BRANCHES && |Branches(a, Family(v.family))| >= MIN_BRANCHES
  }

  /** Whether the reports confirm the value depends on their order exactly if the value is left hanging by its own branches. */
  lemma OrderMattersIff(rules: Rules, a: seq<Report>, v: Value)
    requires OneFamily(a, v.family) && Newest(a, v)
    ensures (forall b, c :: Order(a, b) && Order(a, c) ==> Confirmed(Collected(rules, b)) == Confirmed(Collected(rules, c)))
       <==> !Hanging(rules, a, v)
  {
    hide Weighty, OnlyLoopback, Networks, LeadBranches, Branches, Collected, Confirmed, OneFamily, Newest;
    if Hanging(rules, a, v) {
      var b, c := TwoMinds(rules, a, v);
      assert Order(a, b) && Order(a, c) && Confirmed(Collected(rules, b)) != Confirmed(Collected(rules, c));
    } else {
      forall b, c | Order(a, b) && Order(a, c)
        ensures Confirmed(Collected(rules, b)) == Confirmed(Collected(rules, c))
      {
        Settled(rules, a, v, b);
        Settled(rules, a, v, c);
      }
    }
  }

  /** Oldest first confirms a hanging value, newest first does not. */
  lemma TwoMinds(rules: Rules, a: seq<Report>, v: Value) returns (b: seq<Report>, c: seq<Report>)
    requires OneFamily(a, v.family) && Newest(a, v) && Hanging(rules, a, v)
    ensures Order(a, b) && Order(a, c) && Confirmed(Collected(rules, b)) && !Confirmed(Collected(rules, c))
  {
    hide Weighty, OnlyLoopback, Networks, LeadBranches, Branches, Collected, Confirmed, OneFamily, Newest;
    b := OldestFirst(a, v.family);
    c := NewestFirst(a, v);
    NonEmpty(a, b, v.family);
    NonEmpty(a, c, v.family);
    ConfirmedIs(rules, a, v, b);
    ConfirmedIs(rules, a, v, c);
  }

  /** Unless the value is left hanging, its own branches decide, or the family's fall short. */
  lemma Settled(rules: Rules, a: seq<Report>, v: Value, b: seq<Report>)
    requires OneFamily(a, v.family) && Newest(a, v) && Order(a, b) && !Hanging(rules, a, v)
    ensures Confirmed(Collected(rules, b)) <==>
      Weighty(a, v) && (OnlyLoopback(Networks(rules, a, Exact(v.family, v.fingerprint))) || |OwnBranches(a, v)| >= MIN_BRANCHES)
  {
    hide Weighty, OnlyLoopback, Networks, LeadBranches, Branches, Collected, Confirmed, OneFamily, Newest;
    ConfirmedIs(rules, a, v, b);
    LeadBetween(a, v, b);
    SubsetSize(OwnBranches(a, v), LeadBranches(b, v.family));
    SubsetSize(LeadBranches(b, v.family), Branches(a, Family(v.family)));
  }

  lemma NonEmpty(a: seq<Report>, b: seq<Report>, family: string)
    requires OneFamily(a, family) && multiset(a) == multiset(b)
    ensures b != []
  {
    assert a[0] in multiset(b);
  }

  /** Three reports that confirm in one order and not in another: the older one came on another branch. */
  lemma ConfirmationDependsOnOrder()
    ensures exists rules, a, b, c :: Order(a, b) && Order(a, c) && Confirmed(Collected(rules, b)) && !Confirmed(Collected(rules, c))
  {
    hide After, Collected, Confirmed, Order, OneFamily, Newest, Hanging;
    var rules := Rules(_ => None, _ => false, _ => "", _ => "", _ => "net");
    var older := Value("", true, "f", "1", 0, 0, 1, true, "", true, true);
    var newer := older.(fingerprint := "2", version := 2);
    var x, y, z := Report(Source("x", "", 1, 1), older), Report(Source("y", "", 1, 2), newer), Report(Source("z", "", 1, 2), newer);
    AfterOrder("2", "2");
    Hangs(rules, x, y, z);
    var b, c := TwoMinds(rules, [x, y, z], newer);
  }

  /** x carries an older value than y and z, on another branch; y and z agree on one branch. */
  ghost predicate Clash(rules: Rules, x: Report, y: Report, z: Report) {
    && x.source == Source("x", "", 1, 1) && y.source == Source("y", "", 1, 2) && z.source == Source("z", "", 1, 2)
    && y.value == z.value && x.value == y.value.(fingerprint := "1", version := 1) && y.value.fingerprint == "2" && y.value.version == 2
    && y.value.verified && y.value.enveloped && y.value.authoritative && !IsNewer(y.value, y.value)
    && forall addr :: rules.network(addr) == "net"
  }

  lemma Hangs(rules: Rules, x: Report, y: Report, z: Report)
    requires Clash(rules, x, y, z)
    ensures var a, v := [x, y, z], y.value; OneFamily(a, v.family) && Newest(a, v) && Hanging(rules, a, v)
  {
    hide After, Weight, Sources, Branches, Networks, Weighty, OnlyLoopback, Uniform;
    var a, v := [x, y, z], y.value;
    ThreeOf(x, y, z);
    ClashParts(rules, x, y, z);
    assert Uniform(ValuesOf(a)) by {
      ClashUniform(rules, x, y, z);
    }
    assert !IsNewer(x.value, v);
  }

  lemma ThreeOf<T>(x: T, y: T, z: T)
    ensures forall r :: r in [x, y, z] <==> r == x || r == y || r == z
  {
  }

  lemma ClashUniform(rules: Rules, x: Report, y: Report, z: Report)
    requires Clash(rules, x, y, z)
    ensures Uniform(ValuesOf([x, y, z]))
  {
    hide IsNewer;
    ThreeOf(x, y, z);
    assert ValuesOf([x, y, z]) <= {x.value, y.value};
  }

  lemma ClashParts(rules: Rules, x: Report, y: Report, z: Report)
    requires Clash(rules, x, y, z)
    ensures var a, v := [x, y, z], y.value;
      && Weighty(a, v) && !OnlyLoopback(Networks(rules, a, Exact(v.family, v.fingerprint)))
      && |OwnBranches(a, v)| == 1 && |Branches(a, Family(v.family))| == 2
  {
    hide IsNewer, Weight;
    var a, v := [x, y, z], y.value;
    var part := Exact(v.family, v.fingerprint);
    ThreeOf(x, y, z);
    ClashWeight(rules, x, y, z);
    assert y in a && z in a && x in a;
    assert Sources(a, part) == {"y", "z"};
    assert OwnBranches(a, v) == {2};
    assert Branches(a, Family(v.family)) == {1, 2};
    assert "net" in Networks(rules, a, part) && !Loopback("net");
  }

  lemma ClashWeight(rules: Rules, x: Report, y: Report, z: Report)
    requires Clash(rules, x, y, z)
    ensures Weight([x, y, z], Exact(y.value.family, y.value.fingerprint)) == 6
  {
    hide IsNewer;
    var part := Exact(y.value.family, y.value.fingerprint);
    assert [x, y, z][..2] == [x, y] && [x, y][..1] == [x] && [x][..0] == [];
    assert Weight([x], part) == 0 && Weight([x, y], part) == 3;
  }
}
