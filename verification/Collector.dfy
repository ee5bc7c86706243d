/** The collector: what it keeps of the reports for a key, and what it concludes from them. */
module Collector {
  import opened Values
  import opened Evidence

  const MIN_SOURCES := 2
  const MIN_SCORE := 4
  const MIN_BRANCHES := 2

  /** Everything gathered about one candidate value. */
  datatype Observation = Observation(
    value: Value, sources: map<string, Source>, exactSources: map<string, Source>,
    providers: set<string>, exactProviders: set<string>, asns: set<string>, exactAsns: set<string>,
    networks: set<string>, exactNetworks: set<string>, branches: set<int>, exactBranches: set<int>,
    publishers: set<string>, exactWeight: int)

  function NewObservation(value: Value): Observation {
    Observation(value, map[], map[], {}, {}, {}, {}, {}, {}, {}, {}, {}, 0)
  }

  function With(s: set<string>, x: string): set<string> {
    if x != "" then s + {x} else s
  }

  function WithBranch(s: set<int>, branch: int): set<int> {
    if branch >= 0 then s + {branch} else s
  }

  function AddSource(rules: Rules, o: Observation, source: Source): Observation {
    o.(sources := if source.nodeId in o.sources then o.sources else o.sources[source.nodeId := source],
       providers := With(o.providers, rules.provider(source.addr)),
       asns := With(o.asns, rules.asn(source.addr)),
       networks := With(o.networks, rules.network(source.addr)),
       branches := WithBranch(o.branches, source.branch))
  }

  function AddExactSource(rules: Rules, o: Observation, r: Report): Observation {
    var known := r.source.nodeId in o.exactSources;
    o.(exactSources := if known then o.exactSources else o.exactSources[r.source.nodeId := r.source],
       exactWeight := if known then o.exactWeight else o.exactWeight + WeightFor(r),
       exactProviders := With(o.exactProviders, rules.provider(r.source.addr)),
       exactAsns := With(o.exactAsns, rules.asn(r.source.addr)),
       exactNetworks := With(o.exactNetworks, rules.network(r.source.addr)),
       exactBranches := WithBranch(o.exactBranches, r.source.branch),
       publishers := With(o.publishers, r.value.publisher))
  }

  /** A newer value starts its evidence afresh, but for the branches, providers and autonomous systems. */
  function Supersede(o: Observation, value: Value): Observation {
    o.(value := value, exactSources := map[], exactNetworks := {}, publishers := {}, exactWeight := 0)
  }

  function Take(rules: Rules, o: Observation, r: Report): Observation {
    var added := AddSource(rules, o, r.source);
    var kept := if IsNewer(r.value, added.value) then Supersede(added, r.value) else added;
    if r.value.fingerprint == kept.value.fingerprint then AddExactSource(rules, kept, r) else kept
  }

  // ---------------------------------------------- what an observation stands for

  ghost predicate Broad(rules: Rules, o: Observation, reports: seq<Report>, part: Part) {
    && o.sources.Keys == Sources(reports, part) && o.branches == Branches(reports, part)
    && o.networks == Networks(rules, reports, part) && o.providers == Providers(rules, reports, part) && o.asns == Asns(rules, reports, part)
  }

  ghost predicate Backed(o: Observation, reports: seq<Report>, part: Part) {
    forall id :: id in o.exactSources ==> exists r :: r in reports && Within(part, r) && r.source == o.exactSources[id] && r.source.nodeId == id
  }

  ghost predicate Narrow(rules: Rules, o: Observation, reports: seq<Report>, part: Part) {
    && o.exactSources.Keys == Sources(reports, part) && Backed(o, reports, part)
    && o.exactNetworks == Networks(rules, reports, part) && o.publishers == Publishers(reports, part)
    && o.exactWeight == Weight(reports, part)
  }

  ghost function LeadBranches(reports: seq<Report>, family: string): set<int> {
    set i | 0 <= i < |reports| && Leads(reports, family, i) && reports[i].source.branch >= 0 :: reports[i].source.branch
  }

  ghost function LeadProviders(rules: Rules, reports: seq<Report>, family: string): set<string> {
    set i | 0 <= i < |reports| && Leads(reports, family, i) && rules.provider(reports[i].source.addr) != "" :: rules.provider(reports[i].source.addr)
  }

  ghost function LeadAsns(rules: Rules, reports: seq<Report>, family: string): set<string> {
    set i | 0 <= i < |reports| && Leads(reports, family, i) && rules.asn(reports[i].source.addr) != "" :: rules.asn(reports[i].source.addr)
  }

  ghost predicate Trail(rules: Rules, o: Observation, reports: seq<Report>, family: string) {
    && o.exactBranches == LeadBranches(reports, family)
    && o.exactProviders == LeadProviders(rules, reports, family) && o.exactAsns == LeadAsns(rules, reports, family)
  }

  ghost predicate Summarises(rules: Rules, o: Observation, reports: seq<Report>, family: string) {
    && Newest(reports, o.value) && o.value.family == family
    && Broad(rules, o, reports, Family(family)) && Narrow(rules, o, reports, Exact(family, o.value.fingerprint))
    && Trail(rules, o, reports, family)
  }

  ghost predicate SummarisesRaw(rules: Rules, o: Observation, reports: seq<Report>, fingerprint: string) {
    && !o.value.verified && o.value.fingerprint == fingerprint && (exists r :: r in reports && r.value == o.value)
    && Broad(rules, o, reports, Unverified(fingerprint)) && Narrow(rules, o, reports, Unverified(fingerprint))
    && o.exactProviders == Providers(rules, reports, Unverified(fingerprint))
  }

  // ------------------------------------------------------------ one more report

  lemma BroadStep(rules: Rules, o: Observation, reports: seq<Report>, r: Report, part: Part)
    requires Broad(rules, o, reports, part)
    ensures Within(part, r) ==> Broad(rules, AddSource(rules, o, r.source), reports + [r], part)
    ensures !Within(part, r) ==> Broad(rules, o, reports + [r], part)
  {
    hide Within, Sources, Branches, Networks, Providers, Asns, Publishers, Weight;
    SourcesSnoc(reports, r, part);
    NetworksSnoc(rules, reports, r, part);
  }

  lemma NotYet(reports: seq<Report>, r: Report, part: Part)
    requires OnceEach(reports + [r])
    ensures r.source.nodeId !in Sources(reports, part)
  {
    hide Within;
    forall q <- reports
      ensures q.source.nodeId != r.source.nodeId
    {
      var i :| 0 <= i < |reports| && reports[i] == q;
      assert (reports + [r])[i] == q && (reports + [r])[|reports|] == r;
    }
  }

  lemma NarrowStep(rules: Rules, o: Observation, reports: seq<Report>, r: Report, part: Part)
    requires Narrow(rules, o, reports, part) && OnceEach(reports + [r])
    ensures Within(part, r) ==> Narrow(rules, AddExactSource(rules, o, r), reports + [r], part)
    ensures !Within(part, r) ==> Narrow(rules, o, reports + [r], part)
  {
    hide Within, Sources, Branches, Networks, Providers, Asns, Publishers, Weight, OnceEach;
    SourcesSnoc(reports, r, part);
    NetworksSnoc(rules, reports, r, part);
    NotYet(reports, r, part);
    BackedStep(rules, o, reports, r, part);
  }

  lemma BackedStep(rules: Rules, o: Observation, reports: seq<Report>, r: Report, part: Part)
    requires Backed(o, reports, part)
    ensures Within(part, r) ==> Backed(AddExactSource(rules, o, r), reports + [r], part)
    ensures Backed(o, reports + [r], part)
  {
    hide Within;
    forall id | id in o.exactSources
      ensures exists q :: q in reports + [r] && Within(part, q) && q.source == o.exactSources[id] && q.source.nodeId == id
    {
      var q :| q in reports && Within(part, q) && q.source == o.exactSources[id] && q.source.nodeId == id;
      assert q in reports + [r];
    }
    assert r in reports + [r];
  }

  lemma NarrowFresh(rules: Rules, o: Observation, reports: seq<Report>, value: Value, part: Part)
    requires forall q <- reports :: !Within(part, q)
    ensures Narrow(rules, Supersede(o, value), reports, part)
  {
    hide Within, Sources, Networks, Publishers, Weight;
    NothingThere(rules, reports, part);
  }

  /** Whether a report is as new as anything so far shows in a comparison with the value kept. */
  lemma LeadsNow(reports: seq<Report>, r: Report, v: Value)
    requires Uniform(ValuesOf(reports + [r])) && Newest(reports, v) && Within(Family(v.family), r)
    ensures Leads(reports + [r], v.family, |reports|) <==> !IsNewer(v, r.value)
    ensures IsNewer(v, r.value) ==> r.value.fingerprint != v.fingerprint
    ensures !IsNewer(v, r.value) && !IsNewer(r.value, v) ==> r.value.fingerprint == v.fingerprint
    ensures Newest(reports + [r], if IsNewer(r.value, v) then r.value else v)
  {
    hide IsNewer;
    var all, s := reports + [r], ValuesOf(reports + [r]);
    UniformPrefix(reports, r);
    assert all[|reports|] == r && r in all;
    var q :| q in reports && q.value == v;
    assert q in all;
    NewerOrder(s, v, r.value, v);
    NewerOrder(s, r.value, v, r.value);
    forall j | 0 <= j < |reports| && Within(Family(v.family), reports[j])
      ensures !IsNewer(v, r.value) ==> !IsNewer(reports[j].value, r.value)
    {
      assert reports[j] in reports;
      NewerOrder(s, reports[j].value, v, r.value);
    }
    if !IsNewer(v, r.value) {
      forall j | 0 <= j < |reports| && Within(Family(v.family), all[j])
        ensures !IsNewer(all[j].value, all[|reports|].value)
      {
        assert all[j] == reports[j];
      }
    } else {
      var j :| 0 <= j < |reports| && reports[j] == q;
      assert all[j] == q;
    }
    forall x <- all | Within(Family(v.family), x)
      ensures !IsNewer(x.value, if IsNewer(r.value, v) then r.value else v)
    {
      if x in reports {
        NewerOrder(s, x.value, v, r.value);
      }
    }
  }

  lemma LeadsBefore(reports: seq<Report>, r: Report, family: string, i: nat)
    requires i < |reports|
    ensures Leads(reports + [r], family, i) == Leads(reports, family, i)
  {
    hide IsNewer, Within;
    var all := reports + [r];
    assert forall j :: 0 <= j <= i ==> all[j] == reports[j];
  }

  lemma TrailSnoc(rules: Rules, reports: seq<Report>, r: Report, family: string)
    ensures var b := r.source.branch;
      LeadBranches(reports + [r], family)
      == LeadBranches(reports, family) + (if Leads(reports + [r], family, |reports|) && b >= 0 then {b} else {})
    ensures var p := rules.provider(r.source.addr);
      LeadProviders(rules, reports + [r], family)
      == LeadProviders(rules, reports, family) + (if Leads(reports + [r], family, |reports|) && p != "" then {p} else {})
    ensures var a := rules.asn(r.source.addr);
      LeadAsns(rules, reports + [r], family)
      == LeadAsns(rules, reports, family) + (if Leads(reports + [r], family, |reports|) && a != "" then {a} else {})
  {
    hide Leads;
    var all := reports + [r];
    forall i | 0 <= i < |reports|
      ensures Leads(all, family, i) == Leads(reports, family, i) && all[i] == reports[i]
    {
      LeadsBefore(reports, r, family, i);
    }
    assert all[|reports|] == r;
  }

  lemma TakeSummarises(rules: Rules, o: Observation, reports: seq<Report>, r: Report)
    requires Summarises(rules, o, reports, o.value.family) && Within(Family(o.value.family), r)
    requires Uniform(ValuesOf(reports + [r])) && OnceEach(reports + [r])
    ensures Summarises(rules, Take(rules, o, r), reports + [r], o.value.family)
  {
    hide Sources, Branches, Networks, Providers, Asns, Publishers, Weight, OnceEach, Newest, IsNewer, Leads,
         LeadBranches, LeadProviders, LeadAsns, Uniform, Backed;
    var f := o.value.family;
    var added := AddSource(rules, o, r.source);
    LeadsNow(reports, r, o.value);
    BroadStep(rules, o, reports, r, Family(f));
    TrailSnoc(rules, reports, r, f);
    if IsNewer(r.value, o.value) {
      Superseding(reports, r, o.value);
      NarrowFresh(rules, added, reports, r.value, Exact(f, r.value.fingerprint));
      NarrowStep(rules, Supersede(added, r.value), reports, r, Exact(f, r.value.fingerprint));
    } else {
      BackedSame(o, added, reports, Exact(f, o.value.fingerprint));
      NarrowStep(rules, added, reports, r, Exact(f, o.value.fingerprint));
    }
  }

  lemma BackedSame(o: Observation, o': Observation, reports: seq<Report>, part: Part)
    requires Backed(o, reports, part) && o'.exactSources == o.exactSources
    ensures Backed(o', reports, part)
  {
  }

  /** No earlier report carried a value newer than the one kept. */
  lemma Superseding(reports: seq<Report>, r: Report, v: Value)
    requires Uniform(ValuesOf(reports + [r])) && Newest(reports, v) && Within(Family(v.family), r) && IsNewer(r.value, v)
    ensures forall q <- reports :: !Within(Exact(v.family, r.value.fingerprint), q)
    ensures !IsNewer(v, r.value)
  {
    hide IsNewer;
    UniformPrefix(reports, r);
    var s := ValuesOf(reports + [r]);
    var x :| x in reports && x.value == v;
    NewerOrder(s, r.value, v, r.value);
    forall q <- reports
      ensures !Within(Exact(v.family, r.value.fingerprint), q)
    {
      if Within(Exact(v.family, r.value.fingerprint), q) {
        NewerOrder(s, q.value, r.value, v);
        NewerOrder(s, r.value, q.value, v);
      }
    }
  }

  /** A first report makes an observation of its own. */
  lemma FirstSummarises(rules: Rules, reports: seq<Report>, r: Report)
    requires r.value.verified && r.value.family !in Families(reports)
    requires Uniform(ValuesOf(reports + [r])) && OnceEach(reports + [r])
    ensures Summarises(rules, Take(rules, NewObservation(r.value), r), reports + [r], r.value.family)
  {
    hide Sources, Branches, Networks, Providers, Asns, Publishers, Weight, OnceEach, IsNewer, LeadBranches, LeadProviders, LeadAsns;
    var f, o := r.value.family, NewObservation(r.value);
    var part := Exact(f, r.value.fingerprint);
    forall q <- reports
      ensures !Within(Family(f), q) && !Within(part, q)
    {
    }
    UniformPrefix(reports, r);
    NewerOrder(ValuesOf(reports + [r]), r.value, r.value, r.value);
    NothingThere(rules, reports, Family(f));
    NothingThere(rules, reports, part);
    BroadStep(rules, o, reports, r, Family(f));
    NarrowStep(rules, AddSource(rules, o, r.source), reports, r, part);
    NoTrail(rules, reports, f);
    TrailSnoc(rules, reports, r, f);
    FirstLeads(reports, r);
    assert r in reports + [r];
  }

  lemma NoTrail(rules: Rules, reports: seq<Report>, family: string)
    requires forall q <- reports :: !Within(Family(family), q)
    ensures LeadBranches(reports, family) == {} && LeadProviders(rules, reports, family) == {} && LeadAsns(rules, reports, family) == {}
  {
    hide Within;
    forall i | 0 <= i < |reports|
      ensures !Leads(reports, family, i)
    {
      assert reports[i] in reports;
    }
  }

  lemma FirstLeads(reports: seq<Report>, r: Report)
    requires r.value.verified && forall q <- reports :: !Within(Family(r.value.family), q)
    ensures Leads(reports + [r], r.value.family, |reports|)
  {
    var all := reports + [r];
    forall j | 0 <= j < |reports|
      ensures !Within(Family(r.value.family), all[j])
    {
      assert all[j] in reports;
    }
  }

  /** Reports of other families leave an observation as it is. */
  lemma OtherSummarises(rules: Rules, o: Observation, reports: seq<Report>, r: Report, family: string)
    requires Summarises(rules, o, reports, family) && OnceEach(reports + [r]) && !Within(Family(family), r)
    ensures Summarises(rules, o, reports + [r], family)
  {
    hide Sources, Branches, Networks, Providers, Asns, Publishers, Weight, OnceEach, IsNewer, LeadBranches, LeadProviders, LeadAsns, Backed;
    BroadStep(rules, o, reports, r, Family(family));
    NarrowStep(rules, o, reports, r, Exact(family, o.value.fingerprint));
    TrailSnoc(rules, reports, r, family);
    var q :| q in reports && q.value == o.value;
    assert q in reports + [r];
  }

  // ------------------------------------------------------------------ raw values

  function TakeRaw(rules: Rules, o: Observation, r: Report): Observation {
    AddExactSource(rules, AddSource(rules, o, r.source), r)
  }

  lemma TakeRawSummarises(rules: Rules, o: Observation, reports: seq<Report>, r: Report, fp: string)
    requires !r.value.verified && r.value.fingerprint == fp && OnceEach(reports + [r])
    requires SummarisesRaw(rules, o, reports, fp) || (fp !in Fingerprints(reports) && o == NewObservation(r.value))
    ensures SummarisesRaw(rules, TakeRaw(rules, o, r), reports + [r], fp)
  {
    hide Sources, Branches, Networks, Providers, Asns, Publishers, Weight, OnceEach, Backed;
    var part := Unverified(fp);
    if fp !in Fingerprints(reports) {
      forall q <- reports
        ensures !Within(part, q)
      {
      }
      NothingThere(rules, reports, part);
      Unbacked(r.value, reports, part);
    } else {
      assert SummarisesRaw(rules, o, reports, fp);
    }
    BroadStep(rules, o, reports, r, part);
    BackedSame(o, AddSource(rules, o, r.source), reports, part);
    NarrowStep(rules, AddSource(rules, o, r.source), reports, r, part);
    NetworksSnoc(rules, reports, r, part);
    RawKept(reports, r, o.value);
  }

  lemma Unbacked(v: Value, reports: seq<Report>, part: Part)
    ensures Backed(NewObservation(v), reports, part)
  {
  }

  lemma RawKept(reports: seq<Report>, r: Report, v: Value)
    ensures (exists q :: q in reports && q.value == v) || v == r.value ==> exists q :: q in reports + [r] && q.value == v
  {
    if q :| q in reports && q.value == v {
      assert q in reports + [r];
    }
    assert r in reports + [r];
  }

  lemma OtherRaw(rules: Rules, o: Observation, reports: seq<Report>, r: Report, fp: string)
    requires SummarisesRaw(rules, o, reports, fp) && OnceEach(reports + [r]) && !Within(Unverified(fp), r)
    ensures SummarisesRaw(rules, o, reports + [r], fp)
  {
    hide Sources, Branches, Networks, Providers, Asns, Publishers, Weight, OnceEach, Backed;
    BroadStep(rules, o, reports, r, Unverified(fp));
    NarrowStep(rules, o, reports, r, Unverified(fp));
    NetworksSnoc(rules, reports, r, Unverified(fp));
    RawKept(reports, r, o.value);
  }
}
