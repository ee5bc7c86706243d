/** Collecting the reports of a lookup and drawing the conclusion. */
module Agreement {
  import opened Ordering
  import opened Values
  import opened Evidence
  import opened Collector

  // -------------------------------------------------------------------- deciding

  predicate Loopback(network: string) {
    "loopback:" <= network
  }

  predicate OnlyLoopback(networks: set<string>) {
    networks != {} && forall n <- networks :: Loopback(n)
  }

  predicate Confirmed(o: Observation) {
    !o.value.verified
    || (|o.exactSources| >= MIN_SOURCES && o.exactWeight >= MIN_SCORE
        && (OnlyLoopback(o.exactNetworks) || |o.exactBranches| >= MIN_BRANCHES))
  }

  /** More sources, then more weight, more providers, more networks; last the smaller fingerprint. */
  function CompareStrength(left: Observation, right: Observation): int {
    if |left.exactSources| != |right.exactSources| then (if |left.exactSources| > |right.exactSources| then 1 else -1)
    else if left.exactWeight != right.exactWeight then (if left.exactWeight > right.exactWeight then 1 else -1)
    else if |left.exactProviders| != |right.exactProviders| then (if |left.exactProviders| > |right.exactProviders| then 1 else -1)
    else if |left.exactNetworks| != |right.exactNetworks| then (if |left.exactNetworks| > |right.exactNetworks| then 1 else -1)
    else if left.value.fingerprint == right.value.fingerprint then 0
    else if After(right.value.fingerprint, left.value.fingerprint) then 1 else -1
  }

  predicate Stronger(left: Observation, right: Observation) {
    CompareStrength(left, right) == 1
  }

  lemma StrongerOrder(a: Observation, b: Observation, c: Observation)
    ensures a.value.fingerprint != b.value.fingerprint ==> Stronger(a, b) || Stronger(b, a)
    ensures CompareStrength(a, b) == 0 ==> a.value.fingerprint == b.value.fingerprint
    ensures CompareStrength(a, b) == -1 ==> Stronger(b, a)
    ensures Stronger(a, b) && Stronger(b, c) ==> Stronger(a, c)
  {
    hide After;
    var fa, fb, fc := a.value.fingerprint, b.value.fingerprint, c.value.fingerprint;
    AfterOrder(fa, fb);
    AfterOrder(fb, fc);
    AfterOrder(fa, fc);
    AfterTransitive(fc, fb, fa);
  }

  datatype Outcome = Found | NotFound | Incomplete | Conflict

  datatype LookupResult = LookupResult(
    outcome: Outcome, value: string, verified: bool, sourceCount: nat, exactMatchCount: nat, rejected: nat,
    conflictCount: int, conflictValues: seq<string>, publisherCount: nat, networkDiversity: nat, providerDiversity: nat, asnDiversity: nat,
    branchDiversity: nat, trustWeight: int, version: nat)

  function Nothing(outcome: Outcome, verified: bool, rejected: nat, conflicts: int, texts: seq<string>): LookupResult {
    LookupResult(outcome, "", verified, 0, 0, rejected, conflicts, texts, 0, 0, 0, 0, 0, 0, 0)
  }

  function ResultOf(o: Observation, outcome: Outcome, rejected: nat): LookupResult {
    LookupResult(outcome, o.value.raw, o.value.verified, |o.sources|, |o.exactSources|, rejected, 0, [], |o.publishers|,
                 |o.exactNetworks|, |o.exactProviders|, |o.exactAsns|, |o.exactBranches|, o.exactWeight, o.value.version)
  }

  // -------------------------------------------------------------------- collecting

  function Named(source: Source): Source {
    source.(nodeId := if source.nodeId == "" then "unknown" else source.nodeId,
            trust := if source.trust <= 0 then 1 else source.trust)
  }

  /** With one kind of value and one report per source, each observation is what its reports amount to. */
  ghost predicate Summed(rules: Rules, verified: map<string, Observation>, raw: map<string, Observation>, reports: seq<Report>) {
    && (forall f :: f in verified ==> Summarises(rules, verified[f], reports, f))
    && (forall fp :: fp in raw ==> SummarisesRaw(rules, raw[fp], reports, fp))
  }

  ghost predicate Keyed(verified: map<string, Observation>, raw: map<string, Observation>, reports: seq<Report>) {
    && verified.Keys == Families(reports) && raw.Keys == Fingerprints(reports)
    && (forall f :: f in verified ==> verified[f].value.verified && verified[f].value.family == f)
    && (forall fp :: fp in raw ==> !raw[fp].value.verified && raw[fp].value.fingerprint == fp)
  }

  ghost function Carriers(rules: Rules, observed: map<string, Observation>, among: set<string>, text: string): set<string> {
    set f | f in among && f in observed && observed[f].value.raw == text && !rules.blank(text)
  }

  /** Every text that is not blank, as often as there are families whose value it is. */
  ghost predicate Tallied(rules: Rules, observed: map<string, Observation>, among: set<string>, texts: seq<string>) {
    forall text :: multiset(texts)[text] == |Carriers(rules, observed, among, text)|
  }

  ghost predicate Lists(rules: Rules, observed: map<string, Observation>, texts: seq<string>) {
    Sorted(Alphabetical, texts) && Tallied(rules, observed, observed.Keys, texts)
  }

  lemma CarriersStep(rules: Rules, observed: map<string, Observation>, among: set<string>, f: string, text: string)
    requires f in observed && f !in among
    ensures var more := if observed[f].value.raw == text && !rules.blank(text) then 1 else 0;
      |Carriers(rules, observed, among + {f}, text)| == |Carriers(rules, observed, among, text)| + more
  {
    var more := if observed[f].value.raw == text && !rules.blank(text) then {f} else {};
    assert Carriers(rules, observed, among + {f}, text) == Carriers(rules, observed, among, text) + more;
  }

  lemma TalliedAdd(rules: Rules, observed: map<string, Observation>, among: set<string>, texts: seq<string>, f: string)
    requires f in observed && f !in among && Tallied(rules, observed, among, texts)
    ensures var raw := observed[f].value.raw;
      Tallied(rules, observed, among + {f}, if rules.blank(raw) then texts else texts + [raw])
  {
    hide Carriers;
    var raw := observed[f].value.raw;
    forall text: string
      ensures multiset(if rules.blank(raw) then texts else texts + [raw])[text] == |Carriers(rules, observed, among + {f}, text)|
    {
      CarriersStep(rules, observed, among, f, text);
      assert multiset(texts + [raw])[text] == multiset(texts)[text] + (if raw == text then 1 else 0);
    }
  }

  lemma NoneTallied(rules: Rules, observed: map<string, Observation>)
    ensures Tallied(rules, observed, {}, [])
  {
    forall text: string
      ensures Carriers(rules, observed, {}, text) == {}
    {
    }
  }

  lemma TalliedSort(rules: Rules, observed: map<string, Observation>, among: set<string>, texts: seq<string>, sorted: seq<string>)
    requires Tallied(rules, observed, among, texts) && multiset(sorted) == multiset(texts)
    ensures Tallied(rules, observed, among, sorted)
  {
  }

  class LookupCollector {
    const rules: Rules
    var verified: map<string, Observation>
    var raw: map<string, Observation>
    var rejected: nat
    ghost var reports: seq<Report>

    ghost predicate Valid()
      reads this
    {
      && Keyed(verified, raw, reports)
      && (Uniform(ValuesOf(reports)) && OnceEach(reports) ==> Summed(rules, verified, raw, reports))
    }

    constructor (rules: Rules)
      ensures Valid() && reports == [] && rejected == 0 && this.rules == rules
    {
      this.rules := rules;
      verified, raw, rejected, reports := map[], map[], 0, [];
    }

    /** Takes a report in; a blank value is no report, and one that fails validation is only counted. */
    method Observe(source: Source, text: string)
      requires Valid()
      modifies this
      ensures Valid()
      ensures !rules.blank(text) && rules.check(text).Some?
        ==> reports == old(reports) + [Report(Named(source), rules.check(text).value)] && rejected == old(rejected)
      ensures rules.blank(text) || rules.check(text).None?
        ==> reports == old(reports) && verified == old(verified) && raw == old(raw)
      ensures rules.blank(text) ==> rejected == old(rejected)
      ensures !rules.blank(text) && rules.check(text).None? ==> rejected == old(rejected) + 1
    {
      if rules.blank(text) {
        return;
      }
      var checked := rules.check(text);
      if checked.None? {
        rejected := rejected + 1;
        return;
      }
      hide Keyed, Summed, Uniform, OnceEach, Take, TakeRaw;
      var value := checked.value;
      var r := Report(Named(source), value);
      if value.verified {
        Present(verified, raw, reports);
        var o := if value.family in verified then verified[value.family] else NewObservation(value);
        ObserveKeeps(rules, verified, raw, reports, r);
        verified := verified[value.family := Take(rules, o, r)];
      } else {
        ObserveRawKeeps(rules, verified, raw, reports, r);
        var o := if value.fingerprint in raw then raw[value.fingerprint] else NewObservation(value);
        raw := raw[value.fingerprint := TakeRaw(rules, o, r)];
      }
      reports := reports + [r];
    }

    method IsConfirmed() returns (confirmed: bool)
      requires Valid()
      ensures confirmed <==> exists f :: verified.Keys == {f} && f in verified && Confirmed(verified[f])
    {
      OneFamily(verified);
      if |verified| != 1 {
        return false;
      }
      var f := OnlyKey();
      confirmed := Confirmed(verified[f]);
    }

    method OnlyKey() returns (f: string)
      requires |verified| == 1
      ensures verified.Keys == {f}
    {
      assert |verified.Keys| == 1;
      f :| f in verified;
      OneElement(verified.Keys, f);
    }

    /** The texts of the families in conflict, in ascending order, whatever order the map is walked in. */
    method ConflictTexts() returns (texts: seq<string>)
      ensures Lists(rules, verified, texts)
    {
      hide Sorted, Tallied;
      texts := [];
      var done, left: set<string> := {}, verified.Keys;
      NoneTallied(rules, verified);
      while left != {}
        invariant done !! left && done + left == verified.Keys && Tallied(rules, verified, done, texts)
        decreases |left|
      {
        var f :| f in left;
        var raw := verified[f].value.raw;
        TalliedAdd(rules, verified, done, texts, f);
        done, left := done + {f}, left - {f};
        if !rules.blank(raw) {
          texts := texts + [raw];
        }
      }
      assert done == verified.Keys;
      StringOrder();
      SortSorts(Alphabetical, texts);
      TalliedSort(rules, verified, done, texts, Sort(Alphabetical, texts));
      texts := Sort(Alphabetical, texts);
    }

    method Resolve() returns (r: LookupResult)
      requires Valid()
      ensures Resolved(r)
    {
      assert Families(reports) == verified.Keys && Fingerprints(reports) == raw.Keys;
      assert |verified| == |verified.Keys|;
      if |verified| > 1 {
        var texts := ConflictTexts();
        return Nothing(Conflict, true, rejected, |verified|, texts);
      }
      if |verified| == 1 {
        var f := OnlyKey();
        var o := verified[f];
        r := ResultOf(o, if Confirmed(o) then Found else Incomplete, rejected);
        assert Concludes(f, r);
        return;
      }
      assert verified.Keys == {};
      if raw == map[] {
        return Nothing(NotFound, false, rejected, 0, []);
      }
      var best, conflicts := Strongest();
      if conflicts > 1 {
        return Nothing(Conflict, false, rejected, conflicts, []);
      }
      r := ResultOf(raw[best], Found, rejected);
      assert Prevails(best, r);
    }

    /** The conclusion the reports call for. */
    ghost predicate Resolved(r: LookupResult)
      reads this
    {
      && r.rejected == rejected
      && (|Families(reports)| > 1 ==>
            && r.outcome == Conflict && r.verified && r.conflictCount == |Families(reports)|
            && Lists(rules, verified, r.conflictValues))
      && (|Families(reports)| == 1 ==> r.verified && exists f :: Concludes(f, r))
      && (Families(reports) == {} && Fingerprints(reports) == {} ==> r.outcome == NotFound)
      && (Families(reports) == {} && Fingerprints(reports) != {} ==> !r.verified && exists fp :: Prevails(fp, r))
    }

    /** The one family's observation is returned, found exactly if it is confirmed. */
    ghost predicate Concludes(f: string, r: LookupResult)
      reads this
    {
      && verified.Keys == {f} && f in verified
      && r == ResultOf(verified[f], if Confirmed(verified[f]) then Found else Incomplete, rejected)
    }

    /** The strongest unverified value is returned. */
    ghost predicate Prevails(fp: string, r: LookupResult)
      reads this
    {
      && fp in raw && r == ResultOf(raw[fp], Found, rejected)
      && forall other :: other in raw && other != fp ==> Stronger(raw[fp], raw[other])
    }

    /** Walks the map in any order; two candidates never tie, so conflicts stays at one. */
    method Strongest() returns (best: string, conflicts: int)
      requires Valid() && raw != map[]
      ensures best in raw && conflicts == 1
      ensures forall fp :: fp in raw && fp != best ==> Stronger(raw[best], raw[fp])
    {
      hide Summed, CompareStrength, Uniform, OnceEach;
      assert raw.Keys != {};
      best :| best in raw;
      conflicts := 1;
      var left := raw.Keys - {best};
      while left != {}
        invariant left <= raw.Keys && best in raw && best !in left && conflicts == 1
        invariant forall fp :: fp in raw && fp !in left && fp != best ==> Stronger(raw[best], raw[fp])
        decreases |left|
      {
        var fp :| fp in left;
        left := left - {fp};
        StrongerOrder(raw[fp], raw[best], raw[best]);
        var verdict := CompareStrength(raw[fp], raw[best]);
        if verdict == 1 {
          forall other | other in raw && other !in left && other != fp
            ensures Stronger(raw[fp], raw[other])
          {
            StrongerOrder(raw[fp], raw[best], raw[other]);
          }
          best := fp;
          conflicts := 1;
        } else if verdict == 0 {
          conflicts := conflicts + 1;
        }
      }
    }
  }

  lemma OneFamily(verified: map<string, Observation>)
    ensures (exists f :: verified.Keys == {f}) ==> |verified| == 1
  {
    assert |verified| == |verified.Keys|;
  }

  lemma OneElement<T>(s: set<T>, x: T)
    requires |s| == 1 && x in s
    ensures s == {x}
  {
    assert |s - {x}| == 0;
    assert s == (s - {x}) + {x};
  }

  lemma Present(verified: map<string, Observation>, raw: map<string, Observation>, reports: seq<Report>)
    requires Keyed(verified, raw, reports)
    ensures forall f :: f in verified <==> f in Families(reports)
    ensures forall fp :: fp in raw <==> fp in Fingerprints(reports)
  {
  }

  lemma FamiliesSnoc(reports: seq<Report>, r: Report)
    ensures Families(reports + [r]) == Families(reports) + (if r.value.verified then {r.value.family} else {})
    ensures Fingerprints(reports + [r]) == Fingerprints(reports) + (if r.value.verified then {} else {r.value.fingerprint})
  {
  }

  lemma TakeKey(rules: Rules, o: Observation, r: Report)
    ensures Take(rules, o, r).value == o.value || Take(rules, o, r).value == r.value
    ensures TakeRaw(rules, o, r).value == o.value
  {
    hide IsNewer;
  }

  lemma OnceBefore(reports: seq<Report>, r: Report)
    requires OnceEach(reports + [r])
    ensures OnceEach(reports)
  {
    forall i, j | 0 <= i < j < |reports|
      ensures reports[i].source.nodeId != reports[j].source.nodeId
    {
      assert (reports + [r])[i] == reports[i] && (reports + [r])[j] == reports[j];
    }
  }

  lemma ObserveKeeps(rules: Rules, verified: map<string, Observation>, raw: map<string, Observation>, reports: seq<Report>, r: Report)
    requires Keyed(verified, raw, reports) && r.value.verified
    requires Uniform(ValuesOf(reports)) && OnceEach(reports) ==> Summed(rules, verified, raw, reports)
    ensures var f := r.value.family;
      var o := if f in verified then verified[f] else NewObservation(r.value);
      var verified' := verified[f := Take(rules, o, r)];
      && Keyed(verified', raw, reports + [r])
      && (Uniform(ValuesOf(reports + [r])) && OnceEach(reports + [r]) ==> Summed(rules, verified', raw, reports + [r]))
  {
    hide Keyed, Summed, Uniform, OnceEach, Take;
    var f := r.value.family;
    var o := if f in verified then verified[f] else NewObservation(r.value);
    KeyedAfter(rules, verified, raw, reports, r, o);
    if Uniform(ValuesOf(reports + [r])) && OnceEach(reports + [r]) {
      UniformPrefix(reports, r);
      OnceBefore(reports, r);
      Present(verified, raw, reports);
      OthersSummed(rules, verified, raw, reports, r);
      TakenSummed(rules, verified, raw, reports, r, o);
    }
  }

  lemma KeyedAfter(rules: Rules, verified: map<string, Observation>, raw: map<string, Observation>, reports: seq<Report>, r: Report, o: Observation)
    requires Keyed(verified, raw, reports)
    ensures var f := r.value.family;
      r.value.verified && o == (if f in verified then verified[f] else NewObservation(r.value))
      ==> Keyed(verified[f := Take(rules, o, r)], raw, reports + [r])
    ensures var fp := r.value.fingerprint;
      !r.value.verified && o == (if fp in raw then raw[fp] else NewObservation(r.value))
      ==> Keyed(verified, raw[fp := TakeRaw(rules, o, r)], reports + [r])
  {
    hide Take, TakeRaw, Families, Fingerprints;
    FamiliesSnoc(reports, r);
    TakeKey(rules, o, r);
  }

  /** The observations a report is not about stay as they are. */
  lemma OthersSummed(rules: Rules, verified: map<string, Observation>, raw: map<string, Observation>, reports: seq<Report>, r: Report)
    requires Summed(rules, verified, raw, reports) && OnceEach(reports + [r])
    ensures forall g :: g in verified && !Within(Family(g), r) ==> Summarises(rules, verified[g], reports + [r], g)
    ensures forall x :: x in raw && !Within(Unverified(x), r) ==> SummarisesRaw(rules, raw[x], reports + [r], x)
  {
    hide Summarises, SummarisesRaw, OnceEach, Within;
    forall g | g in verified && !Within(Family(g), r)
      ensures Summarises(rules, verified[g], reports + [r], g)
    {
      OtherSummarises(rules, verified[g], reports, r, g);
    }
    forall x | x in raw && !Within(Unverified(x), r)
      ensures SummarisesRaw(rules, raw[x], reports + [r], x)
    {
      OtherRaw(rules, raw[x], reports, r, x);
    }
  }

  lemma TakenSummed(rules: Rules, verified: map<string, Observation>, raw: map<string, Observation>, reports: seq<Report>, r: Report, o: Observation)
    requires Summed(rules, verified, raw, reports) && r.value.verified
    requires Uniform(ValuesOf(reports + [r])) && OnceEach(reports + [r])
    requires if r.value.family in verified then o == verified[r.value.family] else r.value.family !in Families(reports) && o == NewObservation(r.value)
    requires forall g :: g in verified && !Within(Family(g), r) ==> Summarises(rules, verified[g], reports + [r], g)
    requires forall x :: x in raw && !Within(Unverified(x), r) ==> SummarisesRaw(rules, raw[x], reports + [r], x)
    ensures Summed(rules, verified[r.value.family := Take(rules, o, r)], raw, reports + [r])
  {
    hide SummarisesRaw, Uniform, OnceEach, Take, Families, Newest, Broad, Narrow, Trail;
    var f := r.value.family;
    if f in verified {
      assert Summarises(rules, verified[f], reports, f);
      TakeSummarises(rules, o, reports, r);
    } else {
      FirstSummarises(rules, reports, r);
    }
  }

  lemma ObserveRawKeeps(rules: Rules, verified: map<string, Observation>, raw: map<string, Observation>, reports: seq<Report>, r: Report)
    requires Keyed(verified, raw, reports) && !r.value.verified
    requires Uniform(ValuesOf(reports)) && OnceEach(reports) ==> Summed(rules, verified, raw, reports)
    ensures var fp := r.value.fingerprint;
      var o := if fp in raw then raw[fp] else NewObservation(r.value);
      var raw' := raw[fp := TakeRaw(rules, o, r)];
      && Keyed(verified, raw', reports + [r])
      && (Uniform(ValuesOf(reports + [r])) && OnceEach(reports + [r]) ==> Summed(rules, verified, raw', reports + [r]))
  {
    hide Keyed, Summed, Uniform, OnceEach, TakeRaw;
    var fp := r.value.fingerprint;
    var o := if fp in raw then raw[fp] else NewObservation(r.value);
    KeyedAfter(rules, verified, raw, reports, r, o);
    if Uniform(ValuesOf(reports + [r])) && OnceEach(reports + [r]) {
      UniformPrefix(reports, r);
      OnceBefore(reports, r);
      Present(verified, raw, reports);
      OthersSummed(rules, verified, raw, reports, r);
      TakenRawSummed(rules, verified, raw, reports, r, o);
    }
  }

  lemma TakenRawSummed(rules: Rules, verified: map<string, Observation>, raw: map<string, Observation>, reports: seq<Report>, r: Report, o: Observation)
    requires Summed(rules, verified, raw, reports) && !r.value.verified && OnceEach(reports + [r])
    requires if r.value.fingerprint in raw then o == raw[r.value.fingerprint]
             else r.value.fingerprint !in Fingerprints(reports) && o == NewObservation(r.value)
    requires forall g :: g in verified && !Within(Family(g), r) ==> Summarises(rules, verified[g], reports + [r], g)
    requires forall x :: x in raw && !Within(Unverified(x), r) ==> SummarisesRaw(rules, raw[x], reports + [r], x)
    ensures Summed(rules, verified, raw[r.value.fingerprint := TakeRaw(rules, o, r)], reports + [r])
  {
    hide Summarises, SummarisesRaw, OnceEach, TakeRaw, Fingerprints;
    TakeRawSummarises(rules, o, reports, r, r.value.fingerprint);
  }
}
