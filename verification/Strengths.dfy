/** How reports weigh, and which of two observations is the stronger, in numbers. */
module Strengths {
  import opened Ordering
  import opened Values
  import opened Evidence
  import opened Collector
  import opened Agreement
  import opened Lookup
  import opened ValueLookup

  /** What an observation is judged by, the most important first. */
  function Scores(o: Observation): seq<int> {
    [|o.exactSources|, o.exactWeight, |o.exactProviders|, |o.exactNetworks|]
  }

  /** The first score that differs decides. */
  ghost predicate Above(a: seq<int>, b: seq<int>) {
    exists i :: 0 <= i < |a| && i < |b| && a[..i] == b[..i] && a[i] > b[i]
  }

  lemma AboveAt(a: seq<int>, b: seq<int>, i: nat)
    requires |a| == |b| && i < |a| && a[..i] == b[..i] && a[i] != b[i]
    ensures Above(a, b) <==> a[i] > b[i]
  {
    if k :| 0 <= k < |a| && a[..k] == b[..k] && a[k] > b[k] {
      assert k > i ==> a[..k][i] == b[..k][i];
      assert k < i ==> a[..i][k] == b[..i][k];
    }
  }

  lemma AboveSame(a: seq<int>)
    ensures !Above(a, a)
  {
  }

  /** Stronger is above in the scores, and of equals the one with the earlier fingerprint. */
  lemma StrongerIff(left: Observation, right: Observation)
    ensures Stronger(left, right) <==>
      Above(Scores(left), Scores(right)) || (Scores(left) == Scores(right) && Precedes(left.value.fingerprint, right.value.fingerprint))
  {
    hide StringLe, Precedes, Above;
    var a, b := Scores(left), Scores(right);
    StringLeIs(right.value.fingerprint, left.value.fingerprint);
    StringLeIs(left.value.fingerprint, right.value.fingerprint);
    StringTotal(left.value.fingerprint, right.value.fingerprint);
    NotBefore(left.value.fingerprint);
    if a == b {
      AboveSame(a);
    } else {
      assert a != b;
      var i := if a[0] != b[0] then 0 else if a[1] != b[1] then 1 else if a[2] != b[2] then 2 else 3;
      AboveAt(a, b, i);
    }
  }

  /** One branch is enough only if networks are known and all of them are loopback. */
  lemma ConfirmedIff(o: Observation)
    ensures !o.value.verified ==> Confirmed(o)
    ensures o.value.verified ==>
      (Confirmed(o) <==>
        && |o.exactSources| >= 2 && o.exactWeight >= 4
        && (|o.exactBranches| < 2 ==> |o.exactNetworks| > 0 && forall n <- o.exactNetworks :: |n| >= 9 && n[..9] == "loopback:"))
  {
    assert |o.exactNetworks| > 0 <==> o.exactNetworks != {};
  }

  /** The figures of a verified result are those of the reports: of its family, and of exactly its value. */
  lemma ResultCounts(rules: Rules, o: Observation, reports: seq<Report>, family: string, outcome: Agreement.Outcome, rejected: nat)
    requires Summarises(rules, o, reports, family)
    ensures var r, part := ResultOf(o, outcome, rejected), Exact(family, o.value.fingerprint);
      && r.outcome == outcome && r.rejected == rejected && r.conflictCount == 0 && r.conflictValues == []
      && r.value == o.value.raw && r.verified == o.value.verified && r.version == o.value.version
      && r.sourceCount == |Sources(reports, Family(family))| && r.exactMatchCount == |Sources(reports, part)|
      && r.publisherCount == |Publishers(reports, part)| && r.networkDiversity == |Networks(rules, reports, part)|
      && r.trustWeight == Weight(reports, part)
      && r.branchDiversity == |LeadBranches(reports, family)| && r.asnDiversity == |LeadAsns(rules, reports, family)|
      && r.providerDiversity == |LeadProviders(rules, reports, family)|
  {
    hide Sources, Publishers, Networks, Weight, Newest, LeadBranches, LeadAsns, LeadProviders;
    assert |o.sources| == |o.sources.Keys| && |o.exactSources| == |o.exactSources.Keys|;
  }

  // ---------------------------------------------------------------------- weights

  ghost function Places(reports: seq<Report>, part: Part): set<int> {
    set i | 0 <= i < |reports| && Within(part, reports[i])
  }

  /** What a value adds to the trust in whoever reports it: one for an envelope and one for an authority. */
  function Bonus(v: Value): int {
    if v.enveloped && v.authoritative then 2 else if v.enveloped || v.authoritative then 1 else 0
  }

  lemma PlacesLast(reports: seq<Report>, part: Part)
    requires reports != []
    ensures var front, last := reports[..|reports| - 1], reports[|reports| - 1];
      && Places(front, part) <= Places(reports, part)
      && |Places(reports, part)| == |Places(front, part)| + (if Within(part, last) then 1 else 0)
      && (Within(part, last) ==> |reports| - 1 in Places(reports, part))
  {
    hide Within;
    var n := |reports| - 1;
    var front := reports[..n];
    assert Places(front, part) == Places(reports, part) - {n};
    if Within(part, reports[n]) {
      assert n in Places(reports, part);
    } else {
      assert Places(front, part) == Places(reports, part);
    }
  }

  /** Reports that weigh the same together weigh so many times as much. */
  lemma {:induction false} Weighs(reports: seq<Report>, part: Part, each: int)
    requires forall i <- Places(reports, part) :: reports[i].source.trust + Bonus(reports[i].value) == each
    ensures Weight(reports, part) == each * |Places(reports, part)|
  {
    hide Within, Places;
    if reports == [] {
      NoPlaces(part);
    } else {
      var front, last := reports[..|reports| - 1], reports[|reports| - 1];
      PlacesLast(reports, part);
      forall i <- Places(front, part)
        ensures 0 <= i < |front| && front[i] == reports[i]
      {
        InRange(front, part, i);
      }
      Weighs(front, part, each);
      Once(each, |Places(front, part)|);
    }
  }

  lemma NoPlaces(part: Part)
    ensures Places([], part) == {}
  {
  }

  lemma InRange(reports: seq<Report>, part: Part, i: int)
    requires i in Places(reports, part)
    ensures 0 <= i < |reports|
  {
  }

  lemma Once(each: int, n: nat)
    ensures each * n + each == each * (n + 1)
  {
  }

  /** A source without a name counts as the unknown one, and every source counts at least once. */
  lemma NamedIs(source: Source)
    ensures Named(source).nodeId == (if source.nodeId == "" then "unknown" else source.nodeId)
    ensures Named(source).trust == (if source.trust > 0 then source.trust else 1)
    ensures Named(source).addr == source.addr && Named(source).branch == source.branch
  {
  }

  /** Peers answer plainly: nobody's value has an envelope or an authority, and the store has none. */
  ghost predicate Plain(q: Query, w: Walk) {
    && Reading(q.rules, q.stored).None?
    && forall voice :: Answer(q, w, voice).Some? ==> !Answer(q, w, voice).value.enveloped && !Answer(q, w, voice).value.authoritative
  }

  /** Then it takes four peers' word for a verified value to be found. */
  lemma PlainTakesFour(q: Query, r: LookupResult, collector: LookupCollector, w: Walk, branches: map<string, int>, rounds: nat, cut: bool)
    requires Looked(q, w, branches, rounds, cut, collector) && Ends(r, collector, w, cut) && Plain(q, w)
    requires r.outcome == Agreement.Found && r.verified && OneKind(q, w)
    ensures exists v: Value :: r.value == v.raw && Settles(q, w, v) && |Places(collector.reports, Exact(v.family, v.fingerprint))| >= 4
  {
    hide Keyed, Summed, Families, Fingerprints, Confirmed, OneKind, Stopped, Consistent, Branched, Rejections, Settles, OnceEach, Weight, Answer;
    FoundMeans(q, r, collector, w, branches, rounds, cut);
    var v: Value :| r.value == v.raw && r.version == v.version && Settles(q, w, v)
      && Weight(collector.reports, Exact(v.family, v.fingerprint)) >= MIN_SCORE;
    var part := Exact(v.family, v.fingerprint);
    forall i <- Places(collector.reports, part)
      ensures collector.reports[i].source.trust + Bonus(collector.reports[i].value) == 1
    {
      PlainReport(q, w, branches, collector.reports, i);
    }
    Weighs(collector.reports, part, 1);
  }

  lemma PlainReport(q: Query, w: Walk, branches: map<string, int>, reports: seq<Report>, i: int)
    requires Gathered(q, w, branches, reports) && Plain(q, w) && 0 <= i < |reports|
    ensures reports[i].source.trust == 1 && Bonus(reports[i].value) == 0
  {
    hide Reading, Says, OnceEach;
    assert reports[i] in reports;
    var voice :| Spoken(q, w, branches, voice, reports[i]);
    assert voice.Neighbour?;
  }
}
