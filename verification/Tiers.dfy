/** Who is kept when not everybody can be: better tiers first, within a tier the sorted order. */
module Tiers {
  import opened Ordering
  import opened Routing
  import opened Retention

  /** Where a peer is first listed; the length if nowhere. */
  ghost function At(s: seq<Peer>, id: string): nat
    decreases |s|
  {
    if s == [] then 0 else if id in NamesIn(s[..|s| - 1]) then At(s[..|s| - 1], id) else if s[|s| - 1].node.id == id then |s| - 1 else |s|
  }

  lemma NamesLast(s: seq<Peer>)
    requires s != []
    ensures NamesIn(s) == NamesIn(s[..|s| - 1]) + {s[|s| - 1].node.id}
  {
    assert s == s[..|s| - 1] + [s[|s| - 1]];
    NamesSnoc(s[..|s| - 1], s[|s| - 1]);
  }

  lemma {:induction false} AtIs(s: seq<Peer>, id: string)
    ensures id in NamesIn(s) <==> At(s, id) < |s|
    ensures id !in NamesIn(s) ==> At(s, id) == |s|
    decreases |s|
  {
    if s != [] {
      NamesLast(s);
      AtIs(s[..|s| - 1], id);
    }
  }

  lemma {:induction false} AtAppend(a: seq<Peer>, b: seq<Peer>, id: string)
    ensures At(a + b, id) == if id in NamesIn(a) then At(a, id) else |a| + At(b, id)
    decreases |b|
  {
    hide NamesIn;
    if b == [] {
      assert a + b == a;
      AtIs(a, id);
    } else {
      var front := b[..|b| - 1];
      assert (a + b)[..|a + b| - 1] == a + front;
      AtAppend(a, front, id);
      BothNames(a, front);
    }
  }

  lemma BothNames(a: seq<Peer>, b: seq<Peer>)
    ensures NamesIn(a + b) == NamesIn(a) + NamesIn(b)
  {
  }

  /** Dropping repetitions keeps the order of first mention. */
  lemma {:induction false} DedupInOrder(s: seq<Peer>)
    ensures var d := Dedup(s); forall i, j :: 0 <= i < j < |d| ==> At(s, d[i].node.id) < At(s, d[j].node.id)
    decreases |s|
  {
    hide NamesIn;
    if s != [] {
      var front, last := s[..|s| - 1], s[|s| - 1];
      var d, e := Dedup(front), Dedup(s);
      DedupInOrder(front);
      DedupIs(front);
      NamesLast(s);
      forall i, j | 0 <= i < j < |e|
        ensures At(s, e[i].node.id) < At(s, e[j].node.id)
      {
        Mentioned(d, e[i]);
        AtIs(front, e[i].node.id);
        if j < |d| {
          Mentioned(d, e[j]);
        }
      }
    }
  }

  lemma Mentioned(s: seq<Peer>, p: Peer)
    ensures p in s ==> p.node.id in NamesIn(s)
  {
  }

  /** a lists some of s in the order of s. */
  ghost predicate Sublist(a: seq<Peer>, s: seq<Peer>) {
    && NamesIn(a) <= NamesIn(s)
    && forall x, y :: x in NamesIn(a) && y in NamesIn(a) && At(a, x) < At(a, y) ==> At(s, x) < At(s, y)
  }

  lemma SublistMore(a: seq<Peer>, s: seq<Peer>, last: Peer)
    requires Sublist(a, s) && last.node.id !in NamesIn(s)
    ensures Sublist(a, s + [last]) && Sublist(a + [last], s + [last])
  {
    hide NamesIn;
    assert (s + [last])[..|s|] == s && (a + [last])[..|a|] == a;
    NamesLast(s + [last]);
    NamesLast(a + [last]);
    forall x | x in NamesIn(a)
      ensures At(s + [last], x) == At(s, x) < |s|
    {
      AtIs(s, x);
    }
    AtIs(a, last.node.id);
    forall x | x in NamesIn(a)
      ensures At(a + [last], x) == At(a, x) < |a|
    {
      AtIs(a, x);
    }
  }

  lemma {:induction false} FilterSublist(s: seq<Peer>, keep: Peer -> bool)
    requires DistinctPeers(s)
    ensures Sublist(Filter(s, keep), s)
    decreases |s|
  {
    if s != [] {
      hide NamesIn, Sublist, DistinctPeers;
      var front, last := s[..|s| - 1], s[|s| - 1];
      assert s == front + [last];
      LastNew(front, last);
      FilterSublist(front, keep);
      SublistMore(Filter(front, keep), front, last);
      assert Filter(front, keep) + [] == Filter(front, keep);
    }
  }

  lemma {:induction false} DiverseSublist(policy: Policy, s: seq<Peer>)
    requires DistinctPeers(s)
    ensures Sublist(Diverse(policy, s).0, s)
    decreases |s|
  {
    if s != [] {
      hide NamesIn, Sublist, DistinctPeers;
      var front, last := s[..|s| - 1], s[|s| - 1];
      assert s == front + [last];
      LastNew(front, last);
      DiverseSublist(policy, front);
      SublistMore(Diverse(policy, front).0, front, last);
    }
  }

  // ------------------------------------------------------------------- the tiers

  ghost function Flat(tiers: seq<seq<Peer>>): seq<Peer> {
    if tiers == [] then [] else tiers[0] + Flat(tiers[1..])
  }

  /** The first tier that lists the peer. */
  ghost function Level(tiers: seq<seq<Peer>>, id: string): nat {
    if tiers == [] || id in NamesIn(tiers[0]) then 0 else 1 + Level(tiers[1..], id)
  }

  /** Whoever is listed first in tiers of one sorted list is in a better tier, or in the same and sorted first. */
  lemma {:induction false} FlatOrder(tiers: seq<seq<Peer>>, s: seq<Peer>, x: string, y: string)
    requires forall tier <- tiers :: Sublist(tier, s)
    requires At(Flat(tiers), x) < At(Flat(tiers), y) && y in NamesIn(Flat(tiers))
    ensures Level(tiers, x) < Level(tiers, y) || (Level(tiers, x) == Level(tiers, y) && At(s, x) < At(s, y))
    decreases |tiers|
  {
    hide NamesIn;
    if tiers == [] {
      NoNames();
    } else {
      var first, rest := tiers[0], Flat(tiers[1..]);
      AtAppend(first, rest, x);
      AtAppend(first, rest, y);
      AtIs(first, x);
      AtIs(first, y);
      BothNames(first, rest);
      assert first in tiers;
      if x !in NamesIn(first) && y !in NamesIn(first) {
        FlatOrder(tiers[1..], s, x, y);
      }
    }
  }

  /** The tiers by what is known of a peer: friend, used, among the closest, bringing a new network, active, on probation, the rest. */
  ghost function Tier(policy: Policy, s: seq<Peer>, p: Peer): nat {
    if p.friend then 0
    else if p.useCount != 0 || p.lastUsed != 0 then 1
    else if p.closestIdRank != 0 || p.closestNameRank != 0 then 2
    else if p in Diverse(policy, s).0 then 3
    else if p.offlineSince == 0 then 4
    else if p.probationUntil != 0 then 5
    else 6
  }

  ghost function TiersOf(policy: Policy, s: seq<Peer>): seq<seq<Peer>> {
    [Filter(s, IsFriend), Filter(s, WasUsed), Filter(s, IsClosest), Diverse(policy, s).0,
     Filter(s, IsActive), Filter(s, OnProbation), Filter(s, IsOffline), Filter(s, Anyone)]
  }

  lemma TiersFlat(policy: Policy, s: seq<Peer>)
    ensures Flat(TiersOf(policy, s)) == Preference(policy, s)
  {
    hide Filter, Diverse;
    var t := TiersOf(policy, s);
    assert Flat(t[8..]) == [];
    assert Flat(t[7..]) == t[7] && Flat(t[6..]) == t[6] + Flat(t[7..]) && Flat(t[5..]) == t[5] + Flat(t[6..]);
    assert Flat(t[4..]) == t[4] + Flat(t[5..]) && Flat(t[3..]) == t[3] + Flat(t[4..]) && Flat(t[2..]) == t[2] + Flat(t[3..]);
    assert Flat(t[1..]) == t[1] + Flat(t[2..]) && t[0..] == t;
  }

  /** With one entry per peer, a peer is named in a list exactly if its entry is there. */
  lemma NamedIff(s: seq<Peer>, a: seq<Peer>, p: Peer)
    requires DistinctPeers(s) && p in s && forall q <- a :: q in s
    ensures p.node.id in NamesIn(a) <==> p in a
  {
    if p.node.id in NamesIn(a) {
      var q :| q in a && q.node.id == p.node.id;
      var i :| 0 <= i < |s| && s[i] == q;
      var j :| 0 <= j < |s| && s[j] == p;
      assert i == j;
    }
  }

  lemma FilterNames(s: seq<Peer>, keep: Peer -> bool, p: Peer)
    requires DistinctPeers(s) && p in s
    ensures p.node.id in NamesIn(Filter(s, keep)) <==> keep(p)
    ensures Sublist(Filter(s, keep), s)
  {
    hide DistinctPeers, NamesIn, Sublist, Filter;
    FilterIs(s, keep);
    NamedIff(s, Filter(s, keep), p);
    FilterSublist(s, keep);
  }

  lemma DiverseNames(policy: Policy, s: seq<Peer>, p: Peer)
    requires DistinctPeers(s) && p in s
    ensures p.node.id in NamesIn(Diverse(policy, s).0) <==> p in Diverse(policy, s).0
    ensures Sublist(Diverse(policy, s).0, s)
  {
    hide DistinctPeers, NamesIn, Sublist, Diverse;
    DiverseIs(policy, s);
    NamedIff(s, Diverse(policy, s).0, p);
    DiverseSublist(policy, s);
  }

  lemma LevelIs(policy: Policy, s: seq<Peer>, p: Peer)
    requires DistinctPeers(s) && p in s
    ensures Level(TiersOf(policy, s), p.node.id) == Tier(policy, s, p)
    ensures forall tier <- TiersOf(policy, s) :: Sublist(tier, s)
  {
    hide DistinctPeers, NamesIn, Sublist, Filter, Diverse;
    FilterNames(s, IsFriend, p);
    FilterNames(s, WasUsed, p);
    FilterNames(s, IsClosest, p);
    DiverseNames(policy, s, p);
    FilterNames(s, IsActive, p);
    FilterNames(s, OnProbation, p);
    FilterNames(s, IsOffline, p);
    FilterNames(s, Anyone, p);
    Levels(TiersOf(policy, s), p.node.id);
  }

  lemma Levels(t: seq<seq<Peer>>, id: string)
    requires |t| == 8
    ensures Level(t, id) ==
      if id in NamesIn(t[0]) then 0 else if id in NamesIn(t[1]) then 1 else if id in NamesIn(t[2]) then 2 else if id in NamesIn(t[3]) then 3
      else if id in NamesIn(t[4]) then 4 else if id in NamesIn(t[5]) then 5 else if id in NamesIn(t[6]) then 6 else if id in NamesIn(t[7]) then 7 else 8
  {
    hide NamesIn;
    assert t[0..] == t;
    assert forall k :: 0 <= k < 8 ==> t[k..][1..] == t[k + 1..];
    assert Level(t[8..], id) == 0;
    assert Level(t[7..], id) == (if id in NamesIn(t[7]) then 0 else 1);
    assert Level(t[6..], id) == if id in NamesIn(t[6]) then 0 else 1 + Level(t[7..], id);
    assert Level(t[5..], id) == if id in NamesIn(t[5]) then 0 else 1 + Level(t[6..], id);
    assert Level(t[4..], id) == if id in NamesIn(t[4]) then 0 else 1 + Level(t[5..], id);
    assert Level(t[3..], id) == if id in NamesIn(t[3]) then 0 else 1 + Level(t[4..], id);
    assert Level(t[2..], id) == if id in NamesIn(t[2]) then 0 else 1 + Level(t[3..], id);
    assert Level(t[1..], id) == if id in NamesIn(t[1]) then 0 else 1 + Level(t[2..], id);
  }

  /** p comes before q: in a better tier, or in the same and sorted before it. */
  ghost predicate Preferred(policy: Policy, s: seq<Peer>, p: Peer, q: Peer) {
    || Tier(policy, s, p) < Tier(policy, s, q)
    || (Tier(policy, s, p) == Tier(policy, s, q) && At(s, p.node.id) < At(s, q.node.id))
  }

  lemma {:induction false} NamesAtMost(s: seq<Peer>)
    ensures |NamesIn(s)| <= |s|
  {
    if s != [] {
      NamesLast(s);
      NamesAtMost(s[..|s| - 1]);
    }
  }

  lemma {:induction false} CountDistinct(s: seq<Peer>)
    requires |NamesIn(s)| == |s|
    ensures DistinctPeers(s)
  {
    if s != [] {
      hide NamesIn;
      var front, last := s[..|s| - 1], s[|s| - 1];
      NamesLast(s);
      NamesAtMost(front);
      CountDistinct(front);
      forall i, j | 0 <= i < j < |s|
        ensures s[i].node.id != s[j].node.id
      {
        assert s[i] in front;
        Mentioned(front, s[i]);
      }
    }
  }

  /** Sorting keeps one entry per peer. */
  lemma SortDistinct(policy: Policy, peers: seq<Peer>)
    requires Permutes(policy) && DistinctPeers(peers)
    ensures DistinctPeers(policy.sort(peers))
  {
    hide NamesIn, DistinctPeers;
    var s := policy.sort(peers);
    SameElements(s, peers);
    NamesBoth(s, peers);
    DistinctCount(peers);
    assert |s| == |multiset(s)| == |multiset(peers)| == |peers|;
    CountDistinct(s);
  }

  /** What is kept is in order of preference, and whoever is left out is preferred to nobody kept. */
  lemma KeptByTier(policy: Policy, peers: seq<Peer>, limit: nat)
    requires Permutes(policy) && DistinctPeers(peers)
    ensures var s := policy.sort(peers); var r := First(Dedup(Preference(policy, s)), limit);
      && (forall i, j :: 0 <= i < j < |r| ==> Preferred(policy, s, r[i], r[j]))
      && (forall p, q :: p in peers && p !in r && q in r ==> Preferred(policy, s, q, p))
  {
    hide Preference, Dedup, DistinctPeers, Tier, TiersOf, NamesIn, Level;
    var s := policy.sort(peers);
    var all := Preference(policy, s);
    var d := Dedup(all);
    var r := First(d, limit);
    SortDistinct(policy, peers);
    SameElements(s, peers);
    DedupIs(all);
    PreferenceIs(policy, s);
    forall i, j | 0 <= i < j < |d|
      ensures Preferred(policy, s, d[i], d[j])
    {
      assert d[i] in all && d[j] in all;
      EarlierPreferred(policy, s, i, j);
    }
    forall p, q | p in peers && p !in r && q in r
      ensures Preferred(policy, s, q, p)
    {
      EverybodyListed(policy, s, p);
      var i :| 0 <= i < |r| && r[i] == q;
      var j :| 0 <= j < |d| && d[j] == p;
      assert forall k :: 0 <= k < |r| ==> d[k] in r;
      assert d[i] == q && i < j;
    }
  }

  lemma EarlierPreferred(policy: Policy, s: seq<Peer>, i: nat, j: nat)
    requires DistinctPeers(s) && i < j < |Dedup(Preference(policy, s))|
    ensures var d := Dedup(Preference(policy, s)); Preferred(policy, s, d[i], d[j])
  {
    hide Preference, Dedup, DistinctPeers, Tier, TiersOf, NamesIn, Level, Sublist;
    var all := Preference(policy, s);
    var d := Dedup(all);
    DedupIs(all);
    PreferenceIs(policy, s);
    assert d[i] in all && d[j] in all;
    DedupInOrder(all);
    TiersFlat(policy, s);
    LevelIs(policy, s, d[i]);
    LevelIs(policy, s, d[j]);
    Mentioned(all, d[j]);
    FlatOrder(TiersOf(policy, s), s, d[i].node.id, d[j].node.id);
  }

  lemma EverybodyListed(policy: Policy, s: seq<Peer>, p: Peer)
    requires DistinctPeers(s) && p in s
    ensures p in Dedup(Preference(policy, s))
  {
    hide Preference, Dedup, DistinctPeers, NamesIn;
    var all := Preference(policy, s);
    PreferenceIs(policy, s);
    DedupIs(all);
    Mentioned(all, p);
    NamedIff(s, Dedup(all), p);
  }

  // ------------------------------------------------------------------- diversity

  /** The networks are those of the chosen. */
  ghost predicate Covers(policy: Policy, chosen: seq<Peer>, covered: set<string>) {
    forall k :: k in covered <==> exists p <- chosen :: k in policy.prefixes(p.node.addr)
  }

  /** Each of the chosen has a network that none before it has. */
  ghost predicate AllNew(policy: Policy, chosen: seq<Peer>) {
    forall i :: 0 <= i < |chosen| ==> Adds(policy, chosen[..i], chosen[i])
  }

  ghost predicate Adds(policy: Policy, before: seq<Peer>, p: Peer) {
    exists k <- policy.prefixes(p.node.addr) :: forall q <- before :: k !in policy.prefixes(q.node.addr)
  }

  lemma CoversMore(policy: Policy, before: seq<Peer>, had: set<string>, p: Peer)
    requires Covers(policy, before, had)
    ensures Covers(policy, before + [p], had + Prefixes(policy, p))
    ensures AddsCoverage(policy, p, had) ==> Adds(policy, before, p)
  {
    forall k
      ensures k in had + Prefixes(policy, p) <==> exists q <- before + [p] :: k in policy.prefixes(q.node.addr)
    {
      assert p in before + [p];
      if k in had {
        var q :| q in before && k in policy.prefixes(q.node.addr);
        assert q in before + [p];
      }
    }
  }

  lemma NewMore(policy: Policy, before: seq<Peer>, p: Peer)
    requires AllNew(policy, before) && Adds(policy, before, p)
    ensures AllNew(policy, before + [p])
  {
    hide Adds;
    var s := before + [p];
    forall i | 0 <= i < |s|
      ensures Adds(policy, s[..i], s[i])
    {
      assert i < |before| ==> s[..i] == before[..i];
      assert i == |before| ==> s[..i] == before;
    }
  }

  /** Peers that bring a new network are active, cover every network of the active, and each adds one. */
  lemma {:induction false} DiverseCovers(policy: Policy, s: seq<Peer>)
    ensures var (chosen, covered) := Diverse(policy, s);
      && (forall p <- chosen :: p in s && p.offlineSince == 0)
      && Covers(policy, chosen, covered) && AllNew(policy, chosen)
      && (forall p <- s :: p.offlineSince == 0 ==> Prefixes(policy, p) <= covered)
  {
    if s != [] {
      hide Covers, AllNew, Adds;
      var front, last := s[..|s| - 1], s[|s| - 1];
      assert s == front + [last];
      DiverseCovers(policy, front);
      var (before, had) := Diverse(policy, front);
      CoversMore(policy, before, had, last);
      if IsActive(last) && AddsCoverage(policy, last, had) {
        NewMore(policy, before, last);
      }
    }
  }
}
