/** Which peers are kept when there is not room for all of them. */
module Retention {
  import opened Ordering
  import opened Routing

  const LIMIT := 512

  /** Sorting and address prefixes; the comparison is not transitive, so sorting is only known to permute. */
  datatype Policy = Policy(sort: seq<Peer> -> seq<Peer>, prefixes: string -> seq<string>)

  ghost predicate Permutes(policy: Policy) {
    forall s :: multiset(policy.sort(s)) == multiset(s)
  }

  predicate IsFriend(p: Peer) {
    p.friend
  }

  predicate WasUsed(p: Peer) {
    p.useCount > 0 || p.lastUsed != 0
  }

  predicate IsClosest(p: Peer) {
    p.closestIdRank > 0 || p.closestNameRank > 0
  }

  predicate IsActive(p: Peer) {
    p.offlineSince == 0
  }

  predicate OnProbation(p: Peer) {
    p.probationUntil != 0
  }

  predicate IsOffline(p: Peer) {
    p.offlineSince != 0
  }

  predicate Anyone(p: Peer) {
    true
  }

  function Filter(s: seq<Peer>, keep: Peer -> bool): seq<Peer> {
    if s == [] then []
    else Filter(s[..|s| - 1], keep) + (if keep(s[|s| - 1]) then [s[|s| - 1]] else [])
  }

  predicate AddsCoverage(policy: Policy, p: Peer, covered: set<string>) {
    exists k <- policy.prefixes(p.node.addr) :: k !in covered
  }

  function Prefixes(policy: Policy, p: Peer): set<string> {
    set k | k in policy.prefixes(p.node.addr)
  }

  /** Active peers that each bring an address prefix no earlier one has, and the prefixes they cover. */
  function Diverse(policy: Policy, s: seq<Peer>): (seq<Peer>, set<string>) {
    if s == [] then ([], {})
    else
      var (front, covered) := Diverse(policy, s[..|s| - 1]);
      var p := s[|s| - 1];
      if IsActive(p) && AddsCoverage(policy, p, covered) then (front + [p], covered + Prefixes(policy, p)) else (front, covered)
  }

  /** The order of preference: friends, used, closest, diverse, active, on probation, offline, the rest. */
  function Preference(policy: Policy, s: seq<Peer>): seq<Peer> {
    Filter(s, IsFriend) + Filter(s, WasUsed) + Filter(s, IsClosest) + Diverse(policy, s).0 + Filter(s, IsActive)
    + Filter(s, OnProbation) + Filter(s, IsOffline) + Filter(s, Anyone)
  }

  function NamesIn(s: seq<Peer>): set<string> {
    set p | p in s :: p.node.id
  }

  /** The first entry of each peer. */
  function Dedup(s: seq<Peer>): seq<Peer> {
    if s == [] then []
    else
      var front, last := Dedup(s[..|s| - 1]), s[|s| - 1];
      if last.node.id in NamesIn(front) then front else front + [last]
  }

  function First(s: seq<Peer>, limit: nat): seq<Peer> {
    if |s| > limit then s[..limit] else s
  }

  // --------------------------------------------------------------- the selection

  method Add(selected: seq<Peer>, p: Peer, limit: nat, ghost offered: seq<Peer>) returns (r: seq<Peer>)
    requires selected == First(Dedup(offered), limit)
    ensures r == First(Dedup(offered + [p]), limit)
  {
    assert (offered + [p])[..|offered|] == offered;
    if |selected| >= limit {
      return selected;
    }
    if p.node.id in NamesIn(selected) {
      return selected;
    }
    r := selected + [p];
  }

  method AddWhere(ordered: seq<Peer>, keep: Peer -> bool, selected: seq<Peer>, limit: nat, ghost offered: seq<Peer>) returns (r: seq<Peer>)
    requires selected == First(Dedup(offered), limit)
    ensures r == First(Dedup(offered + Filter(ordered, keep)), limit)
  {
    hide First, Dedup;
    r := selected;
    assert offered + Filter(ordered[..0], keep) == offered;
    for i := 0 to |ordered|
      invariant r == First(Dedup(offered + Filter(ordered[..i], keep)), limit)
    {
      assert ordered[..i + 1][..i] == ordered[..i];
      if keep(ordered[i]) {
        r := Add(r, ordered[i], limit, offered + Filter(ordered[..i], keep));
        assert offered + Filter(ordered[..i], keep) + [ordered[i]] == offered + Filter(ordered[..i + 1], keep);
      } else {
        assert Filter(ordered[..i + 1], keep) == Filter(ordered[..i], keep);
      }
    }
    assert ordered[..|ordered|] == ordered;
  }

  method AddDiverse(policy: Policy, ordered: seq<Peer>, selected: seq<Peer>, limit: nat, ghost offered: seq<Peer>) returns (r: seq<Peer>)
    requires selected == First(Dedup(offered), limit)
    ensures r == First(Dedup(offered + Diverse(policy, ordered).0), limit)
  {
    hide First, Dedup, AddsCoverage;
    r := selected;
    var covered: set<string> := {};
    assert offered + Diverse(policy, ordered[..0]).0 == offered;
    for i := 0 to |ordered|
      invariant r == First(Dedup(offered + Diverse(policy, ordered[..i]).0), limit) && covered == Diverse(policy, ordered[..i]).1
    {
      assert ordered[..i + 1][..i] == ordered[..i];
      ghost var before := Diverse(policy, ordered[..i]).0;
      if IsActive(ordered[i]) && AddsCoverage(policy, ordered[i], covered) {
        r := Add(r, ordered[i], limit, offered + before);
        covered := covered + Prefixes(policy, ordered[i]);
        assert offered + before + [ordered[i]] == offered + (before + [ordered[i]]);
      }
    }
    assert ordered[..|ordered|] == ordered;
  }

  /** The first peers, up to the limit, of the order of preference without its repetitions. */
  method SelectRetention(policy: Policy, peers: seq<Peer>, limit: nat) returns (selected: seq<Peer>)
    ensures selected == First(Dedup(Preference(policy, policy.sort(peers))), limit)
  {
    hide First, Dedup, Filter, Diverse;
    var s := policy.sort(peers);
    FirstNone(limit);
    selected := AddWhere(s, IsFriend, [], limit, []);
    ghost var o1 := Filter(s, IsFriend);
    assert [] + o1 == o1;
    selected := AddWhere(s, WasUsed, selected, limit, o1);
    selected := AddWhere(s, IsClosest, selected, limit, o1 + Filter(s, WasUsed));
    ghost var o3 := o1 + Filter(s, WasUsed) + Filter(s, IsClosest);
    selected := AddDiverse(policy, s, selected, limit, o3);
    selected := AddWhere(s, IsActive, selected, limit, o3 + Diverse(policy, s).0);
    ghost var o5 := o3 + Diverse(policy, s).0 + Filter(s, IsActive);
    selected := AddWhere(s, OnProbation, selected, limit, o5);
    selected := AddWhere(s, IsOffline, selected, limit, o5 + Filter(s, OnProbation));
    selected := AddWhere(s, Anyone, selected, limit, o5 + Filter(s, OnProbation) + Filter(s, IsOffline));
  }

  lemma FirstNone(limit: nat)
    ensures First(Dedup([]), limit) == []
  {
  }

  // ------------------------------------------------------------- what is selected

  ghost predicate DistinctPeers(s: seq<Peer>) {
    forall i, j :: 0 <= i < j < |s| ==> s[i].node.id != s[j].node.id
  }

  lemma {:induction false} DedupIs(s: seq<Peer>)
    ensures DistinctPeers(Dedup(s)) && NamesIn(Dedup(s)) == NamesIn(s)
    ensures forall p <- Dedup(s) :: p in s
  {
    if s != [] {
      var front, last := Dedup(s[..|s| - 1]), s[|s| - 1];
      assert s == s[..|s| - 1] + [last];
      DedupIs(s[..|s| - 1]);
      if last.node.id !in NamesIn(front) {
        forall i, j | 0 <= i < j < |front + [last]|
          ensures (front + [last])[i].node.id != (front + [last])[j].node.id
        {
          assert front[i] in front;
        }
      }
      assert NamesIn(s) == NamesIn(s[..|s| - 1]) + {last.node.id};
    }
  }

  /** What is offered first stays first. */
  lemma {:induction false} DedupPrefix(a: seq<Peer>, b: seq<Peer>)
    ensures Dedup(a) <= Dedup(a + b)
    decreases |b|
  {
    if b == [] {
      assert a + b == a;
    } else {
      assert (a + b)[..|a + b| - 1] == a + b[..|b| - 1];
      DedupPrefix(a, b[..|b| - 1]);
    }
  }

  lemma {:induction false} FilterIs(s: seq<Peer>, keep: Peer -> bool)
    ensures forall p :: p in Filter(s, keep) <==> p in s && keep(p)
  {
    if s != [] {
      FilterIs(s[..|s| - 1], keep);
      assert s == s[..|s| - 1] + [s[|s| - 1]];
    }
  }

  lemma NamesSnoc(front: seq<Peer>, last: Peer)
    ensures NamesIn(front + [last]) == NamesIn(front) + {last.node.id}
  {
  }

  lemma LastNew(front: seq<Peer>, last: Peer)
    requires DistinctPeers(front + [last])
    ensures last.node.id !in NamesIn(front) && DistinctPeers(front)
  {
    var s := front + [last];
    forall p <- front
      ensures p.node.id != last.node.id
    {
      var i :| 0 <= i < |front| && front[i] == p;
      assert s[i] == p && s[|front|] == last;
    }
    forall i, j | 0 <= i < j < |front|
      ensures front[i].node.id != front[j].node.id
    {
      assert s[i] == front[i] && s[j] == front[j];
    }
  }

  lemma {:induction false} DistinctCount(s: seq<Peer>)
    requires DistinctPeers(s)
    ensures |NamesIn(s)| == |s|
  {
    hide DistinctPeers, NamesIn;
    if s == [] {
      NoNames();
    } else {
      var front, last := s[..|s| - 1], s[|s| - 1];
      assert s == front + [last];
      LastNew(front, last);
      DistinctCount(front);
      NamesSnoc(front, last);
    }
  }

  lemma NoNames()
    ensures NamesIn([]) == {}
  {
  }

  /** No more than the limit, no peer twice, nothing invented, and everybody if there is room. */
  lemma SelectionSound(policy: Policy, peers: seq<Peer>, limit: nat)
    requires Permutes(policy)
    ensures var r := First(Dedup(Preference(policy, policy.sort(peers))), limit);
      && |r| <= limit && DistinctPeers(r) && (forall p <- r :: p in peers)
      && (|NamesIn(peers)| <= limit ==> NamesIn(r) == NamesIn(peers))
  {
    hide Filter, Diverse, Dedup, Preference;
    var s := policy.sort(peers);
    var all := Preference(policy, s);
    DedupIs(all);
    PreferenceIs(policy, s);
    SameElements(s, peers);
    assert NamesIn(s) == NamesIn(peers);
    DistinctCount(Dedup(all));
    NamesBoth(all, s);
  }

  lemma NamesBoth(a: seq<Peer>, b: seq<Peer>)
    requires forall p :: p in a <==> p in b
    ensures NamesIn(a) == NamesIn(b)
  {
  }

  lemma {:induction false} DiverseIs(policy: Policy, s: seq<Peer>)
    ensures forall p <- Diverse(policy, s).0 :: p in s
  {
    if s != [] {
      DiverseIs(policy, s[..|s| - 1]);
      assert s == s[..|s| - 1] + [s[|s| - 1]];
    }
  }

  lemma PreferenceIs(policy: Policy, s: seq<Peer>)
    ensures forall p :: p in Preference(policy, s) <==> p in s
  {
    hide Filter, Diverse;
    FilterIs(s, IsFriend);
    FilterIs(s, WasUsed);
    FilterIs(s, IsClosest);
    DiverseIs(policy, s);
    FilterIs(s, IsActive);
    FilterIs(s, OnProbation);
    FilterIs(s, IsOffline);
    FilterIs(s, Anyone);
  }

  ghost function FriendNames(peers: seq<Peer>): set<string> {
    set p | p in peers && p.friend :: p.node.id
  }

  /** Friends are never the ones left out, as long as the friends alone fit. */
  lemma FriendsSelected(policy: Policy, peers: seq<Peer>, limit: nat)
    requires Permutes(policy) && |FriendNames(peers)| <= limit
    ensures var r := First(Dedup(Preference(policy, policy.sort(peers))), limit);
      forall id <- FriendNames(peers) :: id in NamesIn(r)
  {
    hide Filter, Diverse, Dedup;
    var s := policy.sort(peers);
    var friends := Filter(s, IsFriend);
    var rest := Filter(s, WasUsed) + Filter(s, IsClosest) + Diverse(policy, s).0 + Filter(s, IsActive)
      + Filter(s, OnProbation) + Filter(s, IsOffline) + Filter(s, Anyone);
    assert Preference(policy, s) == friends + rest;
    FilterIs(s, IsFriend);
    SameElements(s, peers);
    assert NamesIn(friends) == FriendNames(peers);
    DedupIs(friends);
    DistinctCount(Dedup(friends));
    DedupPrefix(friends, rest);
    FirstHolds(Dedup(friends), Dedup(friends + rest), limit);
  }

  lemma FirstHolds(a: seq<Peer>, b: seq<Peer>, limit: nat)
    requires a <= b && |a| <= limit
    ensures NamesIn(a) <= NamesIn(First(b, limit))
  {
    forall p <- a
      ensures p in First(b, limit)
    {
      var i :| 0 <= i < |a| && a[i] == p;
      assert First(b, limit)[i] == p;
    }
  }
}
