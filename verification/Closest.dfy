/** The known nearest to a target, as referrals are answered. */
module Closest {
  import opened Ordering
  import opened Slots
  import opened Routing
  import opened RoutingInv
  import Coordinates

  function Key(space: Space, node: NodeInfo, byName: bool): string {
    if byName then NameHash(space, node) else node.id
  }

  function Distance(space: Space, target: string, byName: bool, node: NodeInfo): nat {
    Coordinates.XorDistance(space.sha, Key(space, node, byName), target)
  }

  predicate Before(space: Space, target: string, byName: bool, a: NodeInfo, b: NodeInfo) {
    var da, db := Distance(space, target, byName, a), Distance(space, target, byName, b);
    da < db || (da == db && Alphabetical(a.id, b.id))
  }

  function Nearest(space: Space, target: string, byName: bool): (NodeInfo, NodeInfo) -> bool {
    (a, b) => Before(space, target, byName, a, b)
  }

  function Infos(peers: map<string, Peer>): map<string, NodeInfo> {
    map id | id in peers :: peers[id].node
  }

  /** The nodes of a list, and of all lists from the first bucket up. */
  function NodesIn(ids: seq<string>, known: map<string, NodeInfo>): (r: seq<NodeInfo>)
    requires forall id <- ids :: id in known
    ensures |r| == |ids| && forall k :: 0 <= k < |r| ==> r[k] == known[ids[k]]
  {
    seq(|ids|, k requires 0 <= k < |ids| => known[ids[k]])
  }

  function AllNodes(ix: Index, known: map<string, NodeInfo>): seq<NodeInfo>
    requires forall i :: 0 <= i < |ix| ==> forall id <- ix[i] :: id in known
  {
    if ix == [] then [] else AllNodes(ix[..|ix| - 1], known) + NodesIn(ix[|ix| - 1], known)
  }

  function Chosen(space: Space, target: string, byName: bool, nodes: seq<NodeInfo>, count: int): seq<NodeInfo> {
    if count <= 0 then []
    else
      var all := Sort(Nearest(space, target, byName), nodes);
      if |all| > count then all[..count] else all
  }

  ghost predicate Known(ix: Index, known: map<string, NodeInfo>) {
    forall i :: 0 <= i < |ix| ==> forall id <- ix[i] :: id in known
  }

  function ClosestFrom(space: Space, t: Table, target: string, count: int, byName: bool): seq<NodeInfo>
    requires Known(if byName then t.nameBuckets else t.buckets, Infos(t.peers))
  {
    Chosen(space, target, byName, AllNodes(if byName then t.nameBuckets else t.buckets, Infos(t.peers)), count)
  }

  // --------------------------------------------------------------- the order

  lemma NearestRanks(space: Space, target: string, byName: bool)
    ensures Ranking(Nearest(space, target, byName))
  {
    hide Distance, Alphabetical;
    StringOrder();
    var le := Nearest(space, target, byName);
    forall a, b
      ensures le(a, b) || le(b, a)
    {
      assert Alphabetical(a.id, b.id) || Alphabetical(b.id, a.id);
    }
    forall a, b, c | le(a, b) && le(b, c)
      ensures le(a, c)
    {
      assert Alphabetical(a.id, b.id) && Alphabetical(b.id, c.id) ==> Alphabetical(a.id, c.id);
    }
  }

  /** Two different known never tie. */
  lemma NeverTies(space: Space, target: string, byName: bool, a: NodeInfo, b: NodeInfo)
    requires Before(space, target, byName, a, b) && Before(space, target, byName, b, a)
    ensures a.id == b.id
  {
    StringOrder();
  }

  // --------------------------------------------------- what the lists contain

  ghost predicate DistinctIds(nodes: seq<NodeInfo>) {
    forall i, j :: 0 <= i < j < |nodes| ==> nodes[i].id != nodes[j].id
  }

  /** nodes holds exactly the known in ids, each once and as the table knows it. */
  ghost predicate Holds(nodes: seq<NodeInfo>, ids: set<string>, known: map<string, NodeInfo>) {
    && DistinctIds(nodes)
    && (forall n <- nodes :: n.id in ids && n.id in known && n == known[n.id])
    && (forall id <- ids :: exists k :: 0 <= k < |nodes| && nodes[k].id == id)
  }

  ghost predicate OwnIds(known: map<string, NodeInfo>) {
    forall id :: id in known ==> known[id].id == id
  }

  lemma {:induction false} AllNodesHold(ix: Index, slot: string -> int, known: map<string, NodeInfo>)
    requires Known(ix, known) && OwnIds(known)
    requires forall i :: 0 <= i < |ix| ==> NoRepeats(ix[i])
    requires forall i, id :: 0 <= i < |ix| && id in ix[i] ==> slot(id) == i
    ensures Holds(AllNodes(ix, known), Ids(ix), known)
    decreases |ix|
  {
    if ix != [] {
      var n := |ix| - 1;
      var front, list := AllNodes(ix[..n], known), NodesIn(ix[n], known);
      AllNodesHold(ix[..n], slot, known);
      assert DistinctIds(list);
      forall i, j | 0 <= i < |front| && 0 <= j < |list|
        ensures front[i].id != list[j].id
      {
        assert front[i] in front && ix[n][j] in ix[n];
        assert front[i].id in Ids(ix[..n]);
        var b :| 0 <= b < n && front[i].id in ix[..n][b];
        assert front[i].id in ix[b] && slot(front[i].id) == b;
        var id := ix[n][j];
        assert slot(id) == n && id in known && list[j] == known[id];
      }
      AppendHolds(front, list, Ids(ix[..n]), ix, known);
    }
  }

  lemma AppendHolds(front: seq<NodeInfo>, list: seq<NodeInfo>, ids: set<string>, ix: Index, known: map<string, NodeInfo>)
    requires ix != [] && Known(ix, known) && OwnIds(known) && ids == Ids(ix[..|ix| - 1]) && list == NodesIn(ix[|ix| - 1], known)
    requires Holds(front, ids, known) && DistinctIds(list)
    requires forall i, j :: 0 <= i < |front| && 0 <= j < |list| ==> front[i].id != list[j].id
    ensures Holds(front + list, Ids(ix), known)
  {
    var n, nodes := |ix| - 1, front + list;
    assert DistinctIds(nodes);
    forall x <- nodes
      ensures x.id in Ids(ix) && x.id in known && x == known[x.id]
    {
      if x in front {
        var b :| 0 <= b < n && x.id in ix[..n][b];
        assert x.id in ix[b];
      } else {
        var k :| 0 <= k < |list| && list[k] == x;
        assert ix[n][k] in ix[n] && x.id == ix[n][k];
      }
    }
    forall id <- Ids(ix)
      ensures exists k :: 0 <= k < |nodes| && nodes[k].id == id
    {
      IdsListed(ix, id);
      var b :| 0 <= b < |ix| && id in ix[b];
      if b < n {
        assert id in ix[..n][b];
        IdsListed(ix[..n], id);
        var k :| 0 <= k < |front| && front[k].id == id;
        assert nodes[k].id == id;
      } else {
        var k :| 0 <= k < |ix[n]| && ix[n][k] == id;
        assert list[k].id == id;
        assert nodes[|front| + k].id == id;
      }
    }
  }

  // ------------------------------------------------------------- the selection

  /**
   * r is the count nearest of the known in ids: in order, each once, and everything
   * left out is strictly farther than everything chosen.
   */
  ghost predicate NearestOf(space: Space, target: string, byName: bool, r: seq<NodeInfo>, count: int,
                            ids: set<string>, known: map<string, NodeInfo>) {
    && DistinctIds(r) && Sorted(Nearest(space, target, byName), r)
    && (forall n <- r :: n.id in ids && n.id in known && n == known[n.id])
    && |r| == (if count <= 0 then 0 else if count < |ids| then count else |ids|)
    && (forall id <- ids :: id in known && ((exists k :: 0 <= k < |r| && r[k].id == id) || count <= 0 || Farther(space, target, byName, r, known[id])))
  }

  ghost predicate Farther(space: Space, target: string, byName: bool, r: seq<NodeInfo>, node: NodeInfo) {
    forall k :: 0 <= k < |r| ==> Before(space, target, byName, r[k], node) && !Before(space, target, byName, node, r[k])
  }

  lemma {:induction false} HoldsCount(nodes: seq<NodeInfo>, ids: set<string>, known: map<string, NodeInfo>)
    requires Holds(nodes, ids, known)
    ensures |nodes| == |ids|
    decreases |nodes|
  {
    if nodes == [] {
      assert forall id :: id !in ids;
    } else {
      var last := nodes[|nodes| - 1];
      var front := nodes[..|nodes| - 1];
      forall id <- ids - {last.id}
        ensures exists k :: 0 <= k < |front| && front[k].id == id
      {
        var k :| 0 <= k < |nodes| && nodes[k].id == id;
        assert front[k].id == id;
      }
      assert last in nodes;
      HoldsCount(front, ids - {last.id}, known);
    }
  }

  /** Sorting keeps what the list holds. */
  lemma SortHolds(le: (NodeInfo, NodeInfo) -> bool, nodes: seq<NodeInfo>, ids: set<string>, known: map<string, NodeInfo>)
    requires Ranking(le) && Holds(nodes, ids, known)
    ensures Holds(Sort(le, nodes), ids, known)
  {
    hide Ranking, Sorted, Sort;
    var all := Sort(le, nodes);
    SortSorts(le, nodes);
    SameElements(all, nodes);
    NoRepeatsByCount(all, nodes);
    forall i, j | 0 <= i < j < |all|
      ensures all[i].id != all[j].id
    {
      assert all[i] in nodes && all[j] in nodes;
    }
    forall id <- ids
      ensures exists k :: 0 <= k < |all| && all[k].id == id
    {
      var k :| 0 <= k < |nodes| && nodes[k].id == id;
      assert nodes[k] in all;
    }
  }

  /** Past the cut, everything is strictly farther than everything before it. */
  lemma CutFarther(space: Space, target: string, byName: bool, all: seq<NodeInfo>, cut: nat, k: nat)
    requires DistinctIds(all) && Sorted(Nearest(space, target, byName), all) && cut <= k < |all|
    ensures Farther(space, target, byName, all[..cut], all[k])
  {
    hide Before;
    forall i | 0 <= i < cut
      ensures Before(space, target, byName, all[i], all[k]) && !Before(space, target, byName, all[k], all[i])
    {
      assert Nearest(space, target, byName)(all[i], all[k]);
      if Before(space, target, byName, all[k], all[i]) {
        NeverTies(space, target, byName, all[i], all[k]);
      }
    }
  }

  /** Everybody held is among the first cut or farther than all of those. */
  lemma CutOrKept(space: Space, target: string, byName: bool, all: seq<NodeInfo>, cut: nat, ids: set<string>, known: map<string, NodeInfo>, id: string)
    requires Holds(all, ids, known) && Sorted(Nearest(space, target, byName), all) && cut <= |all| && id in ids
    ensures id in known
    ensures (exists k :: 0 <= k < cut && all[..cut][k].id == id) || Farther(space, target, byName, all[..cut], known[id])
  {
    hide Nearest, Farther, Sorted;
    var k :| 0 <= k < |all| && all[k].id == id;
    assert all[k] in all;
    if k < cut {
      assert all[..cut][k].id == id;
    } else {
      CutFarther(space, target, byName, all, cut, k);
    }
  }

  lemma ChosenNearest(space: Space, target: string, byName: bool, nodes: seq<NodeInfo>, count: int,
                      ids: set<string>, known: map<string, NodeInfo>)
    requires Holds(nodes, ids, known)
    ensures NearestOf(space, target, byName, Chosen(space, target, byName, nodes, count), count, ids, known)
  {
    hide Before, Sort, Farther, Nearest, Ranking;
    var le := Nearest(space, target, byName);
    var r, all := Chosen(space, target, byName, nodes, count), Sort(le, nodes);
    NearestRanks(space, target, byName);
    SortSorts(le, nodes);
    SortHolds(le, nodes, ids, known);
    HoldsCount(all, ids, known);
    if count > 0 {
      assert r == all[..|r|];
      forall id <- ids
        ensures id in known && ((exists k :: 0 <= k < |r| && r[k].id == id) || Farther(space, target, byName, r, known[id]))
      {
        CutOrKept(space, target, byName, all, |r|, ids, known, id);
      }
    }
  }

  /** Every referral answer, on every reachable table, names exactly the nearest active known. */
  lemma ClosestExact(space: Space, t: Table, target: string, count: int)
    requires Inv(space, t)
    ensures Known(t.buckets, Infos(t.peers))
    ensures NearestOf(space, target, false, ClosestFrom(space, t, target, count, false), count, Active(t), Infos(t.peers))
  {
    hide NearestOf, Chosen, Holds, AllNodes;
    KnownLists(space, t);
    AllNodesHold(t.buckets, IdSlots(space, t.selfId), Infos(t.peers));
    ChosenNearest(space, target, false, AllNodes(t.buckets, Infos(t.peers)), count, Active(t), Infos(t.peers));
  }

  /** Once self has a name the name index answers for the same known. */
  lemma ClosestByNameExact(space: Space, t: Table, target: string, count: int)
    requires Inv(space, t)
    ensures Known(t.nameBuckets, Infos(t.peers))
    ensures NearestOf(space, target, true, ClosestFrom(space, t, target, count, true), count, Ids(t.nameBuckets), Infos(t.peers))
    ensures t.selfNameHash != "" ==> Ids(t.nameBuckets) == Active(t)
  {
    hide NearestOf, Chosen, Holds, AllNodes;
    KnownLists(space, t);
    AllNodesHold(t.nameBuckets, NameSlots(space, t.selfNameHash, t.peers), Infos(t.peers));
    ChosenNearest(space, target, true, AllNodes(t.nameBuckets, Infos(t.peers)), count, Ids(t.nameBuckets), Infos(t.peers));
  }

  lemma KnownLists(space: Space, t: Table)
    requires Inv(space, t)
    ensures Known(t.buckets, Infos(t.peers)) && Known(t.nameBuckets, Infos(t.peers)) && OwnIds(Infos(t.peers))
  {
    hide NoRepeats, IdSlots, NameSlots;
    forall i | 0 <= i < BUCKETS
      ensures (forall id <- t.buckets[i] :: id in t.peers) && (forall id <- t.nameBuckets[i] :: id in t.peers)
    {
      forall id <- t.buckets[i]
        ensures id in t.peers
      {
        assert id in Ids(t.buckets);
      }
      forall id <- t.nameBuckets[i]
        ensures id in t.peers
      {
        assert id in Ids(t.nameBuckets);
      }
    }
    forall id | id in t.peers
      ensures t.peers[id].node.id == id
    {
      assert PeerOk(t.selfId, id, t.peers[id]);
    }
  }

  /** The answer depends on which peers are active and nothing else: two such answers are the same list. */
  lemma NearestUnique(space: Space, target: string, byName: bool, r: seq<NodeInfo>, s: seq<NodeInfo>, count: int,
                      ids: set<string>, known: map<string, NodeInfo>)
    requires NearestOf(space, target, byName, r, count, ids, known) && NearestOf(space, target, byName, s, count, ids, known)
    ensures r == s
  {
    SameLength(space, target, byName, r, s, count, ids, known);
    FirstSame(space, target, byName, r, s, count, ids, known, |r|);
    assert r == r[..|r|] && s == s[..|s|];
  }

  lemma SameLength(space: Space, target: string, byName: bool, r: seq<NodeInfo>, s: seq<NodeInfo>, count: int,
                   ids: set<string>, known: map<string, NodeInfo>)
    requires NearestOf(space, target, byName, r, count, ids, known) && NearestOf(space, target, byName, s, count, ids, known)
    ensures |r| == |s|
  {
  }

  /** Position by position: the k-th of each list is in the other, and not later. */
  lemma {:induction false} FirstSame(space: Space, target: string, byName: bool, r: seq<NodeInfo>, s: seq<NodeInfo>, count: int,
                                     ids: set<string>, known: map<string, NodeInfo>, k: nat)
    requires NearestOf(space, target, byName, r, count, ids, known) && NearestOf(space, target, byName, s, count, ids, known)
    requires k <= |r| == |s|
    ensures r[..k] == s[..k]
  {
    hide NearestOf, Before;
    if k > 0 {
      FirstSame(space, target, byName, r, s, count, ids, known, k - 1);
      forall i | 0 <= i < k - 1
        ensures r[i] == s[i]
      {
        assert r[i] == r[..k - 1][i] && s[i] == s[..k - 1][i];
      }
      NotEarlier(space, target, byName, r, s, count, ids, known, k - 1);
      NotEarlier(space, target, byName, s, r, count, ids, known, k - 1);
      NeverTies(space, target, byName, r[k - 1], s[k - 1]);
      Listed(space, target, byName, r, count, ids, known, k - 1);
      Listed(space, target, byName, s, count, ids, known, k - 1);
      assert r[..k] == r[..k - 1] + [r[k - 1]] && s[..k] == s[..k - 1] + [s[k - 1]];
    }
  }

  lemma Listed(space: Space, target: string, byName: bool, r: seq<NodeInfo>, count: int, ids: set<string>,
               known: map<string, NodeInfo>, k: nat)
    requires NearestOf(space, target, byName, r, count, ids, known) && k < |r|
    ensures r[k].id in ids && r[k].id in known && r[k] == known[r[k].id]
  {
    assert r[k] in r;
  }

  lemma NotEarlier(space: Space, target: string, byName: bool, r: seq<NodeInfo>, s: seq<NodeInfo>, count: int,
                   ids: set<string>, known: map<string, NodeInfo>, k: nat)
    requires NearestOf(space, target, byName, r, count, ids, known) && NearestOf(space, target, byName, s, count, ids, known)
    requires k < |r| == |s| && forall i :: 0 <= i < k ==> r[i] == s[i]
    ensures Before(space, target, byName, s[k], r[k])
  {
    hide Before;
    assert r[k] in r;
    var id := r[k].id;
    if j :| 0 <= j < |s| && s[j].id == id {
      assert s[j] in s;
      if j > k {
        assert Nearest(space, target, byName)(s[k], s[j]);
      } else {
        NearestRanks(space, target, byName);
        assert Nearest(space, target, byName)(s[k], s[k]);
      }
    } else {
      assert Farther(space, target, byName, s, r[k]);
    }
  }
}
