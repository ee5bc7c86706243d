/** The iterative walk that looks for nodes: ask the nearest unasked peers, learn their referrals, repeat. */
module Lookup {
  import opened Ordering
  import opened Routing
  import opened Closest

  const K := 20

  datatype Limits = Limits(maxRounds: nat, maxConcurrent: nat, maxPeerQueries: nat)

  /** A name hash or a node ID. */
  datatype Target = Target(byName: bool, point: string)

  predicate Matches(space: Space, target: Target, node: NodeInfo) {
    if target.byName then space.hashName(node.name) == target.point && (node.nameHash == "" || node.nameHash == target.point)
    else node.id == target.point
  }

  /** A referral with the verdict of the signature check made when it arrived. */
  datatype Referral = Referral(node: NodeInfo, verified: bool)

  datatype Reply = Failed | Answered(referrals: seq<Referral>, value: string)

  /** A locally known contact the walk starts from. */
  datatype Seed = Seed(node: NodeInfo, active: bool, verified: bool)

  /** Everything outside the walk: no peer is asked twice, so one reply per peer is all there is. */
  datatype World = World(space: Space, target: Target, limits: Limits, seeds: seq<Seed>, contacts: seq<NodeInfo>, net: NodeInfo -> Reply)

  predicate Taken(r: Referral) {
    r.verified && r.node.id != "" && r.node.addr != ""
  }

  /** from answers, and its answer holds node with a good signature. */
  ghost predicate Refers(world: World, from: NodeInfo, node: NodeInfo) {
    world.net(from).Answered? && exists r <- world.net(from).referrals :: r.verified && r.node.id != "" && r.node.addr != "" && r.node == node
  }

  ghost predicate Seeded(world: World, node: NodeInfo) {
    exists s <- world.seeds :: s.node == node && (s.active || s.verified)
  }

  /** Where a walk stands: what it knows, whom it asked, whose replies it has read. */
  datatype Walk = Walk(known: map<string, NodeInfo>, asked: seq<string>, done: set<string>, failures: nat, heard: seq<NodeInfo>)

  ghost predicate Told(world: World, w: Walk, node: NodeInfo) {
    exists id :: id in w.done && id in w.known && Refers(world, w.known[id], node)
  }

  /** Everything a read reply referred to is heard, and nothing else is. */
  ghost predicate Heard(world: World, w: Walk) {
    && (forall n <- w.heard :: Told(world, w, n))
    && (forall id, n :: id in w.done && id in w.known && Refers(world, w.known[id], n) ==> n in w.heard)
  }

  ghost predicate Counted(world: World, w: Walk) {
    w.failures == 0 <==> forall id :: id in w.done && id in w.known ==> world.net(w.known[id]).Answered?
  }

  ghost predicate Grounded(world: World, w: Walk) {
    forall id :: id in w.known ==> Seeded(world, w.known[id]) || w.known[id] in world.contacts || w.known[id] in w.heard
  }

  function AskedSet(w: Walk): set<string> {
    set id | id in w.asked
  }

  /** The j-th peer asked was a seed or contact, or was named by one asked before it. */
  ghost predicate Rooted(world: World, w: Walk, j: nat)
    requires j < |w.asked|
  {
    && w.asked[j] in w.known
    && (Seeded(world, w.known[w.asked[j]]) || w.known[w.asked[j]] in world.contacts
        || exists i :: 0 <= i < j && w.asked[i] in w.known && Refers(world, w.known[w.asked[i]], w.known[w.asked[j]]))
  }

  ghost predicate Traced(world: World, w: Walk) {
    forall j :: 0 <= j < |w.asked| ==> Rooted(world, w, j)
  }

  /** The walk has also tried the contacts it falls back on. */
  ghost predicate Contacted(world: World, w: Walk) {
    forall c <- world.contacts :: c.id in w.known
  }

  ghost predicate Planted(world: World, w: Walk) {
    forall s <- world.seeds :: s.active || s.verified ==> s.node.id in w.known
  }

  ghost predicate Consistent(world: World, w: Walk) {
    && OwnIds(w.known) && NoRepeats(w.asked)
    && (forall id <- w.asked :: id in w.known)
    && (forall id <- w.done :: id in w.asked)
    && (forall n <- w.heard :: n.id in w.known)
    && Heard(world, w) && Counted(world, w) && Grounded(world, w)
    && Traced(world, w) && Planted(world, w)
  }

  /** Every known peer was asked and answered, so the known peers are closed under referral. */
  ghost predicate Exhausted(world: World, w: Walk) {
    && (forall id :: id in w.known ==> id in w.asked && id in w.done && world.net(w.known[id]).Answered?)
    && (forall id, n :: id in w.known && Refers(world, w.known[id], n) ==> n.id in w.known)
  }

  // --------------------------------------------------------- one reply at a time

  ghost predicate Extends(known: map<string, NodeInfo>, known': map<string, NodeInfo>) {
    forall id :: id in known ==> id in known' && known'[id] == known[id]
  }

  function TakenNodes(refs: seq<Referral>): seq<NodeInfo> {
    if refs == [] then []
    else TakenNodes(refs[..|refs| - 1]) + (if Taken(refs[|refs| - 1]) then [refs[|refs| - 1].node] else [])
  }

  lemma {:induction false} TakenNodesAre(refs: seq<Referral>)
    ensures forall n :: n in TakenNodes(refs) <==> exists r <- refs :: Taken(r) && r.node == n
  {
    if refs != [] {
      var front, last := refs[..|refs| - 1], refs[|refs| - 1];
      TakenNodesAre(front);
      assert refs == front + [last];
      forall n
        ensures n in TakenNodes(refs) <==> exists r <- refs :: Taken(r) && r.node == n
      {
        if n in TakenNodes(front) {
          var r :| r in front && Taken(r) && r.node == n;
          assert r in refs;
        }
      }
    }
  }

  lemma TakenSnoc(refs: seq<Referral>, i: nat)
    requires i < |refs|
    ensures TakenNodes(refs[..i + 1]) == if Taken(refs[i]) then TakenNodes(refs[..i]) + [refs[i].node] else TakenNodes(refs[..i])
  {
    hide Taken;
    assert refs[..i + 1][..i] == refs[..i];
  }

  /** matches holds the identities of the matching nodes in nodes. */
  ghost predicate MatchesAre(world: World, matches: map<string, NodeInfo>, nodes: seq<NodeInfo>) {
    && (forall id :: id in matches ==> matches[id].id == id && matches[id] in nodes && Matches(world.space, world.target, matches[id]))
    && (forall n <- nodes :: Matches(world.space, world.target, n) ==> n.id in matches)
  }

  lemma MatchedOne(world: World, matches: map<string, NodeInfo>, nodes: seq<NodeInfo>, node: NodeInfo)
    requires MatchesAre(world, matches, nodes)
    ensures MatchesAre(world, if Matches(world.space, world.target, node) then matches[node.id := node] else matches, nodes + [node])
  {
    hide Matches;
  }

  /** known' adds the nodes in taken whose IDs known does not have. */
  ghost predicate Learned(known: map<string, NodeInfo>, known': map<string, NodeInfo>, taken: seq<NodeInfo>) {
    && OwnIds(known') && Extends(known, known')
    && (forall n <- taken :: n.id in known')
    && (forall id :: id in known' && id !in known ==> known'[id] in taken)
  }

  lemma LearnedOne(known: map<string, NodeInfo>, known': map<string, NodeInfo>, taken: seq<NodeInfo>, node: NodeInfo)
    requires Learned(known, known', taken)
    ensures Learned(known, if node.id in known' then known' else known'[node.id := node], taken + [node])
  {
  }

  method Absorb(world: World, known: map<string, NodeInfo>, matches: map<string, NodeInfo>, refs: seq<Referral>, ghost nodes: seq<NodeInfo>)
    returns (known': map<string, NodeInfo>, matches': map<string, NodeInfo>)
    requires OwnIds(known) && MatchesAre(world, matches, nodes)
    ensures Learned(known, known', TakenNodes(refs))
    ensures MatchesAre(world, matches', nodes + TakenNodes(refs))
  {
    known', matches' := known, matches;
    assert nodes + TakenNodes(refs[..0]) == nodes && Learned(known, known', TakenNodes(refs[..0]));
    hide Matches, Learned, MatchesAre, OwnIds, TakenNodes, Taken;
    for i := 0 to |refs|
      invariant Learned(known, known', TakenNodes(refs[..i]))
      invariant MatchesAre(world, matches', nodes + TakenNodes(refs[..i]))
    {
      TakenSnoc(refs, i);
      var node := refs[i].node;
      if Taken(refs[i]) {
        assert nodes + TakenNodes(refs[..i + 1]) == (nodes + TakenNodes(refs[..i])) + [node];
        LearnedOne(known, known', TakenNodes(refs[..i]), node);
        MatchedOne(world, matches', nodes + TakenNodes(refs[..i]), node);
        if node.id !in known' {
          known' := known'[node.id := node];
        }
        if Matches(world.space, world.target, node) {
          matches' := matches'[node.id := node];
        }
      }
    }
    assert refs[..|refs|] == refs;
  }

  /** The state after asking a batch. */
  function Asking(w: Walk, batch: seq<NodeInfo>): Walk {
    w.(asked := w.asked + NamesOf(batch))
  }

  function NamesOf(nodes: seq<NodeInfo>): (r: seq<string>)
    ensures |r| == |nodes| && forall k :: 0 <= k < |r| ==> r[k] == nodes[k].id
  {
    seq(|nodes|, k requires 0 <= k < |nodes| => nodes[k].id)
  }

  lemma AskingKeeps(world: World, w: Walk, batch: seq<NodeInfo>)
    requires Consistent(world, w) && DistinctIds(batch) && w.done == AskedSet(w)
    requires forall n <- batch :: n.id in w.known && n.id !in w.asked
    ensures Consistent(world, Asking(w, batch))
  {
    hide OwnIds, Refers, Seeded, Rooted;
    var w' := Asking(w, batch);
    assert forall n <- w.heard :: Told(world, w, n) ==> Told(world, w', n);
    forall i, j | 0 <= i < j < |w'.asked|
      ensures w'.asked[i] != w'.asked[j]
    {
      if i < |w.asked| <= j {
        assert batch[j - |w.asked|] in batch;
      }
    }
    forall id <- w'.asked
      ensures id in w'.known
    {
      if id !in w.asked {
        var k :| 0 <= k < |batch| && batch[k].id == id;
        assert batch[k] in batch;
      }
    }
    forall j | 0 <= j < |w'.asked|
      ensures Rooted(world, w', j)
    {
      AskingRooted(world, w, batch, j);
    }
  }

  lemma AskingRooted(world: World, w: Walk, batch: seq<NodeInfo>, j: nat)
    requires Consistent(world, w) && w.done == AskedSet(w) && j < |Asking(w, batch).asked|
    requires forall n <- batch :: n.id in w.known
    ensures Rooted(world, Asking(w, batch), j)
  {
    hide OwnIds, Refers, Seeded, NoRepeats, Counted, Planted;
    var w' := Asking(w, batch);
    if j < |w.asked| {
      assert Rooted(world, w, j) && w'.asked[j] == w.asked[j];
      if i :| 0 <= i < j && w.asked[i] in w.known && Refers(world, w.known[w.asked[i]], w.known[w.asked[j]]) {
        assert w'.asked[i] == w.asked[i];
      }
    } else {
      assert batch[j - |w.asked|] in batch;
      var node := w.known[w'.asked[j]];
      if node in w.heard {
        assert Told(world, w, node);
        var id :| id in w.done && id in w.known && Refers(world, w.known[id], node);
        var i :| 0 <= i < |w.asked| && w.asked[i] == id;
        assert w'.asked[i] == id;
      }
    }
  }

  /** Learning more peers disturbs nothing about those already asked. */
  lemma TracedKeeps(world: World, w: Walk, w': Walk)
    requires Traced(world, w) && Planted(world, w) && w'.asked == w.asked && Extends(w.known, w'.known)
    ensures Traced(world, w') && Planted(world, w')
  {
    hide Refers, Seeded;
    forall j | 0 <= j < |w'.asked|
      ensures Rooted(world, w', j)
    {
      assert Rooted(world, w, j) && w'.known[w'.asked[j]] == w.known[w.asked[j]];
      if i :| 0 <= i < j && w.asked[i] in w.known && Refers(world, w.known[w.asked[i]], w.known[w.asked[j]]) {
        assert w'.known[w'.asked[i]] == w.known[w.asked[i]];
      }
    }
  }

  /** The state after reading one reply. */
  ghost predicate Reads(world: World, w: Walk, node: NodeInfo, w': Walk) {
    && w'.asked == w.asked && w'.done == w.done + {node.id}
    && match world.net(node)
       case Failed => w'.known == w.known && w'.heard == w.heard && w'.failures == w.failures + 1
       case Answered(refs, _) =>
         w'.failures == w.failures && w'.heard == w.heard + TakenNodes(refs) && Learned(w.known, w'.known, TakenNodes(refs))
  }

  lemma ReadKeeps(world: World, w: Walk, node: NodeInfo, w': Walk)
    requires Consistent(world, w) && node.id in w.asked && node.id !in w.done && w.known[node.id] == node
    requires Reads(world, w, node, w')
    ensures Consistent(world, w')
  {
    hide NoRepeats, Seeded, TakenNodes, Traced, Planted, Heard, Counted, Grounded;
    assert Extends(w.known, w'.known);
    TracedKeeps(world, w, w');
    ReadHears(world, w, node, w');
    ReadCounts(world, w, node, w');
    ReadGrounds(world, w, node, w');
  }

  lemma ReadHears(world: World, w: Walk, node: NodeInfo, w': Walk)
    requires Consistent(world, w) && node.id in w.asked && w.known[node.id] == node
    requires Reads(world, w, node, w') && Extends(w.known, w'.known)
    ensures Heard(world, w')
  {
    hide NoRepeats, Counted, Grounded, OwnIds, TakenNodes, Traced, Planted;
    if world.net(node).Answered? {
      TakenNodesAre(world.net(node).referrals);
    }
    forall n <- w'.heard
      ensures Told(world, w', n)
    {
      if n in w.heard {
        assert Told(world, w, n);
        var id :| id in w.done && id in w.known && Refers(world, w.known[id], n);
        assert id in w'.done && w'.known[id] == w.known[id];
      } else {
        assert Refers(world, w'.known[node.id], n);
      }
    }
    forall id, n | id in w'.done && id in w'.known && Refers(world, w'.known[id], n)
      ensures n in w'.heard
    {
      if id in w.done {
        assert id in w.asked && w'.known[id] == w.known[id];
      }
    }
  }

  lemma ReadCounts(world: World, w: Walk, node: NodeInfo, w': Walk)
    requires Consistent(world, w) && node.id in w.asked && w.known[node.id] == node
    requires Reads(world, w, node, w') && Extends(w.known, w'.known)
    ensures Counted(world, w')
  {
    hide NoRepeats, Heard, Grounded, OwnIds, TakenNodes, Traced, Planted;
    if world.net(node).Failed? {
      assert node.id in w'.done && node.id in w'.known && !world.net(w'.known[node.id]).Answered?;
    }
    forall id | id in w.done && id in w.known
      ensures id in w'.done && w'.known[id] == w.known[id]
    {
    }
    forall id | id in w'.done && id in w'.known && id != node.id
      ensures id in w.done && id in w.known && w'.known[id] == w.known[id]
    {
      assert id in w.asked;
    }
  }

  lemma ReadGrounds(world: World, w: Walk, node: NodeInfo, w': Walk)
    requires Consistent(world, w) && Reads(world, w, node, w') && Extends(w.known, w'.known)
    ensures Grounded(world, w')
  {
    hide NoRepeats, Heard, Counted, OwnIds, Seeded, TakenNodes, Traced, Planted;
    forall id | id in w'.known
      ensures Seeded(world, w'.known[id]) || w'.known[id] in world.contacts || w'.known[id] in w'.heard
    {
      if id in w.known {
        assert w'.known[id] == w.known[id];
      }
    }
  }

  /** When everything known has been asked and read without failure, the walk has seen all there is. */
  lemma ReadAll(world: World, w: Walk)
    requires Consistent(world, w) && w.failures == 0
    requires forall id :: id in w.known ==> id in w.asked && id in w.done
    ensures Exhausted(world, w)
  {
    hide Refers;
  }

  // ------------------------------------------------------------------ the walk

  datatype Outcome = Found | Conflict | NotFound | Incomplete

  datatype NodeResult = NodeResult(matches: seq<NodeInfo>, closest: seq<NodeInfo>, outcome: Outcome, queried: nat, rounds: nat)

  /** The nearest unasked peers; which order the map is walked in makes no difference. */
  method ClosestUnqueried(world: World, known: map<string, NodeInfo>, queried: set<string>, limit: int) returns (batch: seq<NodeInfo>)
    requires OwnIds(known)
    ensures NearestOf(world.space, world.target.point, world.target.byName, batch, limit, known.Keys - queried, known)
  {
    var all: seq<NodeInfo> := [];
    assert Holds(all, {}, known);
    hide NearestOf, Chosen, Holds, OwnIds;
    var unasked := known.Keys - queried;
    var left := unasked;
    assert unasked - left == {};
    while left != {}
      invariant left <= unasked && Holds(all, unasked - left, known)
      decreases |left|
    {
      var id :| id in left;
      HoldsOne(all, unasked - left, known, id);
      assert unasked - left + {id} == unasked - (left - {id});
      all := all + [known[id]];
      left := left - {id};
    }
    assert unasked - left == unasked;
    ChosenNearest(world.space, world.target.point, world.target.byName, all, limit, unasked, known);
    batch := Chosen(world.space, world.target.point, world.target.byName, all, limit);
  }

  lemma HoldsOne(nodes: seq<NodeInfo>, ids: set<string>, known: map<string, NodeInfo>, id: string)
    requires Holds(nodes, ids, known) && OwnIds(known) && id in known && id !in ids
    ensures Holds(nodes + [known[id]], ids + {id}, known)
  {
    var more := nodes + [known[id]];
    forall i, j | 0 <= i < j < |more|
      ensures more[i].id != more[j].id
    {
      assert more[i] in nodes;
    }
    forall x <- ids + {id}
      ensures exists k :: 0 <= k < |more| && more[k].id == x
    {
      if x in ids {
        var k :| 0 <= k < |nodes| && nodes[k].id == x;
        assert more[k].id == x;
      } else {
        assert more[|nodes|].id == x;
      }
    }
  }

  method SortedKnown(world: World, known: map<string, NodeInfo>, limit: nat) returns (r: seq<NodeInfo>)
    requires OwnIds(known)
    ensures NearestOf(world.space, world.target.point, world.target.byName, r, limit, known.Keys, known)
  {
    assert known.Keys - {} == known.Keys;
    r := ClosestUnqueried(world, known, {}, limit);
  }

  /**
   * Asks a batch and reads the replies in whatever order they come in; the deadline may
   * strike before any of them.
   */
  method Round(world: World, w: Walk, matches: map<string, NodeInfo>, batch: seq<NodeInfo>, ghost signed: seq<NodeInfo>)
    returns (w': Walk, matches': map<string, NodeInfo>, cut: bool)
    requires Consistent(world, w) && w.done == AskedSet(w) && MatchesAre(world, matches, signed + w.heard)
    requires DistinctIds(batch) && forall n <- batch :: n.id in w.known && n.id !in w.asked && w.known[n.id] == n
    ensures Consistent(world, w') && MatchesAre(world, matches', signed + w'.heard)
    ensures w'.asked == w.asked + NamesOf(batch) && (!cut ==> w'.done == AskedSet(w'))
    ensures Contacted(world, w) ==> Contacted(world, w')
  {
    hide Consistent, MatchesAre, TakenNodes, Learned, Extends;
    matches', cut := matches, false;
    AskingKeeps(world, w, batch);
    w' := Asking(w, batch);
    var waiting := set n | n in batch;
    while waiting != {}
      invariant Consistent(world, w') && w'.asked == w.asked + NamesOf(batch) && w.done <= w'.done
      invariant forall n <- waiting :: n in batch && n.id !in w'.done && n.id in w'.known && w'.known[n.id] == n
      invariant forall n <- batch :: n !in waiting ==> n.id in w'.done
      invariant Contacted(world, w) ==> Contacted(world, w')
      invariant MatchesAre(world, matches', signed + w'.heard)
      decreases |waiting|
    {
      if * {
        cut := true;
        return;
      }
      var node :| node in waiting;
      waiting := waiting - {node};
      ghost var before := w';
      w', matches' := Read(world, w', matches', node, signed);
      assert Contacted(world, before) ==> Contacted(world, w');
    }
    AllDone(world, w, batch, w');
  }

  method Read(world: World, w: Walk, matches: map<string, NodeInfo>, node: NodeInfo, ghost signed: seq<NodeInfo>)
    returns (w': Walk, matches': map<string, NodeInfo>)
    requires Consistent(world, w) && MatchesAre(world, matches, signed + w.heard)
    requires node.id in w.asked && node.id !in w.done && node.id in w.known && w.known[node.id] == node
    ensures Consistent(world, w') && MatchesAre(world, matches', signed + w'.heard)
    ensures w'.asked == w.asked && w'.done == w.done + {node.id}
    ensures forall id :: id in w.known ==> id in w'.known && w'.known[id] == w.known[id]
  {
    hide MatchesAre, TakenNodes, Heard, Counted, Grounded, NoRepeats, Traced, Planted;
    matches' := matches;
    match world.net(node)
    case Failed =>
      w' := w.(done := w.done + {node.id}, failures := w.failures + 1);
      ReadKeeps(world, w, node, w');
    case Answered(refs, _) =>
      var known;
      known, matches' := Absorb(world, w.known, matches, refs, signed + w.heard);
      w' := w.(done := w.done + {node.id}, known := known, heard := w.heard + TakenNodes(refs));
      assert signed + w'.heard == signed + w.heard + TakenNodes(refs);
      ReadKeeps(world, w, node, w');
  }

  lemma AllDone(world: World, w: Walk, batch: seq<NodeInfo>, w': Walk)
    requires Consistent(world, w') && w'.asked == w.asked + NamesOf(batch) && w.done == AskedSet(w) && w.done <= w'.done
    requires forall n <- batch :: n.id in w'.done
    ensures w'.done == AskedSet(w')
  {
    assert forall k :: 0 <= k < |batch| ==> batch[k] in batch;
    hide Heard, Counted, Grounded, NoRepeats, OwnIds, Traced, Planted;
  }

  function SignedNodes(seeds: seq<Seed>): seq<NodeInfo> {
    if seeds == [] then []
    else SignedNodes(seeds[..|seeds| - 1]) + (if seeds[|seeds| - 1].verified then [seeds[|seeds| - 1].node] else [])
  }

  function StartWalk(known: map<string, NodeInfo>): Walk {
    Walk(known, [], {}, 0, [])
  }

  method Start(world: World) returns (known: map<string, NodeInfo>, matches: map<string, NodeInfo>)
    ensures Consistent(world, StartWalk(known)) && MatchesAre(world, matches, SignedNodes(world.seeds))
  {
    known, matches := map[], map[];
    var seeds := world.seeds;
    assert MatchesAre(world, matches, SignedNodes(seeds[..0])) && Sown(world, known, 0);
    hide Matches, MatchesAre, SignedNodes, Sown;
    for i := 0 to |seeds|
      invariant Sown(world, known, i) && MatchesAre(world, matches, SignedNodes(seeds[..i]))
    {
      var seed := seeds[i];
      SignedSnoc(seeds, i);
      SownOne(world, known, i);
      if seed.active || seed.verified {
        known := known[seed.node.id := seed.node];
        if seed.verified {
          MatchedOne(world, matches, SignedNodes(seeds[..i]), seed.node);
          if Matches(world.space, world.target, seed.node) {
            matches := matches[seed.node.id := seed.node];
          }
        }
      }
    }
    assert seeds[..|seeds|] == seeds;
    Started(world, known);
  }

  /** known holds the first i seeds that are active or signed. */
  ghost predicate Sown(world: World, known: map<string, NodeInfo>, i: nat)
    requires i <= |world.seeds|
  {
    && OwnIds(known) && (forall id :: id in known ==> Seeded(world, known[id]))
    && (forall s <- world.seeds[..i] :: s.active || s.verified ==> s.node.id in known)
  }

  lemma SownOne(world: World, known: map<string, NodeInfo>, i: nat)
    requires i < |world.seeds| && Sown(world, known, i)
    ensures var s := world.seeds[i]; Sown(world, if s.active || s.verified then known[s.node.id := s.node] else known, i + 1)
  {
    var s := world.seeds[i];
    assert s in world.seeds && world.seeds[..i + 1] == world.seeds[..i] + [s];
    if s.active || s.verified {
      assert Seeded(world, s.node);
    }
  }

  lemma SignedSnoc(seeds: seq<Seed>, i: nat)
    requires i < |seeds|
    ensures SignedNodes(seeds[..i + 1]) == if seeds[i].verified then SignedNodes(seeds[..i]) + [seeds[i].node] else SignedNodes(seeds[..i])
  {
    assert seeds[..i + 1][..i] == seeds[..i];
  }

  lemma Started(world: World, known: map<string, NodeInfo>)
    requires Sown(world, known, |world.seeds|)
    ensures Consistent(world, StartWalk(known))
  {
    hide Seeded;
    assert world.seeds[..|world.seeds|] == world.seeds;
  }

  /** The walk's last resort: active peers in networks it has not tried. They are asked but not matched. */
  method AddContacts(world: World, w: Walk) returns (w': Walk)
    requires Consistent(world, w)
    ensures Consistent(world, w') && w' == w.(known := w'.known) && Contacted(world, w')
    ensures forall id :: id in w'.known ==> if id in w.known then w'.known[id] == w.known[id] else w'.known[id] in world.contacts
  {
    hide Refers, Seeded;
    var known := w.known;
    for i := 0 to |world.contacts|
      invariant OwnIds(known) && Extends(w.known, known)
      invariant forall id :: id in known && id !in w.known ==> known[id] in world.contacts
      invariant forall c <- world.contacts[..i] :: c.id in known
    {
      var peer := world.contacts[i];
      if peer.id !in known {
        known := known[peer.id := peer];
      }
    }
    assert world.contacts[..|world.contacts|] == world.contacts;
    w' := w.(known := known);
    ContactsKeep(world, w, w');
  }

  lemma ContactsKeep(world: World, w: Walk, w': Walk)
    requires Consistent(world, w) && w' == w.(known := w'.known) && OwnIds(w'.known) && Extends(w.known, w'.known)
    requires forall id :: id in w'.known && id !in w.known ==> w'.known[id] in world.contacts
    ensures Consistent(world, w')
  {
    hide Refers, Seeded, NoRepeats, Traced, Planted;
    TracedKeeps(world, w, w');
    forall id | id in w.done
      ensures id in w.known && id in w'.known && w'.known[id] == w.known[id]
    {
      assert id in w.asked;
    }
    forall n <- w'.heard
      ensures Told(world, w', n)
    {
      var id :| id in w.done && id in w.known && Refers(world, w.known[id], n);
      assert id in w'.known;
    }
  }

  // ------------------------------------------------------------------ outcomes

  /** The identities that match the target among everything the walk saw a good signature of. */
  ghost function Identities(world: World, w: Walk): set<string> {
    set n | n in SignedNodes(world.seeds) + w.heard && Matches(world.space, world.target, n) :: n.id
  }

  ghost predicate Unasked(w: Walk) {
    exists id :: id in w.known && id !in w.asked
  }

  /** What the outcome has to be, given where the walk stopped. */
  ghost function Verdict(world: World, w: Walk, cut: bool): Outcome {
    if cut then Incomplete
    else if !world.target.byName && Identities(world, w) != {} then Found
    else if Unasked(w) || w.failures > 0 then Incomplete
    else if |Identities(world, w)| == 0 then NotFound
    else if |Identities(world, w)| == 1 then Found
    else Conflict
  }

  lemma MatchesCount(world: World, w: Walk, matches: map<string, NodeInfo>)
    requires MatchesAre(world, matches, SignedNodes(world.seeds) + w.heard)
    ensures matches.Keys == Identities(world, w) && |matches| == |Identities(world, w)| && OwnIds(matches)
  {
    hide Matches;
    assert matches.Keys == Identities(world, w);
    assert |matches| == |matches.Keys|;
  }

  /** Looking for an ID can turn up no other identity. */
  lemma OneIdentity(world: World, w: Walk)
    requires !world.target.byName
    ensures Identities(world, w) <= {world.target.point}
    ensures |Identities(world, w)| <= 1
  {
    assert Identities(world, w) <= {world.target.point};
    if world.target.point in Identities(world, w) {
      assert Identities(world, w) == {world.target.point};
    } else {
      assert Identities(world, w) == {};
    }
  }

  /** The result and the walk it came from. */
  ghost predicate Reports(world: World, r: NodeResult, w: Walk, cut: bool) {
    && Consistent(world, w) && (!cut ==> w.done == AskedSet(w))
    && r.queried == |w.asked| <= world.limits.maxPeerQueries && r.rounds <= world.limits.maxRounds
    && r.outcome == Verdict(world, w, cut)
    && NearestOf(world.space, world.target.point, world.target.byName, r.closest, K, w.known.Keys, w.known)
    && (exists m :: Lists(world, w, r.matches, m))
  }

  /** found names every matching identity once, nearest first. */
  ghost predicate Lists(world: World, w: Walk, found: seq<NodeInfo>, m: map<string, NodeInfo>) {
    && MatchesAre(world, m, SignedNodes(world.seeds) + w.heard)
    && NearestOf(world.space, world.target.point, world.target.byName, found, |m|, m.Keys, m)
  }

  method Report(world: World, w: Walk, matches: map<string, NodeInfo>, outcome: Outcome, rounds: nat, ghost cut: bool)
    returns (r: NodeResult)
    requires Consistent(world, w) && (!cut ==> w.done == AskedSet(w))
    requires |w.asked| <= world.limits.maxPeerQueries && rounds <= world.limits.maxRounds
    requires MatchesAre(world, matches, SignedNodes(world.seeds) + w.heard) && outcome == Verdict(world, w, cut)
    ensures Reports(world, r, w, cut) && r.outcome == outcome && r.queried == |w.asked| && r.rounds == rounds
  {
    MatchesCount(world, w, matches);
    OwnKnown(world, w);
    hide Consistent, MatchesAre, Verdict, NearestOf, OwnIds, SignedNodes;
    var found := SortedKnown(world, matches, |matches|);
    var closest := SortedKnown(world, w.known, K);
    r := NodeResult(found, closest, outcome, |w.asked|, rounds);
    assert Lists(world, w, found, matches);
  }

  lemma OwnKnown(world: World, w: Walk)
    requires Consistent(world, w)
    ensures OwnIds(w.known)
  {
  }

  /** What the walk concludes once it has not been cut short. */
  method Conclude(world: World, w: Walk, matches: map<string, NodeInfo>, unasked: bool, rounds: nat)
    returns (r: NodeResult)
    requires Consistent(world, w) && w.done == AskedSet(w) && (unasked <==> Unasked(w))
    requires |w.asked| <= world.limits.maxPeerQueries && rounds <= world.limits.maxRounds
    requires MatchesAre(world, matches, SignedNodes(world.seeds) + w.heard)
    requires !world.target.byName ==> matches == map[]
    ensures Reports(world, r, w, false) && r.queried == |w.asked| && r.rounds == rounds
    ensures r.outcome == Incomplete <==> unasked || w.failures > 0
  {
    MatchesCount(world, w, matches);
    hide Consistent, MatchesAre, NearestOf, Reports, SignedNodes, Unasked, OwnIds, Identities;
    var outcome :=
      if unasked || w.failures > 0 then Incomplete
      else if |matches| == 0 then NotFound
      else if |matches| == 1 then Found
      else Conflict;
    r := Report(world, w, matches, outcome, rounds, false);
  }

  predicate WithinLimits(world: World, r: NodeResult) {
    r.queried < world.limits.maxPeerQueries && r.rounds < world.limits.maxRounds
  }

  /** The whole lookup, with the walk that led to the outcome. */
  method FindNode(world: World) returns (r: NodeResult, w: Walk, cut: bool)
    requires world.limits.maxConcurrent > 0
    ensures Reports(world, r, w, cut)
    ensures r.outcome.Found? && world.target.byName ==> Exhausted(world, w) && |Identities(world, w)| == 1
    ensures r.outcome.Conflict? ==> world.target.byName && Exhausted(world, w) && |Identities(world, w)| > 1
    ensures r.outcome.NotFound? ==> Exhausted(world, w) && Identities(world, w) == {}
    ensures r.outcome.Found? && !world.target.byName ==> Identities(world, w) == {world.target.point}
    ensures WithinLimits(world, r) && r.outcome != Incomplete && (world.target.byName || r.outcome != Found) ==> Complete(world, w)
    ensures r.outcome == Incomplete ==> cut || w.failures > 0 || !WithinLimits(world, r)
  {
    r, w, cut := Search(world);
    Reported(world, r, w, cut);
  }

  lemma Reported(world: World, r: NodeResult, w: Walk, cut: bool)
    requires Reports(world, r, w, cut)
    ensures r.outcome.Found? && world.target.byName ==> Exhausted(world, w) && |Identities(world, w)| == 1
    ensures r.outcome.Conflict? ==> world.target.byName && Exhausted(world, w) && |Identities(world, w)| > 1
    ensures r.outcome.NotFound? ==> Exhausted(world, w) && Identities(world, w) == {}
    ensures r.outcome.Found? && !world.target.byName ==> Identities(world, w) == {world.target.point}
  {
    hide Consistent, NearestOf, Exhausted, Identities;
    if !cut && !Unasked(w) && w.failures == 0 {
      assert forall id :: id in w.known ==> id in w.asked && id in AskedSet(w);
      ReadAll(world, w);
    }
    if !world.target.byName {
      OneIdentity(world, w);
    }
  }

  method Search(world: World) returns (r: NodeResult, w: Walk, cut: bool)
    requires world.limits.maxConcurrent > 0
    ensures Reports(world, r, w, cut)
    ensures WithinLimits(world, r) && r.outcome != Incomplete && (world.target.byName || r.outcome != Found) ==> Contacted(world, w)
    ensures r.outcome == Incomplete ==> cut || w.failures > 0 || !WithinLimits(world, r)
  {
    hide Contacted, Consistent, MatchesAre, NearestOf, Reports, SignedNodes, OwnIds, DistinctIds, Identities;
    cut := false;
    var known, matches := Start(world);
    w := StartWalk(known);
    ghost var signed := SignedNodes(world.seeds);
    assert signed + w.heard == signed;
    MatchesCount(world, w, matches);
    if !world.target.byName && |matches| > 0 {
      r := Report(world, w, matches, Found, 0, false);
      return;
    }
    var rounds, diversityLoaded := 0, false;
    while rounds < world.limits.maxRounds && |w.asked| < world.limits.maxPeerQueries
      invariant Consistent(world, w) && w.done == AskedSet(w) && |w.asked| <= world.limits.maxPeerQueries
      invariant rounds <= world.limits.maxRounds && !cut
      invariant MatchesAre(world, matches, signed + w.heard)
      invariant !world.target.byName ==> matches == map[]
      invariant diversityLoaded ==> Contacted(world, w)
      decreases world.limits.maxRounds - rounds
    {
      rounds := rounds + 1;
      var left := world.limits.maxPeerQueries - |w.asked|;
      var batchLimit := if world.limits.maxConcurrent < left then world.limits.maxConcurrent else left;
      var batch := Unqueried(world, w, batchLimit);
      if batch == [] {
        if !diversityLoaded {
          diversityLoaded := true;
          w := AddContacts(world, w);
          var more := Unqueried(world, w, 1);
          if more != [] {
            continue;
          }
        }
        r := Conclude(world, w, matches, false, rounds);
        return;
      }
      w, matches, cut := Round(world, w, matches, batch, signed);
      MatchesCount(world, w, matches);
      if cut {
        r := Report(world, w, matches, Incomplete, rounds, cut);
        return;
      }
      if !world.target.byName && |matches| > 0 {
        r := Report(world, w, matches, Found, rounds, cut);
        return;
      }
    }
    var unasked := Unqueried(world, w, 1);
    r := Conclude(world, w, matches, unasked != [], rounds);
  }

  /** The next batch: known, not asked, and empty only if nobody is left to ask. */
  method Unqueried(world: World, w: Walk, limit: nat) returns (batch: seq<NodeInfo>)
    requires Consistent(world, w) && limit > 0
    ensures NearestOf(world.space, world.target.point, world.target.byName, batch, limit, w.known.Keys - AskedSet(w), w.known)
    ensures DistinctIds(batch) && |batch| <= limit && (batch == [] <==> !Unasked(w))
    ensures forall n <- batch :: n.id in w.known && n.id !in w.asked && w.known[n.id] == n
  {
    hide Consistent, NearestOf, OwnIds, DistinctIds;
    OwnKnown(world, w);
    batch := ClosestUnqueried(world, w.known, AskedSet(w), limit);
    BatchIs(world, w, batch, limit);
  }

  lemma BatchIs(world: World, w: Walk, batch: seq<NodeInfo>, limit: nat)
    requires limit > 0
    requires NearestOf(world.space, world.target.point, world.target.byName, batch, limit, w.known.Keys - AskedSet(w), w.known)
    ensures DistinctIds(batch) && |batch| <= limit
    ensures forall n <- batch :: n.id in w.known && n.id !in w.asked && w.known[n.id] == n
    ensures batch == [] <==> !Unasked(w)
  {
    hide Sorted, Farther;
    if batch == [] {
      var left := w.known.Keys - AskedSet(w);
      assert |left| == 0;
      forall id | id in w.known
        ensures id in w.asked
      {
        assert id !in left;
      }
    } else {
      assert batch[0] in batch && batch[0].id in w.known && batch[0].id !in w.asked;
    }
  }

  // -------------------------------------------------------- what the answer names

  /** The node goes by the name whose hash is looked for. */
  ghost predicate Bears(world: World, node: NodeInfo) {
    world.space.hashName(node.name) == world.target.point && (node.nameHash != "" ==> node.nameHash == world.target.point)
  }

  /** A good signature of the node was seen: on a seed, or on a referral in a reply that was read. */
  ghost predicate Witnessed(world: World, w: Walk, node: NodeInfo) {
    (exists s <- world.seeds :: s.verified && s.node == node) || Told(world, w, node)
  }

  lemma {:induction false} SignedNodesAre(seeds: seq<Seed>)
    ensures forall n :: n in SignedNodes(seeds) <==> exists s <- seeds :: s.verified && s.node == n
  {
    if seeds != [] {
      var front, last := seeds[..|seeds| - 1], seeds[|seeds| - 1];
      SignedNodesAre(front);
      assert seeds == front + [last];
      forall n
        ensures n in SignedNodes(seeds) <==> exists s <- seeds :: s.verified && s.node == n
      {
        if n in SignedNodes(front) {
          var s :| s in front && s.verified && s.node == n;
          assert s in seeds;
        }
      }
    }
  }

  lemma WitnessedIs(world: World, w: Walk, n: NodeInfo)
    requires Consistent(world, w)
    ensures n in SignedNodes(world.seeds) + w.heard <==> Witnessed(world, w, n)
  {
    hide NoRepeats, Counted, Grounded, Traced, Planted, Refers, SignedNodes;
    SignedNodesAre(world.seeds);
  }

  /** A list of results names each node looked for once: everything in it, and everybody witnessed. */
  ghost predicate Names(world: World, w: Walk, found: seq<NodeInfo>, wanted: NodeInfo -> bool) {
    && DistinctIds(found)
    && (forall n <- found :: wanted(n) && Witnessed(world, w, n))
    && (forall n :: Witnessed(world, w, n) && wanted(n) ==> exists k :: 0 <= k < |found| && found[k].id == n.id)
  }

  lemma MatchesIs(world: World, node: NodeInfo)
    ensures Matches(world.space, world.target, node) <==> if world.target.byName then Bears(world, node) else node.id == world.target.point
  {
  }

  lemma FoundListed(world: World, w: Walk, found: seq<NodeInfo>, m: map<string, NodeInfo>)
    requires Consistent(world, w) && Lists(world, w, found, m)
    ensures DistinctIds(found)
    ensures forall n <- found :: Matches(world.space, world.target, n) && Witnessed(world, w, n)
    ensures forall n :: Witnessed(world, w, n) && Matches(world.space, world.target, n) ==> exists k :: 0 <= k < |found| && found[k].id == n.id
    ensures |found| == |Identities(world, w)|
  {
    hide Consistent, SignedNodes, Witnessed, Identities, Farther, Sorted, Matches;
    MatchesCount(world, w, m);
    forall n <- found
      ensures Witnessed(world, w, n) && Matches(world.space, world.target, n)
    {
      assert n.id in m && n == m[n.id];
      WitnessedIs(world, w, n);
    }
    forall n | Witnessed(world, w, n) && Matches(world.space, world.target, n)
      ensures exists k :: 0 <= k < |found| && found[k].id == n.id
    {
      WitnessedIs(world, w, n);
      AllListed(world, found, m, n.id);
    }
  }

  /** Whatever the outcome, the results are the nodes witnessed that bear the name, or the ID, looked for. */
  lemma ResultNames(world: World, r: NodeResult, w: Walk, cut: bool)
    requires Reports(world, r, w, cut)
    ensures world.target.byName ==> Names(world, w, r.matches, n => Bears(world, n))
    ensures !world.target.byName ==> Names(world, w, r.matches, (n: NodeInfo) => n.id == world.target.point)
    ensures |r.matches| == |Identities(world, w)|
  {
    hide Consistent, Verdict, Witnessed, Identities, Lists, Bears, NearestOf, Matches, DistinctIds;
    var m :| Lists(world, w, r.matches, m);
    FoundListed(world, w, r.matches, m);
    forall n: NodeInfo
      ensures Matches(world.space, world.target, n) <==> if world.target.byName then Bears(world, n) else n.id == world.target.point
    {
      MatchesIs(world, n);
    }
  }

  lemma AllListed(world: World, found: seq<NodeInfo>, m: map<string, NodeInfo>, id: string)
    requires NearestOf(world.space, world.target.point, world.target.byName, found, |m|, m.Keys, m) && id in m
    ensures exists k :: 0 <= k < |found| && found[k].id == id
  {
    hide Farther, Sorted;
    assert |m| == |m.Keys| && |found| == |m.Keys|;
    EveryoneListed(found, m.Keys, id);
  }

  lemma EveryoneListed(found: seq<NodeInfo>, ids: set<string>, id: string)
    requires DistinctIds(found) && |found| == |ids| && id in ids && forall n <- found :: n.id in ids
    ensures exists k :: 0 <= k < |found| && found[k].id == id
  {
    var listed := set k | 0 <= k < |found| :: found[k].id;
    IdCount(found);
    assert listed <= ids;
    SameSize(listed, ids);
  }

  lemma {:induction false} IdCount(found: seq<NodeInfo>)
    requires DistinctIds(found)
    ensures |set k | 0 <= k < |found| :: found[k].id| == |found|
  {
    if found != [] {
      var n := |found| - 1;
      IdCount(found[..n]);
      var front := set k | 0 <= k < n :: found[..n][k].id;
      assert (set k | 0 <= k < |found| :: found[k].id) == front + {found[n].id};
    }
  }

  lemma SameSize<T>(a: set<T>, b: set<T>)
    requires a <= b && |a| == |b|
    ensures a == b
  {
    assert |b - a| == 0;
  }

  /**
   * A name found is borne by the one node returned and by nobody else whose signature was seen; not found
   * means it was borne by nobody; a conflict names all who bear it, and there are several.
   */
  lemma NameOutcome(world: World, r: NodeResult, w: Walk, cut: bool)
    requires Reports(world, r, w, cut) && world.target.byName
    ensures r.outcome.Found? ==>
      && |r.matches| == 1 && Bears(world, r.matches[0]) && Witnessed(world, w, r.matches[0])
      && forall n :: Witnessed(world, w, n) && Bears(world, n) ==> n.id == r.matches[0].id
    ensures r.outcome.NotFound? ==> forall n :: Witnessed(world, w, n) ==> !Bears(world, n)
    ensures r.outcome.Conflict? ==> |r.matches| > 1 && Names(world, w, r.matches, n => Bears(world, n))
  {
    hide Consistent, Identities, Lists, NearestOf, Witnessed, Bears, Unasked;
    ResultNames(world, r, w, cut);
    if r.outcome.Found? {
      assert r.matches[0] in r.matches;
    }
  }

  // ------------------------------------------------- timing makes no difference

  ghost predicate Mentioned(world: World, node: NodeInfo) {
    Seeded(world, node) || node in world.contacts || exists from :: Refers(world, from, node)
  }

  /** No two different records circulate under one ID. */
  ghost predicate OneRecordEach(world: World) {
    forall a, b :: Mentioned(world, a) && Mentioned(world, b) && a.id == b.id ==> a == b
  }

  ghost predicate Complete(world: World, w: Walk) {
    Consistent(world, w) && Exhausted(world, w) && Contacted(world, w)
  }

  lemma KnownMentioned(world: World, w: Walk, id: string)
    requires Consistent(world, w) && id in w.known
    ensures Mentioned(world, w.known[id])
  {
    hide NoRepeats, Counted, Traced, Planted, Seeded, Refers;
    if w.known[id] in w.heard {
      assert Told(world, w, w.known[id]);
    }
  }

  /** A complete walk knows every node that is a seed, a contact, or named by a peer it knows. */
  lemma CompleteKnows(world: World, w: Walk, node: NodeInfo)
    requires OneRecordEach(world) && Complete(world, w)
    requires Seeded(world, node) || node in world.contacts || exists id :: id in w.known && Refers(world, w.known[id], node)
    ensures node.id in w.known && w.known[node.id] == node
  {
    hide NoRepeats, Heard, Counted, Grounded, Traced, Refers;
    KnownMentioned(world, w, node.id);
    assert Mentioned(world, node);
    assert w.known[node.id].id == node.id;
  }

  lemma {:induction false} AskedBoth(world: World, w1: Walk, w2: Walk, j: nat)
    requires OneRecordEach(world) && Complete(world, w1) && Complete(world, w2) && j < |w1.asked|
    ensures var id := w1.asked[j]; id in w1.known && id in w2.known && w2.known[id] == w1.known[id]
  {
    hide OneRecordEach, Heard, Counted, Grounded, Planted, Exhausted, Contacted, Refers, Seeded, NoRepeats;
    var node := w1.known[w1.asked[j]];
    assert Rooted(world, w1, j);
    if i :| 0 <= i < j && w1.asked[i] in w1.known && Refers(world, w1.known[w1.asked[i]], node) {
      AskedBoth(world, w1, w2, i);
      assert Refers(world, w2.known[w1.asked[i]], node);
    }
    CompleteKnows(world, w2, node);
  }

  /**
   * Replies may come in any order and be cut into any rounds: complete walks of one world
   * end with the same known peers and the same matching identities. A lookup that ends short
   * of its limits, other than at an ID match, is complete.
   */
  lemma Confluent(world: World, w1: Walk, w2: Walk)
    requires OneRecordEach(world) && Complete(world, w1) && Complete(world, w2)
    ensures w1.known == w2.known && Identities(world, w1) == Identities(world, w2)
  {
    hide OneRecordEach, Identities;
    SameKnown(world, w1, w2);
    SameKnown(world, w2, w1);
    SameHeard(world, w1, w2);
    SameHeard(world, w2, w1);
    SameIdentities(world, w1, w2);
  }

  lemma SameKnown(world: World, w1: Walk, w2: Walk)
    requires OneRecordEach(world) && Complete(world, w1) && Complete(world, w2)
    ensures forall id :: id in w1.known ==> id in w2.known && w2.known[id] == w1.known[id]
  {
    hide OneRecordEach, Heard, Counted, Grounded, Planted, Traced, Contacted, Refers, Seeded, NoRepeats;
    forall id | id in w1.known
      ensures id in w2.known && w2.known[id] == w1.known[id]
    {
      assert id in w1.asked;
      var j :| 0 <= j < |w1.asked| && w1.asked[j] == id;
      AskedBoth(world, w1, w2, j);
    }
  }

  lemma SameHeard(world: World, w1: Walk, w2: Walk)
    requires Complete(world, w1) && Complete(world, w2) && w1.known == w2.known
    ensures forall n :: n in w1.heard ==> n in w2.heard
  {
    hide Counted, Grounded, Planted, Traced, Contacted, Refers, Seeded, NoRepeats;
    forall n | n in w1.heard
      ensures n in w2.heard
    {
      assert Told(world, w1, n);
      var id :| id in w1.done && id in w1.known && Refers(world, w1.known[id], n);
      assert id in w2.done;
    }
  }

  lemma SameIdentities(world: World, w1: Walk, w2: Walk)
    requires forall n :: n in w1.heard <==> n in w2.heard
    ensures Identities(world, w1) == Identities(world, w2)
  {
    hide Matches;
    forall n
      ensures n in SignedNodes(world.seeds) + w1.heard <==> n in SignedNodes(world.seeds) + w2.heard
    {
    }
  }
}
