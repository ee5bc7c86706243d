/** The walk that looks for a value: as for nodes, with every reply's value put to the collector. */
module ValueLookup {
  import opened Wire
  import opened Ordering
  import opened Routing
  import opened Closest
  import opened Lookup
  import opened Values
  import opened Evidence
  import opened Collector
  import opened Agreement
  import opened OrderFree

  const LOCAL := "local:"

  /** A lookup by one node: the network around it, how texts are validated, and what it stores itself. */
  datatype Query = Query(world: World, rules: Rules, self: string, stored: string)

  /** Peers have IDs, and none has the one under which the local store reports. */
  ghost predicate Nameable(q: Query) {
    forall n :: Mentioned(q.world, n) ==> n.id != "" && n.id != LOCAL + q.self
  }

  // ---------------------------------------------------------------- who says what

  /** The value in a text; None if it is blank or fails validation. */
  function Reading(rules: Rules, text: string): Option<Value> {
    if text == "" || rules.blank(text) then None else rules.check(text)
  }

  /** The value a peer answers with. */
  function Says(q: Query, node: NodeInfo): Option<Value> {
    match q.world.net(node)
    case Failed => None
    case Answered(_, text) => Reading(q.rules, text)
  }

  /** Whoever may report: the local store or a peer. */
  datatype Voice = Store | Neighbour(id: string)

  /** What a voice has answered once the replies of w.done are read. */
  function Answer(q: Query, w: Walk, voice: Voice): Option<Value> {
    match voice
    case Store => Reading(q.rules, q.stored)
    case Neighbour(id) => if id in w.done && id in w.known then Says(q, w.known[id]) else None
  }

  /** The source a voice reports as: a peer counts once, on the branch that led to it; the store thrice, on branch 0. */
  function SourceOf(q: Query, w: Walk, branches: map<string, int>, voice: Voice): Source {
    match voice
    case Store => Source(LOCAL + q.self, "", 3, 0)
    case Neighbour(id) => if id in w.known && id in branches then Source(id, w.known[id].addr, 1, branches[id]) else Source(id, "", 1, 0)
  }

  ghost predicate Spoken(q: Query, w: Walk, branches: map<string, int>, voice: Voice, r: Report) {
    Answer(q, w, voice) == Some(r.value) && r.source == SourceOf(q, w, branches, voice)
  }

  /** The reports are exactly the valid answers read so far, each voice's once. */
  ghost predicate Gathered(q: Query, w: Walk, branches: map<string, int>, reports: seq<Report>) {
    && OnceEach(reports)
    && (forall r <- reports :: exists voice :: Spoken(q, w, branches, voice, r))
    && (forall voice :: Answer(q, w, voice).Some? ==>
          Report(SourceOf(q, w, branches, voice), Answer(q, w, voice).value) in reports)
  }

  /** A text that is there but fails validation. */
  predicate Rejected(rules: Rules, text: string) {
    text != "" && !rules.blank(text) && rules.check(text).None?
  }

  ghost function Refused(q: Query, w: Walk): set<string> {
    set id | id in w.done && id in w.known && q.world.net(w.known[id]).Answered? && Rejected(q.rules, q.world.net(w.known[id]).value)
  }

  /** How many answers have been rejected. */
  ghost function Rejections(q: Query, w: Walk): nat {
    |Refused(q, w)| + (if Rejected(q.rules, q.stored) then 1 else 0)
  }

  /** How a known peer came by its branch: as a seed by its place, from whoever named it, or as a contact. */
  ghost predicate Branched(q: Query, w: Walk, branches: map<string, int>) {
    branches.Keys == w.known.Keys && forall id :: id in w.known && id in branches ==> Explained(q, w, branches, id)
  }

  ghost predicate Explained(q: Query, w: Walk, branches: map<string, int>, id: string)
    requires id in w.known && id in branches
  {
    || (exists i :: Sprouts(q.world, w.known[id], i) && branches[id] == i + 1)
    || (exists from :: Passes(q, w, branches, from, id))
    || (w.known[id] in q.world.contacts && branches[id] > 0)
  }

  /** from's reply has named id, which is on the same branch. */
  ghost predicate Passes(q: Query, w: Walk, branches: map<string, int>, from: string, id: string) {
    && id in w.known && id in branches && from in w.done && from in w.known && from in branches
    && Refers(q.world, w.known[from], w.known[id]) && branches[from] == branches[id]
  }

  ghost predicate Sprouts(world: World, node: NodeInfo, i: int) {
    0 <= i < |world.seeds| && world.seeds[i].node == node && (world.seeds[i].active || world.seeds[i].verified)
  }

  ghost predicate Kept(branches: map<string, int>, branches': map<string, int>) {
    forall id :: id in branches ==> id in branches' && branches'[id] == branches[id]
  }

  /** Everything a lookup has gathered by the time the replies of w.done are read. */
  ghost predicate UpToDate(q: Query, w: Walk, branches: map<string, int>, collector: LookupCollector)
    reads collector
  {
    && collector.Valid() && collector.rules == q.rules
    && Consistent(q.world, w) && Branched(q, w, branches)
    && Gathered(q, w, branches, collector.reports) && collector.rejected == Rejections(q, w)
  }

  // --------------------------------------------------------------- one more reply

  /** After learning more and reading node's reply only node has something new to say. */
  lemma AnswerAfter(q: Query, w: Walk, branches: map<string, int>, w': Walk, branches': map<string, int>, node: NodeInfo, voice: Voice)
    requires Consistent(q.world, w) && Branched(q, w, branches) && Extends(w.known, w'.known) && Kept(branches, branches')
    requires node.id in w.known && w.known[node.id] == node && node.id !in w.done && w'.done == w.done + {node.id}
    ensures Answer(q, w', voice) == if voice == Neighbour(node.id) then Says(q, node) else Answer(q, w, voice)
    ensures Answer(q, w', voice).Some? ==> SourceOf(q, w', branches', voice) == SourceOf(q, w, branches, voice)
  {
    hide Heard, Counted, Grounded, Traced, Planted, NoRepeats, Explained, Says, OwnIds, Reading;
  }

  lemma GatheredRead(q: Query, w: Walk, branches: map<string, int>, w': Walk, branches': map<string, int>, node: NodeInfo,
                     reports: seq<Report>, reports': seq<Report>)
    requires Consistent(q.world, w) && Branched(q, w, branches) && Extends(w.known, w'.known) && Kept(branches, branches')
    requires node.id in w.known && w.known[node.id] == node && node.id !in w.done && w'.done == w.done + {node.id}
    requires Gathered(q, w, branches, reports) && node.id != LOCAL + q.self
    requires node.id in branches && reports' == if Says(q, node).None? then reports
      else reports + [Report(Source(node.id, node.addr, 1, branches[node.id]), Says(q, node).value)]
    ensures Gathered(q, w', branches', reports')
  {
    hide Consistent, Branched, Answer, SourceOf, OnceEach, Says, Extends, Kept;
    forall voice: Voice
      ensures Answer(q, w', voice) == if voice == Neighbour(node.id) then Says(q, node) else Answer(q, w, voice)
      ensures Answer(q, w', voice).Some? ==> SourceOf(q, w', branches', voice) == SourceOf(q, w, branches, voice)
    {
      AnswerAfter(q, w, branches, w', branches', node, voice);
    }
    Unread(q, w, node);
    assert SourceOf(q, w, branches, Neighbour(node.id)) == Source(node.id, node.addr, 1, branches[node.id]) by {
      NewSource(q, w, branches, node);
    }
    if Says(q, node).Some? {
      OnceMore(q, w, branches, node, reports, Report(Source(node.id, node.addr, 1, branches[node.id]), Says(q, node).value));
    }
    forall r <- reports'
      ensures exists voice :: Spoken(q, w', branches', voice, r)
    {
      if r in reports {
        var voice :| Spoken(q, w, branches, voice, r);
        assert Spoken(q, w', branches', voice, r);
      } else {
        assert Spoken(q, w', branches', Neighbour(node.id), r);
      }
    }
  }

  lemma Unread(q: Query, w: Walk, node: NodeInfo)
    requires node.id !in w.done
    ensures Answer(q, w, Neighbour(node.id)).None?
  {
  }

  lemma NewSource(q: Query, w: Walk, branches: map<string, int>, node: NodeInfo)
    requires node.id in w.known && w.known[node.id] == node && node.id in branches
    ensures SourceOf(q, w, branches, Neighbour(node.id)) == Source(node.id, node.addr, 1, branches[node.id])
  {
  }

  /** A peer read for the first time has not reported before. */
  lemma OnceMore(q: Query, w: Walk, branches: map<string, int>, node: NodeInfo, reports: seq<Report>, r: Report)
    requires Gathered(q, w, branches, reports) && node.id !in w.done && node.id != LOCAL + q.self && r.source.nodeId == node.id
    ensures OnceEach(reports + [r])
  {
    hide Says, Reading;
    var all := reports + [r];
    forall i, j | 0 <= i < j < |all|
      ensures all[i].source.nodeId != all[j].source.nodeId
    {
      assert all[i] in reports;
      var voice :| Spoken(q, w, branches, voice, all[i]);
      if j < |reports| {
        assert reports[i].source.nodeId != reports[j].source.nodeId;
      }
    }
  }

  lemma RefusedRead(q: Query, w: Walk, w': Walk, node: NodeInfo)
    requires Consistent(q.world, w) && Extends(w.known, w'.known)
    requires node.id in w.known && w.known[node.id] == node && node.id !in w.done && w'.done == w.done + {node.id}
    ensures var refused := q.world.net(node).Answered? && Rejected(q.rules, q.world.net(node).value);
      Rejections(q, w') == Rejections(q, w) + (if refused then 1 else 0)
  {
    hide Consistent, Rejected, Refused;
    DoneKnown(q.world, w);
    RefusedMore(q, w, w', node);
  }

  lemma RefusedMore(q: Query, w: Walk, w': Walk, node: NodeInfo)
    requires w.done <= w.known.Keys && Extends(w.known, w'.known)
    requires node.id in w.known && w.known[node.id] == node && node.id !in w.done && w'.done == w.done + {node.id}
    ensures node.id !in Refused(q, w)
    ensures var refused := q.world.net(node).Answered? && Rejected(q.rules, q.world.net(node).value);
      Refused(q, w') == Refused(q, w) + (if refused then {node.id} else {})
  {
    hide Rejected;
    var refused := q.world.net(node).Answered? && Rejected(q.rules, q.world.net(node).value);
    forall id
      ensures id in Refused(q, w') <==> id in Refused(q, w) || (refused && id == node.id)
    {
      RefusedIff(q, w, id);
      RefusedIff(q, w', id);
      assert id in w.done ==> id in w.known && w'.known[id] == w.known[id];
    }
  }

  lemma RefusedIff(q: Query, w: Walk, id: string)
    ensures id in Refused(q, w) <==>
      id in w.done && id in w.known && q.world.net(w.known[id]).Answered? && Rejected(q.rules, q.world.net(w.known[id]).value)
  {
  }

  lemma DoneKnown(world: World, w: Walk)
    requires Consistent(world, w)
    ensures w.done <= w.known.Keys
  {
    hide Heard, Counted, Grounded, Traced, Planted, NoRepeats, OwnIds;
  }

  /** Nothing is answered by learning of more peers or by asking them. */
  lemma GatheredMore(q: Query, w: Walk, branches: map<string, int>, w': Walk, branches': map<string, int>, reports: seq<Report>)
    requires Consistent(q.world, w) && Branched(q, w, branches) && Extends(w.known, w'.known) && Kept(branches, branches')
    requires w'.done == w.done && Gathered(q, w, branches, reports)
    ensures Gathered(q, w', branches', reports) && Rejections(q, w') == Rejections(q, w)
  {
    hide Heard, Counted, Grounded, Traced, Planted, NoRepeats, Explained, Says, OwnIds, OnceEach, Reading, Rejected;
    forall voice: Voice
      ensures Answer(q, w', voice) == Answer(q, w, voice)
      ensures Answer(q, w', voice).Some? ==> SourceOf(q, w', branches', voice) == SourceOf(q, w, branches, voice)
    {
    }
    hide Answer, SourceOf;
    forall r <- reports
      ensures exists voice :: Spoken(q, w', branches', voice, r)
    {
      var voice :| Spoken(q, w, branches, voice, r);
      assert Spoken(q, w', branches', voice, r);
    }
    assert Refused(q, w') == Refused(q, w);
  }

  /** Branches stay explained while more is read and learned. */
  lemma ExplainedKeeps(q: Query, w: Walk, branches: map<string, int>, w': Walk, branches': map<string, int>, id: string)
    requires Branched(q, w, branches) && Extends(w.known, w'.known) && Kept(branches, branches') && w.done <= w'.done && id in w.known
    ensures id in w'.known && id in branches' && Explained(q, w', branches', id)
  {
    hide Refers, Sprouts;
    assert Explained(q, w, branches, id);
    if i :| Sprouts(q.world, w.known[id], i) && branches[id] == i + 1 {
      assert Sprouts(q.world, w'.known[id], i) && branches'[id] == i + 1;
    } else if from :| Passes(q, w, branches, from, id) {
      assert Passes(q, w', branches', from, id);
    }
  }

  /** The peers named in a reply take over the branch of the one who named them. */
  lemma BranchedRead(q: Query, w: Walk, branches: map<string, int>, w': Walk, branches': map<string, int>, node: NodeInfo, refs: seq<Referral>)
    requires Branched(q, w, branches) && node.id in w.known && w.known[node.id] == node && w'.done == w.done + {node.id}
    requires q.world.net(node).Answered? && refs == q.world.net(node).referrals && Learned(w.known, w'.known, TakenNodes(refs))
    requires Grown(w.known, branches, w'.known, branches', branches[node.id])
    ensures Branched(q, w', branches')
  {
    hide TakenNodes, Refers, OwnIds, Explained;
    forall n <- TakenNodes(refs)
      ensures Refers(q.world, node, n)
    {
      TakenReferred(q.world, node, n);
    }
    forall id | id in w'.known && id in branches'
      ensures Explained(q, w', branches', id)
    {
      if id in w.known {
        ExplainedKeeps(q, w, branches, w', branches', id);
      } else {
        NamedExplained(q, w', branches', node.id, id);
      }
    }
  }

  lemma TakenReferred(world: World, from: NodeInfo, n: NodeInfo)
    requires world.net(from).Answered? && n in TakenNodes(world.net(from).referrals)
    ensures Refers(world, from, n)
  {
    TakenNodesAre(world.net(from).referrals);
  }

  lemma NamedExplained(q: Query, w: Walk, branches: map<string, int>, from: string, id: string)
    requires Passes(q, w, branches, from, id)
    ensures Explained(q, w, branches, id)
  {
  }

  /** known' and branches' add the same peers, all of them on one branch. */
  ghost predicate Grown(known: map<string, NodeInfo>, branches: map<string, int>, known': map<string, NodeInfo>, branches': map<string, int>,
                        branch: int)
  {
    && known.Keys == branches.Keys && known'.Keys == branches'.Keys && Kept(branches, branches')
    && forall id :: id in branches' && id !in branches ==> branches'[id] == branch
  }

  lemma GrownOne(known: map<string, NodeInfo>, branches: map<string, int>, known': map<string, NodeInfo>, branches': map<string, int>,
                 branch: int, node: NodeInfo)
    requires Grown(known, branches, known', branches', branch) && node.id !in known'
    ensures Grown(known, branches, known'[node.id := node], branches'[node.id := branch], branch)
  {
  }

  method AbsorbRefs(known: map<string, NodeInfo>, branches: map<string, int>, refs: seq<Referral>, branch: int)
    returns (known': map<string, NodeInfo>, branches': map<string, int>)
    requires OwnIds(known) && known.Keys == branches.Keys
    ensures Learned(known, known', TakenNodes(refs)) && Grown(known, branches, known', branches', branch)
  {
    known', branches' := known, branches;
    assert Learned(known, known', TakenNodes(refs[..0])) && Grown(known, branches, known', branches', branch);
    hide Learned, OwnIds, TakenNodes, Taken, Grown;
    for i := 0 to |refs|
      invariant Learned(known, known', TakenNodes(refs[..i])) && Grown(known, branches, known', branches', branch)
    {
      TakenSnoc(refs, i);
      var node := refs[i].node;
      if Taken(refs[i]) {
        LearnedOne(known, known', TakenNodes(refs[..i]), node);
        if node.id !in known' {
          GrownOne(known, branches, known', branches', branch, node);
          known' := known'[node.id := node];
          branches' := branches'[node.id := branch];
        }
      }
    }
    assert refs[..|refs|] == refs;
  }

  method ReadValue(q: Query, collector: LookupCollector, w: Walk, branches: map<string, int>, node: NodeInfo)
    returns (w': Walk, branches': map<string, int>)
    requires Nameable(q) && UpToDate(q, w, branches, collector)
    requires node.id in w.asked && node.id !in w.done && node.id in w.known && w.known[node.id] == node
    modifies collector
    ensures UpToDate(q, w', branches', collector)
    ensures w'.asked == w.asked && w'.done == w.done + {node.id}
    ensures Extends(w.known, w'.known)
  {
    hide Consistent, Gathered, TakenNodes, Keyed, Summed, Uniform, Rejections, Learned, Explained, OnceEach;
    ghost var before := collector.reports;
    KnownMentioned(q.world, w, node.id);
    match q.world.net(node) {
      case Failed =>
        branches' := branches;
        w' := w.(done := w.done + {node.id}, failures := w.failures + 1);
        ReadKeeps(q.world, w, node, w');
        FailedBranched(q, w, branches, w');
      case Answered(refs, text) =>
        if text != "" {
          collector.Observe(Source(node.id, node.addr, 1, branches[node.id]), text);
        }
        OwnKnown(q.world, w);
        var known;
        known, branches' := AbsorbRefs(w.known, branches, refs, branches[node.id]);
        w' := w.(done := w.done + {node.id}, known := known, heard := w.heard + TakenNodes(refs));
        LearnedExtends(w.known, known, TakenNodes(refs));
        ReadKeeps(q.world, w, node, w');
        BranchedRead(q, w, branches, w', branches', node, refs);
    }
    GatheredRead(q, w, branches, w', branches', node, before, collector.reports);
    RefusedRead(q, w, w', node);
  }

  lemma LearnedExtends(known: map<string, NodeInfo>, known': map<string, NodeInfo>, taken: seq<NodeInfo>)
    requires Learned(known, known', taken)
    ensures Extends(known, known')
  {
  }

  lemma FailedBranched(q: Query, w: Walk, branches: map<string, int>, w': Walk)
    requires Branched(q, w, branches) && w'.known == w.known && w.done <= w'.done
    ensures Branched(q, w', branches)
  {
    hide Explained;
    forall id | id in w'.known && id in branches
      ensures Explained(q, w', branches, id)
    {
      ExplainedKeeps(q, w, branches, w', branches, id);
    }
  }

  method ValueRound(q: Query, collector: LookupCollector, w: Walk, branches: map<string, int>, batch: seq<NodeInfo>)
    returns (w': Walk, branches': map<string, int>, cut: bool)
    requires Nameable(q) && UpToDate(q, w, branches, collector) && w.done == AskedSet(w)
    requires DistinctIds(batch) && forall n <- batch :: n.id in w.known && n.id !in w.asked && w.known[n.id] == n
    modifies collector
    ensures UpToDate(q, w', branches', collector)
    ensures w'.asked == w.asked + NamesOf(batch) && (!cut ==> w'.done == AskedSet(w'))
    ensures Extends(w.known, w'.known)
  {
    hide Consistent, Nameable, UpToDate;
    cut := false;
    AskingKeeps(q.world, w, batch) by {
      Current(q, w, branches, collector);
    }
    w', branches' := Asking(w, batch), branches;
    AskedCurrent(q, w, branches, w', collector);
    var waiting := set n | n in batch;
    while waiting != {}
      invariant UpToDate(q, w', branches', collector) && w'.asked == w.asked + NamesOf(batch) && w.done <= w'.done
      invariant forall n <- waiting :: n in batch && n.id !in w'.done && n.id in w'.known && w'.known[n.id] == n
      invariant forall n <- batch :: n !in waiting ==> n.id in w'.done
      invariant Extends(w.known, w'.known)
      decreases |waiting|
    {
      if * {
        cut := true;
        return;
      }
      var node :| node in waiting;
      waiting := waiting - {node};
      w', branches' := ReadValue(q, collector, w', branches', node);
    }
    Current(q, w', branches', collector);
    AllDone(q.world, w, batch, w');
  }

  lemma Current(q: Query, w: Walk, branches: map<string, int>, collector: LookupCollector)
    requires UpToDate(q, w, branches, collector)
    ensures Consistent(q.world, w) && collector.Valid() && collector.rules == q.rules
  {
  }

  lemma AskedCurrent(q: Query, w: Walk, branches: map<string, int>, w': Walk, collector: LookupCollector)
    requires UpToDate(q, w, branches, collector) && Consistent(q.world, w') && w'.known == w.known && w'.done == w.done
    ensures UpToDate(q, w', branches, collector)
  {
    hide Consistent, Gathered, Rejections, Explained, Keyed, Summed, Uniform, OnceEach;
    FailedBranched(q, w, branches, w');
    GatheredMore(q, w, branches, w', branches, collector.reports);
  }

  method StartValues(q: Query) returns (w: Walk, branches: map<string, int>)
    ensures Consistent(q.world, w) && w.asked == [] && w.done == {} && Branched(q, w, branches)
  {
    hide Seeded;
    var known: map<string, NodeInfo>;
    known, branches := map[], map[];
    var seeds := q.world.seeds;
    for i := 0 to |seeds|
      invariant Sown(q.world, known, i) && known.Keys == branches.Keys
      invariant forall id :: id in known && id in branches ==> Sprouts(q.world, known[id], branches[id] - 1)
    {
      var seed := seeds[i];
      SownOne(q.world, known, i);
      if seed.active || seed.verified {
        known := known[seed.node.id := seed.node];
        branches := branches[seed.node.id := i + 1];
      }
    }
    Started(q.world, known);
    w := StartWalk(known);
    SeedsExplained(q, w, branches);
  }

  lemma SeedsExplained(q: Query, w: Walk, branches: map<string, int>)
    requires w.known.Keys == branches.Keys
    requires forall id :: id in w.known && id in branches ==> Sprouts(q.world, w.known[id], branches[id] - 1)
    ensures Branched(q, w, branches)
  {
    hide Sprouts;
    forall id | id in w.known && id in branches
      ensures Explained(q, w, branches, id)
    {
      assert Sprouts(q.world, w.known[id], branches[id] - 1);
    }
  }

  /** known' and branches' add the first i contacts that known does not have, on branches of their own. */
  ghost predicate Joined(world: World, known: map<string, NodeInfo>, branches: map<string, int>, known': map<string, NodeInfo>,
                         branches': map<string, int>, i: nat)
    requires i <= |world.contacts|
  {
    && OwnIds(known') && Extends(known, known') && Kept(branches, branches') && known'.Keys == branches'.Keys
    && (forall id :: id in known' && id in branches' && id !in known ==> known'[id] in world.contacts && branches'[id] > 0)
    && (forall c <- world.contacts[..i] :: c.id in known')
  }

  lemma NobodyJoined(world: World, known: map<string, NodeInfo>, branches: map<string, int>)
    requires OwnIds(known) && known.Keys == branches.Keys
    ensures Joined(world, known, branches, known, branches, 0)
  {
  }

  lemma JoinedOne(world: World, known: map<string, NodeInfo>, branches: map<string, int>, known': map<string, NodeInfo>,
                  branches': map<string, int>, i: nat)
    requires i < |world.contacts| && Joined(world, known, branches, known', branches', i)
    ensures var c := world.contacts[i];
      if c.id in known' then Joined(world, known, branches, known', branches', i + 1)
      else Joined(world, known, branches, known'[c.id := c], branches'[c.id := |branches'| + 1], i + 1)
  {
    assert world.contacts[..i + 1] == world.contacts[..i] + [world.contacts[i]];
  }

  lemma ContactsIn(q: Query, w: Walk, branches: map<string, int>, w': Walk, branches': map<string, int>)
    requires Consistent(q.world, w) && Branched(q, w, branches) && w' == w.(known := w'.known)
    requires Joined(q.world, w.known, branches, w'.known, branches', |q.world.contacts|)
    ensures Consistent(q.world, w') && Branched(q, w', branches') && Contacted(q.world, w')
    ensures Extends(w.known, w'.known) && Kept(branches, branches')
  {
    hide Consistent, Branched, OwnIds;
    assert q.world.contacts[..|q.world.contacts|] == q.world.contacts;
    ContactsKeep(q.world, w, w');
    ContactsBranched(q, w, branches, w', branches');
  }

  method AddValueContacts(q: Query, w: Walk, branches: map<string, int>, ghost collector: LookupCollector)
    returns (w': Walk, branches': map<string, int>)
    requires UpToDate(q, w, branches, collector)
    ensures UpToDate(q, w', branches', collector) && w' == w.(known := w'.known) && Contacted(q.world, w')
  {
    hide Consistent, Gathered, Rejections, Explained, Keyed, Summed, Uniform, OnceEach, Joined;
    OwnKnown(q.world, w);
    var known := w.known;
    branches' := branches;
    NobodyJoined(q.world, known, branches);
    for i := 0 to |q.world.contacts|
      invariant Joined(q.world, w.known, branches, known, branches', i)
    {
      var peer := q.world.contacts[i];
      JoinedOne(q.world, w.known, branches, known, branches', i);
      if peer.id !in known {
        known := known[peer.id := peer];
        branches' := branches'[peer.id := |branches'| + 1];
      }
    }
    w' := w.(known := known);
    ContactsIn(q, w, branches, w', branches');
    GatheredMore(q, w, branches, w', branches', collector.reports);
  }

  lemma ContactsBranched(q: Query, w: Walk, branches: map<string, int>, w': Walk, branches': map<string, int>)
    requires Branched(q, w, branches) && w' == w.(known := w'.known) && Extends(w.known, w'.known) && Kept(branches, branches')
    requires w'.known.Keys == branches'.Keys
    requires forall id :: id in w'.known && id !in w.known ==> w'.known[id] in q.world.contacts && branches'[id] > 0
    ensures Branched(q, w', branches')
  {
    forall id | id in w'.known && id in branches'
      ensures Explained(q, w', branches', id)
    {
      hide Refers, Sprouts;
      if id in w.known {
        ExplainedKeeps(q, w, branches, w', branches', id);
      }
    }
  }

  // -------------------------------------------------------------------- the walk

  /** What the collector's conclusion becomes, given what the walk left undone. */
  function Overall(concluded: LookupResult, queried: nat, unasked: bool, failures: nat): LookupResult {
    if concluded.outcome == Agreement.Found then concluded
    else if queried > 0 && unasked then concluded.(outcome := Agreement.Incomplete)
    else if concluded.outcome == Agreement.NotFound && failures > 0 then concluded.(outcome := Agreement.Incomplete)
    else concluded
  }

  /** How a value lookup ends: the collector's conclusion, qualified by what the walk left undone. */
  ghost predicate Ends(r: LookupResult, collector: LookupCollector, w: Walk, cut: bool)
    reads collector
  {
    exists c :: collector.Resolved(c)
      && r == if cut then c.(outcome := Agreement.Incomplete) else Overall(c, |w.asked|, Unasked(w), w.failures)
  }

  ghost predicate Sure(collector: LookupCollector)
    reads collector
  {
    exists f :: collector.verified.Keys == {f} && f in collector.verified && Confirmed(collector.verified[f])
  }

  /** The walk goes on until the value is confirmed, nobody is left to ask, contacts included, or a limit is reached. */
  ghost predicate Stopped(q: Query, w: Walk, rounds: nat, collector: LookupCollector)
    reads collector
  {
    || Sure(collector)
    || (Contacted(q.world, w) && !Unasked(w))
    || rounds == q.world.limits.maxRounds || |w.asked| == q.world.limits.maxPeerQueries
  }

  /** A finished lookup: everything it asked is bounded, everything it heard is gathered. */
  ghost predicate Looked(q: Query, w: Walk, branches: map<string, int>, rounds: nat, cut: bool, collector: LookupCollector)
    reads collector
  {
    && UpToDate(q, w, branches, collector)
    && |w.asked| <= q.world.limits.maxPeerQueries && rounds <= q.world.limits.maxRounds
    && (!cut ==> w.done == AskedSet(w) && Stopped(q, w, rounds, collector))
  }

  method FindValue(q: Query)
    returns (r: LookupResult, collector: LookupCollector, w: Walk, branches: map<string, int>, rounds: nat, cut: bool)
    requires q.world.limits.maxConcurrent > 0 && Nameable(q)
    ensures fresh(collector) && Looked(q, w, branches, rounds, cut, collector) && Ends(r, collector, w, cut)
  {
    hide Consistent, Nameable, UpToDate, Stopped, Keyed, Summed, Uniform, OnceEach, NearestOf, DistinctIds;
    collector := new LookupCollector(q.rules);
    if q.stored != "" {
      collector.Observe(Source(LOCAL + q.self, "", 3, 0), q.stored);
    }
    w, branches := StartValues(q);
    StoreGathered(q, w, branches, collector);
    w, branches, rounds, cut := Collect(q, w, branches, collector);
    Current(q, w, branches, collector);
    var concluded := collector.Resolve();
    if cut {
      r := concluded.(outcome := Agreement.Incomplete);
      return;
    }
    var unasked := Unqueried(q.world, w, 1);
    r := Overall(concluded, |w.asked|, unasked != [], w.failures);
  }

  /** At the start only the local store has been heard. */
  lemma StoreGathered(q: Query, w: Walk, branches: map<string, int>, collector: LookupCollector)
    requires Consistent(q.world, w) && w.done == {} && Branched(q, w, branches) && collector.Valid() && collector.rules == q.rules
    requires collector.reports == if Reading(q.rules, q.stored).None? then []
      else [Report(Source(LOCAL + q.self, "", 3, 0), Reading(q.rules, q.stored).value)]
    requires collector.rejected == if Rejected(q.rules, q.stored) then 1 else 0
    ensures UpToDate(q, w, branches, collector)
  {
    hide Consistent, Branched, Reading, Rejected, Keyed, Summed, Uniform;
    assert Refused(q, w) == {};
    forall r <- collector.reports
      ensures exists voice :: Spoken(q, w, branches, voice, r)
    {
      assert Spoken(q, w, branches, Store, r);
    }
  }

  /** Asks around until the value is confirmed, nobody is left to ask, or a limit is reached. */
  method Collect(q: Query, start: Walk, branches0: map<string, int>, collector: LookupCollector)
    returns (w: Walk, branches: map<string, int>, rounds: nat, cut: bool)
    requires q.world.limits.maxConcurrent > 0 && Nameable(q)
    requires UpToDate(q, start, branches0, collector) && start.asked == [] && start.done == {}
    modifies collector
    ensures Looked(q, w, branches, rounds, cut, collector)
  {
    hide Consistent, Nameable, UpToDate, NearestOf, DistinctIds, Contacted, Confirmed;
    w, branches, rounds, cut := start, branches0, 0, false;
    var diversityLoaded := false;
    while rounds < q.world.limits.maxRounds && |w.asked| < q.world.limits.maxPeerQueries
      invariant UpToDate(q, w, branches, collector) && !cut && rounds <= q.world.limits.maxRounds
      invariant w.done == AskedSet(w) && |w.asked| <= q.world.limits.maxPeerQueries
      invariant diversityLoaded ==> Contacted(q.world, w)
      decreases q.world.limits.maxRounds - rounds
    {
      Current(q, w, branches, collector);
      var left := q.world.limits.maxPeerQueries - |w.asked|;
      var batchLimit := if q.world.limits.maxConcurrent < left then q.world.limits.maxConcurrent else left;
      var batch := Unqueried(q.world, w, batchLimit);
      if batch == [] {
        if diversityLoaded {
          break;
        }
        diversityLoaded := true;
        w, branches := AddValueContacts(q, w, branches, collector);
        Current(q, w, branches, collector);
        var more := Unqueried(q.world, w, 1);
        if more == [] {
          break;
        }
      } else {
        ghost var was := w;
        w, branches, cut := ValueRound(q, collector, w, branches, batch);
        StillContacted(q.world, was, w);
        if cut {
          return;
        }
        Current(q, w, branches, collector);
        var enough := collector.IsConfirmed();
        if enough {
          break;
        }
      }
      rounds := rounds + 1;
    }
  }

  lemma StillContacted(world: World, w: Walk, w': Walk)
    requires Extends(w.known, w'.known)
    ensures Contacted(world, w) ==> Contacted(world, w')
  {
  }

  // ---------------------------------------------------------- what the end means

  /** What was answered is of one kind, told apart by fingerprint. */
  ghost predicate OneKind(q: Query, w: Walk) {
    forall a, b :: Answer(q, w, a).Some? && Answer(q, w, b).Some? ==>
      var u, v := Answer(q, w, a).value, Answer(q, w, b).value;
      u.sequenceBased == v.sequenceBased && (u.fingerprint == v.fingerprint ==> CoreOf(u) == CoreOf(v))
  }

  lemma KindOfReports(q: Query, w: Walk, branches: map<string, int>, reports: seq<Report>)
    requires Gathered(q, w, branches, reports) && OneKind(q, w)
    ensures Uniform(ValuesOf(reports))
  {
    hide Answer, SourceOf, OnceEach;
    forall u, v | u in ValuesOf(reports) && v in ValuesOf(reports)
      ensures u.sequenceBased == v.sequenceBased && (u.fingerprint == v.fingerprint ==> CoreOf(u) == CoreOf(v))
    {
      var r :| r in reports && r.value == u;
      var p :| p in reports && p.value == v;
      var a :| Spoken(q, w, branches, a, r);
      var b :| Spoken(q, w, branches, b, p);
    }
  }

  /** The voice has answered exactly this record. */
  ghost predicate Vouches(q: Query, w: Walk, voice: Voice, v: Value) {
    Answer(q, w, voice).Some?
    && var u := Answer(q, w, voice).value; u.verified && u.family == v.family && u.fingerprint == v.fingerprint
  }

  /** Two voices vouch for the record, and nobody heard has answered a newer one, a higher version or another family. */
  ghost predicate Settles(q: Query, w: Walk, v: Value) {
    && v.verified && (exists voice :: Answer(q, w, voice) == Some(v))
    && (exists a, b :: a != b && Vouches(q, w, a, v) && Vouches(q, w, b, v))
    && forall voice :: Answer(q, w, voice).Some? && Answer(q, w, voice).value.verified ==>
         && Answer(q, w, voice).value.family == v.family && Answer(q, w, voice).value.version <= v.version
         && !IsNewer(Answer(q, w, voice).value, v)
  }

  /** A verified value found was answered by two different voices, and by nobody read outdone or contradicted. */
  lemma FoundMeans(q: Query, r: LookupResult, collector: LookupCollector, w: Walk, branches: map<string, int>, rounds: nat, cut: bool)
    requires Looked(q, w, branches, rounds, cut, collector) && Ends(r, collector, w, cut)
    requires r.outcome == Agreement.Found && r.verified && OneKind(q, w)
    ensures exists v: Value ::
      && r.value == v.raw && r.version == v.version && Settles(q, w, v)
      && Weight(collector.reports, Exact(v.family, v.fingerprint)) >= MIN_SCORE
  {
    hide Keyed, Summed, Families, Fingerprints, Confirmed, Gathered, OneKind, Stopped, Consistent, Branched, Rejections, Settles, OnceEach;
    KindOfReports(q, w, branches, collector.reports);
    OncePerVoice(q, w, branches, collector.reports);
    var c :| collector.Resolved(c) && r == Overall(c, |w.asked|, Unasked(w), w.failures);
    assert c == r;
    SomeFamily(collector, r);
    var f :| collector.Concludes(f, r);
    VerifiedFound(collector.rules, collector.verified, collector.raw, collector.reports, f);
    FamilyOf(collector.verified, collector.raw, collector.reports, f);
    SupportSettles(q, w, branches, collector.reports, collector.verified[f].value);
  }

  lemma OncePerVoice(q: Query, w: Walk, branches: map<string, int>, reports: seq<Report>)
    requires Gathered(q, w, branches, reports)
    ensures OnceEach(reports)
  {
  }

  lemma SupportSettles(q: Query, w: Walk, branches: map<string, int>, reports: seq<Report>, v: Value)
    requires Gathered(q, w, branches, reports) && Families(reports) == {v.family} && Newest(reports, v)
    requires exists a, b :: Concur(reports, Exact(v.family, v.fingerprint), a, b)
    ensures Settles(q, w, v)
  {
    hide Answer, OnceEach, IsNewer;
    var own :| own in reports && own.value == v;
    var speaker :| Spoken(q, w, branches, speaker, own);
    var x, y :| Concur(reports, Exact(v.family, v.fingerprint), x, y);
    var a :| Spoken(q, w, branches, a, x);
    var b :| Spoken(q, w, branches, b, y);
    assert a != b && Vouches(q, w, a, v) && Vouches(q, w, b, v);
    forall voice: Voice | Answer(q, w, voice).Some? && Answer(q, w, voice).value.verified
      ensures Answer(q, w, voice).value.family == v.family && Answer(q, w, voice).value.version <= v.version
      ensures !IsNewer(Answer(q, w, voice).value, v)
    {
      NewerSays(Answer(q, w, voice).value, v);
      var r := Report(SourceOf(q, w, branches, voice), Answer(q, w, voice).value);
      assert r in reports && r.value.family in Families(reports);
    }
  }

  lemma SomeFamily(collector: LookupCollector, r: LookupResult)
    requires collector.Resolved(r) && r.outcome == Agreement.Found && r.verified
    ensures |Families(collector.reports)| == 1
  {
    hide Families, Fingerprints, Confirmed;
    if Families(collector.reports) != {} {
      var f :| f in Families(collector.reports);
      assert |Families(collector.reports)| >= 1;
    }
  }

  lemma FamilyOf(verified: map<string, Observation>, raw: map<string, Observation>, reports: seq<Report>, f: string)
    requires Keyed(verified, raw, reports) && f in verified
    ensures verified[f].value.family == f
  {
  }

  /** An unverified value found was answered by somebody, as often as any other, and nobody read answered a verified one. */
  lemma RawFoundMeans(q: Query, r: LookupResult, collector: LookupCollector, w: Walk, branches: map<string, int>, rounds: nat, cut: bool)
    requires Looked(q, w, branches, rounds, cut, collector) && Ends(r, collector, w, cut)
    requires r.outcome == Agreement.Found && !r.verified && OneKind(q, w)
    ensures forall voice :: Answer(q, w, voice).Some? ==> !Answer(q, w, voice).value.verified
    ensures exists v: Value, voice ::
      && Answer(q, w, voice) == Some(v) && r.value == v.raw
      && forall fp :: |Sources(collector.reports, Unverified(fp))| <= |Sources(collector.reports, Unverified(v.fingerprint))|
  {
    hide Keyed, Summed, Fingerprints, Gathered, OneKind, Stopped, Consistent, Branched, Rejections, OnceEach, Sources, Answer;
    KindOfReports(q, w, branches, collector.reports);
    OncePerVoice(q, w, branches, collector.reports);
    var c :| collector.Resolved(c) && r == Overall(c, |w.asked|, Unasked(w), w.failures);
    assert c == r;
    NoFamily(collector, r);
    var fp :| collector.Prevails(fp, r);
    RawHeard(q, w, branches, collector, fp);
  }

  lemma NoFamily(collector: LookupCollector, r: LookupResult)
    requires collector.Valid() && collector.Resolved(r) && r.outcome == Agreement.Found && !r.verified
    ensures Families(collector.reports) == {} && Fingerprints(collector.reports) != {}
  {
    hide Families, Fingerprints, Confirmed, Summed, Uniform, OnceEach;
    SomeOf(Families(collector.reports));
  }

  lemma SomeOf<T>(s: set<T>)
    ensures s == {} || |s| >= 1
  {
  }

  lemma RawHeard(q: Query, w: Walk, branches: map<string, int>, collector: LookupCollector, fp: string)
    requires Gathered(q, w, branches, collector.reports) && Families(collector.reports) == {} && fp in collector.raw
    requires Keyed(collector.verified, collector.raw, collector.reports)
    requires Summed(collector.rules, collector.verified, collector.raw, collector.reports)
    requires forall other :: other in collector.raw && other != fp ==> Stronger(collector.raw[fp], collector.raw[other])
    ensures forall voice :: Answer(q, w, voice).Some? ==> !Answer(q, w, voice).value.verified
    ensures exists voice :: Answer(q, w, voice) == Some(collector.raw[fp].value)
    ensures collector.raw[fp].value.fingerprint == fp
    ensures forall other :: |Sources(collector.reports, Unverified(other))| <= |Sources(collector.reports, Unverified(fp))|
  {
    hide Answer, OnceEach, SourceOf, Networks, Providers, Asns, Branches, Publishers, Weight;
    var reports := collector.reports;
    forall voice: Voice | Answer(q, w, voice).Some?
      ensures !Answer(q, w, voice).value.verified
    {
      var r := Report(SourceOf(q, w, branches, voice), Answer(q, w, voice).value);
      assert r in reports && (r.value.verified ==> r.value.family in Families(reports));
    }
    var own :| own in reports && own.value == collector.raw[fp].value;
    var speaker :| Spoken(q, w, branches, speaker, own);
    forall other: string
      ensures |Sources(reports, Unverified(other))| <= |Sources(reports, Unverified(fp))|
    {
      Outnumbered(collector.rules, collector.verified, collector.raw, reports, fp, other);
    }
  }

  /** An unverified value's sources are those of its reports, and none if nobody reported it. */
  lemma Tally(rules: Rules, verified: map<string, Observation>, raw: map<string, Observation>, reports: seq<Report>, fp: string)
    requires Keyed(verified, raw, reports) && Summed(rules, verified, raw, reports)
    ensures |Sources(reports, Unverified(fp))| == if fp in raw then |raw[fp].exactSources| else 0
  {
    hide Networks, Providers, Asns, Branches, Publishers, Weight, Backed, Families;
    if fp in raw {
      hide Sources;
      assert |raw[fp].exactSources| == |raw[fp].exactSources.Keys|;
    } else {
      assert Sources(reports, Unverified(fp)) == {};
    }
  }

  lemma Outnumbered(rules: Rules, verified: map<string, Observation>, raw: map<string, Observation>, reports: seq<Report>, fp: string, other: string)
    requires Keyed(verified, raw, reports) && Summed(rules, verified, raw, reports) && fp in raw
    requires other in raw && other != fp ==> Stronger(raw[fp], raw[other])
    ensures |Sources(reports, Unverified(other))| <= |Sources(reports, Unverified(fp))|
  {
    hide Sources, Summed, Keyed;
    Tally(rules, verified, raw, reports, fp);
    Tally(rules, verified, raw, reports, other);
  }

  /**
   * Not found: no valid value was answered or stored and nobody failed. Everybody known was asked, unless the
   * limits allowed nobody to be; short of the limits the contacts were, too.
   */
  lemma NotFoundMeans(q: Query, r: LookupResult, collector: LookupCollector, w: Walk, branches: map<string, int>, rounds: nat, cut: bool)
    requires Looked(q, w, branches, rounds, cut, collector) && Ends(r, collector, w, cut) && r.outcome == Agreement.NotFound
    ensures !cut && w.failures == 0 && forall voice :: Answer(q, w, voice).None?
    ensures w.asked != [] ==> Exhausted(q.world, w)
    ensures rounds < q.world.limits.maxRounds && |w.asked| < q.world.limits.maxPeerQueries ==> Complete(q.world, w)
  {
    hide Consistent, Confirmed, CompareStrength, Exhausted, Branched, Rejections, Uniform, OnceEach, Summed, Answer, SourceOf;
    var c :| collector.Resolved(c) && r == if cut then c.(outcome := Agreement.Incomplete) else Overall(c, |w.asked|, Unasked(w), w.failures);
    NoReports(collector.reports);
    assert collector.reports == [];
    if !Unasked(w) {
      assert forall id :: id in w.known ==> id in w.asked && id in AskedSet(w);
      ReadAll(q.world, w);
    }
    NotSure(collector);
  }

  lemma NotSure(collector: LookupCollector)
    requires collector.Valid() && collector.reports == []
    ensures !Sure(collector)
  {
    hide Confirmed;
    assert Families([]) == {};
  }

  lemma NoReports(reports: seq<Report>)
    ensures Families(reports) == {} && Fingerprints(reports) == {} ==> reports == []
    ensures |Families(reports)| == 0 ==> Families(reports) == {}
  {
    if reports != [] {
      assert reports[0] in reports;
      assert reports[0].value.family in Families(reports) || reports[0].value.fingerprint in Fingerprints(reports);
    }
  }
}
