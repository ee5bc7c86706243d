/** The routing table and the peer database through any number of restarts of the node. */
module Restarts {
  import opened Slots
  import opened Routing
  import opened RoutingInv
  import opened RoutingRuns
  import opened Retention
  import opened PeerStores

  /** A peer remembered as offline has answered before or is pinned. */
  ghost predicate Earned(p: Peer) {
    p.offlineSince != 0 ==> p.successCount > 0 || p.pinned
  }

  ghost predicate AllEarned(peers: map<string, Peer>) {
    forall id :: id in peers ==> Earned(peers[id])
  }

  // ------------------------------------------------------------------- the table

  lemma StepEarned(space: Space, t: Table, op: Op)
    requires Inv(space, t) && Allowed(space, t, op) && Lists(t) && AllEarned(t.peers)
    ensures AllEarned(Step(space, t, op).peers)
  {
    hide Inv, Ids, In, RemoveAll, Append, InsertFront, Slot, IdIndex, NameIndex, InsertNames, MoveToFront, OffSelf, AddNode,
         Promoted, RecordLiveness, Enumerates;
    match op {
      case Add(node, now) => AddNodeFrame(space, t, node, now); PromotedOnline(space, t, node, now);
      case Filing(node, now) => AddNodeFrame(space, t, node, now); PromotedOnline(space, t, node, now);
      case Liveness(id, now, alive) => LivenessEarned(space, t, id, now, alive);
      case Reservation(id, now) => assert Due(t, id, now);
      case Prune(now) => assert forall id :: id in PruneOffline(t, now).peers ==> id in t.peers && PruneOffline(t, now).peers[id] == t.peers[id];
      case _ =>
    }
  }

  lemma PromotedOnline(space: Space, t: Table, node: NodeInfo, now: Time)
    ensures Promoted(space, t, node, now).offlineSince == 0
  {
  }

  lemma LivenessEarned(space: Space, t: Table, id: string, now: Time, alive: bool)
    requires Inv(space, t) && AllEarned(t.peers)
    ensures AllEarned(RecordLiveness(t, id, now, alive).0.peers)
  {
    hide Inv, Ids, In, RemoveAll;
    ActiveKnown(space, t);
    InIds(t.buckets, id);
    InIds(t.nameBuckets, id);
    if id in Active(t) {
      ActiveAnswered(space, t, id);
    }
  }

  lemma ActiveAnswered(space: Space, t: Table, id: string)
    requires Inv(space, t) && id in Active(t)
    ensures id in t.peers && t.peers[id].successCount > 0
  {
    hide Placed, Ids;
  }

  lemma RestoreOneEarned(space: Space, t: Table, seen: Peer, now: Time)
    requires |t.pending| == BUCKETS && AllEarned(t.peers) && Earned(seen)
    ensures AllEarned(RestoreOne(space, t, seen, now).peers)
  {
    hide In, RemoveAll, Append, Slot, TooOld;
  }

  lemma {:induction false} RestoreEarned(space: Space, t: Table, seen: seq<Peer>, now: Time)
    requires |t.pending| == BUCKETS && AllEarned(t.peers) && forall s <- seen :: Earned(s)
    ensures AllEarned(RestoreAll(space, t, seen, now).peers)
    decreases |seen|
  {
    hide RestoreOne, Earned;
    if seen != [] {
      assert seen[0] in seen;
      RestoreOneEarned(space, t, seen[0], now);
      assert forall s <- seen[1..] :: s in seen;
      RestoreEarned(space, RestoreOne(space, t, seen[0], now), seen[1..], now);
    }
  }

  // ---------------------------------------------------------------- the database

  /** What the node hands the database: the peers worth keeping, as they are but for their ranks. */
  ghost predicate Snapshot(t: Table, peers: seq<Peer>) {
    forall p <- peers ::
      && p.node.id in t.peers && !p.transient && (p.successCount > 0 || p.pinned || p.friend)
      && p == t.peers[p.node.id].(closestIdRank := p.closestIdRank, closestNameRank := p.closestNameRank)
  }

  lemma {:induction false} MergedEarned(rows: Rows, peers: seq<Peer>)
    requires AllEarned(rows) && forall p <- peers :: Earned(p)
    ensures AllEarned(Merged(rows, peers))
  {
    if peers != [] {
      var front, last := peers[..|peers| - 1], peers[|peers| - 1];
      assert peers == front + [last] && last in peers && forall p <- front :: p in peers;
      MergedEarned(rows, front);
    }
  }

  lemma SavedEarned(policy: Policy, eligible: seq<Peer>, rows: Rows, peers: seq<Peer>, now: Time, kept: Rows)
    requires Permutes(policy) && Keeps(policy, eligible, Merged(rows, peers), now, kept) && AllEarned(rows) && forall p <- peers :: Earned(p)
    ensures AllEarned(kept)
  {
    hide Permutes, Keeps, Merged, Earned;
    MergedEarned(rows, peers);
    KeepsSound(policy, eligible, Merged(rows, peers), now, kept);
  }

  // -------------------------------------------------------------------- restarts

  datatype Life = Life(table: Table, rows: Rows)

  datatype Event =
    | Did(op: Op)
    | Saved(peers: seq<Peer>, eligible: seq<Peer>, now: Time, kept: Rows)
    | Befriending(node: NodeInfo, friend: bool, now: Time, kept: Rows)
    | Marking(id: string, friend: bool)
    | Using(node: NodeInfo, now: Time, kept: Rows)
    | Restarted(selfNameHash: string, seen: seq<Peer>, now: Time)

  ghost predicate Possible(space: Space, policy: Policy, life: Life, e: Event) {
    match e
    case Did(op) => Lists(life.table) && Allowed(space, life.table, op)
    case Saved(peers, eligible, now, kept) => Snapshot(life.table, peers) && Keeps(policy, eligible, Merged(life.rows, peers), now, kept)
    case Befriending(node, friend, now, kept) => TrimOf(kept, life.rows[node.id := Befriended(life.rows, node, friend, now)])
    case Marking(id, _) => id in life.rows
    case Using(node, now, kept) => TrimOf(kept, life.rows[node.id := UsedRow(life.rows, node, now)])
    case Restarted(hash, seen, _) =>
      && |seen| <= MAX_PENDING && (forall s <- seen :: s.node.id in life.rows && life.rows[s.node.id] == s)
      && Placeable(space, New(life.table.selfId, hash), seen)
  }

  ghost function Next(space: Space, policy: Policy, life: Life, e: Event): Life
    requires Possible(space, policy, life, e)
  {
    match e
    case Did(op) => life.(table := Step(space, life.table, op))
    case Saved(_, _, _, kept) => life.(rows := kept)
    case Befriending(_, _, _, kept) => life.(rows := kept)
    case Marking(id, friend) => life.(rows := life.rows[id := life.rows[id].(friend := friend)])
    case Using(_, _, kept) => life.(rows := kept)
    case Restarted(hash, seen, now) => life.(table := RestoreAll(space, New(life.table.selfId, hash), seen, now))
  }

  ghost predicate Sane(space: Space, life: Life) {
    Inv(space, life.table) && AllEarned(life.table.peers) && AllEarned(life.rows)
  }

  lemma RestartSane(space: Space, selfId: string, hash: string, rows: Rows, seen: seq<Peer>, now: Time)
    requires AllEarned(rows) && |seen| <= MAX_PENDING && forall s <- seen :: s.node.id in rows && rows[s.node.id] == s
    ensures var t := RestoreAll(space, New(selfId, hash), seen, now); Inv(space, t) && AllEarned(t.peers)
  {
    hide Inv, RestoreAll, Ids;
    NewInv(space, selfId, hash);
    EmptyPlaced(IdSlots(space, selfId));
    forall s <- seen
      ensures Earned(s)
    {
      assert Earned(rows[s.node.id]);
    }
    RestoreAllKeeps(space, New(selfId, hash), seen, now);
    RestoreEarned(space, New(selfId, hash), seen, now);
  }

  lemma NextSane(space: Space, policy: Policy, life: Life, e: Event)
    requires Permutes(policy) && Sane(space, life) && Possible(space, policy, life, e)
    ensures Sane(space, Next(space, policy, life, e))
  {
    hide Inv, Step, Allowed, Permutes, Keeps, Merged, RestoreAll, Ids, TrimOf, Placeable, Befriended, UsedRow,
         OffSelf;
    match e {
      case Did(op) =>
        StepKeeps(space, life.table, op);
        StepEarned(space, life.table, op);
      case Saved(peers, eligible, now, kept) =>
        SavedEarned(policy, eligible, life.rows, peers, now, kept);
      case Befriending(node, friend, now, kept) =>
        RowEarned(life.rows, node, friend, now);
        TrimEarned(life.rows[node.id := Befriended(life.rows, node, friend, now)], kept);
      case Marking(id, friend) =>
      case Using(node, now, kept) =>
        RowEarned(life.rows, node, false, now);
        TrimEarned(life.rows[node.id := UsedRow(life.rows, node, now)], kept);
      case Restarted(hash, seen, now) =>
        RestartSane(space, life.table.selfId, hash, life.rows, seen, now);
    }
  }

  lemma RowEarned(rows: Rows, node: NodeInfo, friend: bool, now: Time)
    requires AllEarned(rows)
    ensures Earned(Befriended(rows, node, friend, now)) && Earned(UsedRow(rows, node, now))
  {
  }

  lemma TrimEarned(rows: Rows, kept: Rows)
    requires AllEarned(rows) && TrimOf(kept, rows)
    ensures AllEarned(kept)
  {
  }

  ghost predicate Lives(space: Space, policy: Policy, life: Life, events: seq<Event>)
    decreases |events|
  {
    events == [] || (Possible(space, policy, life, events[0]) && Lives(space, policy, Next(space, policy, life, events[0]), events[1..]))
  }

  ghost function Later(space: Space, policy: Policy, life: Life, events: seq<Event>): Life
    requires Lives(space, policy, life, events)
    decreases |events|
  {
    if events == [] then life else Later(space, policy, Next(space, policy, life, events[0]), events[1..])
  }

  lemma {:induction false} LivesSane(space: Space, policy: Policy, life: Life, events: seq<Event>)
    requires Permutes(policy) && Sane(space, life) && Lives(space, policy, life, events)
    ensures Sane(space, Later(space, policy, life, events))
    decreases |events|
  {
    hide Permutes, Sane, Possible, Next;
    if events != [] {
      NextSane(space, policy, life, events[0]);
      LivesSane(space, policy, Next(space, policy, life, events[0]), events[1..]);
    }
  }

  /** From the first start of a node, through any restarts, what it persists is sound and its table is consistent. */
  lemma RestartsConsistent(space: Space, policy: Policy, selfId: string, selfNameHash: string, events: seq<Event>)
    requires Permutes(policy) && Lives(space, policy, Life(New(selfId, selfNameHash), map[]), events)
    ensures var life := Later(space, policy, Life(New(selfId, selfNameHash), map[]), events);
      Inv(space, life.table) && AllEarned(life.table.peers) && AllEarned(life.rows)
  {
    hide Permutes, Lives, Later, Inv;
    NewInv(space, selfId, selfNameHash);
    LivesSane(space, policy, Life(New(selfId, selfNameHash), map[]), events);
  }
}
