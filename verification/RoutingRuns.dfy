/** Whole runs of the routing table, from a restored start. */
module RoutingRuns {
  import opened Ordering
  import opened Slots
  import opened Routing
  import opened RoutingInv
  import Coordinates

  datatype Op =
    | Add(node: NodeInfo, now: Time)
    | Update(node: NodeInfo, verified: bool)
    | Lookup(node: NodeInfo)
    | Candidate(node: NodeInfo)
    | Taking(id: string)                     // first half of a promotion
    | Filing(node: NodeInfo, now: Time)      // second half
    | Discarding(id: string)
    | Failure(id: string, now: Time)
    | Reservation(id: string, now: Time)
    | Liveness(id: string, now: Time, alive: bool)
    | Use(id: string, now: Time, rtt: nat)
    | Friend(id: string, friend: bool)
    | Prune(now: Time)
    | Rename(hash: string, order: seq<string>)

  ghost predicate Lists(t: Table) {
    |t.buckets| == |t.nameBuckets| == |t.pending| == BUCKETS
  }

  /**
   * Clocks are set, candidates are off self's point, what a promotion files was taken from a usable
   * entry, reservations and rebuild order are the code's own.
   */
  ghost predicate Allowed(space: Space, t: Table, op: Op) {
    match op
    case Add(_, now) => now > 0
    case Filing(node, now) => now > 0 && Usable(t, node)
    case Failure(_, now) => now > 0
    case Liveness(_, now, _) => now > 0
    case Use(_, now, _) => now > 0
    case Reservation(id, now) => now > 0 && LongestWaiting(t, id, now)
    case Lookup(node) => Admits(t, node) ==> OffSelf(space, t, node)
    case Candidate(node) => Enqueues(t, node) ==> OffSelf(space, t, node)
    case Rename(_, order) => Sorted(Alphabetical, order) && NoRepeats(order) && Enumerates(order, Active(t)) && Active(t) <= t.peers.Keys
    case _ => true
  }

  ghost function Step(space: Space, t: Table, op: Op): Table
    requires Lists(t) && Allowed(space, t, op)
  {
    match op
    case Add(node, now) => AddNode(space, t, node, now)
    case Update(node, verified) => UpdateKnownNode(space, t, node, verified).0
    case Lookup(node) => AddLookupCandidate(space, t, node).0
    case Candidate(node) => AddCandidate(space, t, node)
    case Taking(id) => TakeCandidate(t, id)
    case Filing(node, now) => FilePromoted(space, t, node, now)
    case Discarding(id) => Discard(t, id)
    case Failure(id, now) => NoteFailure(t, id, now)
    case Reservation(id, now) => Reserve(t, id, now)
    case Liveness(id, now, alive) => RecordLiveness(t, id, now, alive).0
    case Use(id, now, rtt) => RecordUse(space, t, id, now, rtt)
    case Friend(id, friend) => SetFriend(t, id, friend).0
    case Prune(now) => PruneOffline(t, now)
    case Rename(hash, order) => SetSelfNameHash(space, t, hash, order)
  }

  /** What one operation does to the set of active peers. */
  ghost predicate ActiveAfter(space: Space, t: Table, op: Op, active: set<string>) {
    match op
    case Add(node, _) => active == Active(t) + (if Usable(t, node) then {node.id} else {})
    case Filing(node, _) => active == Active(t) + {node.id}
    case Liveness(id, now, alive) => active == Active(t) - (if Expels(t, id, now, alive) then {id} else {})
    case _ => active == Active(t)
  }

  /** Every operation keeps the table consistent, and only a failed probe shrinks the active set. */
  lemma StepKeeps(space: Space, t: Table, op: Op)
    requires Inv(space, t) && Allowed(space, t, op)
    ensures Lists(t) && Inv(space, Step(space, t, op))
    ensures ActiveAfter(space, t, op, Active(Step(space, t, op)))
  {
    hide Inv, Ids, In, AddNode, UpdateKnownNode, AddLookupCandidate, AddCandidate, TakeCandidate, FilePromoted, Discard, NoteFailure, Reserve,
         RecordLiveness, RecordUse, SetFriend, PruneOffline, SetSelfNameHash, Sorted, OffSelf, Expels;
    InvLength(space, t);
    match op
    case Add(node, now) => AddNodeKeeps(space, t, node, now); AddUnusable(space, t, node, now);
    case Update(node, verified) => UpdateKnownKeeps(space, t, node, verified);
    case Lookup(node) => AddLookupCandidateKeeps(space, t, node);
    case Candidate(node) => AddCandidateKeeps(space, t, node);
    case Taking(id) => TakeKeeps(space, t, id);
    case Filing(node, now) => FileKeeps(space, t, node, now);
    case Discarding(id) => DiscardKeeps(space, t, id);
    case Failure(id, now) => NoteFailureKeeps(space, t, id, now);
    case Reservation(id, now) => ReserveKeeps(space, t, id, now);
    case Liveness(id, now, alive) => LivenessKeeps(space, t, id, now, alive);
    case Use(id, now, rtt) => RecordUseKeeps(space, t, id, now, rtt);
    case Friend(id, friend) => SetFriendKeeps(space, t, id, friend);
    case Prune(now) => PruneKeeps(space, t, now);
    case Rename(hash, order) => SetSelfNameHashKeeps(space, t, hash, order);
  }

  lemma AddUnusable(space: Space, t: Table, node: NodeInfo, now: Time)
    requires |t.buckets| == |t.nameBuckets| == BUCKETS
    ensures !Usable(t, node) ==> AddNode(space, t, node, now) == t
  {
  }

  ghost predicate Runs(space: Space, t: Table, ops: seq<Op>)
    decreases |ops|
  {
    ops == [] || (Lists(t) && Allowed(space, t, ops[0]) && Runs(space, Step(space, t, ops[0]), ops[1..]))
  }

  ghost function Run(space: Space, t: Table, ops: seq<Op>): Table
    requires Runs(space, t, ops)
    decreases |ops|
  {
    if ops == [] then t else Run(space, Step(space, t, ops[0]), ops[1..])
  }

  lemma {:induction false} RunKeeps(space: Space, t: Table, ops: seq<Op>)
    requires Inv(space, t) && Runs(space, t, ops)
    ensures Inv(space, Run(space, t, ops))
    decreases |ops|
  {
    hide Inv, Step, Allowed;
    if ops != [] {
      StepKeeps(space, t, ops[0]);
      RunKeeps(space, Step(space, t, ops[0]), ops[1..]);
    }
  }

  // ---------------------------------------------------------------- restoring

  /** A persisted observation too old to be worth trying. */
  predicate TooOld(seen: Peer, now: Time) {
    !seen.pinned && !seen.friend
    && ((seen.offlineSince != 0 && now - seen.offlineSince > HISTORY_TTL)
        || (seen.offlineSince == 0 && seen.lastSeen != 0 && now - seen.lastSeen > HISTORY_TTL))
  }

  function Restored(t: Table, seen: Peer): Table
    requires seen.node.id in t.peers
  {
    var id := seen.node.id;
    var p := seen.(node := t.peers[id].node, transient := t.peers[id].transient);
    if seen.offlineSince != 0
    then DropPending(t, id).(peers := t.peers[id := p], offline := t.offline + {id})
    else t.(peers := t.peers[id := p])
  }

  function RestoreOne(space: Space, t: Table, seen: Peer, now: Time): (r: Table)
    requires |t.pending| == BUCKETS
    ensures |r.pending| == BUCKETS
  {
    if seen.node.id == "" || seen.node.addr == "" || TooOld(seen, now) then t
    else
      var t1 := AddCandidate(space, t, seen.node);
      if seen.node.id in t1.peers then Restored(t1, seen) else t1
  }

  /** Exactly what an observation must satisfy, given where its peer stands, not to upset the table. */
  ghost predicate Acceptable(t: Table, seen: Peer) {
    var id := seen.node.id;
    if id in Active(t) then seen.offlineSince == 0 && seen.successCount > 0 && seen.probeMisses < STALE_FAILURES
    else if seen.offlineSince != 0 || id in t.offline then seen.successCount > 0 || seen.pinned
    else id in Waiting(t) || seen.pinned || id in t.promoting
  }

  lemma RestoredLists(space: Space, t: Table, seen: Peer)
    requires Inv(space, t) && seen.node.id in t.peers
    ensures var t', id := Restored(t, seen), seen.node.id;
      && AllPlaced(space, t') && Active(t') == Active(t) && Ids(t'.nameBuckets) == Ids(t.nameBuckets)
      && Waiting(t') == (if seen.offlineSince != 0 then Waiting(t) - {id} else Waiting(t))
      && t'.offline == (if seen.offlineSince != 0 then t.offline + {id} else t.offline)
      && t'.peers == t.peers[id := seen.(node := t.peers[id].node, transient := t.peers[id].transient)]
      && t'.selfId == t.selfId && t'.selfNameHash == t.selfNameHash && t'.promoting == t.promoting
  {
    hide Placed, Ids, RemoveAll, IdSlots, NameSlots, In, PeersOk;
    DropPendingIs(space, t, seen.node.id);
    NamesSame(space, t.nameBuckets, t.selfNameHash, t.peers, Restored(t, seen).peers, seen.node.id);
  }

  lemma RestoredIff(space: Space, t: Table, seen: Peer)
    requires Inv(space, t) && seen.node.id in t.peers
    ensures Inv(space, Restored(t, seen)) <==> Acceptable(t, seen)
    ensures Active(Restored(t, seen)) == Active(t)
  {
    hide AllPlaced, Ids, Restored;
    var id := seen.node.id;
    RestoredLists(space, t, seen);
    var t' := Restored(t, seen);
    assert PeerOk(t.selfId, id, t.peers[id]);
    assert id in t'.peers && t'.peers[id].successCount == seen.successCount && t'.peers[id].pinned == seen.pinned
        && t'.peers[id].probeMisses == seen.probeMisses;
  }

  /** What an observation must satisfy for the table it is restored into to stay consistent. */
  ghost predicate Suits(t: Table, seen: Peer) {
    var id := seen.node.id;
    if id == t.selfId then true
    else if id in Active(t) then seen.offlineSince == 0 && seen.successCount > 0 && seen.probeMisses < STALE_FAILURES
    else if id in Waiting(t) || t.pendingN < MAX_PENDING then seen.offlineSince != 0 ==> seen.successCount > 0 || seen.pinned
    else if id in t.peers then
      seen.pinned || if seen.offlineSince != 0 || id in t.offline then seen.successCount > 0 else id in t.promoting
    else true
  }

  /** Filing the candidate first leaves the observation as acceptable as the table made it. */
  lemma SuitsIs(space: Space, t: Table, seen: Peer)
    requires Inv(space, t) && seen.node.id != "" && seen.node.addr != ""
    ensures |t.pending| == BUCKETS
    ensures var t1 := AddCandidate(space, t, seen.node);
      (seen.node.id in t1.peers ==> Acceptable(t1, seen)) <==> Suits(t, seen)
  {
    hide Ids, Placed, Append, RemoveAll, In, IdSlots, NameSlots, Slot, DropPending;
    InvLength(space, t);
    var id := seen.node.id;
    InIds(t.buckets, id);
    InIds(t.nameBuckets, id);
    InIds(t.pending, id);
    if id !in Active(t) && (id in Waiting(t) || t.pendingN < MAX_PENDING) {
      AddCandidateKeeps(space, t, seen.node);
      NowWaiting(space, t, seen.node);
    }
  }

  /** Restoring one observation keeps the table consistent if and only if it suits the table. */
  lemma RestoreOneIff(space: Space, t: Table, seen: Peer, now: Time)
    requires Inv(space, t) && seen.node.id != "" && seen.node.addr != "" && !TooOld(seen, now)
    ensures |t.pending| == BUCKETS
    ensures Inv(space, RestoreOne(space, t, seen, now)) <==> Suits(t, seen)
  {
    hide Inv, Ids, AddCandidate, Restored, Acceptable, Suits;
    InvLength(space, t);
    SuitsIs(space, t, seen);
    AddCandidateKeeps(space, t, seen.node);
    var t1 := AddCandidate(space, t, seen.node);
    if seen.node.id in t1.peers {
      RestoredIff(space, t1, seen);
    }
  }

  /** Restoring an offline observation of a peer that is already active lists it twice. */
  lemma RestoreOverActive(space: Space, t: Table, seen: Peer, now: Time)
    requires Inv(space, t) && seen.node.id in Active(t) && seen.offlineSince != 0
    requires seen.node.addr != "" && !TooOld(seen, now)
    ensures |t.pending| == BUCKETS
    ensures var t' := RestoreOne(space, t, seen, now); seen.node.id in Active(t') && seen.node.id in t'.offline
  {
    hide Placed, Ids, RemoveAll, In, Append, Slot, TooOld;
    InvLength(space, t);
    InIds(t.buckets, seen.node.id);
    assert PeerOk(t.selfId, seen.node.id, t.peers[seen.node.id]);
  }

  /** Unpinning keeps the table consistent unless the peer is offline and has never answered. */
  lemma SetPinnedIff(space: Space, t: Table, id: string, pinned: bool)
    requires Inv(space, t)
    ensures Inv(space, SetPinned(t, id, pinned).0)
       <==> (pinned || id !in t.peers || id !in t.offline || t.peers[id].successCount > 0)
  {
    hide Inv, SetPinned;
    if pinned || id !in t.peers || id !in t.offline || t.peers[id].successCount > 0 {
      SetPinnedKeeps(space, t, id, pinned);
    } else {
      SetPinnedBreaks(space, t, id);
    }
  }

  lemma SetPinnedKeeps(space: Space, t: Table, id: string, pinned: bool)
    requires Inv(space, t) && (pinned || id !in t.peers || id !in t.offline || t.peers[id].successCount > 0)
    ensures Inv(space, SetPinned(t, id, pinned).0)
  {
    hide Inv, Ids, In, ForgetIfUnlisted;
    if id in t.peers {
      var t1 := t.(peers := t.peers[id := t.peers[id].(pinned := pinned)]);
      ForgetIs(t1, id);
      ActiveKnown(space, t);
      if pinned || id in Active(t) || id in Waiting(t) || id in t.offline {
        RepinKeeps(space, t, id, pinned);
      } else {
        DropKeeps(space, t, id);
        assert t1.peers - {id} == t.peers - {id};
      }
    }
  }

  lemma RepinKeeps(space: Space, t: Table, id: string, pinned: bool)
    requires Inv(space, t) && id in t.peers && (pinned || id in Active(t) || id in Waiting(t) || id in t.offline)
    requires pinned || id !in t.offline || t.peers[id].successCount > 0
    ensures Inv(space, t.(peers := t.peers[id := t.peers[id].(pinned := pinned)]))
  {
    hide Placed, Ids, IdSlots, NameSlots;
    assert PeerOk(t.selfId, id, t.peers[id]);
    NamesSame(space, t.nameBuckets, t.selfNameHash, t.peers, t.peers[id := t.peers[id].(pinned := pinned)], id);
  }

  lemma DropKeeps(space: Space, t: Table, id: string)
    requires Inv(space, t) && id !in Active(t) && id !in Waiting(t) && id !in t.offline
    ensures Inv(space, t.(peers := t.peers - {id}))
  {
    hide Placed, Ids, IdSlots, NameSlots;
    NamesSame(space, t.nameBuckets, t.selfNameHash, t.peers, t.peers - {id}, id);
  }

  lemma SetPinnedBreaks(space: Space, t: Table, id: string)
    requires id in t.peers && id in t.offline && t.peers[id].successCount == 0
    ensures !Inv(space, SetPinned(t, id, false).0)
  {
    hide AllPlaced, Partition, In;
    var t' := SetPinned(t, id, false).0;
    assert id in t'.offline && t'.peers[id].successCount == 0 && !t'.peers[id].pinned;
  }

  /** Such a peer: remembered as pinned and offline, never heard of since, then unpinned. */
  lemma UnpinBreaks(space: Space, selfId: string, selfNameHash: string, node: NodeInfo, now: Time)
    requires Usable(New(selfId, selfNameHash), node)
    ensures var seen := NewPeer(node).(pinned := true, offlineSince := 1);
      var t := RestoreAll(space, New(selfId, selfNameHash), [seen], now);
      Sound([seen]) && Inv(space, t) && !Inv(space, SetPinned(t, node.id, false).0)
  {
    hide Inv, Ids, In, Append, RemoveAll, Slot, IdSlots;
    var t0, seen := New(selfId, selfNameHash), NewPeer(node).(pinned := true, offlineSince := 1);
    NewInv(space, selfId, selfNameHash);
    EmptyPlaced(IdSlots(space, selfId));
    var t := RestoreOne(space, t0, seen, now);
    assert [seen][1..] == [] && RestoreAll(space, t0, [seen], now) == t;
    RestoreOneIff(space, t0, seen, now);
    NowWaiting(space, t0, node);
    SetPinnedIff(space, t, node.id, false);
  }

  lemma ForgetIs(t: Table, id: string)
    ensures ForgetIfUnlisted(t, id)
         == if (id in t.peers && t.peers[id].pinned) || id in Active(t) || id in Ids(t.nameBuckets) || id in t.offline || id in Waiting(t)
            then t else t.(peers := t.peers - {id})
  {
    hide Ids, In;
    InIds(t.buckets, id);
    InIds(t.nameBuckets, id);
    InIds(t.pending, id);
  }

  function RestoreAll(space: Space, t: Table, seen: seq<Peer>, now: Time): (r: Table)
    requires |t.pending| == BUCKETS
    ensures |r.pending| == BUCKETS
    decreases |seen|
  {
    if seen == [] then t else RestoreAll(space, RestoreOne(space, t, seen[0], now), seen[1..], now)
  }

  /** An observation worth persisting: offline peers have answered before or are pinned. */
  ghost predicate Sound(seen: seq<Peer>) {
    forall s <- seen :: s.offlineSince != 0 ==> s.successCount > 0 || s.pinned
  }

  /** Nobody to be restored stands on self's point. */
  ghost predicate Placeable(space: Space, t: Table, seen: seq<Peer>) {
    forall s <- seen :: Usable(t, s.node) ==> OffSelf(space, t, s.node)
  }

  /** Nobody does who is filed under an identity's ID. */
  lemma DerivedPlaceable(space: Space, t: Table, seen: seq<Peer>)
    requires Coordinates.Fits256(space.sha) && Derived(t.selfId) && forall s <- seen :: Usable(t, s.node) ==> Derived(s.node.id)
    ensures Placeable(space, t, seen)
  {
    hide OffSelf, Derived, Coordinates.Fits256;
    forall s <- seen | Usable(t, s.node)
      ensures OffSelf(space, t, s.node)
    {
      DerivedApart(space, t, s.node);
    }
  }

  /** Starting from an empty table, as the node does, restoring is always consistent. */
  lemma {:induction false} RestoreAllKeeps(space: Space, t: Table, seen: seq<Peer>, now: Time)
    requires Inv(space, t) && Active(t) == {} && Sound(seen) && t.pendingN + |seen| <= MAX_PENDING
    ensures |t.pending| == BUCKETS
    ensures Inv(space, RestoreAll(space, t, seen, now)) && Active(RestoreAll(space, t, seen, now)) == {}
    decreases |seen|
  {
    hide Inv, Ids, AddCandidate, Restored, Acceptable;
    InvLength(space, t);
    if seen != [] {
      RestoreFirst(space, t, seen[0], now);
      RestoreAllKeeps(space, RestoreOne(space, t, seen[0], now), seen[1..], now);
    }
  }

  lemma RestoreFirst(space: Space, t: Table, seen: Peer, now: Time)
    requires Inv(space, t) && Active(t) == {} && t.pendingN < MAX_PENDING
    requires seen.offlineSince != 0 ==> seen.successCount > 0 || seen.pinned
    ensures |t.pending| == BUCKETS
    ensures var t' := RestoreOne(space, t, seen, now);
      Inv(space, t') && Active(t') == {} && t'.pendingN <= t.pendingN + 1
  {
    hide Inv, Ids, In, RemoveAll, Append, Slot;
    InvLength(space, t);
    if seen.node.id != "" && seen.node.addr != "" && !TooOld(seen, now) {
      var t1 := AddCandidate(space, t, seen.node);
      AddCandidateKeeps(space, t, seen.node);
      RestoreOneIff(space, t, seen, now);
      if seen.node.id in t1.peers {
        NowWaiting(space, t, seen.node);
        RestoredIff(space, t1, seen);
      }
    }
  }

  /** With room left, a candidate that is known afterwards is waiting afterwards. */
  lemma NowWaiting(space: Space, t: Table, node: NodeInfo)
    requires Inv(space, t) && node.id !in Active(t) && node.id != "" && node.addr != ""
    requires node.id in Waiting(t) || t.pendingN < MAX_PENDING
    ensures |t.pending| == BUCKETS
    ensures var t1 := AddCandidate(space, t, node);
      && (node.id in t1.peers <==> node.id != t.selfId)
      && (node.id in t1.peers ==> node.id in Waiting(t1) && node.id !in t1.offline)
      && t1.pendingN <= t.pendingN + 1
  {
    hide Placed, Ids, Append, RemoveAll, In, IdSlots, NameSlots, Slot;
    InvLength(space, t);
    InIds(t.buckets, node.id);
    InIds(t.nameBuckets, node.id);
    InIds(t.pending, node.id);
    var t1 := AddCandidate(space, t, node);
    if node.id in t1.peers {
      if node.id != t.selfId {
        DropPendingIs(space, t, node.id);
        AppendWaiting(space, t, DropPending(t, node.id).pending, node.id);
        if !Refreshes(t, node) {
          AppendWaiting(space, t, t.pending, node.id);
        }
      }
    }
  }

  /**
   * Every reachable table: each known peer that is neither pinned nor under promotion is in
   * exactly one of the active lists, the pending lists and the offline set, and the two indexes agree.
   */
  lemma ReachableConsistent(space: Space, selfId: string, selfNameHash: string, seen: seq<Peer>, now: Time, ops: seq<Op>)
    requires |seen| <= MAX_PENDING && Sound(seen) && Placeable(space, New(selfId, selfNameHash), seen)
    requires Runs(space, RestoreAll(space, New(selfId, selfNameHash), seen, now), ops)
    ensures Inv(space, Run(space, RestoreAll(space, New(selfId, selfNameHash), seen, now), ops))
  {
    hide Inv, Ids, RestoreAll, Run, Runs;
    NewInv(space, selfId, selfNameHash);
    EmptyPlaced(IdSlots(space, selfId));
    RestoreAllKeeps(space, New(selfId, selfNameHash), seen, now);
    RunKeeps(space, RestoreAll(space, New(selfId, selfNameHash), seen, now), ops);
  }
}
