/** What every operation on the routing table keeps. */
module RoutingInv {
  import opened Ordering
  import opened Slots
  import opened Routing
  import Records

  ghost function Active(t: Table): set<string> {
    Ids(t.buckets)
  }

  ghost function Waiting(t: Table): set<string> {
    Ids(t.pending)
  }

  ghost predicate PeerOk(selfId: string, id: string, p: Peer) {
    p.node.id == id && id != "" && id != selfId && p.node.addr != ""
  }

  /** Each list position holds a known peer in the slot its ID, or its current name hash, gives. */
  ghost predicate AllPlaced(space: Space, t: Table) {
    && Placed(t.buckets, IdSlots(space, t.selfId))
    && Placed(t.pending, IdSlots(space, t.selfId))
    && Placed(t.nameBuckets, NameSlots(space, t.selfNameHash, t.peers))
  }

  /**
   * A known peer is active, pending or offline, never two of them; only a peer that is pinned
   * or under promotion may be none. The name index lists the active peers, all of them once self has a name.
   */
  ghost predicate Partition(selfName: string, active: set<string>, waiting: set<string>, named: set<string>,
                            offline: set<string>, peers: map<string, Peer>, promoting: set<string>) {
    && active !! waiting && active !! offline && waiting !! offline
    && active <= peers.Keys && waiting <= peers.Keys && offline <= peers.Keys
    && (forall id :: id in peers && !peers[id].pinned ==> id in active || id in waiting || id in offline || id in promoting)
    && named <= active
    && (selfName != "" ==> named == active)
  }

  ghost predicate PeersOk(selfId: string, active: set<string>, offline: set<string>, peers: map<string, Peer>) {
    && (forall id :: id in peers ==> PeerOk(selfId, id, peers[id]))
    && (forall id :: id in peers && id in active ==> peers[id].successCount > 0 && peers[id].probeMisses < STALE_FAILURES)
    && (forall id :: id in peers && id in offline ==> peers[id].successCount > 0 || peers[id].pinned)
  }

  ghost predicate Inv(space: Space, t: Table) {
    && AllPlaced(space, t)
    && Partition(t.selfNameHash, Active(t), Waiting(t), Ids(t.nameBuckets), t.offline, t.peers, t.promoting)
    && PeersOk(t.selfId, Active(t), t.offline, t.peers)
  }

  lemma InIds(ix: Index, id: string)
    ensures In(ix, id) <==> id in Ids(ix)
  {
  }

  /** Changing one peer's record leaves the name index right if that peer's name hash stays or it is unlisted. */
  lemma NamesSame(space: Space, ix: Index, selfName: string, peers: map<string, Peer>, peers': map<string, Peer>, id: string)
    requires Placed(ix, NameSlots(space, selfName, peers)) && Ids(ix) <= peers.Keys
    requires forall x :: x in peers && x != id ==> x in peers' && peers'[x] == peers[x]
    requires id in Ids(ix) ==> id in peers' && id in peers && NameHash(space, peers'[id].node) == NameHash(space, peers[id].node)
    ensures Placed(ix, NameSlots(space, selfName, peers'))
  {
    hide Placed;
    PlacedSame(ix, NameSlots(space, selfName, peers), NameSlots(space, selfName, peers'));
  }

  /** The name index after node replaces the record of its ID. */
  lemma NamesReplaced(space: Space, t: Table, node: NodeInfo, peers': map<string, Peer>, insert: bool)
    requires Inv(space, t) && node.id in peers' && peers'[node.id].node == node
    requires forall x :: x in t.peers && x != node.id ==> x in peers' && peers'[x] == t.peers[x]
    requires node.id in Ids(t.nameBuckets) ==> node.id in t.peers
    ensures var names := if Renames(space, t, node) then RemoveAll(t.nameBuckets, node.id) else t.nameBuckets;
      var names' := if insert then InsertFront(names, node.id, NameIndex(space, t.selfNameHash, node)) else names;
      && |names| == BUCKETS
      && Placed(names', NameSlots(space, t.selfNameHash, peers'))
      && Ids(names') <= Ids(t.nameBuckets) + {node.id}
      && Ids(t.nameBuckets) - {node.id} <= Ids(names')
      && (insert ==> Ids(names') == Ids(t.nameBuckets) + {node.id})
      && (node.id !in Ids(t.nameBuckets) && !insert ==> node.id !in Ids(names'))
  {
    hide Placed, Ids, InsertFront, RemoveAll, NameIndex, IdSlots, PeersOk, NameHash;
    var slots, slots' := NameSlots(space, t.selfNameHash, t.peers), NameSlots(space, t.selfNameHash, peers');
    var names := if Renames(space, t, node) then RemoveAll(t.nameBuckets, node.id) else t.nameBuckets;
    if Renames(space, t, node) {
      RemovePlaced(t.nameBuckets, slots, node.id);
    }
    NamesSame(space, names, t.selfNameHash, t.peers, peers', node.id);
    PlacedLength(names, slots');
    if insert {
      InsertPlaced(names, slots', node.id, NameIndex(space, t.selfNameHash, node));
    }
  }

  lemma PlacedLength(ix: Index, slot: string -> int)
    requires Placed(ix, slot)
    ensures |ix| == BUCKETS
  {
  }

  lemma NewInv(space: Space, selfId: string, selfNameHash: string)
    ensures Inv(space, New(selfId, selfNameHash))
  {
    assert Ids(Empty()) == {};
  }

  /** Taking an ID off the pending lists. */
  lemma DropPendingIs(space: Space, t: Table, id: string)
    requires AllPlaced(space, t)
    ensures var t' := DropPending(t, id);
      Placed(t'.pending, IdSlots(space, t.selfId)) && Waiting(t') == Waiting(t) - {id}
  {
    RemovePlaced(t.pending, IdSlots(space, t.selfId), id);
  }

  lemma PromotedIs(space: Space, t: Table, node: NodeInfo, now: Time)
    ensures var p := Promoted(space, t, node, now);
      && p.node == node && p.successCount > 0 && p.probeMisses == 0 && p.lastProbeFailure == 0 && p.lastProbe == now
      && (node.id in t.peers ==> p.pinned == t.peers[node.id].pinned)
  {
  }

  lemma InsertActive(space: Space, t: Table, id: string)
    requires AllPlaced(space, t)
    ensures |t.buckets| == BUCKETS
    ensures var ix := InsertFront(t.buckets, id, IdIndex(space, t.selfId, id));
      Placed(ix, IdSlots(space, t.selfId)) && Ids(ix) == Active(t) + {id}
  {
    hide Placed, Ids, IdIndex, InsertFront, NameSlots;
    PlacedLength(t.buckets, IdSlots(space, t.selfId));
    InsertPlaced(t.buckets, IdSlots(space, t.selfId), id, IdIndex(space, t.selfId, id));
  }

  lemma AddNodeKeeps(space: Space, t: Table, node: NodeInfo, now: Time)
    requires Inv(space, t)
    ensures |t.buckets| == |t.nameBuckets| == BUCKETS
    ensures Inv(space, AddNode(space, t, node, now))
    ensures Usable(t, node) ==> Active(AddNode(space, t, node, now)) == Active(t) + {node.id}
  {
    hide Placed, Ids, InsertFront, RemoveAll, IdIndex, NameIndex, In, IdSlots, NameSlots, Renames, Promoted;
    InvLength(space, t);
    if Usable(t, node) {
      PromotedIs(space, t, node, now);
      NamesReplaced(space, t, node, t.peers[node.id := Promoted(space, t, node, now)], t.selfNameHash != "");
      InsertActive(space, t, node.id);
      DropPendingIs(space, t, node.id);
    }
  }

  lemma UpdateKnownKeeps(space: Space, t: Table, node: NodeInfo, verified: bool)
    requires Inv(space, t)
    ensures Inv(space, UpdateKnownNode(space, t, node, verified).0)
    ensures Active(UpdateKnownNode(space, t, node, verified).0) == Active(t)
  {
    hide Placed, Ids, InsertFront, RemoveAll, IdIndex, NameIndex, In, IdSlots, NameSlots, Renames, Records.Newer;
    PlacedLength(t.nameBuckets, NameSlots(space, t.selfNameHash, t.peers));
    var (t', changed) := UpdateKnownNode(space, t, node, verified);
    if changed {
      InIds(t.buckets, node.id);
      NamesReplaced(space, t, node, t'.peers, In(t.buckets, node.id) && t.selfNameHash != "");
    }
  }

  lemma AppendWaiting(space: Space, t: Table, pending: Index, id: string)
    requires Placed(pending, IdSlots(space, t.selfId)) && id !in Ids(pending)
    ensures |pending| == BUCKETS
    ensures Placed(Append(pending, id, Slot(space, t, id)), IdSlots(space, t.selfId))
    ensures Ids(Append(pending, id, Slot(space, t, id))) == Ids(pending) + {id}
  {
    hide Ids, IdIndex, NoRepeats;
    AppendPlaced(pending, IdSlots(space, t.selfId), id, Slot(space, t, id));
  }

  lemma AddLookupCandidateKeeps(space: Space, t: Table, node: NodeInfo)
    requires Inv(space, t)
    ensures Inv(space, AddLookupCandidate(space, t, node).0)
    ensures Active(AddLookupCandidate(space, t, node).0) == Active(t)
  {
    hide Placed, Ids, Append, IdSlots, NameSlots, Slot, In;
    PlacedLength(t.pending, IdSlots(space, t.selfId));
    var (t', added) := AddLookupCandidate(space, t, node);
    if added {
      AppendWaiting(space, t, t.pending, node.id);
      NamesSame(space, t.nameBuckets, t.selfNameHash, t.peers, t'.peers, node.id);
    }
  }

  lemma AddCandidateKeeps(space: Space, t: Table, node: NodeInfo)
    requires Inv(space, t)
    ensures |t.pending| == BUCKETS
    ensures Inv(space, AddCandidate(space, t, node))
    ensures Active(AddCandidate(space, t, node)) == Active(t)
  {
    hide Inv, Ids, Append, In, DropPending, Slot;
    InvLength(space, t);
    InIds(t.buckets, node.id);
    if Refreshes(t, node) {
      RefreshKeeps(space, t, node);
    } else {
      EnlistKeeps(space, t, node);
    }
  }

  lemma RefreshKeeps(space: Space, t: Table, node: NodeInfo)
    requires Inv(space, t) && Refreshes(t, node)
    ensures |t.pending| == BUCKETS
    ensures Inv(space, AddCandidate(space, t, node))
    ensures Active(AddCandidate(space, t, node)) == Active(t)
  {
    hide Inv, Ids, Append, In, RemoveAll, Slot;
    InvLength(space, t);
    InIds(t.buckets, node.id);
    EnqueueKeeps(space, DropPending(t, node.id), t, node, t.peers[node.id].(node := node), 0);
  }

  lemma EnlistKeeps(space: Space, t: Table, node: NodeInfo)
    requires Inv(space, t) && !Refreshes(t, node)
    ensures |t.pending| == BUCKETS
    ensures Inv(space, AddCandidate(space, t, node))
    ensures Active(AddCandidate(space, t, node)) == Active(t)
  {
    hide Inv, Ids, Append, In, DropPending, Slot;
    InvLength(space, t);
    InIds(t.buckets, node.id);
    InIds(t.pending, node.id);
    if AddCandidate(space, t, node) != t {
      if node.id !in t.peers {
        NothingWaiting(space, t, node.id);
      }
      var p := if node.id in t.peers then t.peers[node.id].(node := node) else NewPeer(node);
      EnqueueKeeps(space, t, t, node, p.(transient := false), 1);
    }
  }

  lemma InvLength(space: Space, t: Table)
    requires Inv(space, t)
    ensures |t.buckets| == |t.nameBuckets| == |t.pending| == BUCKETS
  {
    hide Ids, NoRepeats, IdSlots, NameSlots, Partition, PeersOk;
  }

  lemma NothingWaiting(space: Space, t: Table, id: string)
    requires Inv(space, t) && id !in t.peers
    ensures id !in Waiting(t)
  {
    hide Placed, Ids, PeersOk;
  }

  /** A peer that is not active joins the end of its pending list, whatever it was before. */
  lemma EnqueueKeeps(space: Space, t1: Table, t: Table, node: NodeInfo, p: Peer, more: int)
    requires Inv(space, t) && Usable(t, node) && node.id !in Active(t)
    requires t1.(pending := t.pending, pendingN := t.pendingN) == t
    requires t1 == DropPending(t, node.id) || (t1 == t && node.id !in Waiting(t))
    requires p.node == node && (node.id in t.peers ==> p.pinned == t.peers[node.id].pinned)
    ensures |t1.pending| == BUCKETS
    ensures var t' := t1.(peers := t.peers[node.id := p], offline := t.offline - {node.id},
                          pending := Append(t1.pending, node.id, Slot(space, t, node.id)), pendingN := t1.pendingN + more);
      Inv(space, t') && Active(t') == Active(t)
  {
    hide Placed, Ids, Append, RemoveAll, In, IdSlots, NameSlots, Slot;
    DropPendingIs(space, t, node.id);
    AppendWaiting(space, t, t1.pending, node.id);
    NamesSame(space, t.nameBuckets, t.selfNameHash, t.peers, t.peers[node.id := p], node.id);
  }

  lemma TakeKeeps(space: Space, t: Table, id: string)
    requires Inv(space, t)
    ensures Inv(space, TakeCandidate(t, id)) && Active(TakeCandidate(t, id)) == Active(t)
    ensures In(t.pending, id) ==> Waiting(TakeCandidate(t, id)) == Waiting(t) - {id}
  {
    hide Placed, Ids, IdSlots, NameSlots, In, RemoveAll;
    DropPendingIs(space, t, id);
  }

  /** However the table has changed since the candidate was taken, it ends up active. */
  lemma FileKeeps(space: Space, t: Table, node: NodeInfo, now: Time)
    requires Inv(space, t) && Usable(t, node)
    ensures Inv(space, FilePromoted(space, t, node, now))
    ensures Active(FilePromoted(space, t, node, now)) == Active(t) + {node.id}
  {
    hide Placed, Ids, AddNode, NameSlots, IdSlots;
    InvLength(space, t);
    AddNodeKeeps(space, t, node, now);
    AddNodeFrame(space, t, node, now);
  }

  lemma AddNodeFrame(space: Space, t: Table, node: NodeInfo, now: Time)
    requires |t.buckets| == |t.nameBuckets| == BUCKETS
    ensures var t' := AddNode(space, t, node, now);
      t'.promoting == t.promoting && t'.peers == if Usable(t, node) then t.peers[node.id := Promoted(space, t, node, now)] else t.peers
  {
  }

  /** Done without interruption, promotion moves a pending peer to the active lists. */
  lemma PromoteKeeps(space: Space, t: Table, id: string, now: Time)
    requires Inv(space, t)
    ensures Inv(space, Promote(space, t, id, now))
    ensures Active(Promote(space, t, id, now)) == Active(t) + (if In(t.pending, id) then {id} else {})
  {
    hide Inv, Ids, AddNode, RemoveAll, In;
    InvLength(space, t);
    InIds(t.pending, id);
    TakeKeeps(space, t, id);
    InvLength(space, TakeCandidate(t, id));
    if In(t.pending, id) {
      WaitingOk(space, t, id);
      FileKeeps(space, TakeCandidate(t, id), t.peers[id].node, now);
    }
  }

  lemma WaitingOk(space: Space, t: Table, id: string)
    requires Inv(space, t) && id in Waiting(t)
    ensures id in t.peers && t.peers[id].node.id == id && Usable(t, t.peers[id].node)
  {
    hide Placed, Ids;
  }

  lemma DiscardKeeps(space: Space, t: Table, id: string)
    requires Inv(space, t)
    ensures Inv(space, Discard(t, id)) && Active(Discard(t, id)) == Active(t)
  {
    hide Placed, Ids, RemoveAll, IdIndex, NameIndex, In;
    InIds(t.pending, id);
    InIds(t.buckets, id);
    InIds(t.nameBuckets, id);
    var t1, t' := DropPending(t, id), Discard(t, id);
    DropPendingIs(space, t, id);
    InIds(t1.pending, id);
    if In(t.pending, id) {
      NamesSame(space, t.nameBuckets, t.selfNameHash, t.peers, t'.peers, id);
    }
  }

  /** Operations that only rewrite one peer's bookkeeping. */
  lemma RewriteKeeps(space: Space, t: Table, id: string, p: Peer)
    requires Inv(space, t) && id in t.peers
    requires p.node == t.peers[id].node && p.pinned == t.peers[id].pinned
    requires p.successCount == t.peers[id].successCount
    requires id in Active(t) ==> p.probeMisses < STALE_FAILURES
    ensures Inv(space, t.(peers := t.peers[id := p]))
  {
    hide Placed, Ids, IdIndex, NameIndex;
    NamesSame(space, t.nameBuckets, t.selfNameHash, t.peers, t.peers[id := p], id);
    assert PeerOk(t.selfId, id, t.peers[id]);
  }

  lemma NoteFailureKeeps(space: Space, t: Table, id: string, now: Time)
    requires Inv(space, t)
    ensures Inv(space, NoteFailure(t, id, now)) && Active(NoteFailure(t, id, now)) == Active(t)
  {
    hide Inv, Ids;
    if id in t.peers && id != t.selfId {
      InvMisses(space, t, id);
      RewriteKeeps(space, t, id, NoteFailure(t, id, now).peers[id]);
    }
  }

  lemma InvMisses(space: Space, t: Table, id: string)
    requires Inv(space, t) && id in t.peers
    ensures id in Active(t) ==> t.peers[id].probeMisses < STALE_FAILURES
  {
  }

  lemma ReserveKeeps(space: Space, t: Table, chosen: string, now: Time)
    requires Inv(space, t) && chosen in t.peers
    ensures Inv(space, Reserve(t, chosen, now)) && Active(Reserve(t, chosen, now)) == Active(t)
  {
    hide Inv, Ids;
    InvMisses(space, t, chosen);
    RewriteKeeps(space, t, chosen, Reserve(t, chosen, now).peers[chosen]);
  }

  lemma SetFriendKeeps(space: Space, t: Table, id: string, friend: bool)
    requires Inv(space, t)
    ensures Inv(space, SetFriend(t, id, friend).0) && Active(SetFriend(t, id, friend).0) == Active(t)
  {
    hide Inv, Ids;
    if id in t.peers {
      InvMisses(space, t, id);
      RewriteKeeps(space, t, id, SetFriend(t, id, friend).0.peers[id]);
    }
  }

  /** A failed probe takes a peer out of the active lists exactly when it is the third that counts. */
  predicate Expels(t: Table, id: string, now: Time, alive: bool) {
    !alive && id in t.peers && Counts(t.peers[id], now) && Missed(t.peers[id], now).probeMisses >= STALE_FAILURES
  }

  lemma LivenessKeeps(space: Space, t: Table, id: string, now: Time, alive: bool)
    requires Inv(space, t)
    ensures Inv(space, RecordLiveness(t, id, now, alive).0)
    ensures Active(RecordLiveness(t, id, now, alive).0) == Active(t) - (if Expels(t, id, now, alive) then {id} else {})
    ensures RecordLiveness(t, id, now, alive).1 <==> id in Active(t) && Expels(t, id, now, alive)
  {
    hide Inv, Ids, In, RemoveAll;
    if id in t.peers {
      InvMisses(space, t, id);
      if Expels(t, id, now, alive) {
        ExpelKeeps(space, t, id, now);
      } else {
        RewriteKeeps(space, t, id, RecordLiveness(t, id, now, alive).0.peers[id]);
      }
    } else {
      ActiveKnown(space, t);
    }
  }

  lemma ActiveKnown(space: Space, t: Table)
    requires Inv(space, t)
    ensures Active(t) <= t.peers.Keys && Waiting(t) <= t.peers.Keys && Ids(t.nameBuckets) <= Active(t)
  {
    hide Placed, Ids;
  }

  lemma ExpelKeeps(space: Space, t: Table, id: string, now: Time)
    requires Inv(space, t) && Expels(t, id, now, false)
    ensures Inv(space, RecordLiveness(t, id, now, false).0)
    ensures Active(RecordLiveness(t, id, now, false).0) == Active(t) - {id}
    ensures RecordLiveness(t, id, now, false).1 <==> id in Active(t)
  {
    hide Placed, Ids, RemoveAll, IdIndex, NameIndex, In;
    InIds(t.buckets, id);
    InIds(t.nameBuckets, id);
    InIds(t.pending, id);
    if In(t.buckets, id) {
      ExpelActive(space, t, id, now);
    } else {
      ExpelWaiting(space, t, id, now);
    }
  }

  lemma ExpelActive(space: Space, t: Table, id: string, now: Time)
    requires Inv(space, t) && id in Active(t)
    ensures var q := Offlined(Missed(t.peers[id], now), now);
      var t' := t.(buckets := RemoveAll(t.buckets, id), nameBuckets := RemoveAll(t.nameBuckets, id),
                   peers := t.peers[id := q], offline := t.offline + {id});
      Inv(space, t') && Active(t') == Active(t) - {id}
  {
    hide Placed, Ids, RemoveAll, IdIndex, NameIndex;
    var q := Offlined(Missed(t.peers[id], now), now);
    assert PeerOk(t.selfId, id, t.peers[id]);
    RemovePlaced(t.nameBuckets, NameSlots(space, t.selfNameHash, t.peers), id);
    RemovePlaced(t.buckets, IdSlots(space, t.selfId), id);
    NamesSame(space, RemoveAll(t.nameBuckets, id), t.selfNameHash, t.peers, t.peers[id := q], id);
  }

  lemma ExpelWaiting(space: Space, t: Table, id: string, now: Time)
    requires Inv(space, t) && id in t.peers && id !in Active(t)
    ensures var q := Missed(t.peers[id], now);
      var kept := DropPending(t, id).(peers := t.peers[id := Offlined(q, now)], offline := t.offline + {id});
      var gone := DropPending(t, id).(peers := t.peers - {id});
      && (q.successCount > 0 || q.pinned ==> Inv(space, kept) && Active(kept) == Active(t))
      && (q.successCount == 0 && !q.pinned ==> Inv(space, gone) && Active(gone) == Active(t))
  {
    hide Inv, Ids, DropPending;
    if t.peers[id].successCount > 0 || t.peers[id].pinned {
      OfflineKeeps(space, t, id, Offlined(Missed(t.peers[id], now), now));
    } else {
      ForgetKeeps(space, t, id);
    }
  }

  lemma OfflineKeeps(space: Space, t: Table, id: string, p: Peer)
    requires Inv(space, t) && id in t.peers && id !in Active(t)
    requires p.node == t.peers[id].node && p.pinned == t.peers[id].pinned && (p.successCount > 0 || p.pinned)
    ensures var t' := DropPending(t, id).(peers := t.peers[id := p], offline := t.offline + {id});
      Inv(space, t') && Active(t') == Active(t)
  {
    hide Placed, Ids, RemoveAll, IdSlots, NameSlots, In;
    assert PeerOk(t.selfId, id, t.peers[id]);
    DropPendingIs(space, t, id);
    NamesSame(space, t.nameBuckets, t.selfNameHash, t.peers, t.peers[id := p], id);
  }

  /** Only a peer that never answered and is not pinned may be forgotten. */
  lemma ForgetKeeps(space: Space, t: Table, id: string)
    requires Inv(space, t) && id in t.peers && id !in Active(t)
    requires t.peers[id].successCount == 0 && !t.peers[id].pinned
    ensures var t' := DropPending(t, id).(peers := t.peers - {id});
      Inv(space, t') && Active(t') == Active(t)
  {
    hide Placed, Ids, RemoveAll, IdSlots, NameSlots, In;
    DropPendingIs(space, t, id);
    NamesSame(space, t.nameBuckets, t.selfNameHash, t.peers, t.peers - {id}, id);
  }

  lemma MoveToFrontIs(ix: Index, slot: string -> int, id: string, at: int)
    requires Placed(ix, slot) && (0 <= at < BUCKETS ==> slot(id) == at)
    ensures |ix| == BUCKETS && Placed(MoveToFront(ix, id, at), slot) && Ids(MoveToFront(ix, id, at)) == Ids(ix)
  {
    if 0 <= at < BUCKETS && id in ix[at] {
      InsertPlaced(ix, slot, id, at);
    }
  }

  lemma UsedIs(space: Space, p: Peer, named: bool, now: Time, rtt: nat)
    ensures var q := Used(space, p, named, now, rtt);
      && q.pinned == p.pinned && q.successCount == p.successCount && q.probeMisses == 0
      && q.node.id == p.node.id && q.node.addr == p.node.addr && NameHash(space, q.node) == NameHash(space, p.node)
  {
  }

  lemma FrontById(space: Space, t: Table, id: string)
    requires AllPlaced(space, t)
    ensures |t.buckets| == BUCKETS
    ensures var ix := MoveToFront(t.buckets, id, IdIndex(space, t.selfId, id));
      Placed(ix, IdSlots(space, t.selfId)) && Ids(ix) == Active(t)
  {
    hide Placed, Ids, MoveToFront, IdIndex, NameSlots;
    MoveToFrontIs(t.buckets, IdSlots(space, t.selfId), id, IdIndex(space, t.selfId, id));
  }

  lemma FrontByName(space: Space, names: Index, selfName: string, peers: map<string, Peer>, id: string)
    requires Placed(names, NameSlots(space, selfName, peers)) && id in peers
    ensures |names| == BUCKETS
    ensures var ix := MoveToFront(names, id, NameIndex(space, selfName, peers[id].node));
      Placed(ix, NameSlots(space, selfName, peers)) && Ids(ix) == Ids(names)
  {
    hide Placed, Ids, MoveToFront, NameIndex;
    MoveToFrontIs(names, NameSlots(space, selfName, peers), id, NameIndex(space, selfName, peers[id].node));
  }

  lemma RecordUseKeeps(space: Space, t: Table, id: string, now: Time, rtt: nat)
    requires Inv(space, t)
    ensures |t.buckets| == |t.nameBuckets| == BUCKETS
    ensures Inv(space, RecordUse(space, t, id, now, rtt)) && Active(RecordUse(space, t, id, now, rtt)) == Active(t)
  {
    hide Placed, Ids, MoveToFront, IdIndex, NameIndex, IdSlots, NameSlots, Used, NameHash;
    InvLength(space, t);
    if id in t.peers {
      var p := Used(space, t.peers[id], t.selfNameHash != "", now, rtt);
      UsedIs(space, t.peers[id], t.selfNameHash != "", now, rtt);
      assert PeerOk(t.selfId, id, t.peers[id]);
      NamesSame(space, t.nameBuckets, t.selfNameHash, t.peers, t.peers[id := p], id);
      FrontById(space, t, id);
      FrontByName(space, t.nameBuckets, t.selfNameHash, t.peers[id := p], id);
    }
  }

  lemma PruneKeeps(space: Space, t: Table, now: Time)
    requires Inv(space, t)
    ensures Inv(space, PruneOffline(t, now)) && Active(PruneOffline(t, now)) == Active(t)
  {
    hide Placed, Ids, IdIndex, NameIndex;
    var t' := PruneOffline(t, now);
    PlacedSame(t.nameBuckets, NameSlots(space, t.selfNameHash, t.peers), NameSlots(space, t.selfNameHash, t'.peers));
  }

  lemma {:induction false} InsertNamesIs(space: Space, selfName: string, peers: map<string, Peer>, order: seq<string>, ix: Index)
    requires forall id <- order :: id in peers
    requires Placed(ix, NameSlots(space, selfName, peers))
    ensures |ix| == BUCKETS
    ensures Placed(InsertNames(space, selfName, peers, order, ix), NameSlots(space, selfName, peers))
    ensures forall x :: x in Ids(InsertNames(space, selfName, peers, order, ix)) <==> x in Ids(ix) || x in order
    decreases |order|
  {
    hide Placed, Ids, NameIndex, InsertFront;
    PlacedLength(ix, NameSlots(space, selfName, peers));
    if order != [] {
      var id := order[0];
      assert id in peers;
      InsertPlaced(ix, NameSlots(space, selfName, peers), id, NameIndex(space, selfName, peers[id].node));
      var ix' := InsertFront(ix, id, NameIndex(space, selfName, peers[id].node));
      assert forall x <- order[1..] :: x in order;
      InsertNamesIs(space, selfName, peers, order[1..], ix');
      assert order == [id] + order[1..];
    }
  }

  ghost predicate Enumerates(order: seq<string>, ids: set<string>) {
    forall id :: id in order <==> id in ids
  }

  lemma SetSelfNameHashKeeps(space: Space, t: Table, hash: string, order: seq<string>)
    requires Inv(space, t) && Enumerates(order, Active(t))
    ensures forall id <- order :: id in t.peers
    ensures Inv(space, SetSelfNameHash(space, t, hash, order)) && Active(SetSelfNameHash(space, t, hash, order)) == Active(t)
  {
    hide Placed, Ids, IdSlots, NameSlots, InsertNames;
    EmptyPlaced(NameSlots(space, hash, t.peers));
    InsertNamesIs(space, hash, t.peers, order, Empty());
    assert Ids(SetSelfNameHash(space, t, hash, order).nameBuckets) == Active(t);
  }

  lemma EmptyPlaced(slot: string -> int)
    ensures Placed(Empty(), slot) && Ids(Empty()) == {}
  {
  }
}
