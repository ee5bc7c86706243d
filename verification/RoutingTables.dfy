/**
 * The routing table as it is kept: lists and maps that all point at the same entry objects.
 * Every method is the operation of Routing on the values those objects hold.
 */
module RoutingTables {
  import opened Ordering
  import opened Slots
  import opened Routing
  import opened RoutingInv
  import opened RoutingRuns
  import opened Closest
  import opened EntryLists
  import opened Wire
  import Coordinates
  import Records

  class RoutingTable {
    const space: Space
    const selfId: string
    var selfNameHash: string
    var buckets: Lists
    var nameBuckets: Lists
    var pending: Lists
    var peerById: map<string, Entry>
    var offline: map<string, Entry>
    var pendingN: int
    ghost var promoting: set<string>

    constructor (space: Space, selfId: string, selfNameHash: string)
      ensures Valid() && fresh(peerById.Values)
      ensures this.space == space && View() == New(selfId, selfNameHash)
    {
      this.space := space;
      this.selfId := selfId;
      this.selfNameHash := selfNameHash;
      buckets, nameBuckets, pending := seq(BUCKETS, _ => []), seq(BUCKETS, _ => []), seq(BUCKETS, _ => []);
      peerById, offline := map[], map[];
      pendingN := 0;
      promoting := {};
      new;
      assert View() == New(selfId, selfNameHash);
      NewInv(space, selfId, selfNameHash);
    }

    /** The table's contents by value. */
    ghost function View(): Table
      reads this, peerById.Values
    {
      Table(selfId, selfNameHash, IdLists(buckets), IdLists(nameBuckets), IdLists(pending),
            PeersOf(peerById), offline.Keys, pendingN, promoting)
    }

    /** No list or map mentions an entry other than the one filed under its ID. */
    ghost predicate Linked()
      reads this, peerById.Values
    {
      && Keyed(peerById)
      && Points(buckets, peerById) && Points(nameBuckets, peerById) && Points(pending, peerById)
      && forall id :: id in offline ==> id in peerById && offline[id] == peerById[id]
    }

    ghost predicate Valid()
      reads this, peerById.Values
    {
      Linked() && Inv(space, View())
    }

    lemma Searchable()
      requires Linked()
      ensures |buckets| == |nameBuckets| == |pending| == BUCKETS
      ensures forall i :: 0 <= i < BUCKETS ==> Faithful(buckets[i]) && Faithful(nameBuckets[i]) && Faithful(pending[i])
    {
      hide Faithful;
      PointsFaithful(buckets, peerById);
      PointsFaithful(nameBuckets, peerById);
      PointsFaithful(pending, peerById);
    }

    /** Takes id off the pending lists. */
    method RemovePending(id: string) returns (removed: bool)
      requires Linked() && Placed(View().pending, IdSlots(space, selfId))
      modifies this`pending, this`pendingN
      ensures Linked() && View() == DropPending(old(View()), id)
      ensures removed == In(old(View()).pending, id) && (!removed ==> View() == old(View()))
    {
      hide Placed, IdSlots, Faithful, Within, Points, Keyed, IdLists, PeersOf, In, RemoveAll;
      Searchable();
      var before := pending;
      pending, removed := RemoveFirst(pending, id, IdSlots(space, selfId));
      PointsLess(before, pending, peerById);
      if removed {
        pendingN := pendingN - 1;
      }
    }

    // ------------------------------------------------------------ single edits

    lemma Self()
      ensures View().selfId == selfId && View().selfNameHash == selfNameHash
      ensures View().offline == offline.Keys && View().pendingN == pendingN && View().promoting == promoting
    {
    }

    lemma Sizes()
      requires Linked()
      ensures |View().buckets| == |View().nameBuckets| == |View().pending| == BUCKETS
    {
    }

    lemma PeerAt(id: string)
      requires Linked()
      ensures id in View().peers <==> id in peerById
      ensures id in peerById ==> View().peers[id] == peerById[id].peer && peerById[id].peer.node.id == id
    {
    }

    method SetPeer(id: string, p: Peer)
      requires Linked() && id in peerById && p.node.id == id
      modifies peerById[id]
      ensures Linked() && View() == old(View()).(peers := old(View()).peers[id := p])
    {
      hide Points, IdLists;
      peerById[id].peer := p;
      assert PeersOf(peerById) == old(PeersOf(peerById))[id := p];
    }

    method FileNew(p: Peer)
      requires Linked() && p.node.id !in peerById
      modifies this`peerById
      ensures Linked() && fresh(peerById.Values - old(peerById.Values))
      ensures View() == old(View()).(peers := old(View()).peers[p.node.id := p])
    {
      hide Points, IdLists;
      var entry := new Entry(p);
      PointsGrow(buckets, peerById, entry);
      PointsGrow(nameBuckets, peerById, entry);
      PointsGrow(pending, peerById, entry);
      peerById := peerById[p.node.id := entry];
      assert PeersOf(peerById) == old(PeersOf(peerById))[p.node.id := p];
    }

    method PutFront(id: string)
      requires Linked() && id in View().peers
      modifies this`buckets
      ensures Linked() && |old(View()).buckets| == BUCKETS
      ensures View() == old(View()).(buckets := InsertFront(old(View()).buckets, id, IdIndex(space, selfId, id)))
    {
      hide IdIndex, Faithful, Within, InsertFront, Points, IdLists, PeersOf;
      Searchable();
      PeerAt(id);
      var before := buckets;
      buckets := InsertIndex(buckets, peerById[id], IdIndex(space, selfId, id));
      PointsWithin(before, buckets, peerById, peerById[id]);
    }

    method PutNameFront(id: string, at: int)
      requires Linked() && id in View().peers
      modifies this`nameBuckets
      ensures Linked() && |old(View()).nameBuckets| == BUCKETS
      ensures View() == old(View()).(nameBuckets := InsertFront(old(View()).nameBuckets, id, at))
    {
      hide Faithful, Within, InsertFront, Points, IdLists, PeersOf;
      Searchable();
      PeerAt(id);
      var before := nameBuckets;
      nameBuckets := InsertIndex(nameBuckets, peerById[id], at);
      PointsWithin(before, nameBuckets, peerById, peerById[id]);
    }

    method DropName(id: string) returns (removed: bool)
      requires Linked()
      modifies this`nameBuckets
      ensures Linked() && View() == old(View()).(nameBuckets := RemoveAll(old(View()).nameBuckets, id))
      ensures removed == In(old(View()).nameBuckets, id) && (!removed ==> View() == old(View()))
    {
      hide Faithful, Within, RemoveAll, Points, Keyed, IdLists, PeersOf, In;
      Searchable();
      var before := nameBuckets;
      nameBuckets, removed := RemoveFromIndex(nameBuckets, id);
      PointsLess(before, nameBuckets, peerById);
    }

    method DropActive(id: string) returns (removed: bool)
      requires Linked()
      modifies this`buckets
      ensures Linked() && View() == old(View()).(buckets := RemoveAll(old(View()).buckets, id))
      ensures removed == In(old(View()).buckets, id) && (!removed ==> View() == old(View()))
    {
      hide Faithful, Within, RemoveAll, Points, Keyed, IdLists, PeersOf, In;
      Searchable();
      var before := buckets;
      buckets, removed := RemoveFromIndex(buckets, id);
      PointsLess(before, buckets, peerById);
    }

    method PutPending(id: string, at: nat)
      requires Linked() && id in View().peers && at < BUCKETS
      modifies this`pending
      ensures Linked() && |old(View()).pending| == BUCKETS
      ensures View() == old(View()).(pending := Append(old(View()).pending, id, at))
    {
      hide Faithful, Within, Append, Points, IdLists, PeersOf;
      Searchable();
      PeerAt(id);
      var before := pending;
      pending := AppendEntry(pending, peerById[id], at);
      PointsWithin(before, pending, peerById, peerById[id]);
    }

    method Listed(id: string) returns (active: bool, named: bool)
      requires Linked()
      ensures active == In(View().buckets, id) && named == In(View().nameBuckets, id)
    {
      Searchable();
      active := InIndex(buckets, id);
      named := InIndex(nameBuckets, id);
    }

    method DropOffline(id: string)
      requires Linked()
      modifies this`offline
      ensures Linked() && View() == old(View()).(offline := old(View()).offline - {id})
    {
      hide Points, Keyed, IdLists, PeersOf;
      offline := offline - {id};
    }

    method PutOffline(id: string)
      requires Linked() && id in View().peers
      modifies this`offline
      ensures Linked() && View() == old(View()).(offline := old(View()).offline + {id})
    {
      hide Points, Keyed, IdLists;
      offline := offline[id := peerById[id]];
    }

    method Tally(more: int)
      requires Linked()
      modifies this`pendingN
      ensures Linked() && View() == old(View()).(pendingN := old(View()).pendingN + more)
    {
      hide Points, Keyed, IdLists, PeersOf;
      pendingN := pendingN + more;
    }

    method Forget(gone: set<string>)
      requires Linked() && gone !! Ids(View().buckets) && gone !! Ids(View().nameBuckets) && gone !! Ids(View().pending)
      requires gone !! View().offline
      modifies this`peerById
      ensures Linked() && peerById == old(peerById) - gone
      ensures View() == old(View()).(peers := old(View()).peers - gone)
    {
      hide Points, IdLists, Ids;
      PointsShrink(buckets, peerById, gone);
      PointsShrink(nameBuckets, peerById, gone);
      PointsShrink(pending, peerById, gone);
      peerById := peerById - gone;
      assert PeersOf(peerById) == old(PeersOf(peerById)) - gone;
    }

    method MoveFront(id: string)
      requires Linked()
      modifies this`buckets
      ensures Linked() && |old(View()).buckets| == BUCKETS
      ensures View() == old(View()).(buckets := MoveToFront(old(View()).buckets, id, IdIndex(space, selfId, id)))
    {
      hide IdIndex, Faithful, Within, MoveToFront, Points, IdLists, PeersOf, Keyed;
      Searchable();
      var before := buckets;
      buckets := MoveListed(buckets, id, IdIndex(space, selfId, id));
      PointsLess(before, buckets, peerById);
    }

    method MoveNameFront(id: string, at: int)
      requires Linked()
      modifies this`nameBuckets
      ensures Linked() && |old(View()).nameBuckets| == BUCKETS
      ensures View() == old(View()).(nameBuckets := MoveToFront(old(View()).nameBuckets, id, at))
    {
      hide Faithful, Within, MoveToFront, Points, IdLists, PeersOf, Keyed;
      Searchable();
      var before := nameBuckets;
      nameBuckets := MoveListed(nameBuckets, id, at);
      PointsLess(before, nameBuckets, peerById);
    }

    // -------------------------------------------------------------- operations

    /** Creates or updates the entry of a peer that has just answered. */
    method FileAnswered(node: NodeInfo, now: Time)
      requires Linked()
      modifies this`peerById, this`nameBuckets, peerById.Values
      ensures Linked() && fresh(peerById.Values - old(peerById.Values))
      ensures var t := old(View());
        View() == t.(peers := t.peers[node.id := Promoted(space, t, node, now)],
                     nameBuckets := if Renames(space, t, node) then RemoveAll(t.nameBuckets, node.id) else t.nameBuckets)
    {
      hide Linked, View, RemoveAll, PeersOf, IdLists, NameHash;
      PeerAt(node.id);
      if node.id !in peerById {
        FileNew(Answered(NewPeer(node).(probationUntil := now + PROBATION), node.id, now));
      } else {
        var was := peerById[node.id].peer;
        if NameHash(space, was.node) != NameHash(space, node) {
          var _ := DropName(node.id);
        }
        SetPeer(node.id, Answered(was.(node := node,
                                       probationUntil := if was.probationUntil == 0 && was.successCount == 0 && !was.pinned
                                                         then now + PROBATION else was.probationUntil), node.id, now));
      }
      PeerAt(node.id);
    }

    function Answered(p: Peer, id: string, now: Time): Peer {
      p.(transient := false, failCount := 0, lastSeen := now,
         firstSeen := if p.firstSeen == 0 then now else p.firstSeen,
         lastSuccess := now, lastProbe := now, nextProbeAt := now + space.probeDelay(id),
         probeMisses := 0, lastProbeFailure := 0, offlineSince := 0,
         successCount := if p.successCount < MAX_UINT32 then p.successCount + 1 else p.successCount)
    }

    /** The shared body of the additions; it asks less of the table than they do. */
    method Admit(node: NodeInfo, now: Time)
      requires Linked() && Placed(View().pending, IdSlots(space, selfId))
      modifies this`peerById, this`offline, this`pending, this`pendingN, this`buckets, this`nameBuckets, peerById.Values
      ensures Linked() && fresh(peerById.Values - old(peerById.Values))
      ensures |old(View()).buckets| == |old(View()).nameBuckets| == BUCKETS
      ensures View() == Routing.AddNode(space, old(View()), node, now)
    {
      hide Linked, View, RemoveAll, InsertFront, IdIndex, NameIndex, Promoted, Renames, PeersOf, IdLists, In, Placed, IdSlots;
      Self();
      Sizes();
      if node.id == "" || node.id == selfId || node.addr == "" {
        return;
      }
      FileAnswered(node, now);
      DropOffline(node.id);
      var _ := RemovePending(node.id);
      PutFront(node.id);
      Self();
      if selfNameHash != "" {
        PutNameFront(node.id, NameIndex(space, selfNameHash, node));
      }
    }

    method AddNode(node: NodeInfo, now: Time)
      requires Valid()
      modifies this, peerById.Values
      ensures Valid() && fresh(peerById.Values - old(peerById.Values))
      ensures View() == Routing.AddNode(space, old(View()), node, now)
    {
      hide Inv, Linked, View, Routing.AddNode, Placed, IdSlots;
      AddNodeKeeps(space, View(), node, now);
      Self();
      PendingPlaced(space, View());
      Admit(node, now);
    }

    method UpdateKnownNode(node: NodeInfo, verified: bool) returns (updated: bool)
      requires Valid()
      modifies this`nameBuckets, peerById.Values
      ensures Valid() && (View(), updated) == Routing.UpdateKnownNode(space, old(View()), node, verified)
    {
      hide Inv, Linked, View, RemoveAll, InsertFront, NameIndex, NameHash, Records.Newer, PeersOf, IdLists, In;
      UpdateKnownKeeps(space, View(), node, verified);
      Self();
      PeerAt(node.id);
      if node.id == "" || node.id == selfId || node.addr == "" || !verified || node.id !in peerById {
        return false;
      }
      var was := peerById[node.id].peer;
      if !Records.Newer(node.stamp, was.node.stamp) {
        return false;
      }
      if NameHash(space, was.node) != NameHash(space, node) {
        var _ := DropName(node.id);
      }
      SetPeer(node.id, was.(node := node));
      Self();
      var active, _ := Listed(node.id);
      if active && selfNameHash != "" {
        PutNameFront(node.id, NameIndex(space, selfNameHash, node));
      }
      updated := true;
    }

    /** crashed: the pending list was indexed out of range, which ends the process. */
    method AddLookupCandidate(node: NodeInfo) returns (added: bool, crashed: bool)
      requires Valid() && Coordinates.Fits256(space.sha)
      modifies this`peerById, this`pending, this`pendingN
      ensures crashed <==> Admits(old(View()), node) && !OffSelf(space, old(View()), node)
      ensures !crashed ==> Valid() && fresh(peerById.Values - old(peerById.Values))
      ensures !crashed ==> (View(), added) == Routing.AddLookupCandidate(space, old(View()), node)
    {
      hide Inv, Linked, View, Append, IdIndex, OffSelf, PeersOf, IdLists, Coordinates.Fits256;
      AddLookupCandidateKeeps(space, View(), node);
      Self();
      Sizes();
      PeerAt(node.id);
      if node.id == "" || node.id == selfId || node.addr == "" {
        return false, false;
      }
      var at := IdIndex(space, selfId, node.id);
      if node.id in peerById || pendingN >= MAX_PENDING {
        return false, false;
      }
      InRange(space, View(), node);
      FileNew(NewPeer(node).(transient := true));
      if at < 0 || at >= BUCKETS {
        return false, true;
      }
      PutPending(node.id, at);
      Tally(1);
      added, crashed := true, false;
    }

    method AddCandidate(node: NodeInfo) returns (crashed: bool)
      requires Valid() && Coordinates.Fits256(space.sha)
      modifies this`peerById, this`offline, this`pending, this`pendingN, peerById.Values
      ensures crashed <==> Enqueues(old(View()), node) && !OffSelf(space, old(View()), node)
      ensures !crashed ==> Valid() && fresh(peerById.Values - old(peerById.Values))
      ensures !crashed ==> View() == Routing.AddCandidate(space, old(View()), node)
    {
      hide Inv, Linked, View, Routing.AddCandidate, OffSelf, Enqueues, Placed, IdSlots, Coordinates.Fits256;
      AddCandidateKeeps(space, View(), node);
      Self();
      PendingPlaced(space, View());
      crashed := TakeIn(node);
    }

    /** The same on any table whose pending lists are in order. */
    method TakeIn(node: NodeInfo) returns (crashed: bool)
      requires Linked() && Placed(View().pending, IdSlots(space, selfId)) && Coordinates.Fits256(space.sha)
      modifies this`peerById, this`offline, this`pending, this`pendingN, peerById.Values
      ensures crashed <==> Enqueues(old(View()), node) && !OffSelf(space, old(View()), node)
      ensures |old(View()).pending| == BUCKETS
      ensures !crashed ==> Linked() && fresh(peerById.Values - old(peerById.Values))
      ensures !crashed ==> View() == Routing.AddCandidate(space, old(View()), node)
    {
      hide Linked, View, Append, RemoveAll, IdIndex, OffSelf, PeersOf, IdLists, In, Placed, IdSlots, Coordinates.Fits256;
      crashed := false;
      Self();
      Sizes();
      if node.id == "" || node.id == selfId || node.addr == "" {
        return;
      }
      var at := IdIndex(space, selfId, node.id);
      InRange(space, View(), node);
      var active, named := Listed(node.id);
      if active || named {
        return;
      }
      PeerAt(node.id);
      if node.id in peerById {
        var removed := RemovePending(node.id);
        PeerAt(node.id);
        if removed {
          SetPeer(node.id, peerById[node.id].peer.(node := node));
          DropOffline(node.id);
          if at < 0 || at >= BUCKETS {
            return true;
          }
          PutPending(node.id, at);
          return;
        }
      }
      Self();
      if pendingN >= MAX_PENDING {
        return;
      }
      if at < 0 || at >= BUCKETS {
        return true;
      }
      Enlist(node, at);
    }

    method Enlist(node: NodeInfo, at: nat)
      requires Linked() && at < BUCKETS
      modifies this`peerById, this`offline, this`pending, this`pendingN, peerById.Values
      ensures Linked() && fresh(peerById.Values - old(peerById.Values)) && |old(View()).pending| == BUCKETS
      ensures var t := old(View());
        var p := if node.id in t.peers then t.peers[node.id].(node := node) else NewPeer(node);
        View() == t.(peers := t.peers[node.id := p.(transient := false)], offline := t.offline - {node.id},
                     pending := Append(t.pending, node.id, at), pendingN := t.pendingN + 1)
    {
      hide Linked, View, Append, PeersOf, IdLists;
      PeerAt(node.id);
      Sizes();
      if node.id !in peerById {
        FileNew(NewPeer(node));
      } else {
        SetPeer(node.id, peerById[node.id].peer.(node := node, transient := false));
      }
      DropOffline(node.id);
      PutPending(node.id, at);
      Tally(1);
    }

    /** The first half of a promotion. */
    method TakeCandidate(id: string) returns (node: Option<NodeInfo>)
      requires Valid()
      modifies this`pending, this`pendingN, this`promoting
      ensures Valid() && View() == Routing.TakeCandidate(old(View()), id)
      ensures node.Some? <==> In(old(View()).pending, id)
      ensures node.Some? ==> id in old(View()).peers && node == Some(old(View()).peers[id].node) && Usable(View(), node.value) && node.value.id == id
    {
      hide Inv, Linked, View, Placed, IdSlots, RemoveAll, In, Waiting;
      ghost var t := View();
      TakeKeeps(space, t, id);
      TakenOk(space, t, id);
      Self();
      PendingPlaced(space, t);
      var removed := RemovePending(id);
      if !removed {
        return None;
      }
      PeerAt(id);
      node := Some(peerById[id].peer.node);
      Self();
      MarkPromoting(promoting + {id});
    }

    /** The second half, after other operations may have run. */
    method FilePromoted(node: NodeInfo, now: Time)
      requires Valid() && Usable(View(), node)
      modifies this, peerById.Values
      ensures Valid() && fresh(peerById.Values - old(peerById.Values))
      ensures |old(View()).buckets| == |old(View()).nameBuckets| == BUCKETS
      ensures View() == Routing.FilePromoted(space, old(View()), node, now)
    {
      hide Inv, Linked, View, Routing.AddNode;
      ghost var t := View();
      Sizes();
      FileKeeps(space, t, node, now);
      AddNodeFrame(space, t, node, now);
      AddNode(node, now);
      Self();
      MarkPromoting(promoting - {node.id});
    }

    ghost method MarkPromoting(ids: set<string>)
      requires Linked()
      modifies this`promoting
      ensures Linked() && View() == old(View()).(promoting := ids)
    {
      promoting := ids;
    }

    method PromoteCandidate(id: string, now: Time)
      requires Valid()
      modifies this, peerById.Values
      ensures Valid() && fresh(peerById.Values - old(peerById.Values))
      ensures |old(View()).buckets| == |old(View()).nameBuckets| == BUCKETS
      ensures View() == Promote(space, old(View()), id, now)
    {
      hide Inv, Linked, View, DropPending, Routing.FilePromoted, In;
      Sizes();
      var node := TakeCandidate(id);
      if node.Some? {
        FilePromoted(node.value, now);
      }
    }

    method ForgetIfUnlisted(id: string)
      requires Linked()
      modifies this`peerById
      ensures Linked() && peerById.Values <= old(peerById.Values)
      ensures View() == Routing.ForgetIfUnlisted(old(View()), id)
    {
      hide Linked, View, PeersOf, IdLists, In;
      PeerAt(id);
      if id in peerById && peerById[id].peer.pinned {
        return;
      }
      var active, named, waiting := ListedAnywhere(id);
      Self();
      if active || named || id in offline || waiting {
        return;
      }
      InIds(View().buckets, id);
      InIds(View().nameBuckets, id);
      InIds(View().pending, id);
      Forget({id});
    }

    method DiscardCandidate(id: string)
      requires Valid()
      modifies this`peerById, this`pending, this`pendingN
      ensures Valid() && peerById.Values <= old(peerById.Values)
      ensures View() == Discard(old(View()), id)
    {
      hide Inv, Linked, View, In, Placed, IdSlots, DropPending, Routing.ForgetIfUnlisted;
      DiscardKeeps(space, View(), id);
      Self();
      PendingPlaced(space, View());
      var removed := RemovePending(id);
      if removed {
        ForgetIfUnlisted(id);
      }
    }

    method NoteFailureAt(id: string, now: Time)
      requires Valid()
      modifies peerById.Values
      ensures Valid() && View() == NoteFailure(old(View()), id, now)
    {
      hide Inv, Linked, View;
      NoteFailureKeeps(space, View(), id, now);
      Self();
      PeerAt(id);
      if id !in peerById || id == selfId {
        return;
      }
      var p := peerById[id].peer;
      SetPeer(id, p.(lastFailure := now, failCount := if p.failCount < MAX_UINT8 then p.failCount + 1 else p.failCount));
    }

    method RecordUse(id: string, now: Time, rtt: nat)
      requires Valid()
      modifies this`buckets, this`nameBuckets, peerById.Values
      ensures Valid() && |old(View()).buckets| == |old(View()).nameBuckets| == BUCKETS
      ensures View() == Routing.RecordUse(space, old(View()), id, now, rtt)
    {
      hide Inv, Linked, View, MoveToFront, IdIndex, NameIndex, Used;
      RecordUseKeeps(space, View(), id, now, rtt);
      Self();
      PeerAt(id);
      if id !in peerById {
        return;
      }
      UsedIs(space, peerById[id].peer, selfNameHash != "", now, rtt);
      var p := Used(space, peerById[id].peer, selfNameHash != "", now, rtt);
      SetPeer(id, p);
      MoveFront(id);
      Self();
      if selfNameHash != "" {
        MoveNameFront(id, NameIndex(space, selfNameHash, p.node));
      }
    }

    method SetFriend(id: string, friend: bool) returns (known: bool)
      requires Valid()
      modifies peerById.Values
      ensures Valid() && (View(), known) == Routing.SetFriend(old(View()), id, friend)
    {
      hide Inv, Linked, View;
      SetFriendKeeps(space, View(), id, friend);
      PeerAt(id);
      if id !in peerById {
        return false;
      }
      SetPeer(id, peerById[id].peer.(friend := friend));
      known := true;
    }

    method RecordLivenessResult(id: string, now: Time, alive: bool) returns (expelled: bool)
      requires Valid()
      modifies this, peerById.Values
      ensures Valid() && peerById.Values <= old(peerById.Values)
      ensures (View(), expelled) == RecordLiveness(old(View()), id, now, alive)
    {
      hide Inv, Linked, View, In, Placed, IdSlots, RemoveAll, Alive, Missed, Offlined, Counts;
      LivenessKeeps(space, View(), id, now, alive);
      Self();
      PendingPlaced(space, View());
      PeerAt(id);
      if id !in peerById {
        return false;
      }
      var p := peerById[id].peer;
      NodeKept(p, now);
      OfflineEarned(space, View(), id);
      if alive {
        SetPeer(id, Alive(p, now));
        return false;
      }
      if !Counts(p, now) {
        SetPeer(id, p.(lastProbe := now, nextProbeAt := now + PROBE_INTERVAL));
        return false;
      }
      ghost var t := View();
      SetPeer(id, Missed(p, now));
      if Missed(p, now).probeMisses < STALE_FAILURES {
        return false;
      }
      ExpelledIs(t, id, now);
      expelled := Expel(id, now);
    }

    /** What a peer's third counted miss does to it. */
    method Expel(id: string, now: Time) returns (expelled: bool)
      requires Linked() && Placed(View().pending, IdSlots(space, selfId)) && id in View().peers
      requires id in View().offline ==> View().peers[id].successCount > 0 || View().peers[id].pinned
      modifies this, peerById.Values
      ensures Linked() && peerById.Values <= old(peerById.Values)
      ensures (View(), expelled) == Expelled(old(View()), id, now)
    {
      hide Linked, View, In, Placed, IdSlots, RemoveAll, Offlined, Ids;
      ghost var t := View();
      Self();
      PeerAt(id);
      var q := peerById[id].peer;
      NodeKept(q, now);
      var active := DropActive(id);
      var named := DropName(id);
      expelled := active || named;
      if expelled {
        PeerAt(id);
        SetPeer(id, Offlined(q, now));
        PutOffline(id);
        ForgetIfUnlisted(id);
      } else {
        Unlisted(space, t, id);
        var _ := RemovePending(id);
        PeerAt(id);
        if q.successCount > 0 || q.pinned {
          SetPeer(id, Offlined(q, now));
          PutOffline(id);
        } else {
          Forget({id});
        }
      }
    }

    /** A due peer that has waited longest, found in whatever order the map is walked. */
    method PickDue(now: Time) returns (chosen: Option<string>)
      requires Linked()
      ensures chosen.None? ==> forall id :: !Due(View(), id, now)
      ensures chosen.Some? ==> LongestWaiting(View(), chosen.value, now)
    {
      hide Linked, View, In, PeersOf, IdLists;
      ghost var t := View();
      var unseen := peerById.Keys;
      chosen := None;
      while unseen != {}
        invariant unseen <= peerById.Keys
        invariant chosen.None? ==> forall id :: id in peerById && id !in unseen ==> !Due(t, id, now)
        invariant chosen.Some? ==> Due(t, chosen.value, now) && chosen.value in peerById
        invariant chosen.Some? ==> forall id :: id in peerById && id !in unseen && Due(t, id, now) ==>
          t.peers[chosen.value].lastProbe <= t.peers[id].lastProbe
        decreases |unseen|
      {
        var id :| id in unseen;
        unseen := unseen - {id};
        PeerAt(id);
        var active, _ := Listed(id);
        if active && now >= peerById[id].peer.nextProbeAt {
          if chosen.None? {
            chosen := Some(id);
          } else {
            PeerAt(chosen.value);
            if peerById[id].peer.lastProbe < peerById[chosen.value].peer.lastProbe {
              chosen := Some(id);
            }
          }
        }
      }
      Keys();
    }

    /** Reserves the due peer that has waited longest; a map has no order, so ties fall any way. */
    method BeginLivenessProbe(now: Time) returns (selected: Option<NodeInfo>)
      requires Valid()
      modifies peerById.Values
      ensures Valid()
      ensures selected.None? ==> View() == old(View()) && forall id :: !Due(old(View()), id, now)
      ensures selected.Some? ==>
        && LongestWaiting(old(View()), selected.value.id, now)
        && selected.value == old(View()).peers[selected.value.id].node
        && View() == Reserve(old(View()), selected.value.id, now)
    {
      hide Inv, Linked, View, In, PeersOf, IdLists;
      ghost var t := View();
      var chosen := PickDue(now);
      if chosen.None? {
        return None;
      }
      var id := chosen.value;
      PeerAt(id);
      ReserveKeeps(space, t, id, now);
      var p := peerById[id].peer;
      SetPeer(id, p.(lastProbe := now, nextProbeAt := now + PROBE_INTERVAL));
      selected := Some(p.node);
    }

    method PruneOffline(now: Time)
      requires Valid()
      modifies this`offline, this`peerById
      ensures Valid() && peerById.Values <= old(peerById.Values)
      ensures View() == Routing.PruneOffline(old(View()), now)
    {
      hide Inv, Linked, View, PeersOf, IdLists, Ids, ExpiredIds, Expired, Without, Fewer;
      ghost var t, was := View(), peerById;
      PruneKeeps(space, t, now);
      OfflineOnly(space, t);
      NoneGone(t, was);
      Self();
      var left := offline.Keys;
      ghost var gone: set<string> := {};
      while left != {}
        invariant Linked() && Fewer(peerById, was) && left <= t.offline
        invariant gone !! left && forall id :: id in t.offline && id !in left ==> (id in gone <==> id in ExpiredIds(t, now))
        invariant gone <= t.offline && View() == Without(t, gone)
        decreases |left|
      {
        var id :| id in left;
        left := left - {id};
        Remains(t, gone, id);
        PeerAt(id);
        InExpired(t, now, id);
        if Expired(peerById[id].peer, now) {
          Retire(id);
          OneMore(t, gone, id);
          gone := gone + {id};
        }
      }
      WithoutExpired(t, now, gone);
      FewerValues(peerById, was);
    }

    method Retire(id: string)
      requires Linked() && id !in Ids(View().buckets) && id !in Ids(View().nameBuckets) && id !in Ids(View().pending)
      modifies this`offline, this`peerById
      ensures Linked() && View() == Without(old(View()), {id})
      ensures forall was :: Fewer(old(peerById), was) ==> Fewer(peerById, was)
    {
      hide Linked, View, PeersOf, IdLists, Ids;
      DropOffline(id);
      Forget({id});
    }

    /** Renames self and files every active peer again, in the order of its ID. */
    method SetSelfNameHash(hash: string) returns (ghost order: seq<string>)
      requires Valid()
      modifies this`selfNameHash, this`nameBuckets
      ensures Sorted(Alphabetical, order) && NoRepeats(order) && Enumerates(order, Active(old(View())))
      ensures (forall id <- order :: id in old(View()).peers)
      ensures Valid() && View() == Routing.SetSelfNameHash(space, old(View()), hash, order)
    {
      hide Inv, Linked, View, PeersOf, IdLists, In, Ids, Sorted, NoRepeats, InsertFront, NameIndex, Empty, InsertNames;
      ghost var t := View();
      Keys();
      Clear(hash);
      var ids := SortedIds(peerById.Keys);
      order := [];
      for i := 0 to |ids|
        invariant Linked()
        invariant Sublist(order, ids[..i]) && forall id :: id in order <==> id in ids[..i] && In(t.buckets, id)
        invariant forall id <- order :: id in t.peers
        invariant View() == Routing.SetSelfNameHash(space, t, hash, order)
      {
        var id := ids[i];
        PeerAt(id);
        SublistStep(order, ids, i);
        var active, _ := Listed(id);
        if active {
          InsertLast(space, hash, t.peers, order, id, Empty());
          PutNameFront(id, NameIndex(space, hash, peerById[id].peer.node));
          order := order + [id];
        }
      }
      assert ids[..|ids|] == ids;
      SublistSorted(order, ids);
      ActiveKnown(space, t);
      forall id
        ensures id in order <==> id in Active(t)
      {
        InIds(t.buckets, id);
      }
      SetSelfNameHashKeeps(space, t, hash, order);
    }

    method Clear(hash: string)
      requires Linked()
      modifies this`selfNameHash, this`nameBuckets
      ensures Linked() && View() == Routing.SetSelfNameHash(space, old(View()), hash, [])
    {
      hide Keyed, PeersOf;
      selfNameHash := hash;
      nameBuckets := seq(BUCKETS, _ => []);
      assert IdLists(nameBuckets) == Empty();
    }

    lemma Keys()
      requires Linked()
      ensures View().peers.Keys == peerById.Keys
    {
    }

    /** Files one persisted observation: the address as a candidate, then everything remembered about it. */
    method RestoreOne(seen: Peer, now: Time) returns (crashed: bool)
      requires Linked() && Placed(View().pending, IdSlots(space, selfId)) && Coordinates.Fits256(space.sha)
      modifies this`peerById, this`offline, this`pending, this`pendingN, peerById.Values
      ensures crashed <==> Halts(space, old(View()), seen, now)
      ensures |old(View()).pending| == BUCKETS
      ensures !crashed ==> Linked() && fresh(peerById.Values - old(peerById.Values)) && Placed(View().pending, IdSlots(space, selfId))
      ensures !crashed ==> View() == RoutingRuns.RestoreOne(space, old(View()), seen, now)
    {
      hide Linked, View, Routing.AddCandidate, OffSelf, Restored, PeersOf, IdLists, In, Ids, Placed, IdSlots, RemoveAll, TooOld,
           Coordinates.Fits256;
      crashed := false;
      Self();
      Sizes();
      WaitingKnown();
      RestorePlaced(space, View(), seen, now);
      var id := seen.node.id;
      if id == "" || seen.node.addr == "" || TooOld(seen, now) {
        return;
      }
      crashed := TakeIn(seen.node);
      if crashed {
        return;
      }
      Self();
      PeerAt(id);
      if id in peerById {
        Remember(seen);
        Self();
      }
    }

    lemma WaitingKnown()
      requires Linked()
      ensures Waiting(View()) <= View().peers.Keys
    {
    }

    /** Everything an observation says about a known peer but its address. */
    method Remember(seen: Peer)
      requires Linked() && Placed(View().pending, IdSlots(space, selfId)) && seen.node.id in peerById
      modifies this`offline, this`pending, this`pendingN, peerById.Values
      ensures Linked() && seen.node.id in old(View()).peers && View() == Restored(old(View()), seen)
    {
      hide Linked, View, PeersOf, IdLists, In, Placed, IdSlots, RemoveAll;
      var id := seen.node.id;
      PeerAt(id);
      Self();
      SetPeer(id, seen.(node := peerById[id].peer.node, transient := peerById[id].peer.transient));
      if seen.offlineSince != 0 {
        var _ := RemovePending(id);
        PutOffline(id);
      }
    }

    /**
     * Restores persisted peers. The table stays consistent if each of them suits it in turn, as sound
     * observations do when the node starts.
     */
    method RestoreCandidates(seen: seq<Peer>, now: Time) returns (crashed: bool)
      requires Valid() && Coordinates.Fits256(space.sha)
      modifies this`peerById, this`offline, this`pending, this`pendingN, peerById.Values
      ensures |old(View()).pending| == BUCKETS
      ensures crashed <==> exists i :: HaltsAt(space, old(View()), Hottest(seen), now, i)
      ensures Placeable(space, old(View()), seen) ==> !crashed
      ensures !crashed ==> Linked() && fresh(peerById.Values - old(peerById.Values))
      ensures !crashed ==> View() == RestoreAll(space, old(View()), Hottest(seen), now)
      ensures !crashed && AllSuit(space, old(View()), Hottest(seen), now) ==> Valid()
      ensures !crashed && Active(old(View())) == {} && old(pendingN) == 0 && Sound(seen) ==> Valid()
    {
      hide Inv, Linked, View, RoutingRuns.RestoreOne, OffSelf, PeersOf, IdLists, Ids, RestoreAll, Hottest, AllSuit, Placed, IdSlots,
           Coordinates.Fits256, TooOld, In;
      Sizes();
      Self();
      HottestAre(seen);
      var peers := Hottest(seen);
      ghost var t := View();
      RestoreNone(space, t, peers, now);
      PendingPlaced(space, t);
      for i := 0 to |peers|
        invariant Linked() && fresh(peerById.Values - old(peerById.Values)) && Placed(View().pending, IdSlots(space, selfId))
        invariant View() == RestoreAll(space, t, peers[..i], now)
        invariant forall j :: 0 <= j < i ==> !HaltsAt(space, t, peers, now, j)
      {
        assert peers[i] in peers;
        Self();
        RestoreSelf(space, t, peers[..i], now);
        SameSelf(space, t, View(), peers[i].node);
        RestoreLast(space, t, peers, i, now);
        crashed := RestoreOne(peers[i], now);
        if crashed {
          assert peers[i] in seen && HaltsAt(space, t, peers, now, i);
          return;
        }
      }
      crashed := false;
      assert peers[..|peers|] == peers;
      RestoredFine(space, t, peers, now);
    }

    method ClosestNodes(target: string, count: int) returns (nodes: seq<NodeInfo>)
      requires Valid()
      ensures NearestOf(space, target, false, nodes, count, Active(View()), Infos(View().peers))
    {
      hide Inv, View, Linked, NearestOf, Chosen, AllNodes, IdLists, PeersOf, Ids;
      ClosestExact(space, View(), target, count);
      nodes := ClosestIn(false, target, count);
    }

    method ClosestNodesByNameHash(target: string, count: int) returns (nodes: seq<NodeInfo>)
      requires Valid()
      ensures NearestOf(space, target, true, nodes, count, Ids(View().nameBuckets), Infos(View().peers))
    {
      hide Inv, View, Linked, NearestOf, Chosen, AllNodes, IdLists, PeersOf, Ids;
      ClosestByNameExact(space, View(), target, count);
      nodes := ClosestIn(true, target, count);
    }

    method ClosestIn(byName: bool, target: string, count: int) returns (nodes: seq<NodeInfo>)
      requires Linked() && Known(if byName then View().nameBuckets else View().buckets, Infos(View().peers))
      ensures nodes == ClosestFrom(space, View(), target, count, byName)
    {
      hide Chosen, AllNodes, IdLists;
      if count <= 0 {
        EmptyChoice(space, target, byName, AllNodes(if byName then View().nameBuckets else View().buckets, Infos(View().peers)), count);
        return [];
      }
      var lists := if byName then nameBuckets else buckets;
      var all := Gather(lists, peerById);
      nodes := Chosen(space, target, byName, all, count);
    }

    method ListedAnywhere(id: string) returns (active: bool, named: bool, waiting: bool)
      requires Linked()
      ensures active == In(View().buckets, id) && named == In(View().nameBuckets, id) && waiting == In(View().pending, id)
    {
      hide In, IdLists, Points, Keyed, Faithful, PeersOf;
      Searchable();
      active := InIndex(buckets, id);
      named := InIndex(nameBuckets, id);
      waiting := InIndex(pending, id);
    }
  }

  ghost function Expelled(t: Table, id: string, now: Time): (Table, bool)
    requires id in t.peers
  {
    var q := t.peers[id];
    if In(t.buckets, id) || In(t.nameBuckets, id) then
      (t.(buckets := RemoveAll(t.buckets, id), nameBuckets := RemoveAll(t.nameBuckets, id),
          peers := t.peers[id := Offlined(q, now)], offline := t.offline + {id}), true)
    else if q.successCount > 0 || q.pinned then
      (DropPending(t, id).(peers := t.peers[id := Offlined(q, now)], offline := t.offline + {id}), false)
    else (DropPending(t, id).(peers := t.peers - {id}), false)
  }

  lemma ExpelledIs(t: Table, id: string, now: Time)
    requires id in t.peers && Counts(t.peers[id], now) && Missed(t.peers[id], now).probeMisses >= STALE_FAILURES
    ensures Expelled(t.(peers := t.peers[id := Missed(t.peers[id], now)]), id, now) == RecordLiveness(t, id, now, false)
  {
    hide In, RemoveAll;
    var q := Missed(t.peers[id], now);
    assert t.peers[id := q][id := Offlined(q, now)] == t.peers[id := Offlined(q, now)];
    assert t.peers[id := q] - {id} == t.peers - {id};
  }

  lemma Unlisted(space: Space, t: Table, id: string)
    requires !In(t.buckets, id) && !In(t.nameBuckets, id) && Placed(t.pending, IdSlots(space, t.selfId))
    ensures id !in Ids(t.buckets) && id !in Ids(t.nameBuckets) && id !in Ids(DropPending(t, id).pending)
  {
    hide Placed, RemoveAll, IdSlots;
    InIds(t.buckets, id);
    InIds(t.nameBuckets, id);
    RemovePlaced(t.pending, IdSlots(space, t.selfId), id);
  }

  lemma NodeKept(p: Peer, now: Time)
    ensures Alive(p, now).node == Missed(p, now).node == Offlined(p, now).node == p.node
    ensures Missed(p, now).successCount == p.successCount && Missed(p, now).pinned == p.pinned
  {
  }

  // --------------------------------------------------------------- forgetting

  ghost function Without(t: Table, gone: set<string>): Table {
    t.(offline := t.offline - gone, peers := t.peers - gone)
  }

  ghost predicate Fewer(m: map<string, Entry>, was: map<string, Entry>) {
    forall id :: id in m ==> id in was && m[id] == was[id]
  }

  lemma FewerValues(m: map<string, Entry>, was: map<string, Entry>)
    requires Fewer(m, was)
    ensures m.Values <= was.Values
  {
  }

  lemma NoneGone(t: Table, m: map<string, Entry>)
    ensures Without(t, {}) == t && Fewer(m, m)
  {
    assert t.peers - {} == t.peers;
  }

  lemma Remains(t: Table, gone: set<string>, id: string)
    requires id in t.peers && id !in gone
    ensures id in Without(t, gone).peers && Without(t, gone).peers[id] == t.peers[id]
    ensures var t' := Without(t, gone); t'.buckets == t.buckets && t'.nameBuckets == t.nameBuckets && t'.pending == t.pending
  {
  }

  lemma InExpired(t: Table, now: Time, id: string)
    requires id in t.peers && id in t.offline
    ensures id in ExpiredIds(t, now) <==> Expired(t.peers[id], now)
  {
  }

  lemma OneMore(t: Table, gone: set<string>, id: string)
    ensures Without(Without(t, gone), {id}) == Without(t, gone + {id})
  {
    assert t.offline - gone - {id} == t.offline - (gone + {id});
    assert t.peers - gone - {id} == t.peers - (gone + {id});
  }

  lemma WithoutExpired(t: Table, now: Time, gone: set<string>)
    requires gone <= t.offline && forall id :: id in t.offline ==> (id in gone <==> id in ExpiredIds(t, now))
    ensures Without(t, gone) == PruneOffline(t, now)
  {
    assert gone == ExpiredIds(t, now);
  }

  lemma OfflineOnly(space: Space, t: Table)
    requires Inv(space, t)
    ensures t.offline !! Ids(t.buckets) && t.offline !! Ids(t.nameBuckets) && t.offline !! Ids(t.pending)
    ensures t.offline <= t.peers.Keys
  {
    hide Ids, Placed;
  }

  // ---------------------------------------------------------- rebuilding by name

  method SortedIds(ids: set<string>) returns (r: seq<string>)
    ensures Sorted(Alphabetical, r) && NoRepeats(r) && Enumerates(r, ids)
  {
    hide Sorted, Sort;
    var left := ids;
    r := [];
    while left != {}
      invariant left <= ids && NoRepeats(r)
      invariant forall id :: id in r <==> id in ids && id !in left
      decreases |left|
    {
      var id :| id in left;
      left := left - {id};
      r := r + [id];
    }
    StringOrder();
    SortSorts(Alphabetical, r);
    NoRepeatsByCount(Sort(Alphabetical, r), r);
    SameElements(Sort(Alphabetical, r), r);
    r := Sort(Alphabetical, r);
  }

  /** order keeps some of the elements of ids, in place. */
  ghost predicate Sublist(order: seq<string>, ids: seq<string>)
    decreases |ids|
  {
    if ids == [] then order == []
    else
      var init := ids[..|ids| - 1];
      Sublist(order, init)
      || (order != [] && order[|order| - 1] == ids[|ids| - 1] && Sublist(order[..|order| - 1], init))
  }

  lemma SublistStep(order: seq<string>, ids: seq<string>, i: nat)
    requires i < |ids| && Sublist(order, ids[..i])
    ensures Sublist(order, ids[..i + 1]) && Sublist(order + [ids[i]], ids[..i + 1])
    ensures forall x :: x in ids[..i + 1] <==> x in ids[..i] || x == ids[i]
  {
    assert ids[..i + 1][..i] == ids[..i];
    assert ids[..i + 1] == ids[..i] + [ids[i]];
    assert (order + [ids[i]])[..|order|] == order;
  }

  lemma {:induction false} SublistSorted(order: seq<string>, ids: seq<string>)
    requires Sublist(order, ids) && Sorted(Alphabetical, ids) && NoRepeats(ids)
    ensures Sorted(Alphabetical, order) && NoRepeats(order) && forall x <- order :: x in ids
    decreases |ids|
  {
    hide StringLe;
    if ids != [] {
      var init := ids[..|ids| - 1];
      if Sublist(order, init) {
        SublistSorted(order, init);
      } else {
        var front := order[..|order| - 1];
        SublistSorted(front, init);
        assert order == front + [ids[|ids| - 1]];
        forall k | 0 <= k < |front|
          ensures StringLe(front[k], ids[|ids| - 1]) && front[k] != ids[|ids| - 1]
        {
          assert front[k] in init;
        }
      }
    }
  }

  lemma {:induction false} InsertLast(space: Space, selfName: string, peers: map<string, Peer>, order: seq<string>, id: string, ix: Index)
    requires |ix| == BUCKETS && id in peers && forall x <- order :: x in peers
    ensures forall x <- order + [id] :: x in peers
    ensures InsertNames(space, selfName, peers, order + [id], ix)
         == InsertFront(InsertNames(space, selfName, peers, order, ix), id, NameIndex(space, selfName, peers[id].node))
    decreases |order|
  {
    hide NameIndex;
    if order == [] {
      assert [id][1..] == [];
    } else {
      assert (order + [id])[1..] == order[1..] + [id];
      InsertLast(space, selfName, peers, order[1..], id, InsertFront(ix, order[0], NameIndex(space, selfName, peers[order[0]].node)));
    }
  }

  // ------------------------------------------------------------------ restoring

  predicate Warmer(a: Peer, b: Peer) {
    a.lastSuccess >= b.lastSuccess
  }

  /** Past the cache limit, only the peers that answered most recently are restored. */
  function Hottest(seen: seq<Peer>): (r: seq<Peer>)
    ensures |r| <= MAX_PENDING
  {
    if |seen| > MAX_PENDING then Sort(Warmer, seen)[..MAX_PENDING] else seen
  }

  /** What is restored was persisted, and nothing left out was heard from later than what is restored. */
  lemma HottestAre(seen: seq<Peer>)
    ensures forall p <- Hottest(seen) :: p in seen
    ensures Sound(seen) ==> Sound(Hottest(seen))
    ensures |seen| > MAX_PENDING ==>
      exists cold: seq<Peer> :: multiset(Hottest(seen) + cold) == multiset(seen)
        && forall p <- Hottest(seen), q <- cold :: Warmer(p, q)
  {
    var all := Sort(Warmer, seen);
    SortSorts(Warmer, seen);
    SameElements(all, seen);
    if |seen| > MAX_PENDING {
      var cold := all[MAX_PENDING..];
      assert Hottest(seen) + cold == all;
      forall p <- Hottest(seen), q <- cold
        ensures Warmer(p, q)
      {
        var i :| 0 <= i < MAX_PENDING && all[i] == p;
        var j :| 0 <= j < |cold| && cold[j] == q;
        assert Warmer(all[i], all[MAX_PENDING + j]);
      }
    }
    forall p <- Hottest(seen)
      ensures p in seen
    {
      assert p in all || p in seen;
    }
  }

  lemma SameSelf(space: Space, t: Table, t': Table, node: NodeInfo)
    requires t.selfId == t'.selfId
    ensures Usable(t, node) == Usable(t', node) && OffSelf(space, t, node) == OffSelf(space, t', node)
  {
  }

  lemma RestoreNone(space: Space, t: Table, seen: seq<Peer>, now: Time)
    requires |t.pending| == BUCKETS
    ensures RestoreAll(space, t, seen[..0], now) == t
  {
  }

  lemma {:induction false} RestoreLast(space: Space, t: Table, seen: seq<Peer>, i: nat, now: Time)
    requires |t.pending| == BUCKETS && i < |seen|
    ensures RestoreAll(space, t, seen[..i + 1], now) == RoutingRuns.RestoreOne(space, RestoreAll(space, t, seen[..i], now), seen[i], now)
    decreases i
  {
    hide RoutingRuns.RestoreOne;
    if i > 0 {
      var next := RoutingRuns.RestoreOne(space, t, seen[0], now);
      assert seen[..i + 1][1..] == seen[1..][..i] && seen[..i][1..] == seen[1..][..i - 1];
      RestoreLast(space, next, seen[1..], i - 1, now);
    } else {
      assert seen[..1][1..] == [];
    }
  }

  // -------------------------------------------------------------------- nearest

  lemma EmptyChoice(space: Space, target: string, byName: bool, nodes: seq<NodeInfo>, count: int)
    requires count <= 0
    ensures Chosen(space, target, byName, nodes, count) == []
  {
  }

  /** Every entry of every list, from the first bucket up. */
  method Gather(lists: Lists, ghost byId: map<string, Entry>) returns (nodes: seq<NodeInfo>)
    requires Points(lists, byId) && Keyed(byId) && Known(IdLists(lists), Infos(PeersOf(byId)))
    ensures nodes == AllNodes(IdLists(lists), Infos(PeersOf(byId)))
  {
    hide Points, Keyed, PeersOf, IdsIn;
    nodes := [];
    ghost var ix := IdLists(lists);
    assert ix[..0] == [];
    for i := 0 to |lists|
      invariant nodes == AllNodes(ix[..i], Infos(PeersOf(byId)))
    {
      var list := NodesOf(lists, i, byId);
      assert ix[..i + 1][..i] == ix[..i];
      nodes := nodes + list;
    }
    assert ix[..|lists|] == ix;
  }

  method NodesOf(lists: Lists, i: nat, ghost byId: map<string, Entry>) returns (nodes: seq<NodeInfo>)
    requires i < |lists| && Points(lists, byId) && Known(IdLists(lists), Infos(PeersOf(byId)))
    ensures nodes == NodesIn(IdLists(lists)[i], Infos(PeersOf(byId)))
  {
    assert PointsIn(lists[i], byId);
    nodes := [];
    for k := 0 to |lists[i]|
      invariant |nodes| == k && forall j :: 0 <= j < k ==> nodes[j] == lists[i][j].peer.node
    {
      nodes := nodes + [lists[i][k].peer.node];
    }
    forall k | 0 <= k < |nodes|
      ensures nodes[k] == Infos(PeersOf(byId))[IdLists(lists)[i][k]]
    {
      assert lists[i][k] in lists[i];
    }
  }

  lemma OfflineEarned(space: Space, t: Table, id: string)
    requires Inv(space, t) && id in t.peers
    ensures id in t.offline ==> t.peers[id].successCount > 0 || t.peers[id].pinned
  {
  }

  lemma TakenOk(space: Space, t: Table, id: string)
    requires Inv(space, t)
    ensures In(t.pending, id) ==>
      id in t.peers && t.peers[id].node.id == id && Usable(t, t.peers[id].node) && Usable(Routing.TakeCandidate(t, id), t.peers[id].node)
    ensures DropPending(t, id).peers == t.peers && DropPending(t, id).promoting == t.promoting
  {
    hide Inv, Ids, RemoveAll, In;
    InIds(t.pending, id);
    if In(t.pending, id) {
      WaitingOk(space, t, id);
    }
  }

  /** Exactly off self's own point the pending list is indexed within its range. */
  lemma InRange(space: Space, t: Table, node: NodeInfo)
    requires Coordinates.Fits256(space.sha)
    ensures OffSelf(space, t, node) <==> 0 <= IdIndex(space, t.selfId, node.id) < BUCKETS
    ensures OffSelf(space, t, node) ==> Slot(space, t, node.id) == IdIndex(space, t.selfId, node.id)
  {
    PendingIndexIff(space, t, node);
  }

  /** Filing the observation's address indexes a pending list out of range. */
  ghost predicate Halts(space: Space, t: Table, seen: Peer, now: Time) {
    seen.node.id != "" && seen.node.addr != "" && !TooOld(seen, now) && Enqueues(t, seen.node) && !OffSelf(space, t, seen.node)
  }

  ghost predicate HaltsAt(space: Space, t: Table, seen: seq<Peer>, now: Time, i: int)
    requires |t.pending| == BUCKETS
  {
    0 <= i < |seen| && Halts(space, RestoreAll(space, t, seen[..i], now), seen[i], now)
  }

  lemma {:induction false} RestoreSelf(space: Space, t: Table, seen: seq<Peer>, now: Time)
    requires |t.pending| == BUCKETS
    ensures RestoreAll(space, t, seen, now).selfId == t.selfId
    decreases |seen|
  {
    hide In, RemoveAll, Append, Slot, TooOld;
    if seen != [] {
      RestoreSelf(space, RoutingRuns.RestoreOne(space, t, seen[0], now), seen[1..], now);
    }
  }

  /** Each observation suits the table it is restored into. */
  ghost predicate AllSuit(space: Space, t: Table, seen: seq<Peer>, now: Time)
    requires |t.pending| == BUCKETS
    decreases |seen|
  {
    seen == []
    || ((seen[0].node.id != "" && seen[0].node.addr != "" && !TooOld(seen[0], now) ==> Suits(t, seen[0]))
        && AllSuit(space, RoutingRuns.RestoreOne(space, t, seen[0], now), seen[1..], now))
  }

  lemma {:induction false} AllSuitKeeps(space: Space, t: Table, seen: seq<Peer>, now: Time)
    requires Inv(space, t) && |t.pending| == BUCKETS && AllSuit(space, t, seen, now)
    ensures Inv(space, RestoreAll(space, t, seen, now))
    decreases |seen|
  {
    hide Inv, Suits, AddCandidate, Restored;
    if seen != [] {
      if seen[0].node.id != "" && seen[0].node.addr != "" && !TooOld(seen[0], now) {
        RestoreOneIff(space, t, seen[0], now);
      }
      AllSuitKeeps(space, RoutingRuns.RestoreOne(space, t, seen[0], now), seen[1..], now);
    }
  }

  lemma RestoredFine(space: Space, t: Table, peers: seq<Peer>, now: Time)
    requires Inv(space, t) && |t.pending| == BUCKETS && |peers| <= MAX_PENDING
    ensures AllSuit(space, t, peers, now) ==> Inv(space, RestoreAll(space, t, peers, now))
    ensures Active(t) == {} && t.pendingN == 0 && Sound(peers) ==> Inv(space, RestoreAll(space, t, peers, now))
  {
    hide Inv, Ids, AllSuit, RestoreAll, Sound;
    if AllSuit(space, t, peers, now) {
      AllSuitKeeps(space, t, peers, now);
    }
    if Active(t) == {} && t.pendingN == 0 && Sound(peers) {
      RestoreAllKeeps(space, t, peers, now);
    }
  }

  lemma RestorePlaced(space: Space, t: Table, seen: Peer, now: Time)
    requires Placed(t.pending, IdSlots(space, t.selfId)) && Waiting(t) <= t.peers.Keys && |t.pending| == BUCKETS
    ensures Placed(AddCandidate(space, t, seen.node).pending, IdSlots(space, t.selfId))
    ensures Placed(RoutingRuns.RestoreOne(space, t, seen, now).pending, IdSlots(space, t.selfId))
  {
    hide Placed, IdSlots, Ids, Append, RemoveAll, In, Slot, TooOld;
    var t1, id := AddCandidate(space, t, seen.node), seen.node.id;
    InIds(t.pending, id);
    RemovePlaced(t.pending, IdSlots(space, t.selfId), id);
    AppendWaiting(space, t, RemoveAll(t.pending, id), id);
    if id !in Waiting(t) {
      AppendWaiting(space, t, t.pending, id);
    }
    RemovePlaced(t1.pending, IdSlots(space, t.selfId), id);
  }

  lemma PendingPlaced(space: Space, t: Table)
    requires Inv(space, t)
    ensures Placed(t.pending, IdSlots(space, t.selfId))
  {
  }
}
