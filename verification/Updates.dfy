/** Which of several records of a peer is kept, in version numbers, sequence numbers and issue times. */
module Updates {
  import opened Slots
  import opened Routing
  import opened Records

  /** Where a record stands: version first, then the sequence number or, for legacy versions, the issue time. */
  datatype Stage = Stage(version: int, age: int)

  function StageOf(r: EndpointRecord): Stage {
    if r.version >= 2 then Stage(r.version, r.sequence)
    else Stage(r.version, if r.issuedAt.Some? then r.issuedAt.value else 0)
  }

  predicate Behind(a: Stage, b: Stage) {
    a.version < b.version || (a.version == b.version && a.age < b.age)
  }

  /** Newer means further on, if both records can be read; one whose issue time cannot be read is not newer than its own version. */
  lemma NewerIs(a: EndpointRecord, b: EndpointRecord)
    ensures Readable(a) && Readable(b) ==> (Newer(a, b) <==> Behind(StageOf(b), StageOf(a)))
    ensures !Readable(a) || !Readable(b) ==> (Newer(a, b) <==> a.version > b.version)
    ensures a.version == b.version == 2 ==> (Newer(a, b) <==> a.sequence > b.sequence)
    ensures a.version == b.version < 2 && Readable(a) && Readable(b) ==> (Newer(a, b) <==> a.issuedAt.value > b.issuedAt.value)
  {
  }

  /** An update is stored and answered true exactly if it is verified and further on; then the peer's node is the update. */
  lemma UpdateIff(space: Space, t: Table, node: NodeInfo, verified: bool)
    requires |t.nameBuckets| == BUCKETS && Usable(t, node) && node.id in t.peers
    requires Readable(node.stamp) && Readable(t.peers[node.id].node.stamp)
    ensures var held := t.peers[node.id]; var (t', stored) := UpdateKnownNode(space, t, node, verified);
      && (stored <==> verified && Behind(StageOf(held.node.stamp), StageOf(node.stamp)))
      && (node.stamp.version == held.node.stamp.version == 2 ==> (stored <==> verified && node.stamp.sequence > held.node.stamp.sequence))
      && (stored ==> t'.peers == t.peers[node.id := held.(node := node)])
      && (!stored ==> t' == t)
  {
    hide RemoveAll, InsertFront, NameIndex, In, NameHash;
    NewerIs(node.stamp, t.peers[node.id].node.stamp);
  }

  datatype Update = Update(node: NodeInfo, verified: bool)

  function UpdateAll(space: Space, t: Table, updates: seq<Update>): (r: Table)
    requires |t.nameBuckets| == BUCKETS
    ensures |r.nameBuckets| == BUCKETS
    decreases |updates|
  {
    if updates == [] then t
    else
      var before := UpdateAll(space, t, updates[..|updates| - 1]);
      var last := updates[|updates| - 1];
      Sized(space, before, last.node, last.verified);
      UpdateKnownNode(space, before, last.node, last.verified).0
  }

  lemma Sized(space: Space, t: Table, node: NodeInfo, verified: bool)
    requires |t.nameBuckets| == BUCKETS
    ensures |UpdateKnownNode(space, t, node, verified).0.nameBuckets| == BUCKETS
  {
  }

  /** Updates of one peer that could each be stored. */
  ghost predicate Proper(t: Table, id: string, updates: seq<Update>) {
    forall u <- updates :: u.node.id == id && Usable(t, u.node) && Readable(u.node.stamp)
  }

  /**
   * However they come in, the record held after any updates of a peer is the first one or a verified one,
   * and none of the verified ones is further on.
   */
  lemma {:induction false} FurthestHeld(space: Space, t: Table, id: string, updates: seq<Update>)
    requires |t.nameBuckets| == BUCKETS && id in t.peers && Readable(t.peers[id].node.stamp) && Proper(t, id, updates)
    ensures var t' := UpdateAll(space, t, updates);
      && t'.selfId == t.selfId && id in t'.peers && Readable(t'.peers[id].node.stamp)
      && (t'.peers[id].node == t.peers[id].node || exists u <- updates :: u.verified && t'.peers[id].node == u.node)
      && !Behind(StageOf(t'.peers[id].node.stamp), StageOf(t.peers[id].node.stamp))
      && (forall u <- updates :: u.verified ==> !Behind(StageOf(t'.peers[id].node.stamp), StageOf(u.node.stamp)))
  {
    if updates != [] {
      hide StageOf, Readable, UpdateKnownNode;
      var front, last := updates[..|updates| - 1], updates[|updates| - 1];
      assert updates == front + [last] && last in updates && forall u <- front :: u in updates;
      FurthestHeld(space, t, id, front);
      var before := UpdateAll(space, t, front);
      UpdateIff(space, before, last.node, last.verified);
      SameSelfId(space, before, last.node, last.verified);
      if before.peers[id].node != t.peers[id].node {
        var u :| u in front && u.verified && before.peers[id].node == u.node;
        assert u in updates;
      }
    }
  }

  lemma SameSelfId(space: Space, t: Table, node: NodeInfo, verified: bool)
    requires |t.nameBuckets| == BUCKETS
    ensures UpdateKnownNode(space, t, node, verified).0.selfId == t.selfId
  {
  }
}
