/** The routing table on values: peers by ID, listed in buckets, pending or offline. */
module Routing {
  import opened Slots
  import Coordinates
  import Records

  const MAX_PENDING := 512
  const STALE_FAILURES := 3
  const PROBE_INTERVAL := 300_000_000_000            // five minutes
  const PROBATION := 7_200_000_000_000               // two hours
  const HISTORY_TTL := 2_592_000_000_000_000         // thirty days
  const MAX_UINT8 := 255
  const MAX_UINT32 := 0xFFFF_FFFF

  /** Nanoseconds; zero is the unset time. */
  type Time = nat

  datatype NodeInfo = NodeInfo(id: string, name: string, nameHash: string, addr: string, stamp: Records.EndpointRecord)

  /** What the table knows about one peer. */
  datatype Peer = Peer(
    node: NodeInfo, transient: bool,
    failCount: nat, successCount: nat,
    lastSeen: Time, firstSeen: Time, lastSuccess: Time, lastUsed: Time, lastFailure: Time,
    lastProbe: Time, lastProbeFailure: Time, offlineSince: Time, probeMisses: nat,
    probationUntil: Time, nextProbeAt: Time, rttMicros: nat,
    pinned: bool, friend: bool, useCount: nat, closestIdRank: nat, closestNameRank: nat)

  function NewPeer(node: NodeInfo): Peer {
    Peer(node, false, 0, 0, 0, 0, 0, 0, 0, 0, 0, 0, 0, 0, 0, 0, false, false, 0, 0, 0)
  }

  /** Hashing, as far as placement and probe scheduling depend on it. */
  datatype Space = Space(sha: Coordinates.Hash, hashName: string -> string, probeDelay: string -> nat)

  /** promoting: peers taken off the pending lists whose promotion has yet to take the lock again. */
  datatype Table = Table(
    selfId: string, selfNameHash: string,
    buckets: Index, nameBuckets: Index, pending: Index,
    peers: map<string, Peer>, offline: set<string>, pendingN: int, promoting: set<string>)

  function NameHash(space: Space, node: NodeInfo): string {
    if node.nameHash != "" then node.nameHash else space.hashName(node.name)
  }

  function IdIndex(space: Space, self: string, id: string): int {
    Coordinates.BucketIndex(space.sha, self, id)
  }

  function NameIndex(space: Space, selfName: string, node: NodeInfo): int {
    Coordinates.BucketIndex(space.sha, selfName, NameHash(space, node))
  }

  ghost function IdSlots(space: Space, self: string): string -> int {
    id => Clamp(IdIndex(space, self, id))
  }

  ghost function NameSlots(space: Space, selfName: string, peers: map<string, Peer>): string -> int {
    id => if id in peers then Clamp(NameIndex(space, selfName, peers[id].node)) else -1
  }

  function New(selfId: string, selfNameHash: string): Table {
    Table(selfId, selfNameHash, Empty(), Empty(), Empty(), map[], {}, 0, {})
  }

  predicate Usable(t: Table, node: NodeInfo) {
    node.id != "" && node.id != t.selfId && node.addr != ""
  }

  predicate In(ix: Index, id: string) {
    exists i :: 0 <= i < |ix| && id in ix[i]
  }

  // ------------------------------------------------------------------- mutators

  function DropPending(t: Table, id: string): Table {
    t.(pending := RemoveAll(t.pending, id), pendingN := t.pendingN - (if In(t.pending, id) then 1 else 0))
  }

  function Promoted(space: Space, t: Table, node: NodeInfo, now: Time): Peer {
    var p :=
      if node.id !in t.peers then NewPeer(node).(probationUntil := now + PROBATION)
      else
        var was := t.peers[node.id];
        was.(node := node,
             probationUntil := if was.probationUntil == 0 && was.successCount == 0 && !was.pinned
                               then now + PROBATION else was.probationUntil);
    p.(transient := false, failCount := 0, lastSeen := now,
       firstSeen := if p.firstSeen == 0 then now else p.firstSeen,
       lastSuccess := now, lastProbe := now, nextProbeAt := now + space.probeDelay(node.id),
       probeMisses := 0, lastProbeFailure := 0, offlineSince := 0,
       successCount := if p.successCount < MAX_UINT32 then p.successCount + 1 else p.successCount)
  }

  predicate Renames(space: Space, t: Table, node: NodeInfo) {
    node.id in t.peers && NameHash(space, t.peers[node.id].node) != NameHash(space, node)
  }

  function AddNode(space: Space, t: Table, node: NodeInfo, now: Time): Table
    requires |t.buckets| == |t.nameBuckets| == BUCKETS
  {
    if !Usable(t, node) then t
    else
      var names := if Renames(space, t, node) then RemoveAll(t.nameBuckets, node.id) else t.nameBuckets;
      DropPending(t, node.id).(
        peers := t.peers[node.id := Promoted(space, t, node, now)],
        offline := t.offline - {node.id},
        buckets := InsertFront(t.buckets, node.id, IdIndex(space, t.selfId, node.id)),
        nameBuckets := if t.selfNameHash != "" then InsertFront(names, node.id, NameIndex(space, t.selfNameHash, node)) else names)
  }

  function UpdateKnownNode(space: Space, t: Table, node: NodeInfo, verified: bool): (Table, bool)
    requires |t.nameBuckets| == BUCKETS
  {
    if !Usable(t, node) || !verified || node.id !in t.peers || !Records.Newer(node.stamp, t.peers[node.id].node.stamp) then (t, false)
    else
      var names := if Renames(space, t, node) then RemoveAll(t.nameBuckets, node.id) else t.nameBuckets;
      (t.(peers := t.peers[node.id := t.peers[node.id].(node := node)],
          nameBuckets := if In(t.buckets, node.id) && t.selfNameHash != ""
                         then InsertFront(names, node.id, NameIndex(space, t.selfNameHash, node)) else names), true)
  }

  /** The pending list is indexed without clamping, so a candidate must not sit on self's own point. */
  ghost predicate OffSelf(space: Space, t: Table, node: NodeInfo) {
    Coordinates.Fits256(space.sha) && Coordinates.Coordinate(space.sha, t.selfId) != Coordinates.Coordinate(space.sha, node.id)
  }

  /** Off self's point is exactly where the unclamped index stays within the pending lists. */
  lemma PendingIndexIff(space: Space, t: Table, node: NodeInfo)
    requires Coordinates.Fits256(space.sha)
    ensures 0 <= IdIndex(space, t.selfId, node.id) < BUCKETS <==> OffSelf(space, t, node)
  {
    Coordinates.BucketRange(space.sha, t.selfId, node.id);
  }

  /** Another ID on self's point: the same 64 digits behind another prefix. */
  lemma OwnPoint(space: Space, selfNameHash: string, digits: string, addr: string, stamp: Records.EndpointRecord)
    requires |digits| == 64 && Coordinates.FromHex(digits).Some? && addr != ""
    ensures var t, node := New("vx6_" + digits, selfNameHash), NodeInfo("node/name/" + digits, "", "", addr, stamp);
      Usable(t, node) && !OffSelf(space, t, node)
  {
    hide Coordinates.FromHex;
    var self, id := "vx6_" + digits, "node/name/" + digits;
    assert self[0] == 'v' && id[0] == 'n';
    assert self[4..] == digits && id[10..] == digits;
    assert Coordinates.EncodedPart(self) == digits && Coordinates.EncodedPart(id) == digits;
  }

  /** An ID as identities are named: a prefix and 64 lower-case digits. */
  ghost predicate Derived(id: string) {
    exists x: nat :: x < Coordinates.Pow2(256) && id == "vx6_" + Coordinates.ToHex(x, 64)
  }

  /** Two different such IDs never share a point, so among them no candidate stands on self's. */
  lemma DerivedApart(space: Space, t: Table, node: NodeInfo)
    requires Coordinates.Fits256(space.sha) && Derived(t.selfId) && Derived(node.id) && node.id != t.selfId
    ensures OffSelf(space, t, node)
  {
    hide Coordinates.Pow2, Coordinates.ToHex, Coordinates.FromHex, Coordinates.Fits256;
    var x: nat :| x < Coordinates.Pow2(256) && t.selfId == "vx6_" + Coordinates.ToHex(x, 64);
    var y: nat :| y < Coordinates.Pow2(256) && node.id == "vx6_" + Coordinates.ToHex(y, 64);
    Coordinates.PointOf(space.sha, x);
    Coordinates.PointOf(space.sha, y);
  }

  function Slot(space: Space, t: Table, id: string): (s: nat)
    ensures s < BUCKETS
  {
    Clamp(IdIndex(space, t.selfId, id))
  }

  function AddLookupCandidate(space: Space, t: Table, node: NodeInfo): (Table, bool)
    requires |t.pending| == BUCKETS
  {
    if !Usable(t, node) || node.id in t.peers || t.pendingN >= MAX_PENDING then (t, false)
    else
      (t.(peers := t.peers[node.id := NewPeer(node).(transient := true)],
          pending := Append(t.pending, node.id, Slot(space, t, node.id)),
          pendingN := t.pendingN + 1), true)
  }

  predicate Refreshes(t: Table, node: NodeInfo) {
    Usable(t, node) && !In(t.buckets, node.id) && !In(t.nameBuckets, node.id)
    && node.id in t.peers && In(t.pending, node.id)
  }

  /** Where the two ways of taking a candidate in go on to index a pending list. */
  predicate Admits(t: Table, node: NodeInfo) {
    Usable(t, node) && node.id !in t.peers && t.pendingN < MAX_PENDING
  }

  predicate Enqueues(t: Table, node: NodeInfo) {
    Usable(t, node) && !In(t.buckets, node.id) && !In(t.nameBuckets, node.id) && (Refreshes(t, node) || t.pendingN < MAX_PENDING)
  }

  function AddCandidate(space: Space, t: Table, node: NodeInfo): Table
    requires |t.pending| == BUCKETS
  {
    if !Usable(t, node) || In(t.buckets, node.id) || In(t.nameBuckets, node.id) then t
    else if Refreshes(t, node) then
      // removal has already taken one off pendingN, and it is not put back
      var dropped := DropPending(t, node.id);
      dropped.(peers := t.peers[node.id := t.peers[node.id].(node := node)],
               offline := t.offline - {node.id},
               pending := Append(dropped.pending, node.id, Slot(space, t, node.id)))
    else if t.pendingN >= MAX_PENDING then t
    else
      var p := if node.id in t.peers then t.peers[node.id].(node := node) else NewPeer(node);
      t.(peers := t.peers[node.id := p.(transient := false)],
         offline := t.offline - {node.id},
         pending := Append(t.pending, node.id, Slot(space, t, node.id)),
         pendingN := t.pendingN + 1)
  }

  /** The first half of a promotion, under the lock: the candidate leaves its pending list. */
  function TakeCandidate(t: Table, id: string): Table {
    if In(t.pending, id) then DropPending(t, id).(promoting := t.promoting + {id}) else t
  }

  /** The second half, under the lock again: what was taken is added, whatever has happened meanwhile. */
  function FilePromoted(space: Space, t: Table, node: NodeInfo, now: Time): Table
    requires |t.buckets| == |t.nameBuckets| == BUCKETS
  {
    AddNode(space, t, node, now).(promoting := t.promoting - {node.id})
  }

  /** Both halves with nothing in between. */
  function Promote(space: Space, t: Table, id: string, now: Time): Table
    requires |t.buckets| == |t.nameBuckets| == BUCKETS
  {
    if In(t.pending, id) && id in t.peers then FilePromoted(space, TakeCandidate(t, id), t.peers[id].node, now) else t
  }

  function ForgetIfUnlisted(t: Table, id: string): Table {
    if (id in t.peers && t.peers[id].pinned) || In(t.buckets, id) || In(t.nameBuckets, id) || id in t.offline || In(t.pending, id) then t
    else t.(peers := t.peers - {id})
  }

  function Discard(t: Table, id: string): Table {
    if In(t.pending, id) then ForgetIfUnlisted(DropPending(t, id), id) else t
  }

  function NoteFailure(t: Table, id: string, now: Time): Table {
    if id !in t.peers || id == t.selfId then t
    else
      var p := t.peers[id];
      t.(peers := t.peers[id := p.(lastFailure := now, failCount := if p.failCount < MAX_UINT8 then p.failCount + 1 else p.failCount)])
  }

  /** A peer a probe may be reserved for. */
  predicate Due(t: Table, id: string, now: Time) {
    id in t.peers && In(t.buckets, id) && now >= t.peers[id].nextProbeAt
  }

  /** chosen has waited longest; peers that tie are picked in map order, so any of them may be. */
  ghost predicate LongestWaiting(t: Table, chosen: string, now: Time) {
    && Due(t, chosen, now)
    && forall id :: Due(t, id, now) ==> t.peers[chosen].lastProbe <= t.peers[id].lastProbe
  }

  function Reserve(t: Table, chosen: string, now: Time): Table
    requires chosen in t.peers
  {
    t.(peers := t.peers[chosen := t.peers[chosen].(lastProbe := now, nextProbeAt := now + PROBE_INTERVAL)])
  }

  /** A failure within five minutes of the last recorded one is not counted. */
  predicate Counts(p: Peer, now: Time) {
    p.lastProbeFailure == 0 || now - p.lastProbeFailure >= PROBE_INTERVAL
  }

  function Alive(p: Peer, now: Time): Peer {
    p.(lastProbe := now, nextProbeAt := now + PROBE_INTERVAL, probeMisses := 0, failCount := 0, lastSeen := now,
       lastSuccess := now, lastFailure := 0, lastProbeFailure := 0, offlineSince := 0,
       probationUntil := if p.probationUntil == 0 then now + PROBATION else p.probationUntil)
  }

  function Missed(p: Peer, now: Time): Peer {
    p.(lastProbe := now, nextProbeAt := now + PROBE_INTERVAL, lastFailure := now, lastProbeFailure := now,
       probeMisses := if p.probeMisses < MAX_UINT8 then p.probeMisses + 1 else p.probeMisses)
  }

  function Offlined(p: Peer, now: Time): Peer {
    p.(offlineSince := if p.offlineSince == 0 then now else p.offlineSince)
  }

  function RecordLiveness(t: Table, id: string, now: Time, alive: bool): (Table, bool)
  {
    if id !in t.peers then (t, false)
    else
      var p := t.peers[id];
      if alive then (t.(peers := t.peers[id := Alive(p, now)]), false)
      else if !Counts(p, now) then
        (t.(peers := t.peers[id := p.(lastProbe := now, nextProbeAt := now + PROBE_INTERVAL)]), false)
      else
        var q := Missed(p, now);
        if q.probeMisses < STALE_FAILURES then (t.(peers := t.peers[id := q]), false)
        else if In(t.buckets, id) || In(t.nameBuckets, id) then
          (t.(buckets := RemoveAll(t.buckets, id), nameBuckets := RemoveAll(t.nameBuckets, id),
              peers := t.peers[id := Offlined(q, now)], offline := t.offline + {id}), true)
        else if q.successCount > 0 || q.pinned then
          (DropPending(t, id).(peers := t.peers[id := Offlined(q, now)], offline := t.offline + {id}), false)
        else (DropPending(t, id).(peers := t.peers - {id}), false)
  }

  function Used(space: Space, p: Peer, named: bool, now: Time, rtt: nat): Peer {
    var micros := if rtt > MAX_UINT32 then MAX_UINT32 else rtt;
    p.(lastUsed := now, useCount := if p.useCount < MAX_UINT32 then p.useCount + 1 else p.useCount,
       lastSeen := now, failCount := 0, probeMisses := 0, lastProbeFailure := 0,
       lastProbe := now, nextProbeAt := now + PROBE_INTERVAL,
       rttMicros := if rtt == 0 then p.rttMicros else if p.rttMicros == 0 then micros else (p.rttMicros * 7 + micros) / 8,
       node := if named && p.node.nameHash == "" then p.node.(nameHash := space.hashName(p.node.name)) else p.node)
  }

  function MoveToFront(ix: Index, id: string, at: int): Index
    requires |ix| == BUCKETS
  {
    if 0 <= at < BUCKETS && id in ix[at] then InsertFront(ix, id, at) else ix
  }

  /** rtt in microseconds. */
  function RecordUse(space: Space, t: Table, id: string, now: Time, rtt: nat): Table
    requires |t.buckets| == |t.nameBuckets| == BUCKETS
  {
    if id !in t.peers then t
    else
      var p := Used(space, t.peers[id], t.selfNameHash != "", now, rtt);
      t.(peers := t.peers[id := p],
         buckets := MoveToFront(t.buckets, id, IdIndex(space, t.selfId, id)),
         nameBuckets := if t.selfNameHash != "" then MoveToFront(t.nameBuckets, id, NameIndex(space, t.selfNameHash, p.node)) else t.nameBuckets)
  }

  function SetFriend(t: Table, id: string, friend: bool): (Table, bool) {
    if id !in t.peers then (t, false)
    else (t.(peers := t.peers[id := t.peers[id].(friend := friend)]), true)
  }

  function SetPinned(t: Table, id: string, pinned: bool): (Table, bool) {
    if id !in t.peers then (t, false)
    else
      var t1 := t.(peers := t.peers[id := t.peers[id].(pinned := pinned)]);
      (if pinned then t1 else ForgetIfUnlisted(t1, id), true)
  }

  predicate Expired(p: Peer, now: Time) {
    !p.pinned && !p.friend && p.offlineSince != 0 && now - p.offlineSince > HISTORY_TTL
  }

  ghost function ExpiredIds(t: Table, now: Time): set<string> {
    set id | id in t.offline && id in t.peers && Expired(t.peers[id], now)
  }

  ghost function PruneOffline(t: Table, now: Time): Table {
    t.(offline := t.offline - ExpiredIds(t, now), peers := t.peers - ExpiredIds(t, now))
  }

  function InsertNames(space: Space, selfName: string, peers: map<string, Peer>, order: seq<string>, ix: Index): (r: Index)
    requires |ix| == BUCKETS && forall id <- order :: id in peers
    ensures |r| == BUCKETS
  {
    if order == [] then ix
    else InsertNames(space, selfName, peers, order[1..],
                     InsertFront(ix, order[0], NameIndex(space, selfName, peers[order[0]].node)))
  }

  /** order: the active IDs in ascending order, as the rebuild sorts them. */
  function SetSelfNameHash(space: Space, t: Table, hash: string, order: seq<string>): Table
    requires forall id <- order :: id in t.peers
  {
    t.(selfNameHash := hash, nameBuckets := InsertNames(space, hash, t.peers, order, Empty()))
  }
}
