/** Properties of routing runs that look back: evictions, pending slots, probe turns. */
module RoutingHistory {
  import opened Slots
  import opened Routing
  import opened RoutingInv
  import opened RoutingRuns
  import Coordinates
  import Records

  // ----------------------------------------------------- three spaced failures

  /** Consecutive times at least five minutes apart. */
  ghost predicate Spaced(times: seq<Time>) {
    forall i :: 0 <= i < |times| - 1 ==> times[i + 1] - times[i] >= PROBE_INTERVAL
  }

  /** Whether an operation starts a peer's failure count afresh. */
  ghost predicate Clears(t: Table, op: Op, id: string) {
    match op
    case Add(node, _) => node.id == id && Usable(t, node)
    case Filing(node, _) => node.id == id && Usable(t, node)
    case Liveness(x, _, alive) => x == id && alive
    case Use(x, _, _) => x == id
    case _ => false
  }

  /** Whether it is a failed probe that counts. */
  ghost predicate Misses(t: Table, op: Op, id: string) {
    op.Liveness? && op.id == id && !op.alive && id in t.peers && Counts(t.peers[id], op.now)
  }

  /** Times of the counted failures of id since it was last cleared, after one more operation. */
  ghost function Extend(t: Table, op: Op, id: string, times: seq<Time>): seq<Time> {
    if Clears(t, op, id) then [] else if Misses(t, op, id) then times + [op.now] else times
  }

  ghost function History(space: Space, t: Table, ops: seq<Op>, id: string, times: seq<Time>): seq<Time>
    requires Runs(space, t, ops)
    decreases |ops|
  {
    if ops == [] then times else History(space, Step(space, t, ops[0]), ops[1..], id, Extend(t, ops[0], id, times))
  }

  /** The bookkeeping of an active peer is that history. */
  ghost predicate Tracked(t: Table, id: string, times: seq<Time>) {
    id in Active(t) && id in t.peers ==>
      && |times| == t.peers[id].probeMisses && Spaced(times)
      && (times == [] ==> t.peers[id].lastProbeFailure == 0)
      && (times != [] ==> t.peers[id].lastProbeFailure == times[|times| - 1] > 0)
  }

  /** Which peers' probe records an operation rewrites. */
  lemma RecordAfter(space: Space, t: Table, op: Op, id: string)
    requires Inv(space, t) && Allowed(space, t, op) && Lists(t)
    requires id in t.peers && id in Step(space, t, op).peers
    ensures var p, p' := t.peers[id], Step(space, t, op).peers[id];
      && (Clears(t, op, id) ==> p'.probeMisses == 0 && p'.lastProbeFailure == 0)
      && (Misses(t, op, id) ==>
            p'.lastProbeFailure == op.now && p'.probeMisses == if p.probeMisses < MAX_UINT8 then p.probeMisses + 1 else p.probeMisses)
      && (!Clears(t, op, id) && !Misses(t, op, id) ==> p'.probeMisses == p.probeMisses && p'.lastProbeFailure == p.lastProbeFailure)
  {
    hide Inv, Ids, In, RemoveAll, Append, InsertFront, Slot, IdIndex, NameIndex, InsertNames, MoveToFront, OffSelf, AddNode, Promoted;
    if op.Add? || op.Filing? {
      AddNodeFrame(space, t, op.node, op.now);
      PromotedIs(space, t, op.node, op.now);
    }
  }

  lemma SpacedStep(times: seq<Time>, now: Time)
    requires Spaced(times) && (times != [] ==> now - times[|times| - 1] >= PROBE_INTERVAL)
    ensures Spaced(times + [now])
  {
  }

  /** A newly active peer starts with a clean record. */
  lemma CleanStart(space: Space, t: Table, op: Op, id: string)
    requires Inv(space, t) && Allowed(space, t, op) && Lists(t)
    requires id !in Active(t) && id in Active(Step(space, t, op))
    ensures id in Step(space, t, op).peers && Clears(t, op, id)
    ensures Step(space, t, op).peers[id].probeMisses == 0 && Step(space, t, op).peers[id].lastProbeFailure == 0
  {
    hide Inv, Ids, In, Step, Expels;
    StepKeeps(space, t, op);
    ActiveKnown(space, Step(space, t, op));
    match op
    case Add(node, now) => AddRecord(space, t, op);
    case Filing(node, now) => AddRecord(space, t, op);
    case _ =>
  }

  lemma AddRecord(space: Space, t: Table, op: Op)
    requires Inv(space, t) && Allowed(space, t, op) && Lists(t)
    ensures (op.Add? || op.Filing?) && Usable(t, op.node) ==>
      op.node.id in Step(space, t, op).peers && Step(space, t, op).peers[op.node.id] == Promoted(space, t, op.node, op.now)
  {
    hide Inv, Ids, In, RemoveAll, InsertFront, IdIndex, NameIndex;
  }

  /** A failed liveness result of id that completes three spaced failures. */
  ghost predicate ThirdMiss(op: Op, id: string, times: seq<Time>) {
    && op.Liveness? && op.id == id && !op.alive
    && |times| == STALE_FAILURES && Spaced(times) && times[STALE_FAILURES - 1] == op.now
  }

  lemma TrackedStep(space: Space, t: Table, op: Op, id: string, times: seq<Time>)
    requires Inv(space, t) && Allowed(space, t, op) && Lists(t) && Tracked(t, id, times)
    ensures Tracked(Step(space, t, op), id, Extend(t, op, id, times))
    ensures id in Active(t) && id !in Active(Step(space, t, op)) ==> ThirdMiss(op, id, Extend(t, op, id, times))
  {
    hide Inv, Ids, In, Step;
    StepKeeps(space, t, op);
    ActiveKnown(space, t);
    var t' := Step(space, t, op);
    ActiveKnown(space, t');
    if id in Active(t) {
      InvMisses(space, t, id);
      if Misses(t, op, id) {
        SpacedStep(times, op.now);
      }
      if id in Active(t') {
        RecordAfter(space, t, op, id);
      }
    } else if id in Active(t') {
      CleanStart(space, t, op, id);
    }
  }

  lemma {:induction false} TrackedRun(space: Space, t: Table, ops: seq<Op>, id: string, times: seq<Time>)
    requires Inv(space, t) && Runs(space, t, ops) && Tracked(t, id, times)
    ensures Tracked(Run(space, t, ops), id, History(space, t, ops, id, times))
    ensures Inv(space, Run(space, t, ops))
    decreases |ops|
  {
    hide Inv, Step, Allowed, Tracked, Extend;
    if ops != [] {
      StepKeeps(space, t, ops[0]);
      TrackedStep(space, t, ops[0], id, times);
      TrackedRun(space, Step(space, t, ops[0]), ops[1..], id, Extend(t, ops[0], id, times));
    }
  }

  /**
   * After any run from a table with no active peers, a peer leaves the active lists only by a
   * failed liveness result that completes three counted failures, consecutive ones at least
   * five minutes apart, all since it was last added, seen alive or used.
   */
  lemma LeavesOnlyAfterThree(space: Space, t: Table, ops: seq<Op>, op: Op, id: string)
    requires Inv(space, t) && Active(t) == {} && Runs(space, t, ops)
    requires Lists(Run(space, t, ops)) && Allowed(space, Run(space, t, ops), op)
    requires id in Active(Run(space, t, ops)) && id !in Active(Step(space, Run(space, t, ops), op))
    ensures ThirdMiss(op, id, Extend(Run(space, t, ops), op, id, History(space, t, ops, id, [])))
  {
    hide Inv, Ids, Step, Allowed, Run, Runs, History, Extend;
    TrackedRun(space, t, ops, id, []);
    TrackedStep(space, Run(space, t, ops), op, id, History(space, t, ops, id, []));
  }

  // ------------------------------------------------------ pending conservation

  ghost predicate RefreshOp(t: Table, op: Op) {
    op.Candidate? && Refreshes(t, op.node)
  }

  ghost function Refreshed(space: Space, t: Table, ops: seq<Op>): nat
    requires Runs(space, t, ops)
    decreases |ops|
  {
    if ops == [] then 0
    else (if RefreshOp(t, ops[0]) then 1 else 0) + Refreshed(space, Step(space, t, ops[0]), ops[1..])
  }

  /** How many pending entries the counter does not know about. */
  ghost function Uncounted(t: Table): int {
    Count(t.pending) - t.pendingN
  }

  lemma NewUncounted(selfId: string, selfNameHash: string)
    ensures Uncounted(New(selfId, selfNameHash)) == 0
  {
    hide Count;
    EmptyCount(Empty());
  }

  lemma DropUncounted(space: Space, t: Table, id: string)
    requires Inv(space, t)
    ensures Uncounted(DropPending(t, id)) == Uncounted(t)
  {
    hide Ids, Placed, IdSlots, NameSlots, Count, Partition, PeersOk, In;
    InIds(t.pending, id);
    CountRemove(t.pending, IdSlots(space, t.selfId), id);
  }

  lemma StepUncounted(space: Space, t: Table, op: Op)
    requires Inv(space, t) && Allowed(space, t, op) && Lists(t)
    ensures Uncounted(Step(space, t, op)) == Uncounted(t) + (if RefreshOp(t, op) then 1 else 0)
  {
    hide Inv, Ids, In, RemoveAll, Append, InsertFront, Slot, IdIndex, NameIndex, InsertNames, MoveToFront, OffSelf, Count;
    match op
    case Add(node, now) => DropUncounted(space, t, node.id);
    case Lookup(node) => CountAppend(t.pending, node.id, Slot(space, t, node.id));
    case Candidate(node) =>
      DropUncounted(space, t, node.id);
      CountAppend(t.pending, node.id, Slot(space, t, node.id));
      CountAppend(DropPending(t, node.id).pending, node.id, Slot(space, t, node.id));
    case Taking(id) => DropUncounted(space, t, id);
    case Filing(node, now) => DropUncounted(space, t, node.id);
    case Discarding(id) => DropUncounted(space, t, id);
    case Liveness(id, now, alive) => DropUncounted(space, t, id);
    case _ =>
  }

  /** On every run the pending entries are pendingN plus one for each refresh of a candidate. */
  lemma {:induction false} PendingConserved(space: Space, t: Table, ops: seq<Op>)
    requires Inv(space, t) && Runs(space, t, ops)
    ensures Uncounted(Run(space, t, ops)) == Uncounted(t) + Refreshed(space, t, ops)
    decreases |ops|
  {
    hide Inv, Step, Allowed, Uncounted, RefreshOp;
    if ops != [] {
      StepKeeps(space, t, ops[0]);
      StepUncounted(space, t, ops[0]);
      PendingConserved(space, Step(space, t, ops[0]), ops[1..]);
    }
  }

  lemma CounterBounded(space: Space, t: Table, op: Op)
    requires Lists(t) && Allowed(space, t, op) && t.pendingN <= MAX_PENDING
    ensures Step(space, t, op).pendingN <= MAX_PENDING
  {
    hide In, RemoveAll, Append, InsertFront, Slot, IdIndex, NameIndex, InsertNames, MoveToFront, OffSelf, Enumerates, LongestWaiting;
  }

  /** So the pending lists hold at most 512 plus the number of refreshes; without one, at most 512. */
  lemma {:induction false} PendingBounded(space: Space, t: Table, ops: seq<Op>)
    requires Inv(space, t) && Runs(space, t, ops) && t.pendingN <= MAX_PENDING && Uncounted(t) == 0
    ensures Count(Run(space, t, ops).pending) <= MAX_PENDING + Refreshed(space, t, ops)
  {
    hide Inv, Step, Allowed, Count, Refreshed, Run, Runs;
    PendingConserved(space, t, ops);
    CounterRun(space, t, ops);
  }

  lemma {:induction false} CounterRun(space: Space, t: Table, ops: seq<Op>)
    requires Runs(space, t, ops) && t.pendingN <= MAX_PENDING
    ensures Run(space, t, ops).pendingN <= MAX_PENDING
    decreases |ops|
  {
    hide Step, Allowed;
    if ops != [] {
      CounterBounded(space, t, ops[0]);
      CounterRun(space, Step(space, t, ops[0]), ops[1..]);
    }
  }

  /** Whether restoring an observation refreshes a candidate that is already waiting. */
  ghost predicate RefreshSeen(t: Table, seen: Peer, now: Time) {
    seen.node.id != "" && seen.node.addr != "" && !TooOld(seen, now) && Refreshes(t, seen.node)
  }

  ghost function RefreshedSeen(space: Space, t: Table, seen: seq<Peer>, now: Time): nat
    requires |t.pending| == BUCKETS
    decreases |seen|
  {
    if seen == [] then 0
    else (if RefreshSeen(t, seen[0], now) then 1 else 0) + RefreshedSeen(space, RestoreOne(space, t, seen[0], now), seen[1..], now)
  }

  lemma CandidateUncounted(space: Space, t: Table, node: NodeInfo)
    requires Inv(space, t) && Lists(t)
    ensures Uncounted(AddCandidate(space, t, node)) == Uncounted(t) + (if Refreshes(t, node) then 1 else 0)
  {
    hide Inv, Ids, In, RemoveAll, Append, Slot, Count;
    DropUncounted(space, t, node.id);
    CountAppend(t.pending, node.id, Slot(space, t, node.id));
    CountAppend(DropPending(t, node.id).pending, node.id, Slot(space, t, node.id));
  }

  lemma RestoreUncounted(space: Space, t: Table, seen: Peer, now: Time)
    requires Inv(space, t) && Lists(t)
    ensures Uncounted(RestoreOne(space, t, seen, now)) == Uncounted(t) + (if RefreshSeen(t, seen, now) then 1 else 0)
    ensures t.pendingN <= MAX_PENDING ==> RestoreOne(space, t, seen, now).pendingN <= MAX_PENDING
  {
    hide Inv, Ids, In, RemoveAll, Append, Slot, Count, TooOld;
    CandidateUncounted(space, t, seen.node);
    AddCandidateKeeps(space, t, seen.node);
    DropUncounted(space, AddCandidate(space, t, seen.node), seen.node.id);
  }

  /** Restoring is counted like a run: one more uncounted entry for each candidate restored over a waiting one. */
  lemma {:induction false} RestoreConserved(space: Space, t: Table, seen: seq<Peer>, now: Time)
    requires Inv(space, t) && Lists(t) && Active(t) == {} && Sound(seen) && t.pendingN + |seen| <= MAX_PENDING
    ensures var t' := RestoreAll(space, t, seen, now);
      Uncounted(t') == Uncounted(t) + RefreshedSeen(space, t, seen, now) && t'.pendingN <= MAX_PENDING
    decreases |seen|
  {
    hide Inv, Ids, Uncounted, RestoreOne, RefreshSeen;
    if seen != [] {
      RestoreFirst(space, t, seen[0], now);
      RestoreUncounted(space, t, seen[0], now);
      InvLength(space, RestoreOne(space, t, seen[0], now));
      RestoreConserved(space, RestoreOne(space, t, seen[0], now), seen[1..], now);
    }
  }

  /** Observations of different peers, none of them known yet. */
  ghost predicate Strangers(t: Table, seen: seq<Peer>) {
    && (forall i :: 0 <= i < |seen| ==> seen[i].node.id !in t.peers)
    && (forall i, j :: 0 <= i < j < |seen| ==> seen[i].node.id != seen[j].node.id)
  }

  lemma {:induction false} StrangersRefreshNothing(space: Space, t: Table, seen: seq<Peer>, now: Time)
    requires |t.pending| == BUCKETS && Strangers(t, seen)
    ensures RefreshedSeen(space, t, seen, now) == 0
    decreases |seen|
  {
    hide In, RemoveAll, Append, Slot, TooOld;
    if seen != [] {
      var t' := RestoreOne(space, t, seen[0], now);
      assert t'.peers.Keys <= t.peers.Keys + {seen[0].node.id};
      StrangersRefreshNothing(space, t', seen[1..], now);
    }
  }

  /**
   * On every reachable table the pending lists hold at most 512 plus the number of refreshes,
   * while restoring or later; restoring different peers refreshes none.
   */
  lemma ReachableBounded(space: Space, selfId: string, selfNameHash: string, seen: seq<Peer>, now: Time, ops: seq<Op>)
    requires |seen| <= MAX_PENDING && Sound(seen) && Placeable(space, New(selfId, selfNameHash), seen)
    requires Runs(space, RestoreAll(space, New(selfId, selfNameHash), seen, now), ops)
    ensures var t := RestoreAll(space, New(selfId, selfNameHash), seen, now);
      && Count(Run(space, t, ops).pending)
         <= MAX_PENDING + RefreshedSeen(space, New(selfId, selfNameHash), seen, now) + Refreshed(space, t, ops)
      && (Strangers(New(selfId, selfNameHash), seen) ==> RefreshedSeen(space, New(selfId, selfNameHash), seen, now) == 0)
  {
    hide Inv, Ids, RestoreAll, Run, Runs, RefreshedSeen, Refreshed, Strangers, Sound, Placeable, Count;
    var t0 := New(selfId, selfNameHash);
    NewInv(space, selfId, selfNameHash);
    EmptyPlaced(IdSlots(space, selfId));
    NewUncounted(selfId, selfNameHash);
    RestoreAllKeeps(space, t0, seen, now);
    RestoreConserved(space, t0, seen, now);
    var t := RestoreAll(space, t0, seen, now);
    PendingConserved(space, t, ops);
    CounterRun(space, t, ops);
    if Strangers(t0, seen) {
      StrangersRefreshNothing(space, t0, seen, now);
    }
  }

  /** The bound is met: a full table takes one candidate more after any refresh. */
  lemma RefreshOverfills(space: Space, t: Table, again: NodeInfo, more: NodeInfo)
    requires Inv(space, t) && t.pendingN == MAX_PENDING && Uncounted(t) == 0
    requires Refreshes(t, again) && OffSelf(space, t, again) && OffSelf(space, t, more)
    requires Usable(t, more) && more.id !in t.peers
    ensures Lists(t) && Runs(space, t, [Candidate(again), Candidate(more)])
    ensures Count(Run(space, t, [Candidate(again), Candidate(more)]).pending) == MAX_PENDING + 1
  {
    hide Inv, Ids, In, RemoveAll, Append, Slot, Count, OffSelf;
    InvLength(space, t);
    var t1 := Step(space, t, Candidate(again));
    StepKeeps(space, t, Candidate(again));
    StepUncounted(space, t, Candidate(again));
    InIds(t.pending, again.id);
    InvLength(space, t1);
    OffSelfSame(space, t, t1, more);
    assert more.id !in t1.peers;
    NotListed(space, t1, more.id);
    var t2 := Step(space, t1, Candidate(more));
    StepUncounted(space, t1, Candidate(more));
    assert t2.pendingN == MAX_PENDING;
    var ops := [Candidate(again), Candidate(more)];
    assert ops[1..] == [Candidate(more)] && [Candidate(more)][1..] == [];
    assert Runs(space, t1, [Candidate(more)]);
    assert Run(space, t1, [Candidate(more)]) == t2;
  }

  // ------------------------------------------------------ a table that overfills

  /** The k-th of a crowd of peers, each at its own point and none at zero. */
  function Someone(k: nat, stamp: Records.EndpointRecord): NodeInfo {
    NodeInfo("vx6_" + Coordinates.ToHex(k + 1, 64), "", "", "a", stamp)
  }

  function Nobody(): string {
    "vx6_" + Coordinates.ToHex(0, 64)
  }

  lemma PointIs(sha: Coordinates.Hash, n: nat)
    requires n <= 1000
    ensures Coordinates.Coordinate(sha, "vx6_" + Coordinates.ToHex(n, 64)) == n
  {
    assert Coordinates.Pow2(10) == 1024;
    hide Coordinates.Pow2, Coordinates.ToHex, Coordinates.Coordinate;
    Coordinates.PowGrows(10, 256);
    Coordinates.PointOf(sha, n);
  }

  function Crowd(k: nat, stamp: Records.EndpointRecord): seq<Op> {
    if k == 0 then [] else Crowd(k - 1, stamp) + [Candidate(Someone(k - 1, stamp))]
  }

  lemma {:induction false} RunLast(space: Space, t: Table, ops: seq<Op>, op: Op)
    requires Runs(space, t, ops) && Lists(Run(space, t, ops)) && Allowed(space, Run(space, t, ops), op)
    ensures Runs(space, t, ops + [op]) && Run(space, t, ops + [op]) == Step(space, Run(space, t, ops), op)
    decreases |ops|
  {
    hide Step, Allowed;
    if ops == [] {
      assert [] + [op] == [op] && [op][1..] == [];
      assert Runs(space, Step(space, t, op), []);
    } else {
      RunLast(space, Step(space, t, ops[0]), ops[1..], op);
      assert (ops + [op])[1..] == ops[1..] + [op];
    }
  }

  /** k of the crowd wait, nobody else is known, and the counter is right. */
  ghost predicate Filled(space: Space, t: Table, k: nat, stamp: Records.EndpointRecord) {
    && Inv(space, t) && t.selfId == Nobody() && t.pendingN == k && Uncounted(t) == 0 && Active(t) == {}
    && (forall i :: 0 <= i < k ==> Someone(i, stamp).id in Waiting(t))
    && (forall id :: id in t.peers ==> 0 < Coordinates.Coordinate(space.sha, id) <= k)
  }

  lemma FillOne(space: Space, t: Table, k: nat, stamp: Records.EndpointRecord)
    requires Coordinates.Fits256(space.sha) && Filled(space, t, k, stamp) && k < MAX_PENDING
    ensures var op := Candidate(Someone(k, stamp));
      Lists(t) && Allowed(space, t, op) && Filled(space, Step(space, t, op), k + 1, stamp)
  {
    hide Inv, Ids, In, RemoveAll, Append, Slot, Count, Coordinates.Coordinate, Coordinates.ToHex, Coordinates.Fits256;
    var node := Someone(k, stamp);
    InvLength(space, t);
    PointIs(space.sha, k + 1);
    PointIs(space.sha, 0);
    NotListed(space, t, node.id);
    StepKeeps(space, t, Candidate(node));
    StepUncounted(space, t, Candidate(node));
    NowWaiting(space, t, node);
    InIds(t.pending, node.id);
    StillWaiting(space, t, node);
  }

  lemma StillWaiting(space: Space, t: Table, node: NodeInfo)
    requires Inv(space, t) && node.id !in t.peers
    ensures |t.pending| == BUCKETS && Waiting(t) <= Waiting(AddCandidate(space, t, node))
  {
    hide Placed, Ids, Append, RemoveAll, In, IdSlots, NameSlots, Slot, DropPending;
    InvLength(space, t);
    NotListed(space, t, node.id);
    InIds(t.pending, node.id);
    AppendWaiting(space, t, t.pending, node.id);
  }

  lemma NewFilled(space: Space, stamp: Records.EndpointRecord)
    ensures Filled(space, New(Nobody(), ""), 0, stamp)
  {
    hide Inv, Count, Placed, Ids, Nobody, Someone, Coordinates.Coordinate, IdSlots;
    NewInv(space, Nobody(), "");
    EmptyPlaced(IdSlots(space, Nobody()));
    NewUncounted(Nobody(), "");
  }

  lemma {:induction false} CrowdFills(space: Space, k: nat, stamp: Records.EndpointRecord)
    requires Coordinates.Fits256(space.sha) && k <= MAX_PENDING
    ensures Runs(space, New(Nobody(), ""), Crowd(k, stamp))
    ensures Filled(space, Run(space, New(Nobody(), ""), Crowd(k, stamp)), k, stamp)
  {
    var t0 := New(Nobody(), "");
    hide Filled, Step, Allowed, Coordinates.Fits256, Coordinates.ToHex;
    if k == 0 {
      NewFilled(space, stamp);
    } else {
      hide Runs, Run;
      CrowdFills(space, k - 1, stamp);
      FillOne(space, Run(space, t0, Crowd(k - 1, stamp)), k - 1, stamp);
      RunLast(space, t0, Crowd(k - 1, stamp), Candidate(Someone(k - 1, stamp)));
    }
  }

  /** From an empty table: 512 candidates, one of them again, and one more make 513. */
  lemma OverfullReachable(space: Space, stamp: Records.EndpointRecord)
    requires Coordinates.Fits256(space.sha)
    ensures exists ops :: Runs(space, New(Nobody(), ""), ops) && Count(Run(space, New(Nobody(), ""), ops).pending) == MAX_PENDING + 1
  {
    hide Count, Runs, Run, Crowd, Inv, Ids, Coordinates.Coordinate, Coordinates.ToHex, Coordinates.Fits256, In;
    var t0, ops := New(Nobody(), ""), Crowd(MAX_PENDING, stamp);
    CrowdFills(space, MAX_PENDING, stamp);
    var t := Run(space, t0, ops);
    var again, more := Someone(0, stamp), Someone(MAX_PENDING, stamp);
    PointIs(space.sha, 0);
    PointIs(space.sha, 1);
    PointIs(space.sha, MAX_PENDING + 1);
    InIds(t.buckets, again.id);
    InIds(t.nameBuckets, again.id);
    InIds(t.pending, again.id);
    ActiveKnown(space, t);
    RefreshOverfills(space, t, again, more);
    RunTwoMore(space, t0, ops, Candidate(again), Candidate(more));
  }

  lemma RunTwoMore(space: Space, t: Table, ops: seq<Op>, x: Op, y: Op)
    requires Runs(space, t, ops) && Runs(space, Run(space, t, ops), [x, y])
    ensures Runs(space, t, ops + [x] + [y]) && Run(space, t, ops + [x] + [y]) == Run(space, Run(space, t, ops), [x, y])
  {
    hide Step, Allowed;
    var t1 := Run(space, t, ops);
    assert [x, y][1..] == [y] && [y][1..] == [];
    assert Runs(space, Step(space, t1, x), [y]);
    RunLast(space, t, ops, x);
    RunLast(space, t, ops + [x], y);
    assert Runs(space, Step(space, Step(space, t1, x), y), []);
    assert Run(space, Step(space, t1, x), [y]) == Step(space, Step(space, t1, x), y);
  }

  lemma OffSelfSame(space: Space, t: Table, t': Table, node: NodeInfo)
    requires OffSelf(space, t, node) && t'.selfId == t.selfId
    ensures OffSelf(space, t', node)
  {
  }

  lemma NotListed(space: Space, t: Table, id: string)
    requires Inv(space, t) && id !in t.peers
    ensures !In(t.buckets, id) && !In(t.nameBuckets, id) && !In(t.pending, id)
  {
    hide Placed, Ids, IdSlots, NameSlots, PeersOk;
    InIds(t.buckets, id);
    InIds(t.nameBuckets, id);
    InIds(t.pending, id);
  }
}
