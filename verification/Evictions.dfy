/** Who is known, waiting, active or offline after each operation, and exactly when a peer leaves. */
module Evictions {
  import opened Slots
  import opened Routing
  import opened RoutingInv
  import opened RoutingRuns
  import opened RoutingHistory
  import opened Diaries

  // ---------------------------------------------------------- leaving the active lists

  /** Failed probes of a peer that count: since its last sign of life, each five minutes or more after the one before. */
  ghost function NextMisses(op: Op, id: string, times: seq<Time>): seq<Time> {
    if Tells(op, Sign, id) then []
    else if op.Liveness? && op.id == id && !op.alive && (times == [] || op.now - times[|times| - 1] >= 300_000_000_000) then times + [op.now]
    else times
  }

  ghost function CountedMisses(ops: seq<Op>, id: string, times: seq<Time>): seq<Time> {
    if ops == [] then times else CountedMisses(ops[1..], id, NextMisses(ops[0], id, times))
  }

  lemma ExtendIs(space: Space, t: Table, op: Op, id: string, times: seq<Time>)
    requires Inv(space, t) && id in Active(t) && Tracked(t, id, times)
    ensures Extend(t, op, id, times) == NextMisses(op, id, times)
  {
    hide Inv, Ids;
    ActiveKnown(space, t);
    KnownIds(space, t, id);
  }

  lemma MissesStep(space: Space, t: Table, op: Op, id: string, times: seq<Time>)
    requires Inv(space, t) && Allowed(space, t, op) && Lists(t) && Tracked(t, id, times)
    ensures Tracked(Step(space, t, op), id, NextMisses(op, id, times))
  {
    hide Inv, Ids, Step, Allowed, Extend;
    TrackedStep(space, t, op, id, times);
    if id in Active(t) {
      ExtendIs(space, t, op, id, times);
    } else if id in Active(Step(space, t, op)) {
      CleanStart(space, t, op, id);
    }
  }

  lemma {:induction false} MissesTracked(space: Space, t: Table, ops: seq<Op>, id: string, times: seq<Time>)
    requires Inv(space, t) && Runs(space, t, ops) && Tracked(t, id, times)
    ensures Inv(space, Run(space, t, ops)) && Tracked(Run(space, t, ops), id, CountedMisses(ops, id, times))
    decreases |ops|
  {
    hide Inv, Step, Allowed, Tracked, NextMisses;
    if ops != [] {
      StepKeeps(space, t, ops[0]);
      MissesStep(space, t, ops[0], id, times);
      MissesTracked(space, Step(space, t, ops[0]), ops[1..], id, NextMisses(ops[0], id, times));
    }
  }

  /** After any run from a table with no active peers, an active peer leaves if and only if three failed probes count. */
  lemma LeavesIff(space: Space, t: Table, ops: seq<Op>, op: Op, id: string)
    requires Inv(space, t) && Active(t) == {} && Runs(space, t, ops) && id in Active(Run(space, t, ops))
    requires Lists(Run(space, t, ops)) && Allowed(space, Run(space, t, ops), op)
    ensures id !in Active(Step(space, Run(space, t, ops), op)) <==> |NextMisses(op, id, CountedMisses(ops, id, []))| >= 3
  {
    hide Inv, Ids, Step, Run, Runs, Allowed;
    var t', times := Run(space, t, ops), CountedMisses(ops, id, []);
    MissesTracked(space, t, ops, id, []);
    ActiveKnown(space, t');
    InvMisses(space, t', id);
    StepKeeps(space, t', op);
    ExtendIs(space, t', op, id, times);
  }

  // ------------------------------------------------------------- coming and going

  /** A failed probe, counted, after two that counted. */
  ghost predicate Third(p: Peer, op: Op, id: string) {
    && op.Liveness? && op.id == id && !op.alive && p.probeMisses >= 2
    && (p.lastProbeFailure == 0 || op.now - p.lastProbeFailure >= 300_000_000_000)
  }

  /** Listed by ID or by name, an unknown peer is not; a waiting one is nowhere else. */
  lemma Elsewhere(space: Space, t: Table, id: string)
    requires Inv(space, t)
    ensures id !in t.peers ==> !In(t.buckets, id) && !In(t.nameBuckets, id)
    ensures In(t.buckets, id) <==> id in Active(t)
    ensures In(t.pending, id) <==> id in Waiting(t)
    ensures In(t.nameBuckets, id) ==> In(t.buckets, id)
    ensures id in Waiting(t) ==> !In(t.buckets, id) && !In(t.nameBuckets, id) && id !in t.offline && !In(DropPending(t, id).pending, id)
  {
    hide Placed, Ids, In, DropPending;
    ActiveKnown(space, t);
    InIds(t.buckets, id);
    InIds(t.nameBuckets, id);
    InIds(t.pending, id);
    DropPendingIs(space, t, id);
    InIds(DropPending(t, id).pending, id);
  }

  ghost predicate Forgets(t: Table, op: Op, id: string)
    requires id in t.peers
  {
    var p := t.peers[id];
    !p.pinned && match op
      case Prune(now) => id in t.offline && !p.friend && p.offlineSince != 0 && now - p.offlineSince > 2_592_000_000_000_000
      case Discarding(x) => x == id && id in Waiting(t)
      case Liveness(_, _, _) => Third(p, op, id) && id !in Active(t) && p.successCount == 0
      case _ => false
  }

  lemma ForgottenByProbe(space: Space, t: Table, op: Op, id: string)
    requires Inv(space, t) && Allowed(space, t, op) && Lists(t) && id in t.peers && op.Liveness?
    ensures id !in Step(space, t, op).peers <==> Forgets(t, op, id)
  {
    hide Inv, In, RemoveAll, Ids, Alive, Offlined;
    Elsewhere(space, t, id);
  }

  lemma ForgottenByDiscard(space: Space, t: Table, op: Op, id: string)
    requires Inv(space, t) && Allowed(space, t, op) && Lists(t) && id in t.peers && (op.Discarding? || op.Prune?)
    ensures id !in Step(space, t, op).peers <==> Forgets(t, op, id)
  {
    hide Inv, In, RemoveAll, Ids;
    Elsewhere(space, t, id);
    Peers(t, id);
  }

  lemma Peers(t: Table, id: string)
    ensures var t' := DropPending(t, id); t'.peers == t.peers && t'.buckets == t.buckets && t'.nameBuckets == t.nameBuckets && t'.offline == t.offline
  {
  }

  lemma NeverForgotten(space: Space, t: Table, op: Op, id: string)
    requires Allowed(space, t, op) && Lists(t) && id in t.peers && !op.Liveness? && !op.Discarding? && !op.Prune?
    ensures id in Step(space, t, op).peers
  {
    hide RemoveAll, InsertFront, Append, IdIndex, NameIndex, NameHash, Slot, InsertNames, MoveToFront, OffSelf, LongestWaiting, Promoted, In;
  }

  /**
   * A known peer is forgotten if and only if it is offline for over thirty days and nobody's friend, or waits
   * and is discarded, or has never answered and fails a third time; and never if it is pinned.
   */
  lemma ForgottenIff(space: Space, t: Table, op: Op, id: string)
    requires Inv(space, t) && Allowed(space, t, op) && Lists(t) && id in t.peers
    ensures id !in Step(space, t, op).peers <==> Forgets(t, op, id)
  {
    hide Inv, Step, Allowed;
    if op.Liveness? {
      ForgottenByProbe(space, t, op, id);
    } else if op.Discarding? || op.Prune? {
      ForgottenByDiscard(space, t, op, id);
    } else {
      NeverForgotten(space, t, op, id);
    }
  }

  /** A stranger becomes known if and only if it is added, or it is a candidate and there is room for one. */
  lemma LearnedIff(space: Space, t: Table, op: Op, id: string)
    requires Inv(space, t) && Allowed(space, t, op) && Lists(t) && id !in t.peers && id != "" && id != t.selfId
    ensures id in Step(space, t, op).peers <==>
      && (op.Add? || op.Filing? || op.Lookup? || op.Candidate?) && op.node.id == id && op.node.addr != ""
      && (op.Lookup? || op.Candidate? ==> t.pendingN < 512)
  {
    hide RemoveAll, InsertFront, Append, IdIndex, NameIndex, NameHash, Slot, InsertNames, MoveToFront, OffSelf, Promoted, In, Inv;
    Elsewhere(space, t, id);
  }

  ghost predicate Names(t: Table, op: Op, id: string) {
    (op.Add? || op.Filing? || op.Lookup? || op.Candidate?) && op.node.id == id && op.node.addr != "" && id != "" && id != t.selfId
  }

  /** Who waits: candidates taken in while there was room, until they answer, are taken out, or fail a third time. */
  ghost predicate WaitsAfter(t: Table, op: Op, id: string) {
    match op
    case Add(_, _) => id in Waiting(t) && !Names(t, op, id)
    case Filing(_, _) => id in Waiting(t) && !Names(t, op, id)
    case Lookup(_) => id in Waiting(t) || (Names(t, op, id) && id !in t.peers && t.pendingN < 512)
    case Candidate(_) => id in Waiting(t) || (Names(t, op, id) && id !in Active(t) && t.pendingN < 512)
    case Taking(x) => id in Waiting(t) && x != id
    case Discarding(x) => id in Waiting(t) && x != id
    case Liveness(_, _, _) => id in Waiting(t) && !(id in t.peers && Third(t.peers[id], op, id))
    case _ => id in Waiting(t)
  }

  /** Who is offline: whoever failed a third time and has answered before, until it answers, is a candidate again or is forgotten. */
  ghost predicate OfflineAfter(t: Table, op: Op, id: string) {
    match op
    case Add(_, _) => id in t.offline && !Names(t, op, id)
    case Filing(_, _) => id in t.offline && !Names(t, op, id)
    case Candidate(_) => id in t.offline && !(Names(t, op, id) && t.pendingN < 512)
    case Liveness(_, _, _) =>
      id in t.offline
      || (id in t.peers && Third(t.peers[id], op, id) && (id in Active(t) || t.peers[id].successCount > 0 || t.peers[id].pinned))
    case Prune(_) => id in t.offline && !(id in t.peers && Forgets(t, op, id))
    case _ => id in t.offline
  }

  lemma DropStanding(space: Space, t: Table, op: Op, id: string)
    requires Inv(space, t) && Allowed(space, t, op) && Lists(t)
    requires op.Taking? || op.Discarding? || op.Add? || op.Filing?
    ensures id in Waiting(Step(space, t, op)) <==> WaitsAfter(t, op, id)
    ensures id in Step(space, t, op).offline <==> OfflineAfter(t, op, id)
  {
    hide Inv, RemoveAll, InsertFront, Ids, In, Promoted, IdIndex, NameIndex, Renames;
    var x := if op.Add? || op.Filing? then op.node.id else op.id;
    Elsewhere(space, t, x);
    Dropped(space, t, x);
    KnownOnly(space, t, id);
  }

  lemma ProbeStanding(space: Space, t: Table, op: Op, id: string)
    requires Inv(space, t) && Allowed(space, t, op) && Lists(t) && op.Liveness?
    ensures id in Waiting(Step(space, t, op)) <==> WaitsAfter(t, op, id)
    ensures id in Step(space, t, op).offline <==> OfflineAfter(t, op, id)
  {
    hide Inv, RemoveAll, Ids, In, Alive, Offlined;
    Elsewhere(space, t, op.id);
    Dropped(space, t, op.id);
    KnownOnly(space, t, id);
  }

  lemma Dropped(space: Space, t: Table, id: string)
    requires Inv(space, t)
    ensures Ids(RemoveAll(t.pending, id)) == Waiting(t) - {id} && (id !in Waiting(t) ==> Ids(RemoveAll(t.pending, id)) == Waiting(t))
  {
    hide Ids;
    RemovePlaced(t.pending, IdSlots(space, t.selfId), id);
  }

  lemma KnownOnly(space: Space, t: Table, id: string)
    requires Inv(space, t)
    ensures id in Waiting(t) || id in t.offline ==> id in t.peers && id != "" && id != t.selfId && id !in Active(t)
    ensures id in Active(t) ==> id in t.peers
    ensures id in t.offline ==> id !in Waiting(t)
  {
    hide Placed, Ids;
  }

  lemma CandidateStanding(space: Space, t: Table, op: Op, id: string)
    requires Inv(space, t) && Allowed(space, t, op) && Lists(t) && (op.Candidate? || op.Lookup?)
    ensures id in Waiting(Step(space, t, op)) <==> WaitsAfter(t, op, id)
    ensures id in Step(space, t, op).offline <==> OfflineAfter(t, op, id)
  {
    hide Inv, RemoveAll, Append, Ids, In, Slot, OffSelf;
    var x := op.node.id;
    Elsewhere(space, t, x);
    Dropped(space, t, x);
    KnownOnly(space, t, id);
    KnownOnly(space, t, x);
    Enqueued(space, t, x);
  }

  lemma Enqueued(space: Space, t: Table, id: string)
    requires Inv(space, t) && Lists(t)
    ensures id !in Waiting(t) ==> Ids(Append(t.pending, id, Slot(space, t, id))) == Waiting(t) + {id}
    ensures Ids(Append(RemoveAll(t.pending, id), id, Slot(space, t, id))) == Waiting(t) + {id}
  {
    hide Ids, Append, RemoveAll, Slot;
    RemovePlaced(t.pending, IdSlots(space, t.selfId), id);
    AppendWaiting(space, t, RemoveAll(t.pending, id), id);
    if id !in Waiting(t) {
      AppendWaiting(space, t, t.pending, id);
    }
  }

  lemma QuietStanding(space: Space, t: Table, op: Op, id: string)
    requires Inv(space, t) && Allowed(space, t, op) && Lists(t)
    requires op.Update? || op.Failure? || op.Reservation? || op.Use? || op.Friend? || op.Prune? || op.Rename?
    ensures id in Waiting(Step(space, t, op)) <==> WaitsAfter(t, op, id)
    ensures id in Step(space, t, op).offline <==> OfflineAfter(t, op, id)
  {
    hide Inv, RemoveAll, InsertFront, Ids, In, IdIndex, NameIndex, Renames, MoveToFront, InsertNames, Used;
    KnownOnly(space, t, id);
  }

  /** Exactly who waits and who is offline after an operation. */
  lemma StandingAfter(space: Space, t: Table, op: Op, id: string)
    requires Inv(space, t) && Allowed(space, t, op) && Lists(t)
    ensures id in Waiting(Step(space, t, op)) <==> WaitsAfter(t, op, id)
    ensures id in Step(space, t, op).offline <==> OfflineAfter(t, op, id)
  {
    hide Inv, Step, Allowed, Waiting, WaitsAfter, OfflineAfter;
    if op.Taking? || op.Discarding? || op.Add? || op.Filing? {
      DropStanding(space, t, op, id);
    } else if op.Liveness? {
      ProbeStanding(space, t, op, id);
    } else if op.Candidate? || op.Lookup? {
      CandidateStanding(space, t, op, id);
    } else {
      QuietStanding(space, t, op, id);
    }
  }

  // -------------------------------------------------------------- what is recorded

  /** Offline since the third failure, if not before; a success ends it. */
  lemma OfflineClock(space: Space, t: Table, op: Op, id: string)
    requires Inv(space, t) && Allowed(space, t, op) && Lists(t) && id in t.peers && id in Step(space, t, op).peers
    ensures Step(space, t, op).peers[id].offlineSince
         == if Tells(op, Success, id) then 0
            else if t.peers[id].offlineSince == 0 && Third(t.peers[id], op, id) then op.now
            else t.peers[id].offlineSince
  {
    hide Inv, RemoveAll, InsertFront, Append, Ids, In, IdIndex, NameIndex, Renames, MoveToFront, InsertNames, Slot, OffSelf, LongestWaiting;
    KnownIds(space, t, id);
  }

  /** A round trip moves the estimate an eighth of the way, rounded down; the first one is taken whole. */
  lemma Smoothed(space: Space, p: Peer, named: bool, now: Time, rtt: nat)
    ensures var r, m := Used(space, p, named, now, rtt).rttMicros, AtMost(rtt, 0xFFFF_FFFF);
      && (rtt == 0 ==> r == p.rttMicros)
      && (rtt != 0 && p.rttMicros == 0 ==> r == m)
      && (rtt != 0 && p.rttMicros != 0 ==> 8 * (r - p.rttMicros) <= m - p.rttMicros < 8 * (r - p.rttMicros) + 8)
  {
  }

  /** A candidate that is taken in or refreshed. */
  ghost predicate Enlists(t: Table, op: Op, id: string) {
    op.Candidate? && Names(t, op, id) && id !in Active(t) && (id in Waiting(t) || t.pendingN < 512)
  }

  lemma NewcomerIs(space: Space, t: Table, op: Op, id: string)
    requires Inv(space, t) && Allowed(space, t, op) && Lists(t) && id !in t.peers && id in Step(space, t, op).peers
    ensures Names(t, op, id)
    ensures Step(space, t, op).peers[id].node == op.node && (Step(space, t, op).peers[id].transient <==> op.Lookup?)
  {
    hide RemoveAll, InsertFront, Append, Ids, In, IdIndex, NameIndex, Renames, Slot, OffSelf, Inv;
    TellsSelf(space, t, op, id);
    LearnedIff(space, t, op, id);
  }

  /** The record held is the one that last came with an answer, a candidacy or an update, its name hash filled in on use. */
  ghost function HeldAfter(space: Space, t: Table, op: Op, id: string): NodeInfo
    requires Lists(t) && id in t.peers
  {
    var held := t.peers[id].node;
    if Tells(op, Answer, id) || Enlists(t, op, id) then op.node
    else if op.Update? && op.node.id == id && UpdateKnownNode(space, t, op.node, op.verified).1 then op.node
    else if Tells(op, Usage, id) && t.selfNameHash != "" && held.nameHash == "" then held.(nameHash := space.hashName(held.name))
    else held
  }

  lemma CandidateNode(space: Space, t: Table, op: Op, id: string)
    requires Inv(space, t) && Allowed(space, t, op) && Lists(t) && id in t.peers && op.Candidate?
    ensures id in Step(space, t, op).peers
    ensures Step(space, t, op).peers[id].node == HeldAfter(space, t, op, id)
    ensures Step(space, t, op).peers[id].transient == (if Enlists(t, op, id) && id !in Waiting(t) then false else t.peers[id].transient)
  {
    hide RemoveAll, Append, Ids, In, Slot, OffSelf, Inv;
    Elsewhere(space, t, id);
    KnownIds(space, t, id);
  }

  lemma ProbedNode(space: Space, t: Table, op: Op, id: string)
    requires Inv(space, t) && Allowed(space, t, op) && Lists(t) && id in t.peers && id in Step(space, t, op).peers && op.Liveness?
    ensures Step(space, t, op).peers[id].node == HeldAfter(space, t, op, id)
    ensures Step(space, t, op).peers[id].transient == t.peers[id].transient
  {
    hide Inv, Step;
    ProbeWrites(space, t, op, id);
  }

  lemma KnownNode(space: Space, t: Table, op: Op, id: string)
    requires Inv(space, t) && Allowed(space, t, op) && Lists(t) && id in t.peers && id in Step(space, t, op).peers
    requires !op.Candidate? && !op.Liveness?
    ensures Step(space, t, op).peers[id].node == HeldAfter(space, t, op, id)
    ensures Step(space, t, op).peers[id].transient == (if Tells(op, Answer, id) then false else t.peers[id].transient)
  {
    hide Inv, RemoveAll, InsertFront, Append, Ids, In, IdIndex, NameIndex, Renames, MoveToFront, InsertNames, Slot, OffSelf, LongestWaiting;
    KnownIds(space, t, id);
  }

  /** Which record is held of a peer after an operation, and whether it is only a lookup's candidate. */
  lemma NodeAfter(space: Space, t: Table, op: Op, id: string)
    requires Inv(space, t) && Allowed(space, t, op) && Lists(t) && id in Step(space, t, op).peers
    ensures id in t.peers || Names(t, op, id)
    ensures var q := Step(space, t, op).peers[id];
      && q.node == (if id in t.peers then HeldAfter(space, t, op, id) else op.node)
      && q.transient == (if Tells(op, Answer, id) || (Enlists(t, op, id) && id !in Waiting(t)) then false
                         else if id in t.peers then t.peers[id].transient else op.Lookup?)
  {
    hide Inv, Step, Allowed, HeldAfter, Waiting, Active;
    if id !in t.peers {
      NewcomerIs(space, t, op, id);
    } else if op.Candidate? {
      CandidateNode(space, t, op, id);
    } else if op.Liveness? {
      ProbedNode(space, t, op, id);
    } else {
      KnownNode(space, t, op, id);
    }
  }

  // ---------------------------------------------------------- probes and restarts

  /** Who may be probed next: an active peer whose time has come, and of those one probed longest ago. */
  lemma ReservableIff(space: Space, t: Table, id: string, now: Time)
    requires Inv(space, t)
    ensures LongestWaiting(t, id, now) <==>
      && id in Active(t) && id in t.peers && t.peers[id].nextProbeAt <= now
      && forall x :: x in Active(t) && x in t.peers && t.peers[x].nextProbeAt <= now ==> t.peers[id].lastProbe <= t.peers[x].lastProbe
  {
    hide Inv, Ids, In;
    forall x
      ensures Due(t, x, now) <==> x in Active(t) && x in t.peers && t.peers[x].nextProbeAt <= now
    {
      InIds(t.buckets, x);
    }
  }

  /** So no probe is reserved before five minutes have passed since the last, or the peer's own delay since its last answer. */
  lemma ReservedOnTime(space: Space, t: Table, ops: seq<Op>, id: string, p: Peer, now: Time)
    requires Inv(space, t) && Runs(space, t, ops) && Stays(space, t, ops, id) && Was(t, id, p) && Widths(p) && ops != []
    requires Allowed(space, Run(space, t, ops), Reservation(id, now))
    ensures id in Active(Run(space, t, ops)) && DueAt(space, ops, id, p.nextProbeAt) <= now
  {
    hide Inv, Run, Runs, Stays, Step, LongestWaiting;
    DiaryReads(space, t, ops, id, p);
    RunKeeps(space, t, ops);
    ReservableIff(space, Run(space, t, ops), id, now);
  }

  /** Last heard of within thirty days, or never; friends and pinned peers always count. */
  ghost predicate Fresh(seen: Peer, now: Time) {
    var since := if seen.offlineSince != 0 then seen.offlineSince else seen.lastSeen;
    seen.pinned || seen.friend || since == 0 || now <= since + 2_592_000_000_000_000
  }

  /** A stranger in a saved observation comes back exactly if it is fresh and there is room: offline as it was, or waiting. */
  lemma ComesBackIff(space: Space, t: Table, seen: Peer, now: Time)
    requires Inv(space, t) && seen.node.id !in t.peers
    ensures |t.pending| == BUCKETS
    ensures var t', id := RestoreOne(space, t, seen, now), seen.node.id;
      && (id in t'.peers <==> id != "" && id != t.selfId && seen.node.addr != "" && Fresh(seen, now) && t.pendingN < 512)
      && (id in t'.peers ==> t'.peers[id] == seen.(transient := false) && (id in t'.offline <==> seen.offlineSince != 0))
      && (id in t'.peers ==> (id in Waiting(t') <==> seen.offlineSince == 0))
      && (id !in t'.peers ==> t' == t)
  {
    hide Inv, RemoveAll, Append, Ids, In, Slot;
    var id := seen.node.id;
    InvLength(space, t);
    Elsewhere(space, t, id);
    KnownOnly(space, t, id);
    Enqueued(space, t, id);
    BackOffList(space, t, id);
  }

  lemma BackOffList(space: Space, t: Table, id: string)
    requires Inv(space, t) && Lists(t) && id !in Waiting(t)
    ensures id !in Ids(RemoveAll(Append(t.pending, id, Slot(space, t, id)), id))
  {
    hide Ids, Append, RemoveAll, Slot;
    AppendWaiting(space, t, t.pending, id);
    RemovePlaced(Append(t.pending, id, Slot(space, t, id)), IdSlots(space, t.selfId), id);
  }
}
