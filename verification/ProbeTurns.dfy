/** Probe reservations are fair: a due peer waits for at most the peers that have waited longer. */
module ProbeTurns {
  import opened Ordering
  import opened Slots
  import opened Routing
  import opened RoutingInv
  import opened RoutingRuns
  import opened RoutingHistory

  /** Active peers other than p that were last probed no later than p. */
  ghost function Rivals(t: Table, p: string): set<string>
    requires p in t.peers
  {
    set q | q in Active(t) && q in t.peers && q != p && t.peers[q].lastProbe <= t.peers[p].lastProbe
  }

  /** The operation does not reschedule p's probe. */
  ghost predicate Quiet(op: Op, p: string) {
    match op
    case Add(node, _) => node.id != p
    case Filing(node, _) => node.id != p
    case Reservation(id, _) => id != p
    case Liveness(id, _, _) => id != p
    case Use(id, _, _) => id != p
    case _ => true
  }

  /** The clock of a rescheduling operation is past the given time. */
  ghost predicate Past(op: Op, time: Time) {
    match op
    case Add(_, now) => now > time
    case Filing(_, now) => now > time
    case Reservation(_, now) => now > time
    case Liveness(_, now, _) => now > time
    case Use(_, now, _) => now > time
    case _ => true
  }

  lemma ProbeAfter(space: Space, t: Table, op: Op, id: string, time: Time)
    requires Inv(space, t) && Allowed(space, t, op) && Lists(t) && Past(op, time)
    requires id in t.peers && id in Step(space, t, op).peers
    ensures var p, p' := t.peers[id], Step(space, t, op).peers[id];
      && (p'.lastProbe == p.lastProbe || p'.lastProbe > time)
      && (Quiet(op, id) ==> p'.lastProbe == p.lastProbe && p'.nextProbeAt == p.nextProbeAt)
  {
    hide Inv, Ids, In, RemoveAll, Append, InsertFront, Slot, IdIndex, NameIndex, InsertNames, MoveToFront, OffSelf, LongestWaiting,
         AddNode, Promoted;
    if op.Add? || op.Filing? {
      AddNodeFrame(space, t, op.node, op.now);
      PromotedIs(space, t, op.node, op.now);
    }
  }

  lemma NewcomerProbe(space: Space, t: Table, op: Op, id: string, time: Time)
    requires Inv(space, t) && Allowed(space, t, op) && Lists(t) && Past(op, time)
    requires id !in Active(t) && id in Active(Step(space, t, op))
    ensures id in Step(space, t, op).peers && Step(space, t, op).peers[id].lastProbe > time
  {
    hide Inv, Ids, In, Step, Expels;
    StepKeeps(space, t, op);
    ActiveKnown(space, Step(space, t, op));
    match op
    case Add(node, now) => AddRecord(space, t, op);
    case Filing(node, now) => AddRecord(space, t, op);
    case _ =>
  }

  /** Nothing that happens later can put a peer ahead of p that was not ahead before. */
  lemma RivalsShrink(space: Space, t: Table, op: Op, p: string)
    requires Inv(space, t) && Allowed(space, t, op) && Lists(t)
    requires p in t.peers && p in Active(t) && Quiet(op, p) && Past(op, t.peers[p].lastProbe)
    ensures var t' := Step(space, t, op);
      && p in t'.peers && p in Active(t')
      && t'.peers[p].lastProbe == t.peers[p].lastProbe && t'.peers[p].nextProbeAt == t.peers[p].nextProbeAt
      && Rivals(t', p) <= Rivals(t, p)
  {
    hide Inv, Ids, In, Step, Allowed, Expels;
    var t' := Step(space, t, op);
    StepKeeps(space, t, op);
    ActiveKnown(space, t);
    ActiveKnown(space, t');
    ProbeAfter(space, t, op, p, t.peers[p].lastProbe);
    forall q | q in Rivals(t', p)
      ensures q in Rivals(t, p)
    {
      if q in Active(t) {
        ProbeAfter(space, t, op, q, t.peers[p].lastProbe);
      } else {
        NewcomerProbe(space, t, op, q, t.peers[p].lastProbe);
      }
    }
  }

  /** A reservation made while p is due goes to a rival, which then stops being one. */
  lemma ReservedRival(space: Space, t: Table, op: Op, p: string)
    requires Inv(space, t) && Allowed(space, t, op) && Lists(t) && op.Reservation?
    requires p in t.peers && p in Active(t) && Quiet(op, p) && Past(op, t.peers[p].lastProbe)
    requires op.now >= t.peers[p].nextProbeAt
    ensures p in Step(space, t, op).peers
    ensures op.id in Rivals(t, p) && op.id !in Rivals(Step(space, t, op), p)
  {
    hide Inv, Ids, In;
    InIds(t.buckets, p);
    InIds(t.buckets, op.id);
    assert Due(t, p, op.now);
  }

  ghost function Reserved(ops: seq<Op>): seq<string> {
    if ops == [] then [] else (if ops[0].Reservation? then [ops[0].id] else []) + Reserved(ops[1..])
  }

  /** Every operation in the run is later than p's last probe, leaves p alone, and reserves only once p is due. */
  ghost predicate Waits(p: string, lastProbe: Time, dueAt: Time, ops: seq<Op>) {
    forall i :: 0 <= i < |ops| ==>
      Quiet(ops[i], p) && Past(ops[i], lastProbe) && (ops[i].Reservation? ==> ops[i].now >= dueAt)
  }

  lemma {:induction false} WaitsForRivals(space: Space, t: Table, ops: seq<Op>, p: string)
    requires Inv(space, t) && Runs(space, t, ops)
    requires p in t.peers && p in Active(t) && Waits(p, t.peers[p].lastProbe, t.peers[p].nextProbeAt, ops)
    ensures NoRepeats(Reserved(ops)) && forall q <- Reserved(ops) :: q in Rivals(t, p)
    decreases |ops|
  {
    hide Inv, Ids, Step, Allowed, Rivals, Quiet, Past;
    if ops != [] {
      var t' := Step(space, t, ops[0]);
      StepKeeps(space, t, ops[0]);
      assert Quiet(ops[0], p) && Past(ops[0], t.peers[p].lastProbe);
      RivalsShrink(space, t, ops[0], p);
      assert forall i :: 0 <= i < |ops| - 1 ==> ops[1..][i] == ops[i + 1];
      WaitsForRivals(space, t', ops[1..], p);
      if ops[0].Reservation? {
        ReservedRival(space, t, ops[0], p);
        assert Reserved(ops) == [ops[0].id] + Reserved(ops[1..]);
      } else {
        assert Reserved(ops) == Reserved(ops[1..]);
      }
    }
  }

  lemma {:induction false} DistinctFit<T>(s: seq<T>, within: set<T>)
    requires NoRepeats(s) && forall x <- s :: x in within
    ensures |s| <= |within|
  {
    if s != [] {
      var rest := s[1..];
      assert forall x <- rest :: x in s && x != s[0];
      DistinctFit(rest, within - {s[0]});
    }
  }

  /**
   * While a due peer waits, no other peer is reserved twice, newcomers never overtake it,
   * and it waits for at most as many reservations as it had rivals at the start.
   */
  lemma ProbeFairness(space: Space, t: Table, ops: seq<Op>, p: string)
    requires Inv(space, t) && Runs(space, t, ops)
    requires p in t.peers && p in Active(t) && Waits(p, t.peers[p].lastProbe, t.peers[p].nextProbeAt, ops)
    ensures NoRepeats(Reserved(ops))
    ensures forall q <- Reserved(ops) :: q in Rivals(t, p)
    ensures |Reserved(ops)| <= |Rivals(t, p)|
  {
    hide Inv, Ids, Runs, Waits, Rivals, Reserved;
    WaitsForRivals(space, t, ops, p);
    DistinctFit(Reserved(ops), Rivals(t, p));
  }
}
