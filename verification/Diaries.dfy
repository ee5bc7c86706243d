/** What the table notes about a peer, read off the operations of a run alone. */
module Diaries {
  import opened Slots
  import opened Routing
  import opened RoutingInv
  import opened RoutingRuns

  /** What an operation can tell about a peer; a success is also a sign of life. */
  datatype Kind = Answer | Success | Sign | Usage | Failed | Probe

  ghost predicate Tells(op: Op, kind: Kind, id: string) {
    var answers := (op.Add? || op.Filing?) && op.node.id == id && op.node.addr != "";
    var alive := op.Liveness? && op.id == id && op.alive;
    match kind
    case Answer => answers
    case Success => answers || alive
    case Sign => answers || alive || (op.Use? && op.id == id)
    case Usage => op.Use? && op.id == id
    case Failed => op.Failure? && op.id == id
    case Probe => answers || ((op.Liveness? || op.Use? || op.Reservation?) && op.id == id)
  }

  ghost function At(op: Op): Time {
    match op
    case Add(_, now) => now
    case Filing(_, now) => now
    case Failure(_, now) => now
    case Reservation(_, now) => now
    case Liveness(_, now, _) => now
    case Use(_, now, _) => now
    case _ => 0
  }

  ghost function Tally(ops: seq<Op>, kind: Kind, id: string): nat {
    if ops == [] then 0 else (if Tells(ops[0], kind, id) then 1 else 0) + Tally(ops[1..], kind, id)
  }

  /** The time of the last operation of the kind, or the time before them all. */
  ghost function Latest(ops: seq<Op>, kind: Kind, id: string, before: Time): Time {
    if ops == [] then before else Latest(ops[1..], kind, id, if Tells(ops[0], kind, id) then At(ops[0]) else before)
  }

  /** The time of the first, unless there is one already. */
  ghost function Earliest(ops: seq<Op>, kind: Kind, id: string, before: Time): Time {
    if before != 0 || ops == [] then before else Earliest(ops[1..], kind, id, if Tells(ops[0], kind, id) then At(ops[0]) else 0)
  }

  /** Failures noted since the last sign of life. */
  ghost function FailedSince(ops: seq<Op>, id: string, before: nat): nat {
    if ops == [] then before
    else FailedSince(ops[1..], id, if Tells(ops[0], Sign, id) then 0 else if Tells(ops[0], Failed, id) then before + 1 else before)
  }

  /** When the next probe is due: a peer's own delay after an answer, five minutes after any other probe. */
  ghost function DueAt(space: Space, ops: seq<Op>, id: string, before: Time): Time {
    if ops == [] then before
    else DueAt(space, ops[1..], id,
               if Tells(ops[0], Answer, id) then At(ops[0]) + space.probeDelay(id)
               else if Tells(ops[0], Probe, id) then At(ops[0]) + 300_000_000_000
               else before)
  }

  ghost function Befriended(ops: seq<Op>, id: string, before: bool): bool {
    if ops == [] then before else Befriended(ops[1..], id, if ops[0].Friend? && ops[0].id == id then ops[0].friend else before)
  }

  function AtMost(n: nat, cap: nat): nat {
    if n > cap then cap else n
  }

  /** Counters as wide as the source's. */
  predicate Widths(p: Peer) {
    p.failCount <= 255 && p.successCount <= 0xFFFF_FFFF && p.useCount <= 0xFFFF_FFFF
  }

  /** p is the peer's record, a blank one if the peer is unknown. */
  ghost predicate Was(t: Table, id: string, p: Peer) {
    if id in t.peers then p == t.peers[id] else p == NewPeer(p.node)
  }

  ghost predicate Stays(space: Space, t: Table, ops: seq<Op>, id: string)
    requires Runs(space, t, ops)
    decreases |ops|
  {
    ops == [] || (id in Step(space, t, ops[0]).peers && Stays(space, Step(space, t, ops[0]), ops[1..], id))
  }

  ghost predicate Counted(ops: seq<Op>, id: string, p: Peer, q: Peer) {
    && q.successCount == AtMost(p.successCount + Tally(ops, Answer, id), 0xFFFF_FFFF)
    && q.useCount == AtMost(p.useCount + Tally(ops, Usage, id), 0xFFFF_FFFF)
    && q.failCount == AtMost(FailedSince(ops, id, p.failCount), 255)
  }

  ghost predicate Timed(space: Space, ops: seq<Op>, id: string, p: Peer, q: Peer) {
    && q.firstSeen == Earliest(ops, Answer, id, p.firstSeen)
    && q.lastSeen == Latest(ops, Sign, id, p.lastSeen)
    && q.lastSuccess == Latest(ops, Success, id, p.lastSuccess)
    && q.lastUsed == Latest(ops, Usage, id, p.lastUsed)
    && q.lastProbe == Latest(ops, Probe, id, p.lastProbe)
    && q.nextProbeAt == DueAt(space, ops, id, p.nextProbeAt)
  }

  /** On probation for two hours from the first success; an answer starts it only for peers new to answering. */
  ghost predicate Tried(ops: seq<Op>, id: string, p: Peer, q: Peer) {
    && (p.probationUntil != 0 ==> q.probationUntil == p.probationUntil)
    && (p.probationUntil == 0 && p.successCount == 0 && !p.pinned ==>
          q.probationUntil == (if Tally(ops, Success, id) == 0 then 0 else Earliest(ops, Success, id, 0) + 7_200_000_000_000))
    && q.pinned == p.pinned && q.friend == Befriended(ops, id, p.friend)
  }

  // ------------------------------------------------------------- one operation

  lemma TellsSelf(space: Space, t: Table, op: Op, id: string)
    requires Inv(space, t) && Allowed(space, t, op) && Lists(t) && id in Step(space, t, op).peers
    ensures id != "" && id != t.selfId
  {
    hide Inv, Step, Allowed;
    StepKeeps(space, t, op);
    KnownIds(space, Step(space, t, op), id);
    SameSelf(space, t, op);
  }

  lemma KnownIds(space: Space, t: Table, id: string)
    requires Inv(space, t) && id in t.peers
    ensures id != "" && id != t.selfId
  {
  }

  lemma SameSelf(space: Space, t: Table, op: Op)
    requires Allowed(space, t, op) && Lists(t)
    ensures Step(space, t, op).selfId == t.selfId
  {
  }

  /** What an answer of the peer makes of its record. */
  ghost predicate Renewed(space: Space, op: Op, id: string, p: Peer, q: Peer) {
    var now := At(op);
    && q.successCount == (if p.successCount < 0xFFFF_FFFF then p.successCount + 1 else p.successCount)
    && q.useCount == p.useCount && q.failCount == 0 && q.pinned == p.pinned && q.friend == p.friend
    && q.firstSeen == (if p.firstSeen == 0 then now else p.firstSeen)
    && q.lastSeen == q.lastSuccess == q.lastProbe == now && q.lastUsed == p.lastUsed
    && q.nextProbeAt == now + space.probeDelay(id)
    && (p.probationUntil != 0 ==> q.probationUntil == p.probationUntil)
    && (p.probationUntil == 0 && p.successCount == 0 && !p.pinned ==> q.probationUntil == now + 7_200_000_000_000)
  }

  lemma AnswerWrites(space: Space, t: Table, op: Op, id: string, p: Peer)
    requires Allowed(space, t, op) && Lists(t) && Was(t, id, p) && id != "" && id != t.selfId && Tells(op, Answer, id)
    ensures id in Step(space, t, op).peers
    ensures Renewed(space, op, id, p, Step(space, t, op).peers[id])
  {
    hide In, RemoveAll, InsertFront, IdIndex, NameIndex, NameHash;
  }

  /** What any other operation makes of the record. */
  ghost predicate Rewritten(op: Op, id: string, p: Peer, q: Peer) {
    var now := At(op);
    && q.successCount == p.successCount && q.firstSeen == p.firstSeen && q.pinned == p.pinned
    && q.useCount == (if Tells(op, Usage, id) && p.useCount < 0xFFFF_FFFF then p.useCount + 1 else p.useCount)
    && q.failCount == (if Tells(op, Sign, id) then 0 else if Tells(op, Failed, id) && p.failCount < 255 then p.failCount + 1 else p.failCount)
    && q.lastSeen == (if Tells(op, Sign, id) then now else p.lastSeen)
    && q.lastSuccess == (if Tells(op, Success, id) then now else p.lastSuccess)
    && q.lastUsed == (if Tells(op, Usage, id) then now else p.lastUsed)
    && q.lastProbe == (if Tells(op, Probe, id) then now else p.lastProbe)
    && q.nextProbeAt == (if Tells(op, Probe, id) then now + 300_000_000_000 else p.nextProbeAt)
    && q.friend == (if op.Friend? && op.id == id then op.friend else p.friend)
    && q.probationUntil == (if Tells(op, Success, id) && p.probationUntil == 0 then now + 7_200_000_000_000 else p.probationUntil)
  }

  /** A probe's result: seen alive, missed too soon to count, or missed, and with the third miss offline. */
  lemma ProbeWrites(space: Space, t: Table, op: Op, id: string)
    requires Allowed(space, t, op) && Lists(t) && op.Liveness? && id in Step(space, t, op).peers
    ensures id in t.peers
    ensures var p, q := t.peers[id], Step(space, t, op).peers[id];
      if op.id != id then q == p
      else if op.alive then q == Alive(p, op.now)
      else q == p.(lastProbe := op.now, nextProbeAt := op.now + PROBE_INTERVAL) || q == Missed(p, op.now) || q == Offlined(Missed(p, op.now), op.now)
  {
    hide In, RemoveAll, Alive, Missed, Offlined, Counts;
  }

  /** The other operations that look at one peer's bookkeeping only. */
  lemma NoteWrites(space: Space, t: Table, op: Op, id: string)
    requires Allowed(space, t, op) && Lists(t) && id != t.selfId && id in Step(space, t, op).peers
    requires op.Use? || op.Failure? || op.Reservation? || op.Friend?
    ensures id in t.peers
    ensures var p, q := t.peers[id], Step(space, t, op).peers[id];
      if op.id != id then q == p
      else match op
        case Use(_, now, rtt) => q == Used(space, p, t.selfNameHash != "", now, rtt)
        case Failure(_, now) => q == p.(lastFailure := now, failCount := if p.failCount < 255 then p.failCount + 1 else p.failCount)
        case Reservation(_, now) => q == p.(lastProbe := now, nextProbeAt := now + PROBE_INTERVAL)
        case Friend(_, friend) => q == p.(friend := friend)
        case _ => true
  {
    hide In, RemoveAll, Used, IdIndex, NameIndex, MoveToFront;
  }

  /** Operations on the lists leave the bookkeeping alone. */
  lemma ListWrites(space: Space, t: Table, op: Op, id: string)
    requires Allowed(space, t, op) && Lists(t) && id in Step(space, t, op).peers
    requires op.Update? || op.Lookup? || op.Candidate? || op.Taking? || op.Discarding? || op.Prune? || op.Rename?
    ensures var q := Step(space, t, op).peers[id];
      if id in t.peers then q == t.peers[id].(node := q.node, transient := q.transient)
      else q == NewPeer(q.node).(transient := q.transient)
  {
    hide In, RemoveAll, InsertFront, Append, IdIndex, NameIndex, NameHash, Slot, InsertNames, OffSelf, Expired;
  }

  /** So does adding somebody else. */
  lemma ElseAnswers(space: Space, t: Table, op: Op, id: string)
    requires Allowed(space, t, op) && Lists(t) && (op.Add? || op.Filing?) && !Tells(op, Answer, id)
    ensures id in Step(space, t, op).peers <==> id in t.peers
    ensures id in t.peers ==> Step(space, t, op).peers[id] == t.peers[id]
  {
    hide In, RemoveAll, InsertFront, IdIndex, NameIndex, Promoted;
  }

  lemma ProbeRewrites(space: Space, t: Table, op: Op, id: string)
    requires Allowed(space, t, op) && Lists(t) && op.Liveness? && id in Step(space, t, op).peers
    ensures id in t.peers && Rewritten(op, id, t.peers[id], Step(space, t, op).peers[id])
  {
    hide Step, Allowed;
    ProbeWrites(space, t, op, id);
  }

  lemma NoteRewrites(space: Space, t: Table, op: Op, id: string)
    requires Allowed(space, t, op) && Lists(t) && id != t.selfId && id in Step(space, t, op).peers
    requires op.Use? || op.Failure? || op.Reservation? || op.Friend?
    ensures id in t.peers && Rewritten(op, id, t.peers[id], Step(space, t, op).peers[id])
  {
    hide Step, Allowed;
    NoteWrites(space, t, op, id);
  }

  lemma OtherRewrites(space: Space, t: Table, op: Op, id: string, p: Peer)
    requires Allowed(space, t, op) && Lists(t) && Was(t, id, p) && !Tells(op, Answer, id) && id in Step(space, t, op).peers
    requires !op.Liveness? && !op.Use? && !op.Failure? && !op.Reservation? && !op.Friend?
    ensures Rewritten(op, id, p, Step(space, t, op).peers[id])
  {
    hide Step, Allowed;
    if op.Add? || op.Filing? {
      ElseAnswers(space, t, op, id);
    } else {
      ListWrites(space, t, op, id);
    }
  }

  // ------------------------------------------------------------------ whole runs

  /** What one operation notes about the peer. */
  ghost predicate Noted(space: Space, op: Op, id: string, p: Peer, q: Peer) {
    && (if Tells(op, Answer, id) then Renewed(space, op, id, p, q) else Rewritten(op, id, p, q))
    && (Tells(op, Probe, id) ==> At(op) > 0)
  }

  lemma StepNoted(space: Space, t: Table, op: Op, id: string, p: Peer)
    requires Inv(space, t) && Allowed(space, t, op) && Lists(t) && Was(t, id, p) && id in Step(space, t, op).peers
    ensures Noted(space, op, id, p, Step(space, t, op).peers[id])
  {
    hide Inv, Step, Renewed, Rewritten;
    TellsSelf(space, t, op, id);
    if Tells(op, Answer, id) {
      AnswerWrites(space, t, op, id, p);
    } else if op.Liveness? {
      ProbeRewrites(space, t, op, id);
    } else if op.Use? || op.Failure? || op.Reservation? || op.Friend? {
      NoteRewrites(space, t, op, id);
    } else {
      OtherRewrites(space, t, op, id, p);
    }
  }

  /** A counter that stops at 255 cannot tell how far past it the count was. */
  lemma {:induction false} FailedCapped(ops: seq<Op>, id: string, m: nat, n: nat)
    requires AtMost(m, 255) == AtMost(n, 255)
    ensures AtMost(FailedSince(ops, id, m), 255) == AtMost(FailedSince(ops, id, n), 255)
  {
    if ops != [] {
      var x := if Tells(ops[0], Sign, id) then 0 else if Tells(ops[0], Failed, id) then m + 1 else m;
      var y := if Tells(ops[0], Sign, id) then 0 else if Tells(ops[0], Failed, id) then n + 1 else n;
      FailedCapped(ops[1..], id, x, y);
    }
  }

  lemma CountedMore(space: Space, ops: seq<Op>, id: string, p: Peer, q: Peer, r: Peer)
    requires ops != [] && Noted(space, ops[0], id, p, q) && Widths(p) && Counted(ops[1..], id, q, r)
    ensures Counted(ops, id, p, r)
  {
    FailedCapped(ops[1..], id, q.failCount,
                 if Tells(ops[0], Sign, id) then 0 else if Tells(ops[0], Failed, id) then p.failCount + 1 else p.failCount);
  }

  lemma WidthsKept(space: Space, op: Op, id: string, p: Peer, q: Peer)
    requires Noted(space, op, id, p, q) && Widths(p)
    ensures Widths(q)
  {
  }

  lemma TimedMore(space: Space, ops: seq<Op>, id: string, p: Peer, q: Peer, r: Peer)
    requires ops != [] && Noted(space, ops[0], id, p, q) && Timed(space, ops[1..], id, q, r)
    ensures Timed(space, ops, id, p, r)
  {
  }

  lemma TriedMore(space: Space, ops: seq<Op>, id: string, p: Peer, q: Peer, r: Peer)
    requires ops != [] && Noted(space, ops[0], id, p, q) && Tried(ops[1..], id, q, r)
    ensures Tried(ops, id, p, r)
  {
  }

  /** Over any run that keeps the peer known, its counters, times, probation and friendship follow from the operations alone. */
  lemma {:induction false} DiaryReads(space: Space, t: Table, ops: seq<Op>, id: string, p: Peer)
    requires Inv(space, t) && Runs(space, t, ops) && Stays(space, t, ops, id) && Was(t, id, p) && Widths(p) && ops != []
    ensures id in Run(space, t, ops).peers
    ensures var q := Run(space, t, ops).peers[id]; Counted(ops, id, p, q) && Timed(space, ops, id, p, q) && Tried(ops, id, p, q)
    decreases |ops|
  {
    hide Inv, Step, Allowed, Noted, Counted, Timed, Tried;
    var t' := Step(space, t, ops[0]);
    var q := t'.peers[id];
    StepKeeps(space, t, ops[0]);
    StepNoted(space, t, ops[0], id, p);
    WidthsKept(space, ops[0], id, p, q);
    if |ops| == 1 {
      assert ops[1..] == [];
      NothingNoted(space, id, q);
    } else {
      DiaryReads(space, t', ops[1..], id, q);
    }
    assert Run(space, t, ops) == Run(space, t', ops[1..]);
    var r := Run(space, t, ops).peers[id];
    CountedMore(space, ops, id, p, q, r);
    TimedMore(space, ops, id, p, q, r);
    TriedMore(space, ops, id, p, q, r);
  }

  lemma NothingNoted(space: Space, id: string, p: Peer)
    requires Widths(p)
    ensures Counted([], id, p, p) && Timed(space, [], id, p, p) && Tried([], id, p, p)
  {
  }
}
