/** What a row of the peer store says, read off everything that was written to it. */
module Ledgers {
  import opened Routing
  import opened PeerStores
  import Diaries
  import Evictions
  import RoutingRuns

  // --------------------------------------------------------------------- snapshots

  /** All that is known of a peer when a snapshot is merged: its row and its observations. */
  ghost predicate Entry(rows: Rows, peers: seq<Peer>, id: string, p: Peer) {
    (id in rows && p == rows[id]) || (p in peers && p.node.id == id)
  }

  ghost predicate MostUsed(rows: Rows, peers: seq<Peer>, id: string, q: Peer) {
    && (forall p :: Entry(rows, peers, id, p) ==> p.useCount <= q.useCount && p.lastUsed <= q.lastUsed)
    && (exists p :: Entry(rows, peers, id, p) && p.useCount == q.useCount)
    && (exists p :: Entry(rows, peers, id, p) && p.lastUsed == q.lastUsed)
  }

  /** The earliest sighting of all; zero is none. */
  ghost predicate FirstOfAll(rows: Rows, peers: seq<Peer>, id: string, q: Peer) {
    && (exists p :: Entry(rows, peers, id, p) && p.firstSeen == q.firstSeen)
    && forall p :: Entry(rows, peers, id, p) && p.firstSeen != 0 ==> 0 < q.firstSeen <= p.firstSeen
  }

  lemma EntriesLast(rows: Rows, peers: seq<Peer>, id: string, p: Peer)
    requires peers != []
    ensures var front, last := peers[..|peers| - 1], peers[|peers| - 1];
      Entry(rows, peers, id, p) <==> Entry(rows, front, id, p) || (last.node.id == id && p == last)
  {
    var front, last := peers[..|peers| - 1], peers[|peers| - 1];
    assert peers == front + [last];
  }

  lemma MergeUses(rows: Rows, peers: seq<Peer>, id: string, was: Peer)
    requires peers != [] && peers[|peers| - 1].node.id == id
    requires MostUsed(rows, peers[..|peers| - 1], id, was) && FirstOfAll(rows, peers[..|peers| - 1], id, was)
    ensures MostUsed(rows, peers, id, Merge(was, peers[|peers| - 1])) && FirstOfAll(rows, peers, id, Merge(was, peers[|peers| - 1]))
  {
    hide Entry;
    forall p
      ensures Entry(rows, peers, id, p) <==> Entry(rows, peers[..|peers| - 1], id, p) || p == peers[|peers| - 1]
    {
      EntriesLast(rows, peers, id, p);
    }
  }

  lemma NothingMerged(rows: Rows, peers: seq<Peer>, id: string, p: Peer)
    requires forall e :: Entry(rows, peers, id, e) <==> e == p
    ensures MostUsed(rows, peers, id, p) && FirstOfAll(rows, peers, id, p)
  {
    hide Entry;
    assert Entry(rows, peers, id, p);
  }

  /** After merging, a row has the greatest use and the earliest sighting of all its entries. */
  lemma {:induction false} MergedSays(rows: Rows, peers: seq<Peer>, id: string)
    requires id in Merged(rows, peers)
    ensures MostUsed(rows, peers, id, Merged(rows, peers)[id]) && FirstOfAll(rows, peers, id, Merged(rows, peers)[id])
  {
    hide MostUsed, FirstOfAll, Merge;
    if peers == [] {
      NothingMerged(rows, peers, id, rows[id]);
    } else {
      var front, last := peers[..|peers| - 1], peers[|peers| - 1];
      if last.node.id != id {
        MergedSays(rows, front, id);
        SameEntries(rows, peers, id, Merged(rows, front)[id]);
      } else if id in Merged(rows, front) {
        MergedSays(rows, front, id);
        MergeUses(rows, peers, id, Merged(rows, front)[id]);
      } else {
        forall e
          ensures Entry(rows, peers, id, e) <==> e == last
        {
          EntriesLast(rows, peers, id, e);
          Unmentioned(rows, front, id, e);
        }
        NothingMerged(rows, peers, id, last);
      }
    }
  }

  lemma SameEntries(rows: Rows, peers: seq<Peer>, id: string, q: Peer)
    requires peers != [] && peers[|peers| - 1].node.id != id
    requires MostUsed(rows, peers[..|peers| - 1], id, q) && FirstOfAll(rows, peers[..|peers| - 1], id, q)
    ensures MostUsed(rows, peers, id, q) && FirstOfAll(rows, peers, id, q)
  {
    hide Entry;
    forall p
      ensures Entry(rows, peers, id, p) <==> Entry(rows, peers[..|peers| - 1], id, p)
    {
      EntriesLast(rows, peers, id, p);
    }
  }

  lemma {:induction false} Unmentioned(rows: Rows, peers: seq<Peer>, id: string, p: Peer)
    requires id !in Merged(rows, peers)
    ensures !Entry(rows, peers, id, p)
  {
    if peers != [] {
      Unmentioned(rows, peers[..|peers| - 1], id, p);
      EntriesLast(rows, peers, id, p);
    }
  }

  /** All else is as last observed. */
  lemma {:induction false} LastObserved(rows: Rows, peers: seq<Peer>, id: string, i: nat)
    requires i < |peers| && peers[i].node.id == id && forall j :: i < j < |peers| ==> peers[j].node.id != id
    ensures id in Merged(rows, peers)
    ensures var q := Merged(rows, peers)[id];
      q == peers[i].(friend := q.friend, useCount := q.useCount, lastUsed := q.lastUsed, firstSeen := q.firstSeen)
    decreases |peers|
  {
    var front := peers[..|peers| - 1];
    if i < |peers| - 1 {
      LastObserved(rows, front, id, i);
    }
  }

  /** A row is written for whoever has an ID, an address, and was heard of within thirty days or is a friend. */
  lemma EligibleIff(p: Peer, now: Time)
    ensures Eligible(p, now) <==> p.node.id != "" && p.node.addr != "" && Evictions.Fresh(p, now)
    ensures Eligible(p, now) ==> !RoutingRuns.TooOld(p, now)
  {
  }

  // ------------------------------------------------------------ marks and uses

  datatype Write = Using(node: NodeInfo, now: Time) | Marking(node: NodeInfo, friend: bool, now: Time)

  /** The row after writes to it, none if it never was written. */
  ghost function Written(rows: Rows, id: string, writes: seq<Write>): Rows {
    if writes == [] then rows
    else
      var before, w := Written(rows, id, writes[..|writes| - 1]), writes[|writes| - 1];
      before[id := match w case Using(node, now) => UsedRow(before, node, now) case Marking(node, friend, now) => Befriended(before, node, friend, now)]
  }

  ghost function Uses(writes: seq<Write>): nat {
    if writes == [] then 0 else Uses(writes[..|writes| - 1]) + (if writes[|writes| - 1].Using? then 1 else 0)
  }

  /** The writes are the peer's own, and clocks are set. */
  ghost predicate Own(id: string, writes: seq<Write>) {
    forall w <- writes :: w.node.id == id && w.now > 0
  }

  lemma WriteIs(rows: Rows, id: string, writes: seq<Write>)
    requires writes != []
    ensures id in Written(rows, id, writes)
    ensures var before, w, q := Written(rows, id, writes[..|writes| - 1]), writes[|writes| - 1], Written(rows, id, writes)[id];
      var used, first, last := if id in before then before[id].useCount else 0, if id in before then before[id].firstSeen else 0,
        if id in before then before[id].lastUsed else 0;
      w.node.id == id ==>
        && q.useCount == (if w.Using? && used < 0xFFFF_FFFF then used + 1 else used)
        && q.firstSeen == (if first == 0 then w.now else first) && (!w.Using? ==> q.lastUsed == last)
  {
  }

  /** After any writes uses are counted, the last one is timed, and the first sighting stays. */
  lemma {:induction false} RowSays(rows: Rows, id: string, writes: seq<Write>)
    requires Own(id, writes) && writes != [] && (id in rows ==> rows[id].useCount <= 0xFFFF_FFFF)
    ensures id in Written(rows, id, writes)
    ensures var q := Written(rows, id, writes)[id]; var had := id in rows;
      && q.useCount == Diaries.AtMost((if had then rows[id].useCount else 0) + Uses(writes), 0xFFFF_FFFF)
      && q.firstSeen == (if had && rows[id].firstSeen != 0 then rows[id].firstSeen else writes[0].now)
      && (Uses(writes) == 0 ==> q.lastUsed == if had then rows[id].lastUsed else 0)
    decreases |writes|
  {
    hide Written;
    var front, last := writes[..|writes| - 1], writes[|writes| - 1];
    assert writes == front + [last] && last in writes;
    WriteIs(rows, id, writes);
    if front == [] {
      NothingWritten(rows, id);
    } else {
      RowSays(rows, id, front);
    }
  }

  lemma NothingWritten(rows: Rows, id: string)
    ensures Written(rows, id, []) == rows && Uses([]) == 0
  {
  }

  /** The last write's record is held; a use is timed, and a mark holds until the next. */
  lemma LastWrite(rows: Rows, id: string, writes: seq<Write>)
    requires writes != []
    ensures id in Written(rows, id, writes)
    ensures var q, last := Written(rows, id, writes)[id], writes[|writes| - 1];
      q.node == last.node && (last.Using? ==> q.lastUsed == q.lastSeen == last.now) && (last.Marking? ==> q.friend == last.friend)
  {
  }

  lemma {:induction false} MarksHold(rows: Rows, id: string, writes: seq<Write>, more: seq<Write>)
    requires writes != [] && Own(id, writes) && Own(id, more) && forall w <- more :: w.Using?
    ensures id in Written(rows, id, writes) && id in Written(rows, id, writes + more)
    ensures Written(rows, id, writes + more)[id].friend == Written(rows, id, writes)[id].friend
    decreases |more|
  {
    if more == [] {
      assert writes + more == writes;
      LastWrite(rows, id, writes);
    } else {
      var all := writes + more;
      assert all[..|all| - 1] == writes + more[..|more| - 1] && all[|all| - 1] == more[|more| - 1];
      MarksHold(rows, id, writes, more[..|more| - 1]);
    }
  }
}
