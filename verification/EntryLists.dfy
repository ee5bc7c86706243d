/** Bucket lists of shared entry objects, and the searches and edits the table makes in them. */
module EntryLists {
  import opened Ordering
  import opened Slots
  import opened Routing

  /** One peer's record, shared by every list and map that mentions the peer. */
  class Entry {
    ghost const id: string
    var peer: Peer

    constructor (peer: Peer)
      ensures this.peer == peer && id == peer.node.id
    {
      this.peer := peer;
      id := peer.node.id;
    }
  }

  type Lists = seq<seq<Entry>>

  ghost function IdsIn(entries: seq<Entry>): (r: seq<string>)
    ensures |r| == |entries| && forall k :: 0 <= k < |r| ==> r[k] == entries[k].id
  {
    seq(|entries|, k requires 0 <= k < |entries| => entries[k].id)
  }

  ghost function IdLists(lists: Lists): (r: Index)
    ensures |r| == |lists| && forall i :: 0 <= i < |r| ==> r[i] == IdsIn(lists[i])
  {
    seq(|lists|, i requires 0 <= i < |lists| => IdsIn(lists[i]))
  }

  ghost function PeersOf(byId: map<string, Entry>): map<string, Peer>
    reads byId.Values
  {
    map id | id in byId :: byId[id].peer
  }

  /** Every listed entry is the very object the ID map holds. */
  ghost predicate PointsIn(entries: seq<Entry>, byId: map<string, Entry>) {
    forall e :: e in entries ==> e.id in byId && byId[e.id] == e
  }

  ghost predicate Points(lists: Lists, byId: map<string, Entry>) {
    |lists| == BUCKETS && forall i :: 0 <= i < |lists| ==> PointsIn(lists[i], byId)
  }

  /** The ID map files every entry under the ID of its node. */
  ghost predicate Keyed(byId: map<string, Entry>)
    reads byId.Values
  {
    forall id :: id in byId ==> byId[id].id == id && byId[id].peer.node.id == id
  }

  /** The node ID inside an entry is the ID it is filed under. */
  ghost predicate Faithful(entries: seq<Entry>)
    reads entries
  {
    forall k :: 0 <= k < |entries| ==> entries[k].peer.node.id == entries[k].id
  }

  lemma {:induction false} RemoveAtIs(s: seq<string>, id: string, pos: nat)
    requires pos < |s| && s[pos] == id && id !in s[..pos]
    ensures RemoveId(s, id) == s[..pos] + s[pos + 1..]
  {
    if pos > 0 {
      assert s[0] in s[..pos];
      assert s[1..][..pos - 1] == s[..pos][1..];
      RemoveAtIs(s[1..], id, pos - 1);
      assert s == [s[0]] + s[1..];
    }
  }

  method IndexOfEntry(entries: seq<Entry>, id: string) returns (pos: int)
    requires Faithful(entries)
    ensures -1 <= pos < |entries|
    ensures pos < 0 <==> id !in IdsIn(entries)
    ensures pos >= 0 ==> entries[pos].id == id && id !in IdsIn(entries)[..pos]
  {
    for i := 0 to |entries|
      invariant id !in IdsIn(entries)[..i]
    {
      if entries[i].peer.node.id == id {
        assert IdsIn(entries)[i] == id;
        return i;
      }
      assert IdsIn(entries)[..i + 1] == IdsIn(entries)[..i] + [entries[i].id];
    }
    assert IdsIn(entries)[..|entries|] == IdsIn(entries);
    pos := -1;
  }

  method InIndex(lists: Lists, id: string) returns (found: bool)
    requires forall i :: 0 <= i < |lists| ==> Faithful(lists[i])
    ensures found == In(IdLists(lists), id)
  {
    for i := 0 to |lists|
      invariant forall j :: 0 <= j < i ==> id !in IdLists(lists)[j]
    {
      var pos := IndexOfEntry(lists[i], id);
      if pos >= 0 {
        assert id in IdLists(lists)[i];
        return true;
      }
    }
    found := false;
  }

  ghost predicate Within(r: seq<Entry>, entries: seq<Entry>) {
    forall e :: e in r ==> e in entries
  }

  /** Moves the entry to the front of its list, or puts it there. */
  method MoveOrPut(entries: seq<Entry>, entry: Entry) returns (r: seq<Entry>)
    requires Faithful(entries) && entry.peer.node.id == entry.id
    ensures IdsIn(r) == [entry.id] + RemoveId(IdsIn(entries), entry.id)
    ensures Within(r, [entry] + entries)
  {
    hide RemoveId, Faithful;
    var pos := IndexOfEntry(entries, entry.peer.node.id);
    if pos < 0 {
      RemoveAbsent(IdsIn(entries), entry.id);
      r := [entry] + entries;
      assert IdsIn(r) == [entry.id] + IdsIn(entries);
    } else {
      RemoveAtIs(IdsIn(entries), entry.id, pos);
      var rest := entries[..pos] + entries[pos + 1..];
      assert IdsIn(rest) == IdsIn(entries)[..pos] + IdsIn(entries)[pos + 1..];
      r := [entries[pos]] + rest;
      assert IdsIn(r) == [entry.id] + IdsIn(rest);
    }
  }

  method InsertIndex(lists: Lists, entry: Entry, at: int) returns (r: Lists)
    requires |lists| == BUCKETS && (forall i :: 0 <= i < |lists| ==> Faithful(lists[i])) && entry.peer.node.id == entry.id
    ensures |r| == BUCKETS && IdLists(r) == InsertFront(IdLists(lists), entry.id, at)
    ensures forall i :: 0 <= i < |r| ==> Within(r[i], [entry] + lists[i])
  {
    hide RemoveId, IdsIn, Faithful;
    var c := Clamp(at);
    var list := MoveOrPut(lists[c], entry);
    r := lists[c := list];
    assert IdLists(r) == IdLists(lists)[c := IdsIn(list)];
  }

  method MoveListed(lists: Lists, id: string, at: int) returns (r: Lists)
    requires |lists| == BUCKETS && forall i :: 0 <= i < |lists| ==> Faithful(lists[i])
    ensures |r| == BUCKETS && IdLists(r) == MoveToFront(IdLists(lists), id, at)
    ensures forall i :: 0 <= i < |r| ==> Within(r[i], lists[i])
  {
    hide RemoveId, Faithful;
    if at < 0 || at > 255 {
      return lists;
    }
    var list := lists[at];
    var pos := IndexOfEntry(list, id);
    if pos < 0 {
      return lists;
    }
    RemoveAtIs(IdsIn(list), id, pos);
    var rest := list[..pos] + list[pos + 1..];
    assert IdsIn(rest) == IdsIn(list)[..pos] + IdsIn(list)[pos + 1..];
    assert IdsIn([list[pos]] + rest) == [id] + IdsIn(rest);
    assert id in IdLists(lists)[at];
    r := lists[at := [list[pos]] + rest];
    assert IdLists(r) == IdLists(lists)[at := [id] + IdsIn(rest)];
  }

  method RemoveFromList(entries: seq<Entry>, id: string) returns (r: seq<Entry>, removed: bool)
    requires Faithful(entries)
    ensures IdsIn(r) == RemoveId(IdsIn(entries), id) && Within(r, entries)
    ensures removed == (id in IdsIn(entries)) && (!removed ==> r == entries)
  {
    var pos := IndexOfEntry(entries, id);
    if pos < 0 {
      RemoveAbsent(IdsIn(entries), id);
      return entries, false;
    }
    RemoveAtIs(IdsIn(entries), id, pos);
    r := entries[..pos] + entries[pos + 1..];
    assert IdsIn(r) == IdsIn(entries)[..pos] + IdsIn(entries)[pos + 1..];
    assert IdsIn(entries)[pos] == id;
    removed := true;
  }

  method RemoveFromIndex(lists: Lists, id: string) returns (r: Lists, removed: bool)
    requires forall i :: 0 <= i < |lists| ==> Faithful(lists[i])
    ensures |r| == |lists| && IdLists(r) == RemoveAll(IdLists(lists), id)
    ensures removed == In(IdLists(lists), id) && (!removed ==> r == lists)
    ensures forall i :: 0 <= i < |r| ==> Within(r[i], lists[i])
  {
    hide RemoveId, IdsIn, Faithful, Within;
    r := [];
    removed := false;
    for i := 0 to |lists|
      invariant |r| == i
      invariant forall j :: 0 <= j < i ==> IdsIn(r[j]) == RemoveId(IdsIn(lists[j]), id) && Within(r[j], lists[j])
      invariant removed == exists j :: 0 <= j < i && id in IdsIn(lists[j])
      invariant !removed ==> r == lists[..i]
    {
      var list, here := RemoveFromList(lists[i], id);
      r := r + [list];
      removed := removed || here;
    }
    assert IdLists(r) == RemoveAll(IdLists(lists), id);
    assert removed == In(IdLists(lists), id) by {
      if removed {
        var j :| 0 <= j < |lists| && id in IdsIn(lists[j]);
        assert id in IdLists(lists)[j];
      }
    }
  }

  /** Stops at the first list that has the entry, which suffices where no ID is listed twice. */
  method RemoveFirst(lists: Lists, id: string, ghost slot: string -> int) returns (r: Lists, removed: bool)
    requires forall i :: 0 <= i < |lists| ==> Faithful(lists[i])
    requires Placed(IdLists(lists), slot)
    ensures |r| == |lists| && IdLists(r) == RemoveAll(IdLists(lists), id)
    ensures removed == In(IdLists(lists), id) && (!removed ==> r == lists)
    ensures forall i :: 0 <= i < |r| ==> Within(r[i], lists[i])
  {
    hide RemoveId, IdsIn, Faithful, NoRepeats;
    for i := 0 to |lists|
      invariant forall j :: 0 <= j < i ==> id !in IdLists(lists)[j]
    {
      var list, here := RemoveFromList(lists[i], id);
      if here {
        r := lists[i := list];
        removed := true;
        assert id in IdLists(lists)[i];
        RemovalIsLocal(IdLists(lists), slot, id, i);
        assert IdLists(r) == IdLists(lists)[i := IdsIn(list)];
        return;
      }
    }
    r := lists;
    removed := false;
    assert id !in Ids(IdLists(lists));
    RemovalIsNothing(IdLists(lists), id);
  }

  method AppendEntry(lists: Lists, entry: Entry, at: nat) returns (r: Lists)
    requires at < |lists| == BUCKETS
    ensures |r| == BUCKETS && IdLists(r) == Append(IdLists(lists), entry.id, at)
    ensures forall i :: 0 <= i < |r| ==> Within(r[i], [entry] + lists[i])
  {
    r := lists[at := lists[at] + [entry]];
    assert IdsIn(lists[at] + [entry]) == IdsIn(lists[at]) + [entry.id];
    assert IdLists(r) == IdLists(lists)[at := IdsIn(lists[at]) + [entry.id]];
  }

  lemma PointsWithin(lists: Lists, r: Lists, byId: map<string, Entry>, entry: Entry)
    requires Points(lists, byId) && |r| == |lists| && entry.id in byId && byId[entry.id] == entry
    requires forall i :: 0 <= i < |r| ==> Within(r[i], [entry] + lists[i])
    ensures Points(r, byId)
  {
    forall i | 0 <= i < |r|
      ensures PointsIn(r[i], byId)
    {
      assert PointsIn(lists[i], byId) && Within(r[i], [entry] + lists[i]);
    }
  }

  lemma PointsLess(lists: Lists, r: Lists, byId: map<string, Entry>)
    requires Points(lists, byId) && |r| == |lists|
    requires forall i :: 0 <= i < |r| ==> Within(r[i], lists[i])
    ensures Points(r, byId)
  {
    forall i | 0 <= i < |r|
      ensures PointsIn(r[i], byId)
    {
      assert PointsIn(lists[i], byId) && Within(r[i], lists[i]);
    }
  }

  lemma PointsGrow(lists: Lists, byId: map<string, Entry>, entry: Entry)
    requires Points(lists, byId) && entry.id !in byId
    ensures Points(lists, byId[entry.id := entry])
  {
    forall i | 0 <= i < |lists|
      ensures PointsIn(lists[i], byId[entry.id := entry])
    {
      assert PointsIn(lists[i], byId);
    }
  }

  /** An ID the lists do not mention can be taken out of the map. */
  lemma PointsShrink(lists: Lists, byId: map<string, Entry>, gone: set<string>)
    requires Points(lists, byId) && Ids(IdLists(lists)) !! gone
    ensures Points(lists, byId - gone)
  {
    forall i | 0 <= i < |lists|
      ensures PointsIn(lists[i], byId - gone)
    {
      assert PointsIn(lists[i], byId);
      forall e | e in lists[i]
        ensures e.id in byId - gone && (byId - gone)[e.id] == e
      {
        var k :| 0 <= k < |lists[i]| && lists[i][k] == e;
        assert IdLists(lists)[i][k] == e.id;
        assert e.id in IdLists(lists)[i];
        assert e.id in Ids(IdLists(lists));
      }
    }
  }

  lemma PointsFaithful(lists: Lists, byId: map<string, Entry>)
    requires Points(lists, byId) && Keyed(byId)
    ensures forall i :: 0 <= i < |lists| ==> Faithful(lists[i])
  {
    forall i | 0 <= i < |lists|
      ensures Faithful(lists[i])
    {
      assert PointsIn(lists[i], byId);
      forall k | 0 <= k < |lists[i]|
        ensures lists[i][k].peer.node.id == lists[i][k].id
      {
        assert lists[i][k] in lists[i];
      }
    }
  }
}
