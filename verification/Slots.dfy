/** Bucket arrays: 256 lists of peer IDs, each ID kept in the list its slot names. */
module Slots {
  import opened Ordering

  const BUCKETS := 256

  type Index = seq<seq<string>>

  function Empty(): (ix: Index)
    ensures |ix| == BUCKETS && forall i :: 0 <= i < BUCKETS ==> ix[i] == []
  {
    seq(BUCKETS, _ => [])
  }

  function Clamp(i: int): (c: nat)
    ensures c < BUCKETS
    ensures 0 <= i < BUCKETS ==> c == i
  {
    if i < 0 then 0 else if i > 255 then 255 else i
  }

  function RemoveId(s: seq<string>, id: string): seq<string> {
    if s == [] then [] else if s[0] == id then s[1..] else [s[0]] + RemoveId(s[1..], id)
  }

  function RemoveAll(ix: Index, id: string): (r: Index)
    ensures |r| == |ix|
    ensures forall i :: 0 <= i < |ix| ==> r[i] == RemoveId(ix[i], id)
  {
    seq(|ix|, i requires 0 <= i < |ix| => RemoveId(ix[i], id))
  }

  /** Puts id at the front of its list, moving it there if it is already in the list. */
  function InsertFront(ix: Index, id: string, at: int): Index
    requires |ix| == BUCKETS
  {
    ix[Clamp(at) := [id] + RemoveId(ix[Clamp(at)], id)]
  }

  function Append(ix: Index, id: string, at: nat): Index
    requires at < |ix|
  {
    ix[at := ix[at] + [id]]
  }

  ghost predicate Listed(ix: Index, id: string) {
    exists i :: 0 <= i < |ix| && id in ix[i]
  }

  ghost function Ids(ix: Index): set<string> {
    set i, id | 0 <= i < |ix| && id in ix[i] :: id
  }

  lemma IdsListed(ix: Index, id: string)
    ensures id in Ids(ix) <==> Listed(ix, id)
  {
  }

  /** Total number of list positions. */
  function Count(ix: Index): nat {
    if ix == [] then 0 else Count(ix[..|ix| - 1]) + |ix[|ix| - 1]|
  }

  /** Every listed ID is in the list its slot names, once. */
  ghost predicate Placed(ix: Index, slot: string -> int) {
    && |ix| == BUCKETS
    && (forall i :: 0 <= i < BUCKETS ==> NoRepeats(ix[i]))
    && (forall i, id :: 0 <= i < BUCKETS && id in ix[i] ==> slot(id) == i)
  }

  lemma {:induction false} RemoveIdIs(s: seq<string>, id: string)
    requires NoRepeats(s)
    ensures NoRepeats(RemoveId(s, id))
    ensures forall x :: x in RemoveId(s, id) <==> x in s && x != id
    ensures |RemoveId(s, id)| == |s| - (if id in s then 1 else 0)
  {
    if s != [] {
      var rest := s[1..];
      assert s == [s[0]] + rest;
      RemoveIdIs(rest, id);
      if s[0] == id {
        assert id !in rest;
      } else {
        assert s[0] !in rest;
      }
    }
  }

  lemma RemovePlaced(ix: Index, slot: string -> int, id: string)
    requires Placed(ix, slot)
    ensures Placed(RemoveAll(ix, id), slot)
    ensures Ids(RemoveAll(ix, id)) == Ids(ix) - {id}
  {
    forall i | 0 <= i < BUCKETS
      ensures NoRepeats(RemoveAll(ix, id)[i])
      ensures forall x :: x in RemoveAll(ix, id)[i] <==> x in ix[i] && x != id
    {
      RemoveIdIs(ix[i], id);
    }
  }

  lemma InsertPlaced(ix: Index, slot: string -> int, id: string, at: int)
    requires Placed(ix, slot) && slot(id) == Clamp(at)
    ensures Placed(InsertFront(ix, id, at), slot)
    ensures Ids(InsertFront(ix, id, at)) == Ids(ix) + {id}
  {
    var c := Clamp(at);
    RemoveIdIs(ix[c], id);
    var r := InsertFront(ix, id, at);
    assert forall i :: 0 <= i < BUCKETS && i != c ==> r[i] == ix[i];
    assert r[c] == [id] + RemoveId(ix[c], id);
    forall x
      ensures x in Ids(r) <==> x in Ids(ix) + {id}
    {
      if x in Ids(ix) {
        var i :| 0 <= i < BUCKETS && x in ix[i];
        assert x in r[i];
      }
      if x == id {
        assert x in r[c];
      }
    }
  }

  lemma AppendPlaced(ix: Index, slot: string -> int, id: string, at: nat)
    requires Placed(ix, slot) && at < BUCKETS && slot(id) == at && id !in Ids(ix)
    ensures Placed(Append(ix, id, at), slot)
    ensures Ids(Append(ix, id, at)) == Ids(ix) + {id}
  {
    var r := Append(ix, id, at);
    assert id !in ix[at];
    forall x
      ensures x in Ids(r) <==> x in Ids(ix) + {id}
    {
      if x in Ids(ix) {
        var i :| 0 <= i < BUCKETS && x in ix[i];
        assert x in r[i];
      }
      if x == id {
        assert x in r[at];
      }
    }
  }

  lemma PlacedSame(ix: Index, slot: string -> int, slot': string -> int)
    requires Placed(ix, slot) && forall id :: id in Ids(ix) ==> slot'(id) == slot(id)
    ensures Placed(ix, slot')
  {
    forall i, id | 0 <= i < BUCKETS && id in ix[i]
      ensures slot'(id) == i
    {
      assert id in Ids(ix);
    }
  }

  // -------------------------------------------------------------------- counts

  lemma {:induction false} CountSet(ix: Index, i: nat, list: seq<string>)
    requires i < |ix|
    ensures Count(ix[i := list]) == Count(ix) - |ix[i]| + |list|
  {
    var n := |ix| - 1;
    if i < n {
      CountSet(ix[..n], i, list);
      assert ix[i := list][..n] == ix[..n][i := list];
    } else {
      assert ix[i := list][..n] == ix[..n];
    }
  }

  lemma {:induction false} EmptyCount(ix: Index)
    requires forall i :: 0 <= i < |ix| ==> ix[i] == []
    ensures Count(ix) == 0
  {
    if ix != [] {
      EmptyCount(ix[..|ix| - 1]);
    }
  }

  lemma CountAppend(ix: Index, id: string, at: nat)
    requires at < |ix|
    ensures Count(Append(ix, id, at)) == Count(ix) + 1
  {
    CountSet(ix, at, ix[at] + [id]);
  }

  lemma CountRemove(ix: Index, slot: string -> int, id: string)
    requires Placed(ix, slot)
    ensures Count(RemoveAll(ix, id)) == Count(ix) - (if id in Ids(ix) then 1 else 0)
  {
    if id in Ids(ix) {
      var i :| 0 <= i < BUCKETS && id in ix[i];
      RemovalIsLocal(ix, slot, id, i);
      RemoveIdIs(ix[i], id);
      CountSet(ix, i, RemoveId(ix[i], id));
    } else {
      RemovalIsNothing(ix, id);
    }
  }

  /** Where an ID is listed once, removing it changes one list only. */
  lemma RemovalIsLocal(ix: Index, slot: string -> int, id: string, i: nat)
    requires Placed(ix, slot) && i < BUCKETS && id in ix[i]
    ensures RemoveAll(ix, id) == ix[i := RemoveId(ix[i], id)]
  {
    assert slot(id) == i;
    forall j | 0 <= j < BUCKETS && j != i
      ensures RemoveId(ix[j], id) == ix[j]
    {
      assert id in ix[j] ==> slot(id) == j;
      RemoveAbsent(ix[j], id);
    }
  }

  lemma RemovalIsNothing(ix: Index, id: string)
    requires id !in Ids(ix)
    ensures RemoveAll(ix, id) == ix
  {
    forall j | 0 <= j < |ix|
      ensures RemoveId(ix[j], id) == ix[j]
    {
      assert id !in ix[j];
      RemoveAbsent(ix[j], id);
    }
  }

  lemma {:induction false} RemoveAbsent(s: seq<string>, id: string)
    requires id !in s
    ensures RemoveId(s, id) == s
  {
    if s != [] {
      RemoveAbsent(s[1..], id);
    }
  }
}
