/** Every bucket lists its peers by how lately they answered or were used. */
module Recency {
  import opened Ordering
  import opened Slots
  import opened Routing
  import opened RoutingInv
  import opened RoutingRuns
  import opened Diaries

  /** An answer or a use of the peer; a use does not move a peer on self's own point. */
  ghost predicate Touches(space: Space, self: string, op: Op, id: string) {
    Tells(op, Answer, id) || (Tells(op, Usage, id) && 0 <= IdIndex(space, self, id) < BUCKETS)
  }

  /** The place of the last operation that touched the peer; -1 if none did. */
  ghost function LastTouch(space: Space, self: string, ops: seq<Op>, id: string): int {
    if ops == [] then -1
    else if Touches(space, self, ops[|ops| - 1], id) then |ops| - 1
    else LastTouch(space, self, ops[..|ops| - 1], id)
  }

  ghost predicate Falling(space: Space, self: string, ops: seq<Op>, s: seq<string>) {
    forall j, k :: 0 <= j < k < |s| ==> LastTouch(space, self, ops, s[j]) > LastTouch(space, self, ops, s[k])
  }

  ghost predicate LatestFirst(space: Space, t: Table, ops: seq<Op>) {
    forall i :: 0 <= i < |t.buckets| ==> Falling(space, t.selfId, ops, t.buckets[i])
  }

  lemma {:induction false} TouchedBefore(space: Space, self: string, ops: seq<Op>, id: string)
    ensures -1 <= LastTouch(space, self, ops, id) < |ops|
  {
    if ops != [] {
      TouchedBefore(space, self, ops[..|ops| - 1], id);
    }
  }

  lemma {:induction false} RemoveFalling(space: Space, self: string, ops: seq<Op>, s: seq<string>, id: string)
    requires Falling(space, self, ops, s)
    ensures Falling(space, self, ops, RemoveId(s, id))
    ensures forall x <- RemoveId(s, id) :: x in s
  {
    hide LastTouch;
    if s != [] && s[0] != id {
      RemoveFalling(space, self, ops, s[1..], id);
      var r := RemoveId(s[1..], id);
      assert RemoveId(s, id) == [s[0]] + r;
      forall k | 0 <= k < |r|
        ensures LastTouch(space, self, ops, s[0]) > LastTouch(space, self, ops, r[k])
      {
        assert r[k] in s[1..];
        var i :| 0 <= i < |s[1..]| && s[1..][i] == r[k];
        assert s[i + 1] == r[k];
      }
    }
  }

  /** An operation that touches none of them leaves the order right. */
  lemma FallingOn(space: Space, self: string, ops: seq<Op>, op: Op, s: seq<string>)
    requires Falling(space, self, ops, s) && forall x <- s :: !Touches(space, self, op, x)
    ensures Falling(space, self, ops + [op], s)
  {
    hide Touches;
    forall x <- s
      ensures LastTouch(space, self, ops + [op], x) == LastTouch(space, self, ops, x)
    {
      assert (ops + [op])[..|ops|] == ops;
    }
  }

  /** One that touches a peer puts it in front. */
  lemma FallingFront(space: Space, self: string, ops: seq<Op>, op: Op, s: seq<string>, id: string)
    requires Falling(space, self, ops, s) && NoRepeats(s) && Touches(space, self, op, id)
    requires forall x <- s :: x != id ==> !Touches(space, self, op, x)
    ensures Falling(space, self, ops + [op], [id] + RemoveId(s, id))
  {
    hide Touches;
    RemoveFalling(space, self, ops, s, id);
    RemoveIdIs(s, id);
    var rest := RemoveId(s, id);
    FallingOn(space, self, ops, op, rest);
    assert (ops + [op])[..|ops|] == ops;
    forall x <- rest
      ensures LastTouch(space, self, ops + [op], x) < |ops|
    {
      TouchedBefore(space, self, ops, x);
    }
  }

  /** What an operation does to the buckets: one peer to the front of its bucket, one out of all, or nothing. */
  lemma BucketsAfter(space: Space, t: Table, op: Op)
    requires Inv(space, t) && Allowed(space, t, op) && Lists(t)
    ensures var ix := Step(space, t, op).buckets;
      match op
      case Add(node, _) => ix == if Usable(t, node) then InsertFront(t.buckets, node.id, IdIndex(space, t.selfId, node.id)) else t.buckets
      case Filing(node, _) => ix == InsertFront(t.buckets, node.id, IdIndex(space, t.selfId, node.id))
      case Liveness(id, _, _) => ix == t.buckets || ix == RemoveAll(t.buckets, id)
      case Use(id, _, _) => ix == if id in t.peers then MoveToFront(t.buckets, id, IdIndex(space, t.selfId, id)) else t.buckets
      case _ => ix == t.buckets
  {
    hide Inv, RemoveAll, InsertFront, Append, Ids, In, IdIndex, NameIndex, Renames, MoveToFront, InsertNames, Slot, OffSelf, LongestWaiting,
         Promoted, Used, Alive, Missed, Offlined;
  }

  lemma InsertedFirst(space: Space, t: Table, ops: seq<Op>, op: Op, id: string)
    requires Inv(space, t) && Lists(t) && LatestFirst(space, t, ops) && Touches(space, t.selfId, op, id)
    requires forall x :: x != id ==> !Touches(space, t.selfId, op, x)
    ensures forall i :: 0 <= i < BUCKETS ==>
      Falling(space, t.selfId, ops + [op], InsertFront(t.buckets, id, IdIndex(space, t.selfId, id))[i])
  {
    hide Touches, Falling, IdIndex;
    var c := Clamp(IdIndex(space, t.selfId, id));
    forall i | 0 <= i < BUCKETS
      ensures Falling(space, t.selfId, ops + [op], InsertFront(t.buckets, id, IdIndex(space, t.selfId, id))[i])
    {
      BucketPlaced(space, t, i, id);
      if i == c {
        FallingFront(space, t.selfId, ops, op, t.buckets[i], id);
      } else {
        FallingOn(space, t.selfId, ops, op, t.buckets[i]);
      }
    }
  }

  lemma BucketPlaced(space: Space, t: Table, i: int, id: string)
    requires Inv(space, t) && Lists(t) && 0 <= i < BUCKETS
    ensures NoRepeats(t.buckets[i])
    ensures id in t.buckets[i] ==> i == Clamp(IdIndex(space, t.selfId, id))
  {
    hide IdIndex, NameSlots, Partition, PeersOk;
    assert id in t.buckets[i] ==> IdSlots(space, t.selfId)(id) == i;
  }

  /** Whether the operation moves a peer to the front, and which. */
  ghost predicate Moves(space: Space, t: Table, op: Op, id: string)
    requires Lists(t)
  {
    match op
    case Add(node, _) => id == node.id && Usable(t, node)
    case Filing(node, _) => id == node.id && Usable(t, node)
    case Use(x, _, _) => id == x && id in t.peers && 0 <= IdIndex(space, t.selfId, id) < BUCKETS && id in t.buckets[IdIndex(space, t.selfId, id)]
    case _ => false
  }

  /** Unless it moves a peer, it touches none that is listed. */
  lemma NotTouched(space: Space, t: Table, op: Op, i: int, x: string)
    requires Inv(space, t) && Lists(t) && 0 <= i < BUCKETS && x in t.buckets[i] && !Moves(space, t, op, x)
    ensures !Touches(space, t.selfId, op, x)
  {
    hide Inv, IdIndex;
    BucketPlaced(space, t, i, x);
    assert x in Active(t);
    ActiveKnown(space, t);
    KnownIds(space, t, x);
  }

  lemma StillFalling(space: Space, t: Table, ops: seq<Op>, op: Op, i: int)
    requires Inv(space, t) && Lists(t) && LatestFirst(space, t, ops) && 0 <= i < BUCKETS && forall x :: !Moves(space, t, op, x)
    ensures Falling(space, t.selfId, ops + [op], t.buckets[i])
    ensures op.Liveness? ==> Falling(space, t.selfId, ops + [op], RemoveId(t.buckets[i], op.id))
  {
    hide Inv, Moves, Falling, Touches, LastTouch;
    forall x <- t.buckets[i]
      ensures !Touches(space, t.selfId, op, x)
    {
      NotTouched(space, t, op, i, x);
    }
    FallingOn(space, t.selfId, ops, op, t.buckets[i]);
    if op.Liveness? {
      RemoveFalling(space, t.selfId, ops + [op], t.buckets[i], op.id);
    }
  }

  lemma MovesTouch(space: Space, t: Table, op: Op, id: string)
    requires Inv(space, t) && Allowed(space, t, op) && Lists(t) && Moves(space, t, op, id)
    ensures Touches(space, t.selfId, op, id) && forall x :: x != id ==> !Touches(space, t.selfId, op, x)
    ensures Step(space, t, op).buckets == InsertFront(t.buckets, id, IdIndex(space, t.selfId, id))
  {
    hide Inv, Step, IdIndex, InsertFront;
    BucketsAfter(space, t, op);
  }

  lemma StaysPut(space: Space, t: Table, op: Op)
    requires Inv(space, t) && Allowed(space, t, op) && Lists(t) && forall x :: !Moves(space, t, op, x)
    ensures var ix := Step(space, t, op).buckets; ix == t.buckets || (op.Liveness? && ix == RemoveAll(t.buckets, op.id))
  {
    hide Inv, Step, IdIndex, InsertFront;
    BucketsAfter(space, t, op);
    assert op.Add? || op.Filing? ==> !Moves(space, t, op, op.node.id);
    assert op.Use? ==> !Moves(space, t, op, op.id);
  }

  lemma LatestFirstStep(space: Space, t: Table, ops: seq<Op>, op: Op)
    requires Inv(space, t) && Allowed(space, t, op) && Lists(t) && LatestFirst(space, t, ops)
    ensures LatestFirst(space, Step(space, t, op), ops + [op])
  {
    hide Inv, Step, Allowed, Falling, IdIndex, InsertFront, Touches, Moves;
    SameSelf(space, t, op);
    if x :| Moves(space, t, op, x) {
      MovesTouch(space, t, op, x);
      InsertedFirst(space, t, ops, op, x);
      StepKeeps(space, t, op);
      InvLength(space, Step(space, t, op));
    } else {
      StaysPut(space, t, op);
      forall i | 0 <= i < BUCKETS
        ensures Falling(space, t.selfId, ops + [op], t.buckets[i])
        ensures op.Liveness? ==> Falling(space, t.selfId, ops + [op], RemoveAll(t.buckets, op.id)[i])
      {
        StillFalling(space, t, ops, op, i);
      }
    }
  }

  lemma {:induction false} LatestFirstOn(space: Space, t: Table, done: seq<Op>, ops: seq<Op>)
    requires Inv(space, t) && Runs(space, t, ops) && LatestFirst(space, t, done)
    ensures LatestFirst(space, Run(space, t, ops), done + ops)
    decreases |ops|
  {
    hide Inv, Step, Allowed, LatestFirst;
    if ops == [] {
      assert done + ops == done;
    } else {
      StepKeeps(space, t, ops[0]);
      LatestFirstStep(space, t, done, ops[0]);
      LatestFirstOn(space, Step(space, t, ops[0]), done + [ops[0]], ops[1..]);
      assert done + [ops[0]] + ops[1..] == done + ops;
    }
  }

  lemma ListedSomewhere(ix: Index, i: int)
    requires 0 <= i < |ix|
    ensures ix[i] != [] ==> Ids(ix) != {}
  {
    if ix[i] != [] {
      assert ix[i][0] in ix[i] && ix[i][0] in Ids(ix);
    }
  }

  /** After any run from a table without active peers, whoever answered or was used later is listed first. */
  lemma BucketsByRecency(space: Space, t: Table, ops: seq<Op>)
    requires Inv(space, t) && Active(t) == {} && Runs(space, t, ops)
    ensures LatestFirst(space, Run(space, t, ops), ops)
  {
    hide Inv, Step, Allowed;
    forall i | 0 <= i < |t.buckets|
      ensures t.buckets[i] == []
    {
      ListedSomewhere(t.buckets, i);
    }
    LatestFirstOn(space, t, [], ops);
    assert [] + ops == ops;
  }
}
