/** What nearest means: agreement with the target from the highest bit down. */
module Distances {
  import opened Ordering
  import opened Routing
  import opened Closest
  import opened Coordinates

  /** Of x and y, which differ, x is nearer: at the highest bit where they differ it is x that agrees with the target. */
  ghost predicate Closer(x: nat, y: nat, target: nat)
    decreases x + y
  {
    if x == y then false
    else if x / 2 == y / 2 then x % 2 == target % 2
    else Closer(x / 2, y / 2, target / 2)
  }

  lemma XorLast(x: nat, y: nat)
    ensures Xor(x, y) == 2 * Xor(x / 2, y / 2) + (x + y) % 2
  {
  }

  lemma XorApart(x: nat, y: nat, target: nat)
    requires x != y
    ensures Xor(x, target) != Xor(y, target)
  {
    XorCancels(target, x);
    XorCancels(target, y);
    XorSwaps(x, target);
    XorSwaps(y, target);
  }

  lemma {:induction false} XorSwaps(x: nat, y: nat)
    ensures Xor(x, y) == Xor(y, x)
    decreases x + y
  {
    if x != 0 || y != 0 {
      XorSwaps(x / 2, y / 2);
    }
  }

  /** The XOR distance orders points just so. */
  lemma {:induction false} XorCloser(x: nat, y: nat, target: nat)
    ensures Xor(x, target) < Xor(y, target) <==> Closer(x, y, target)
    decreases x + y
  {
    XorLast(x, target);
    XorLast(y, target);
    if x != y {
      if x / 2 == y / 2 {
        LastBits(x, y, target);
      } else {
        XorCloser(x / 2, y / 2, target / 2);
        XorApart(x / 2, y / 2, target / 2);
      }
    }
  }

  lemma LastBits(x: nat, y: nat, target: nat)
    requires x != y && x / 2 == y / 2
    ensures (x + target) % 2 < (y + target) % 2 <==> x % 2 == target % 2
  {
    SumParity(x, target);
    SumParity(y, target);
    assert x == 2 * (x / 2) + x % 2 && y == 2 * (y / 2) + y % 2;
  }

  lemma SumParity(x: nat, y: nat)
    ensures (x + y) % 2 == if x % 2 == y % 2 then 0 else 1
  {
    assert x + y == 2 * (x / 2 + y / 2) + (x % 2 + y % 2);
  }

  /** Where a node stands: at its ID, or at its name's hash. */
  ghost function Place(space: Space, byName: bool, node: NodeInfo): nat {
    Coordinate(space.sha, if !byName then node.id else if node.nameHash == "" then space.hashName(node.name) else node.nameHash)
  }

  /** a is nearer to the target than b, or in the same place under an earlier ID. */
  ghost predicate Nearer(space: Space, target: string, byName: bool, a: NodeInfo, b: NodeInfo) {
    var x, y := Place(space, byName, a), Place(space, byName, b);
    Closer(x, y, Coordinate(space.sha, target)) || (x == y && Precedes(a.id, b.id))
  }

  lemma BeforeIs(space: Space, target: string, byName: bool, a: NodeInfo, b: NodeInfo)
    requires a.id != b.id
    ensures Before(space, target, byName, a, b) <==> Nearer(space, target, byName, a, b)
  {
    hide StringLe, Precedes, Xor, Coordinate, Closer;
    var x, y, goal := Place(space, byName, a), Place(space, byName, b), Coordinate(space.sha, target);
    XorCloser(x, y, goal);
    StringLeIs(a.id, b.id);
    if x != y {
      XorApart(x, y, goal);
    } else {
      XorCloser(x, x, goal);
    }
  }

  /** The nearest, in those terms: nearer ones come first, and nobody left out is nearer than anybody chosen. */
  lemma NearestMeans(space: Space, target: string, byName: bool, r: seq<NodeInfo>, count: int, ids: set<string>, known: map<string, NodeInfo>)
    requires NearestOf(space, target, byName, r, count, ids, known) && OwnIds(known)
    ensures |r| == (if count <= 0 then 0 else if count < |ids| then count else |ids|)
    ensures forall i, j :: 0 <= i < j < |r| ==> Nearer(space, target, byName, r[i], r[j])
    ensures forall id, k :: id in ids && id in known && 0 <= k < |r| && (forall n <- r :: n.id != id) ==>
      Nearer(space, target, byName, r[k], known[id])
  {
    hide Before, Nearer;
    forall i, j | 0 <= i < j < |r|
      ensures Nearer(space, target, byName, r[i], r[j])
    {
      BeforeIs(space, target, byName, r[i], r[j]);
      assert Nearest(space, target, byName)(r[i], r[j]);
    }
    forall id, k | id in ids && id in known && 0 <= k < |r| && (forall n <- r :: n.id != id)
      ensures Nearer(space, target, byName, r[k], known[id])
    {
      assert r[k] in r;
      BeforeIs(space, target, byName, r[k], known[id]);
      assert Farther(space, target, byName, r, known[id]);
    }
  }
}
