/** Per-hop keys and counters, and the nested layers of encryption they produce. */
module Layers {
  import opened Wire
  import opened Cells

  const COUNTER_RANGE := 0x1_0000_0000_0000_0000

  /** A uint64 message counter; it is the nonce of the message. */
  type Counter = c: int | 0 <= c < 0x1_0000_0000_0000_0000

  type Key = Bytes

  datatype Aead = Aead(
    seal: (Key, Counter, Bytes) -> Bytes,
    open: (Key, Counter, Bytes) -> Option<Bytes>)

  /** What AES-GCM gives honest peers: opening undoes sealing, and the tag costs 16 bytes. */
  ghost predicate Ideal(a: Aead) {
    && (forall k, n, p :: a.open(k, n, a.seal(k, n, p)) == Some(p))
    && (forall k, n, p :: |a.seal(k, n, p)| == |p| + RELAY_TAG_SIZE)
  }

  /** A cipher that rejects a message sealed under another counter. */
  ghost predicate Binding(a: Aead) {
    forall k, n, m, p :: n != m ==> a.open(k, n, a.seal(k, m, p)) == None
  }

  function NextCounter(c: Counter): Counter {
    if c == COUNTER_RANGE - 1 then 0 else c + 1
  }

  /** The counter k messages later, wrapping like uint64. */
  function Ahead(c: Counter, k: nat): Counter {
    (c + k) % COUNTER_RANGE
  }

  lemma AheadStep(c: Counter, k: nat)
    ensures Ahead(c, 0) == c
    ensures NextCounter(Ahead(c, k)) == Ahead(c, k + 1)
  {
  }

  /** One direction of one hop. */
  datatype Lane = Lane(key: Key, counter: Counter)

  function Stepped(l: Lane): Lane {
    l.(counter := NextCounter(l.counter))
  }

  function Advanced(l: Lane, k: nat): (r: Lane)
    ensures k == 0 ==> r == l
  {
    l.(counter := Ahead(l.counter, k))
  }

  lemma AdvancedStep(l: Lane, k: nat)
    ensures Stepped(Advanced(l, k)) == Advanced(l, k + 1)
  {
    AheadStep(l.counter, k);
  }

  lemma AdvancedTwice(l: Lane, j: nat, k: nat)
    ensures Advanced(Advanced(l, j), k) == Advanced(l, j + k)
  {
    ModSum(l.counter + j, k);
  }

  lemma ModSum(x: nat, k: nat)
    ensures (x % COUNTER_RANGE + k) % COUNTER_RANGE == (x + k) % COUNTER_RANGE
  {
    var q, m := x / COUNTER_RANGE, (x % COUNTER_RANGE + k) / COUNTER_RANGE;
    assert x + k == (q + m) * COUNTER_RANGE + (x % COUNTER_RANGE + k) % COUNTER_RANGE;
  }

  function AdvanceAll(lanes: seq<Lane>, k: nat): (r: seq<Lane>)
    ensures |r| == |lanes|
    ensures forall i :: 0 <= i < |r| ==> r[i] == Advanced(lanes[i], k)
    ensures k == 0 ==> r == lanes
  {
    seq(|lanes|, i requires 0 <= i < |lanes| => Advanced(lanes[i], k))
  }

  function StepAll(lanes: seq<Lane>): (r: seq<Lane>)
    ensures |r| == |lanes|
    ensures forall i :: 0 <= i < |r| ==> r[i] == Stepped(lanes[i])
  {
    seq(|lanes|, i requires 0 <= i < |lanes| => Stepped(lanes[i]))
  }

  lemma AdvanceAllStep(lanes: seq<Lane>, k: nat)
    ensures StepAll(AdvanceAll(lanes, k)) == AdvanceAll(lanes, k + 1)
  {
    forall i | 0 <= i < |lanes|
      ensures Stepped(Advanced(lanes[i], k)) == Advanced(lanes[i], k + 1)
    {
      AdvancedStep(lanes[i], k);
    }
  }

  /** p sealed for the hops i, i+1, ..., innermost layer for the last hop. */
  function Onion(a: Aead, lanes: seq<Lane>, i: nat, p: Bytes): Bytes
    requires i <= |lanes|
    decreases |lanes| - i
  {
    if i == |lanes| then p
    else a.seal(lanes[i].key, lanes[i].counter, Onion(a, lanes, i + 1, p))
  }

  lemma {:induction false} OnionLength(a: Aead, lanes: seq<Lane>, i: nat, p: Bytes)
    requires Ideal(a) && i <= |lanes|
    ensures |Onion(a, lanes, i, p)| == |p| + RELAY_TAG_SIZE * (|lanes| - i)
    decreases |lanes| - i
  {
    if i < |lanes| {
      OnionLength(a, lanes, i + 1, p);
    }
  }

  /** Opens layer i, i+1, ... in turn; counters move only for the layers that opened. */
  function OpenAll(a: Aead, lanes: seq<Lane>, i: nat, payload: Bytes): (r: (seq<Lane>, Option<Bytes>))
    requires i <= |lanes|
    ensures |r.0| == |lanes|
    decreases |lanes| - i
  {
    if i == |lanes| then (lanes, Some(payload))
    else
      match a.open(lanes[i].key, lanes[i].counter, payload)
      case None => (lanes, None)
      case Some(inner) => OpenAll(a, lanes[i := Stepped(lanes[i])], i + 1, inner)
  }

  /** Layers only depend on the hops from i on. */
  lemma {:induction false} OnionTail(a: Aead, lanes: seq<Lane>, lanes': seq<Lane>, i: nat, p: Bytes)
    requires |lanes| == |lanes'| && i <= |lanes|
    requires forall j :: i <= j < |lanes| ==> lanes[j] == lanes'[j]
    ensures Onion(a, lanes, i, p) == Onion(a, lanes', i, p)
    decreases |lanes| - i
  {
    if i < |lanes| {
      OnionTail(a, lanes, lanes', i + 1, p);
    }
  }

  /** Opening in hop order undoes sealing in reverse hop order and moves every counter by one. */
  lemma {:induction false} OpenAllOnion(a: Aead, lanes: seq<Lane>, i: nat, p: Bytes)
    requires Ideal(a) && i <= |lanes|
    ensures OpenAll(a, lanes, i, Onion(a, lanes, i, p)).1 == Some(p)
    ensures OpenAll(a, lanes, i, Onion(a, lanes, i, p)).0 == lanes[..i] + StepAll(lanes)[i..]
    decreases |lanes| - i
  {
    if i < |lanes| {
      var next := lanes[i := Stepped(lanes[i])];
      OnionTail(a, lanes, next, i + 1, p);
      OpenAllOnion(a, next, i + 1, p);
      assert next[..i + 1] + StepAll(next)[i + 1..] == lanes[..i] + StepAll(lanes)[i..];
    }
  }

  /** No layer an intermediate relay uncovers could be taken for a command to that relay. */
  predicate ClearLayers(a: Aead, lanes: seq<Lane>, p: Bytes) {
    forall i :: 1 <= i < |lanes| ==> !StartsWithMagic(Onion(a, lanes, i, p))
  }

  /** The key state one end of a hop keeps; sealing and opening move its counters in place. */
  class CircuitKeys {
    const aead: Aead
    const forwardKey: Key
    const backwardKey: Key
    var forwardCounter: Counter
    var backwardCounter: Counter

    constructor (aead: Aead, forwardKey: Key, backwardKey: Key)
      ensures this.aead == aead
      ensures Forward() == Lane(forwardKey, 0)
      ensures Backward() == Lane(backwardKey, 0)
    {
      this.aead := aead;
      this.forwardKey := forwardKey;
      this.backwardKey := backwardKey;
      forwardCounter := 0;
      backwardCounter := 0;
    }

    function Forward(): Lane
      reads this
    {
      Lane(forwardKey, forwardCounter)
    }

    function Backward(): Lane
      reads this
    {
      Lane(backwardKey, backwardCounter)
    }

    method SealForward(payload: Bytes) returns (sealed: Bytes)
      modifies this
      ensures sealed == aead.seal(forwardKey, old(forwardCounter), payload)
      ensures Forward() == Stepped(old(Forward())) && Backward() == old(Backward())
    {
      sealed := aead.seal(forwardKey, forwardCounter, payload);
      forwardCounter := NextCounter(forwardCounter);
    }

    method OpenForward(payload: Bytes) returns (plain: Option<Bytes>)
      modifies this
      ensures plain == aead.open(forwardKey, old(forwardCounter), payload)
      ensures Forward() == if plain.Some? then Stepped(old(Forward())) else old(Forward())
      ensures Backward() == old(Backward())
    {
      plain := aead.open(forwardKey, forwardCounter, payload);
      if plain.Some? {
        forwardCounter := NextCounter(forwardCounter);
      }
    }

    method SealBackward(payload: Bytes) returns (sealed: Bytes)
      modifies this
      ensures sealed == aead.seal(backwardKey, old(backwardCounter), payload)
      ensures Backward() == Stepped(old(Backward())) && Forward() == old(Forward())
    {
      sealed := aead.seal(backwardKey, backwardCounter, payload);
      backwardCounter := NextCounter(backwardCounter);
    }

    method OpenBackward(payload: Bytes) returns (plain: Option<Bytes>)
      modifies this
      ensures plain == aead.open(backwardKey, old(backwardCounter), payload)
      ensures Backward() == if plain.Some? then Stepped(old(Backward())) else old(Backward())
      ensures Forward() == old(Forward())
    {
      plain := aead.open(backwardKey, backwardCounter, payload);
      if plain.Some? {
        backwardCounter := NextCounter(backwardCounter);
      }
    }
  }
}
