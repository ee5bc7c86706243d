/** Nothing written is lost: how far a circuit still is from having delivered everything. */
module Delivery {
  import opened Wire
  import opened Cells
  import opened Layers
  import opened Relays
  import opened Channel
  import opened Fifo
  import Client

  /** A cell on link j still needs one turn from each of the relays j, ..., n-1. */
  function UpWork(up: seq<seq<Bytes>>, j: nat): nat
    requires j <= |up|
    decreases |up| - j
  {
    if j == |up| then 0 else (|up| - j) * |up[j]| + UpWork(up, j + 1)
  }

  /** A cell below relay j still needs one turn from each of the relays before it, and the client. */
  function DownWork(down: seq<seq<Bytes>>, j: nat): nat
    requires j <= |down|
    decreases |down| - j
  {
    if j == |down| then 0 else (j + 1) * |down[j]| + DownWork(down, j + 1)
  }

  function Backlog(c: Circuit): nat {
    UpWork(c.up, 0) + DownWork(c.down, 0)
  }

  lemma {:induction false} UpWorkSet(up: seq<seq<Bytes>>, j: nat, i: nat, queue: seq<Bytes>)
    requires j <= i < |up|
    ensures UpWork(up[i := queue], j) - UpWork(up, j) == (|up| - i) * |queue| - (|up| - i) * |up[i]|
    decreases |up| - j
  {
    if j < i {
      UpWorkSet(up, j + 1, i, queue);
    } else {
      UpWorkTail(up, up[i := queue], j + 1);
    }
  }

  lemma {:induction false} UpWorkTail(up: seq<seq<Bytes>>, up': seq<seq<Bytes>>, j: nat)
    requires |up| == |up'| && j <= |up| && forall k :: j <= k < |up| ==> up[k] == up'[k]
    ensures UpWork(up, j) == UpWork(up', j)
    decreases |up| - j
  {
    if j < |up| {
      UpWorkTail(up, up', j + 1);
    }
  }

  lemma {:induction false} DownWorkSet(down: seq<seq<Bytes>>, j: nat, i: nat, queue: seq<Bytes>)
    requires j <= i < |down|
    ensures DownWork(down[i := queue], j) - DownWork(down, j) == (i + 1) * |queue| - (i + 1) * |down[i]|
    decreases |down| - j
  {
    if j < i {
      DownWorkSet(down, j + 1, i, queue);
    } else {
      DownWorkTail(down, down[i := queue], j + 1);
    }
  }

  lemma {:induction false} DownWorkTail(down: seq<seq<Bytes>>, down': seq<seq<Bytes>>, j: nat)
    requires |down| == |down'| && j <= |down| && forall k :: j <= k < |down| ==> down[k] == down'[k]
    ensures DownWork(down, j) == DownWork(down', j)
    decreases |down| - j
  {
    if j < |down| {
      DownWorkTail(down, down', j + 1);
    }
  }

  lemma Times(w: nat, x: nat)
    ensures w * (x + 1) == w * x + w
  {
  }

  lemma UpPush(up: seq<seq<Bytes>>, i: nat, cell: Bytes)
    requires i < |up|
    ensures UpWork(up[i := up[i] + [cell]], 0) == UpWork(up, 0) + (|up| - i)
  {
    UpWorkSet(up, 0, i, up[i] + [cell]);
    Times(|up| - i, |up[i]|);
  }

  lemma UpPop(up: seq<seq<Bytes>>, i: nat)
    requires i < |up| && up[i] != []
    ensures UpWork(up[i := up[i][1..]], 0) == UpWork(up, 0) - (|up| - i)
  {
    UpWorkSet(up, 0, i, up[i][1..]);
    Times(|up| - i, |up[i]| - 1);
  }

  lemma DownPush(down: seq<seq<Bytes>>, i: nat, cell: Bytes)
    requires i < |down|
    ensures DownWork(down[i := down[i] + [cell]], 0) == DownWork(down, 0) + (i + 1)
  {
    DownWorkSet(down, 0, i, down[i] + [cell]);
    Times(i + 1, |down[i]|);
  }

  lemma DownPop(down: seq<seq<Bytes>>, i: nat)
    requires i < |down| && down[i] != []
    ensures DownWork(down[i := down[i][1..]], 0) == DownWork(down, 0) - (i + 1)
  {
    DownWorkSet(down, 0, i, down[i][1..]);
    Times(i + 1, |down[i]| - 1);
  }

  /** Sending adds one turn per hop and every other turn removes exactly one. */
  lemma TurnWork(a: Aead, json: Json, c0: Circuit, c: Circuit, d: seq<nat>, e: seq<nat>, s: Step)
    requires Ideal(a) && Inv(a, c0, c, d, e) && Enabled(c, s) && Clear(a, c, s)
    ensures Backlog(Apply(a, json, c, s))
            == Backlog(c) + (if s.Write? || s.Emit? then |c0.relays| else -1)
  {
    hide UpWork, DownWork, Link, Layer, AllClear, Advanced, AdvanceAll, ClearLayers, HandleCell,
         SendBackward, SealInbound, Client.Receive, Client.SendCommand, DataEnvelope, Ideal;
    match s {
      case Write(chunk) =>
        SendIs(a, c0.forward, |c.written|, chunk);
        UpPush(c.up, 0, Layer(a, c0.forward, |c.written|, 0, chunk));
      case Peel(i) =>
        PeelWork(a, json, c0, c, d, e, i);
      case Emit(chunk) =>
        var n := |c0.relays|;
        assert BackwardHop(a, c0.backward, c, e, n - 1);
        EmitIs(a, c.relays[n - 1], c0.backward, |c.emitted|, chunk);
        DownPush(c.down, n - 1, Layer(a, c0.backward, |c.emitted|, n - 1, chunk));
      case Pass(i) =>
        PassWork(a, json, c0, c, d, e, i);
      case Receive =>
        DownPop(c.down, 0);
    }
  }

  lemma PeelWork(a: Aead, json: Json, c0: Circuit, c: Circuit, d: seq<nat>, e: seq<nat>, i: nat)
    requires Ideal(a) && Inv(a, c0, c, d, e) && Enabled(c, Peel(i))
    ensures Backlog(Apply(a, json, c, Peel(i))) == Backlog(c) - 1
  {
    hide UpWork, DownWork, Link, Layer, ClearLayers, Advanced, AdvanceAll, HandleCell, DataEnvelope, Ideal;
    var base, n, k := c0.forward, |c0.relays|, d[i];
    assert ForwardHop(a, base, c, d, i) && RoleKept(n, c, i);
    LinkFront(a, base, c.written, c.up[i], k, i);
    PeelIs(a, json, c.relays[i], base, k, i, c.written[k]);
    UpPop(c.up, i);
    if i + 1 < n {
      UpPush(c.up[i := c.up[i][1..]], i + 1, Layer(a, base, k, i + 1, c.written[k]));
    }
  }

  lemma PassWork(a: Aead, json: Json, c0: Circuit, c: Circuit, d: seq<nat>, e: seq<nat>, i: nat)
    requires Ideal(a) && Inv(a, c0, c, d, e) && Enabled(c, Pass(i))
    ensures Backlog(Apply(a, json, c, Pass(i))) == Backlog(c) - 1
  {
    hide UpWork, DownWork, Link, Layer, ClearLayers, Advanced, AdvanceAll, SealInbound, DataEnvelope, Ideal;
    var base, n, k := c0.backward, |c0.relays|, e[i];
    assert BackwardHop(a, base, c, e, i) && BackwardHop(a, base, c, e, i + 1) && RoleKept(n, c, i);
    LinkFront(a, base, c.emitted, c.down[i + 1], k, i + 1);
    PassIs(a, c.relays[i], base, k, i, c.emitted[k]);
    DownPop(c.down, i + 1);
    DownPush(c.down[i + 1 := c.down[i + 1][1..]], i, Layer(a, base, k, i, c.emitted[k]));
  }

  predicate Sends(s: Step) {
    s.Write? || s.Emit?
  }

  /** Once nobody but the two ends could act, both ends have everything. */
  lemma QuietDelivered(a: Aead, c0: Circuit, c: Circuit, d: seq<nat>, e: seq<nat>)
    requires Inv(a, c0, c, d, e)
    requires forall s: Step :: !Sends(s) ==> !Enabled(c, s)
    ensures c.arrived == c.written && c.received == c.emitted && Backlog(c) == 0
  {
    hide Link, AllClear, Advanced, AdvanceAll, UpWork, DownWork, Queued;
    var n := |c0.relays|;
    forall i | 0 <= i < n
      ensures c.up[i] == [] && c.down[i] == []
    {
      assert !Enabled(c, Peel(i));
      if i == 0 {
        assert !Enabled(c, Receive);
      } else {
        assert !Enabled(c, Pass(i - 1));
      }
    }
    NothingQueued(c.up, n);
    NothingQueued(c.down, n);
    QueuedUp(a, c0, c, d, e, n - 1);
    QueuedDown(a, c0, c, d, e, n - 1);
    NoWork(c.up, c.down, 0);
  }

  lemma {:induction false} NothingQueued(links: seq<seq<Bytes>>, i: nat)
    requires i <= |links| && forall k :: 0 <= k < |links| ==> links[k] == []
    ensures Queued(links, i) == 0
  {
    if i > 0 {
      NothingQueued(links, i - 1);
    }
  }

  lemma {:induction false} NoWork(up: seq<seq<Bytes>>, down: seq<seq<Bytes>>, j: nat)
    requires |up| == |down| && j <= |up|
    requires forall k :: 0 <= k < |up| ==> up[k] == [] && down[k] == []
    ensures UpWork(up, j) == 0 && DownWork(down, j) == 0
    decreases |up| - j
  {
    if j < |up| {
      NoWork(up, down, j + 1);
    }
  }

  /**
   * However the relays and the read pump are scheduled after a run, the circuit falls
   * quiet after exactly Backlog turns, and then all bytes sent have arrived, both ways.
   */
  lemma EverythingArrives(a: Aead, json: Json, c0: Circuit, steps: seq<Step>, rest: seq<Step>)
    requires Ideal(a) && Ready(c0) && Runnable(a, json, c0, steps)
    requires Runnable(a, json, After(a, json, c0, steps), rest) && forall s <- rest :: !Sends(s)
    ensures var c := After(a, json, c0, steps); var c' := After(a, json, c, rest);
      && Backlog(c') + |rest| == Backlog(c)
      && (Backlog(c') == 0 ==> Flatten(c'.arrived) == Flatten(c.written) && Flatten(c'.received) == Flatten(c.emitted))
      && (Backlog(c') > 0 ==> exists s: Step :: !Sends(s) && Enabled(c', s))
  {
    hide Runnable, After, Backlog, Enabled, Ideal, Ready, Flatten, Apply;
    var c := After(a, json, c0, steps);
    var d, e := Initially(a, c0);
    d, e := RunKeeps(a, json, c0, c0, d, e, steps);
    d, e := Drains(a, json, c0, c, d, e, rest);
    var c' := After(a, json, c, rest);
    if Backlog(c') == 0 {
      Empty(a, json, c0, c', d, e);
    } else if forall s: Step :: !Sends(s) ==> !Enabled(c', s) {
      QuietDelivered(a, c0, c', d, e);
    }
  }

  lemma {:induction false} Drains(a: Aead, json: Json, c0: Circuit, c: Circuit, d: seq<nat>, e: seq<nat>, rest: seq<Step>)
    returns (d': seq<nat>, e': seq<nat>)
    requires Ideal(a) && Inv(a, c0, c, d, e) && Runnable(a, json, c, rest)
    requires forall s <- rest :: !Sends(s)
    ensures Inv(a, c0, After(a, json, c, rest), d', e')
    ensures Backlog(After(a, json, c, rest)) + |rest| == Backlog(c)
    ensures After(a, json, c, rest).written == c.written && After(a, json, c, rest).emitted == c.emitted
    decreases |rest|
  {
    hide Inv, Apply, Enabled, Clear, Backlog;
    d', e' := d, e;
    if rest != [] {
      assert rest[0] in rest;
      QuietHistories(a, json, c, rest[0]);
      d', e' := StepKeeps(a, json, c0, c, d, e, rest[0]);
      TurnWork(a, json, c0, c, d, e, rest[0]);
      d', e' := Drains(a, json, c0, Apply(a, json, c, rest[0]), d', e', rest[1..]);
    }
  }

  lemma QuietHistories(a: Aead, json: Json, c: Circuit, s: Step)
    requires Enabled(c, s) && !Sends(s)
    ensures Apply(a, json, c, s).written == c.written && Apply(a, json, c, s).emitted == c.emitted
  {
    hide HandleCell, SealInbound, Client.Receive;
  }

  /** No backlog means no relay or read-pump turn is possible. */
  lemma Empty(a: Aead, json: Json, c0: Circuit, c: Circuit, d: seq<nat>, e: seq<nat>)
    requires Ideal(a) && Inv(a, c0, c, d, e) && Backlog(c) == 0
    ensures c.arrived == c.written && c.received == c.emitted
  {
    hide Inv, Apply, Backlog, Enabled;
    forall s: Step | !Sends(s)
      ensures !Enabled(c, s)
    {
      if Enabled(c, s) {
        TurnWork(a, json, c0, c, d, e, s);
      }
    }
    QuietDelivered(a, c0, c, d, e);
  }

  // --------------------------------------------- recognition by magic alone

  /** One cell handed from relay to relay until somebody delivers it or it is lost. */
  function Traverse(a: Aead, json: Json, relays: seq<RelayState>, i: nat, payload: Bytes): Option<Bytes>
    requires i < |relays|
    decreases |relays| - i
  {
    match HandleCell(a, json, relays[i], payload).1
    case Forwarded(next) => if i + 1 < |relays| then Traverse(a, json, relays, i + 1, next) else None
    case Delivered(body) => Some(body)
    case _ => None
  }

  ghost predicate ClearFrom(a: Aead, lanes: seq<Lane>, i: nat, p: Bytes) {
    forall j {:trigger Onion(a, lanes, j, p)} :: i < j < |lanes| ==> !StartsWithMagic(Onion(a, lanes, j, p))
  }

  lemma RoleAt(c: Circuit, i: nat)
    requires Ready(c) && i < |c.relays|
    ensures |c.forward| == |c.relays| <= MAX_RELAY_LAYERS
    ensures c.relays[i].forward == c.forward[i] && c.relays[i].target == (i + 1 == |c.forward|) && c.relays[i].outbound == (i + 1 < |c.forward|)
  {
  }

  lemma PassedOn(a: Aead, json: Json, r: RelayState, payload: Bytes, inner: Bytes)
    requires a.open(r.forward.key, r.forward.counter, payload) == Some(inner)
    requires !StartsWithMagic(inner) && r.outbound && Fits(inner)
    ensures HandleCell(a, json, r, payload).1 == Forwarded(inner)
  {
  }

  lemma Handed(a: Aead, json: Json, r: RelayState, payload: Bytes, chunk: Bytes)
    requires r.target && a.open(r.forward.key, r.forward.counter, payload).Some?
    requires DecodeEnvelope(a.open(r.forward.key, r.forward.counter, payload).value) == Command(CMD_DATA, chunk)
    ensures HandleCell(a, json, r, payload).1 == Delivered(chunk)
  {
  }

  lemma {:induction false} TraverseFrom(a: Aead, json: Json, c: Circuit, i: nat, chunk: Bytes)
    requires Ideal(a) && Ready(c) && |chunk| <= MAX_RELAY_DATA_PAYLOAD && i < |c.relays|
    ensures Traverse(a, json, c.relays, i, Onion(a, c.forward, i, DataEnvelope(chunk)))
            == if ClearFrom(a, c.forward, i, DataEnvelope(chunk)) then Some(chunk) else None
    decreases |c.relays| - i
  {
    hide EncodeEnvelope, HandleCell, DecodeEnvelope, Ready, Shape;
    var lanes, p := c.forward, DataEnvelope(chunk);
    var r := c.relays[i];
    RoleAt(c, i);
    var inner := Onion(a, lanes, i + 1, p);
    assert a.open(r.forward.key, r.forward.counter, Onion(a, lanes, i, p)) == Some(inner);
    if i + 1 == |lanes| {
      EnvelopeRoundTrip(CMD_DATA, chunk);
      Handed(a, json, r, Onion(a, lanes, i, p), chunk);
    } else if StartsWithMagic(inner) {
      NoForward(a, json, r, Onion(a, lanes, i, p), inner);
    } else {
      OnionLength(a, lanes, i + 1, p);
      PassedOn(a, json, r, Onion(a, lanes, i, p), inner);
      TraverseFrom(a, json, c, i + 1, chunk);
    }
  }

  lemma NoForward(a: Aead, json: Json, r: RelayState, payload: Bytes, inner: Bytes)
    requires a.open(r.forward.key, r.forward.counter, payload) == Some(inner)
    requires StartsWithMagic(inner) && !r.target
    ensures var e := HandleCell(a, json, r, payload).1; !e.Forwarded? && !e.Delivered?
  {
  }

  /**
   * Relays know their own cells by four magic bytes only. A data cell reaches the target
   * exactly when no inner layer happens to start with them; the sender can tell beforehand.
   */
  lemma DeliveredIffClear(a: Aead, json: Json, c: Circuit, chunk: Bytes)
    requires Ideal(a) && Ready(c) && |chunk| <= MAX_RELAY_DATA_PAYLOAD
    ensures Traverse(a, json, c.relays, 0, Onion(a, c.forward, 0, DataEnvelope(chunk)))
            == if ClearLayers(a, c.forward, DataEnvelope(chunk)) then Some(chunk) else None
  {
    TraverseFrom(a, json, c, 0, chunk);
  }

  // ------------------------------------------------------------ client writes

  function WriteSteps(chunks: seq<Bytes>): seq<Step> {
    seq(|chunks|, k requires 0 <= k < |chunks| => Write(chunks[k]))
  }

  /** The client's write loop is the run that writes its chunks in turn. */
  lemma {:induction false} WriteIsRun(a: Aead, json: Json, c: Circuit, p: Bytes)
    requires Ideal(a) && Shape(c, |c.relays|) && Runnable(a, json, c, WriteSteps(Client.Chunks(p)))
    ensures var w := Client.WriteAll(a, c.forward, p); var c' := After(a, json, c, WriteSteps(Client.Chunks(p)));
      && c'.forward == w.lanes && |c'.up| == |c.up| && c'.up[0] == c.up[0] + w.cells
      && Flatten(c'.written) == Flatten(c.written) + p
    decreases |p|
  {
    hide Ideal, Client.SendCommand, Clear, Apply, Enabled, Flatten, Shape, WriteSteps, Client.Chunks;
    WriteStepsAre(p);
    if p != [] {
      var n := Client.ChunkSize(p);
      var steps := WriteSteps(Client.Chunks(p));
      WriteStepIs(a, json, c, p[..n]);
      WriteIsRun(a, json, Apply(a, json, c, steps[0]), p[n..]);
      FlattenAppend(c.written, p[..n]);
      assert p == p[..n] + p[n..];
    }
  }

  lemma WriteStepsAre(p: Bytes)
    ensures WriteSteps(Client.Chunks(p)) == if p == [] then []
            else [Write(p[..Client.ChunkSize(p)])] + WriteSteps(Client.Chunks(p[Client.ChunkSize(p)..]))
  {
  }

  lemma WriteStepIs(a: Aead, json: Json, c: Circuit, chunk: Bytes)
    requires Ideal(a) && Shape(c, |c.relays|) && Enabled(c, Write(chunk))
    ensures var c' := Apply(a, json, c, Write(chunk)); var (lanes, cell) := Client.SendCommand(a, c.forward, CMD_DATA, chunk);
      && cell.Some? && c'.forward == lanes && |c'.up| == |c.up| && c'.up[0] == c.up[0] + [cell.value]
      && c'.written == c.written + [chunk] && Shape(c', |c'.relays|)
  {
    hide Client.SendCommand, Ideal;
    Client.SendFits(a, c.forward, CMD_DATA, chunk);
  }
}
