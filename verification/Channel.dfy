/**
 * A built circuit as a machine of cells in flight: the client, the relays and the
 * FIFO links between them move one cell at a time, in any order. Every such run
 * behaves like a plain FIFO byte channel in each direction.
 */
module Channel {
  import opened Wire
  import opened Cells
  import opened Layers
  import opened Relays
  import Client

  datatype Circuit = Circuit(
    forward: seq<Lane>,          // the client's key state, hop by hop
    backward: seq<Lane>,
    relays: seq<RelayState>,
    up: seq<seq<Bytes>>,         // up[i]: cells on their way into relay i
    down: seq<seq<Bytes>>,       // down[i]: cells relay i has sent toward the client
    written: seq<Bytes>,         // data the client has written, chunk by chunk
    arrived: seq<Bytes>,         // data the exit relay has handed to the target
    emitted: seq<Bytes>,         // data the exit relay has read from the target
    received: seq<Bytes>,        // data the client has unwrapped
    broken: bool)                // somebody failed or left the data phase

  datatype Step =
    | Write(chunk: Bytes)        // client: one turn of the write loop
    | Peel(i: nat)               // relay i: one turn of its serve loop
    | Emit(chunk: Bytes)         // exit relay: one turn of its target pump
    | Pass(i: nat)               // relay i: one turn of its outbound pump
    | Receive                    // client: one turn of its read pump

  function DataEnvelope(chunk: Bytes): Bytes
    requires |chunk| <= MAX_RELAY_DATA_PAYLOAD
  {
    EncodeEnvelope(CMD_DATA, chunk).value
  }

  ghost predicate Shape(c: Circuit, n: nat) {
    && 1 <= n <= MAX_RELAY_LAYERS
    && |c.forward| == |c.backward| == |c.relays| == |c.up| == |c.down| == n
  }

  predicate Enabled(c: Circuit, s: Step) {
    && !c.broken
    && match s
       case Write(chunk) => 0 < |chunk| <= MAX_RELAY_DATA_PAYLOAD && |c.up| > 0
       case Peel(i) => i < |c.up| && i < |c.relays| && c.up[i] != []
       case Emit(chunk) => 0 < |chunk| <= MAX_RELAY_DATA_PAYLOAD && |c.relays| > 0 && |c.down| == |c.relays|
       case Pass(i) => i + 1 < |c.down| && i < |c.relays| && c.down[i + 1] != []
       case Receive => |c.down| > 0 && c.down[0] != []
  }

  /** What the code does in one turn, whether or not it goes well. */
  function Apply(a: Aead, json: Json, c: Circuit, s: Step): Circuit
    requires Enabled(c, s)
  {
    match s
    case Write(chunk) =>
      var (lanes, cell) := Client.SendCommand(a, c.forward, CMD_DATA, chunk);
      if cell.None? then c.(forward := lanes)
      else c.(forward := lanes, up := c.up[0 := c.up[0] + [cell.value]], written := c.written + [chunk])
    case Peel(i) =>
      var (r, effect) := HandleCell(a, json, c.relays[i], c.up[i][0]);
      var c1 := c.(relays := c.relays[i := r], up := c.up[i := c.up[i][1..]]);
      if effect.Forwarded? && i + 1 < |c.up| then
        c1.(up := c1.up[i + 1 := c1.up[i + 1] + [effect.payload]])
      else if effect.Delivered? then
        c1.(arrived := c1.arrived + [effect.body])
      else c1.(broken := true)
    case Emit(chunk) =>
      var last := |c.relays| - 1;
      var (r, effect) := SendBackward(a, c.relays[last], CMD_DATA, chunk);
      var c1 := c.(relays := c.relays[last := r]);
      if effect.Replied? then
        c1.(down := c1.down[last := c1.down[last] + [effect.payload]], emitted := c1.emitted + [chunk])
      else c1.(broken := true)
    case Pass(i) =>
      var (r, effect) := SealInbound(a, c.relays[i], c.down[i + 1][0]);
      var c1 := c.(relays := c.relays[i := r], down := c.down[i + 1 := c.down[i + 1][1..]]);
      if effect.Replied? then
        c1.(down := c1.down[i := c1.down[i] + [effect.payload]])
      else c1.(broken := true)
    case Receive =>
      var (lanes, incoming) := Client.Receive(a, c.backward, c.down[0][0]);
      var c1 := c.(backward := lanes, down := c.down[0 := c.down[0][1..]]);
      if incoming.Data? then c1.(received := c1.received + [incoming.body])
      else c1.(broken := true)
  }

  /** Client and relays agree hop by hop, only the exit relay has a target, nothing is in flight. */
  ghost predicate Ready(c: Circuit) {
    && Shape(c, |c.relays|)
    && (forall i :: 0 <= i < |c.relays| ==>
          && c.relays[i].forward == c.forward[i] && c.relays[i].backward == c.backward[i]
          && c.relays[i].outbound == (i + 1 < |c.relays|) && c.relays[i].target == (i + 1 == |c.relays|)
          && c.up[i] == [] && c.down[i] == [])
    && c.written == c.arrived == c.emitted == c.received == []
    && !c.broken
  }

  /** A write whose layers no intermediate relay can take for a command. */
  predicate Clear(a: Aead, c: Circuit, s: Step) {
    s.Write? && |s.chunk| <= MAX_RELAY_DATA_PAYLOAD ==> ClearLayers(a, c.forward, DataEnvelope(s.chunk))
  }

  // ---------------------------------------------------------------- invariant

  /** Message number k on a link, sealed for the hops i and beyond. */
  ghost function Layer(a: Aead, base: seq<Lane>, k: nat, i: nat, chunk: Bytes): Bytes
    requires i <= |base| && |chunk| <= MAX_RELAY_DATA_PAYLOAD
  {
    Onion(a, AdvanceAll(base, k), i, DataEnvelope(chunk))
  }

  ghost predicate Sendable(chunks: seq<Bytes>) {
    forall k :: 0 <= k < |chunks| ==> |chunks[k]| <= MAX_RELAY_DATA_PAYLOAD
  }

  /** queue holds, in order, the messages from, from+1, ... sealed for the hops i and beyond. */
  ghost predicate Link(a: Aead, base: seq<Lane>, messages: seq<Bytes>, queue: seq<Bytes>, from: nat, i: nat)
    requires i <= |base| && Sendable(messages)
  {
    && from + |queue| <= |messages|
    && forall j :: 0 <= j < |queue| ==> queue[j] == Layer(a, base, from + j, i, messages[from + j])
  }

  ghost predicate AllClear(a: Aead, base: seq<Lane>, messages: seq<Bytes>)
    requires Sendable(messages)
  {
    forall k :: 0 <= k < |messages| ==> ClearLayers(a, AdvanceAll(base, k), DataEnvelope(messages[k]))
  }

  ghost predicate RoleKept(n: nat, c: Circuit, i: nat)
    requires i < |c.relays|
  {
    c.relays[i].outbound == (i + 1 < n) && c.relays[i].target == (i + 1 == n)
  }

  ghost predicate SameRoles(c0: Circuit, c: Circuit) {
    && Shape(c0, |c0.relays|) && Shape(c, |c0.relays|)
    && forall i :: 0 <= i < |c0.relays| ==> RoleKept(|c0.relays|, c, i)
  }

  /** Messages that have entered link i: written by the client, or passed by the relay before. */
  ghost function Entered(c: Circuit, d: seq<nat>, i: nat): nat
    requires i <= |d|
  {
    if i == 0 then |c.written| else d[i - 1]
  }

  /** Relay i has passed d[i] messages and its counter says so; the rest wait on its link. */
  ghost predicate ForwardHop(a: Aead, base: seq<Lane>, c: Circuit, d: seq<nat>, i: nat)
    requires Shape(c, |base|) && |d| == |base| && i < |base| && Sendable(c.written)
  {
    && c.relays[i].forward == Advanced(base[i], d[i])
    && d[i] + |c.up[i]| == Entered(c, d, i)
    && Link(a, base, c.written, c.up[i], d[i], i)
  }

  ghost predicate ForwardInv(a: Aead, c0: Circuit, c: Circuit, d: seq<nat>)
    requires SameRoles(c0, c)
  {
    var n := |c0.relays|;
    && |d| == n
    && Sendable(c.written) && AllClear(a, c0.forward, c.written)
    && c.forward == AdvanceAll(c0.forward, |c.written|)
    && (forall i :: 0 <= i < n ==> ForwardHop(a, c0.forward, c, d, i))
    && d[n - 1] <= |c.written| && c.arrived == c.written[..d[n - 1]]
  }

  /** Cells taken off the link below relay i: by the client for the first, else by the relay before. */
  ghost function Consumed(c: Circuit, e: seq<nat>, i: nat): nat
    requires i <= |e|
  {
    if i == 0 then |c.received| else e[i - 1]
  }

  /** Relay i has sealed e[i] messages and its counter says so; those not consumed are on its link. */
  ghost predicate BackwardHop(a: Aead, base: seq<Lane>, c: Circuit, e: seq<nat>, i: nat)
    requires Shape(c, |base|) && |e| == |base| && i < |base| && Sendable(c.emitted)
  {
    && c.relays[i].backward == Advanced(base[i], e[i])
    && e[i] == Consumed(c, e, i) + |c.down[i]|
    && Link(a, base, c.emitted, c.down[i], Consumed(c, e, i), i)
  }

  ghost predicate BackwardInv(a: Aead, c0: Circuit, c: Circuit, e: seq<nat>)
    requires SameRoles(c0, c)
  {
    var n := |c0.relays|;
    && |e| == n
    && Sendable(c.emitted) && e[n - 1] == |c.emitted|
    && |c.received| <= |c.emitted| && c.received == c.emitted[..|c.received|]
    && c.backward == AdvanceAll(c0.backward, |c.received|)
    && (forall i :: 0 <= i < n ==> BackwardHop(a, c0.backward, c, e, i))
  }

  ghost predicate Inv(a: Aead, c0: Circuit, c: Circuit, d: seq<nat>, e: seq<nat>) {
    SameRoles(c0, c) && !c.broken && ForwardInv(a, c0, c, d) && BackwardInv(a, c0, c, e)
  }

  lemma LinkFront(a: Aead, base: seq<Lane>, messages: seq<Bytes>, queue: seq<Bytes>, from: nat, i: nat)
    requires i <= |base| && Sendable(messages) && Link(a, base, messages, queue, from, i) && queue != []
    ensures from < |messages| && queue[0] == Layer(a, base, from, i, messages[from])
    ensures Link(a, base, messages, queue[1..], from + 1, i)
  {
    hide Layer;
  }

  lemma LinkPush(a: Aead, base: seq<Lane>, messages: seq<Bytes>, queue: seq<Bytes>, from: nat, i: nat)
    requires i <= |base| && Sendable(messages) && Link(a, base, messages, queue, from, i)
    requires from + |queue| < |messages|
    ensures var k := from + |queue|;
            Link(a, base, messages, queue + [Layer(a, base, k, i, messages[k])], from, i)
  {
    hide Layer;
  }

  lemma LinkGrow(a: Aead, base: seq<Lane>, messages: seq<Bytes>, queue: seq<Bytes>, from: nat, i: nat, chunk: Bytes)
    requires i <= |base| && Sendable(messages) && Link(a, base, messages, queue, from, i)
    requires |chunk| <= MAX_RELAY_DATA_PAYLOAD
    ensures Sendable(messages + [chunk]) && Link(a, base, messages + [chunk], queue, from, i)
  {
    hide Layer;
  }

  // ------------------------------------------------ what one turn does to a layer

  lemma SendIs(a: Aead, base: seq<Lane>, k: nat, chunk: Bytes)
    requires Ideal(a) && |base| <= MAX_RELAY_LAYERS && |chunk| <= MAX_RELAY_DATA_PAYLOAD
    ensures Client.SendCommand(a, AdvanceAll(base, k), CMD_DATA, chunk)
            == (AdvanceAll(base, k + 1), Some(Layer(a, base, k, 0, chunk)))
  {
    Client.SendFits(a, AdvanceAll(base, k), CMD_DATA, chunk);
    AdvanceAllStep(base, k);
  }

  lemma PeelIs(a: Aead, json: Json, r: RelayState, base: seq<Lane>, k: nat, i: nat, chunk: Bytes)
    requires Ideal(a) && i < |base| <= MAX_RELAY_LAYERS && r.forward == Advanced(base[i], k)
    requires |chunk| <= MAX_RELAY_DATA_PAYLOAD && ClearLayers(a, AdvanceAll(base, k), DataEnvelope(chunk))
    requires r.outbound == (i + 1 < |base|) && r.target == (i + 1 == |base|)
    ensures HandleCell(a, json, r, Layer(a, base, k, i, chunk))
            == (r.(forward := Advanced(base[i], k + 1)),
                if i + 1 < |base| then Forwarded(Layer(a, base, k, i + 1, chunk)) else Delivered(chunk))
  {
    hide AdvanceAll, Advanced, EncodeEnvelope;
    AdvancedStep(base[i], k);
    var lanes := AdvanceAll(base, k);
    var inner := Onion(a, lanes, i + 1, DataEnvelope(chunk));
    assert a.open(r.forward.key, r.forward.counter, Onion(a, lanes, i, DataEnvelope(chunk))) == Some(inner);
    if i + 1 < |base| {
      OnionLength(a, lanes, i + 1, DataEnvelope(chunk));
      assert !StartsWithMagic(inner);
    } else {
      EnvelopeRoundTrip(CMD_DATA, chunk);
    }
  }

  lemma EmitIs(a: Aead, r: RelayState, base: seq<Lane>, k: nat, chunk: Bytes)
    requires Ideal(a) && 0 < |base| && r.backward == Advanced(base[|base| - 1], k)
    requires |chunk| <= MAX_RELAY_DATA_PAYLOAD
    ensures SendBackward(a, r, CMD_DATA, chunk)
            == (r.(backward := Advanced(base[|base| - 1], k + 1)), Replied(Layer(a, base, k, |base| - 1, chunk)))
  {
    var n := |base|;
    AdvancedStep(base[n - 1], k);
    assert Onion(a, AdvanceAll(base, k), n, DataEnvelope(chunk)) == DataEnvelope(chunk);
  }

  lemma PassIs(a: Aead, r: RelayState, base: seq<Lane>, k: nat, i: nat, chunk: Bytes)
    requires Ideal(a) && i < |base| <= MAX_RELAY_LAYERS && r.backward == Advanced(base[i], k)
    requires |chunk| <= MAX_RELAY_DATA_PAYLOAD
    ensures SealInbound(a, r, Layer(a, base, k, i + 1, chunk))
            == (r.(backward := Advanced(base[i], k + 1)), Replied(Layer(a, base, k, i, chunk)))
  {
    AdvancedStep(base[i], k);
    OnionLength(a, AdvanceAll(base, k), i, DataEnvelope(chunk));
  }

  lemma ReceiveIs(a: Aead, base: seq<Lane>, k: nat, chunk: Bytes)
    requires Ideal(a) && |chunk| <= MAX_RELAY_DATA_PAYLOAD
    ensures Client.Receive(a, AdvanceAll(base, k), Layer(a, base, k, 0, chunk))
            == (AdvanceAll(base, k + 1), Client.Data(chunk))
  {
    var lanes := AdvanceAll(base, k);
    OpenAllOnion(a, lanes, 0, DataEnvelope(chunk));
    assert lanes[..0] + StepAll(lanes)[0..] == StepAll(lanes);
    AdvanceAllStep(base, k);
    EnvelopeRoundTrip(CMD_DATA, chunk);
  }

  // ------------------------------------------------------- every turn keeps it

  lemma Initially(a: Aead, c: Circuit) returns (d: seq<nat>, e: seq<nat>)
    requires Ready(c)
    ensures Inv(a, c, c, d, e)
  {
    hide AdvanceAll, Advanced, Layer, ClearLayers;
    d := seq(|c.relays|, _ => 0);
    e := d;
  }

  /** A turn that leaves one direction alone keeps that direction's half. */
  lemma ForwardFrame(a: Aead, c0: Circuit, c: Circuit, c': Circuit, d: seq<nat>)
    requires SameRoles(c0, c) && SameRoles(c0, c') && ForwardInv(a, c0, c, d)
    requires c'.forward == c.forward && c'.up == c.up && c'.written == c.written && c'.arrived == c.arrived
    requires forall i :: 0 <= i < |c.relays| ==> c'.relays[i].forward == c.relays[i].forward
    ensures ForwardInv(a, c0, c', d)
  {
    hide Link, AllClear, Advanced, AdvanceAll;
    forall i | 0 <= i < |c0.relays|
      ensures ForwardHop(a, c0.forward, c', d, i)
    {
      assert ForwardHop(a, c0.forward, c, d, i);
    }
  }

  lemma BackwardFrame(a: Aead, c0: Circuit, c: Circuit, c': Circuit, e: seq<nat>)
    requires SameRoles(c0, c) && SameRoles(c0, c') && BackwardInv(a, c0, c, e)
    requires c'.backward == c.backward && c'.down == c.down && c'.emitted == c.emitted && c'.received == c.received
    requires forall i :: 0 <= i < |c.relays| ==> c'.relays[i].backward == c.relays[i].backward
    ensures BackwardInv(a, c0, c', e)
  {
    hide Link, Advanced, AdvanceAll;
    forall i | 0 <= i < |c0.relays|
      ensures BackwardHop(a, c0.backward, c', e, i)
    {
      assert BackwardHop(a, c0.backward, c, e, i);
    }
  }

  lemma WriteKeeps(a: Aead, json: Json, c0: Circuit, c: Circuit, d: seq<nat>, e: seq<nat>, chunk: Bytes)
    requires Ideal(a) && Inv(a, c0, c, d, e)
    requires Enabled(c, Write(chunk)) && Clear(a, c, Write(chunk))
    ensures Inv(a, c0, Apply(a, json, c, Write(chunk)), d, e)
    ensures Apply(a, json, c, Write(chunk)).written == c.written + [chunk]
  {
    hide Link, Layer, ClearLayers, Advanced, AdvanceAll, Client.SendCommand, DataEnvelope, Ideal;
    var base, k := c0.forward, |c.written|;
    SendIs(a, base, k, chunk);
    var c' := Apply(a, json, c, Write(chunk));
    assert c' == c.(forward := AdvanceAll(base, k + 1), written := c.written + [chunk],
                    up := c.up[0 := c.up[0] + [Layer(a, base, k, 0, chunk)]]);
    forall i | 0 <= i < |c0.relays|
      ensures RoleKept(|c0.relays|, c', i)
      ensures Sendable(c'.written) && ForwardHop(a, base, c', d, i)
    {
      assert RoleKept(|c0.relays|, c, i);
      assert ForwardHop(a, base, c, d, i);
      LinkGrow(a, base, c.written, c.up[i], d[i], i, chunk);
      if i == 0 {
        LinkPush(a, base, c'.written, c.up[0], d[0], 0);
      }
    }
    BackwardFrame(a, c0, c, c', e);
  }

  lemma PeelKeeps(a: Aead, json: Json, c0: Circuit, c: Circuit, d: seq<nat>, e: seq<nat>, i: nat)
    returns (d': seq<nat>)
    requires Ideal(a) && Inv(a, c0, c, d, e) && Enabled(c, Peel(i))
    ensures Inv(a, c0, Apply(a, json, c, Peel(i)), d', e)
  {
    hide Link, Layer, ClearLayers, Advanced, AdvanceAll, HandleCell, DataEnvelope, Ideal;
    var base, n, k := c0.forward, |c0.relays|, d[i];
    assert ForwardHop(a, base, c, d, i) && RoleKept(n, c, i);
    LinkFront(a, base, c.written, c.up[i], k, i);
    PeelIs(a, json, c.relays[i], base, k, i, c.written[k]);
    d' := d[i := k + 1];
    var c' := Apply(a, json, c, Peel(i));
    PeelShape(a, json, c0, c, i, Advanced(base[i], k + 1));
    forall j | 0 <= j < n
      ensures RoleKept(n, c', j) && ForwardHop(a, base, c', d', j)
    {
      assert RoleKept(n, c, j) && ForwardHop(a, base, c, d, j);
      if j == i + 1 {
        LinkPush(a, base, c.written, c.up[j], d[j], j);
      }
    }
    BackwardFrame(a, c0, c, c', e);
  }

  /** Which fields a successful peel touches. */
  lemma PeelShape(a: Aead, json: Json, c0: Circuit, c: Circuit, i: nat, lane: Lane)
    requires SameRoles(c0, c) && Enabled(c, Peel(i))
    requires var (r, e) := HandleCell(a, json, c.relays[i], c.up[i][0]);
             && r == c.relays[i].(forward := lane)
             && (if i + 1 < |c0.relays| then e.Forwarded? else e.Delivered?)
    ensures var c' := Apply(a, json, c, Peel(i)); var e := HandleCell(a, json, c.relays[i], c.up[i][0]).1;
            && !c'.broken && SameRoles(c0, c')
            && c'.forward == c.forward && c'.written == c.written
            && c'.backward == c.backward && c'.down == c.down && c'.emitted == c.emitted && c'.received == c.received
            && (forall j :: 0 <= j < |c0.relays| ==> c'.relays[j].backward == c.relays[j].backward)
            && (forall j :: 0 <= j < |c0.relays| ==>
                  c'.relays[j].forward == if j == i then lane else c.relays[j].forward)
            && (forall j :: 0 <= j < |c0.relays| ==>
                  c'.up[j] == if j == i then c.up[i][1..]
                              else if j == i + 1 then c.up[j] + [e.payload] else c.up[j])
            && c'.arrived == if i + 1 < |c0.relays| then c.arrived else c.arrived + [e.body]
  {
    hide HandleCell;
    var c' := Apply(a, json, c, Peel(i));
    forall j | 0 <= j < |c0.relays|
      ensures RoleKept(|c0.relays|, c', j)
    {
      assert RoleKept(|c0.relays|, c, j);
    }
  }

  lemma EmitKeeps(a: Aead, json: Json, c0: Circuit, c: Circuit, d: seq<nat>, e: seq<nat>, chunk: Bytes)
    returns (e': seq<nat>)
    requires Ideal(a) && Inv(a, c0, c, d, e) && Enabled(c, Emit(chunk))
    ensures Inv(a, c0, Apply(a, json, c, Emit(chunk)), d, e')
    ensures Apply(a, json, c, Emit(chunk)).emitted == c.emitted + [chunk]
  {
    hide Link, Layer, ClearLayers, Advanced, AdvanceAll, SendBackward, DataEnvelope, Ideal;
    var base, n, k := c0.backward, |c0.relays|, |c.emitted|;
    assert BackwardHop(a, base, c, e, n - 1) && RoleKept(n, c, n - 1);
    EmitIs(a, c.relays[n - 1], base, k, chunk);
    e' := e[n - 1 := k + 1];
    var c' := Apply(a, json, c, Emit(chunk));
    assert c'.down == c.down[n - 1 := c.down[n - 1] + [Layer(a, base, k, n - 1, chunk)]];
    assert c'.relays == c.relays[n - 1 := c.relays[n - 1].(backward := Advanced(base[n - 1], k + 1))];
    assert c'.emitted == c.emitted + [chunk];
    forall j | 0 <= j < n
      ensures RoleKept(n, c', j) && Sendable(c'.emitted) && BackwardHop(a, base, c', e', j)
    {
      assert RoleKept(n, c, j) && BackwardHop(a, base, c, e, j);
      LinkGrow(a, base, c.emitted, c.down[j], Consumed(c, e, j), j, chunk);
      if j == n - 1 {
        LinkPush(a, base, c'.emitted, c.down[j], Consumed(c, e, j), j);
      }
    }
    ForwardFrame(a, c0, c, c', d);
  }

  lemma PassKeeps(a: Aead, json: Json, c0: Circuit, c: Circuit, d: seq<nat>, e: seq<nat>, i: nat)
    returns (e': seq<nat>)
    requires Ideal(a) && Inv(a, c0, c, d, e) && Enabled(c, Pass(i))
    ensures Inv(a, c0, Apply(a, json, c, Pass(i)), d, e')
  {
    hide Link, Layer, ClearLayers, Advanced, AdvanceAll, SealInbound, DataEnvelope, Ideal;
    var base, n, k := c0.backward, |c0.relays|, e[i];
    assert BackwardHop(a, base, c, e, i) && BackwardHop(a, base, c, e, i + 1) && RoleKept(n, c, i);
    LinkFront(a, base, c.emitted, c.down[i + 1], k, i + 1);
    PassIs(a, c.relays[i], base, k, i, c.emitted[k]);
    LinkPush(a, base, c.emitted, c.down[i], Consumed(c, e, i), i);
    e' := e[i := k + 1];
    var c' := Apply(a, json, c, Pass(i));
    assert c'.down == c.down[i + 1 := c.down[i + 1][1..]][i := c.down[i] + [Layer(a, base, k, i, c.emitted[k])]];
    assert c'.relays == c.relays[i := c.relays[i].(backward := Advanced(base[i], k + 1))];
    forall j | 0 <= j < n
      ensures RoleKept(n, c', j) && BackwardHop(a, base, c', e', j)
    {
      assert RoleKept(n, c, j) && BackwardHop(a, base, c, e, j);
    }
    ForwardFrame(a, c0, c, c', d);
  }

  lemma ReceiveKeeps(a: Aead, json: Json, c0: Circuit, c: Circuit, d: seq<nat>, e: seq<nat>)
    requires Ideal(a) && Inv(a, c0, c, d, e) && Enabled(c, Receive)
    ensures Inv(a, c0, Apply(a, json, c, Receive), d, e)
    ensures |Apply(a, json, c, Receive).received| == |c.received| + 1
  {
    hide Link, Layer, ClearLayers, Advanced, AdvanceAll, Client.Receive, DataEnvelope, Ideal;
    var base, n, k := c0.backward, |c0.relays|, |c.received|;
    assert BackwardHop(a, base, c, e, 0);
    LinkFront(a, base, c.emitted, c.down[0], k, 0);
    ReceiveIs(a, base, k, c.emitted[k]);
    var c' := Apply(a, json, c, Receive);
    assert c'.down == c.down[0 := c.down[0][1..]];
    assert c'.received == c.received + [c.emitted[k]];
    forall j | 0 <= j < n
      ensures RoleKept(n, c', j) && BackwardHop(a, base, c', e, j)
    {
      assert RoleKept(n, c, j) && BackwardHop(a, base, c, e, j);
    }
    ForwardFrame(a, c0, c, c', d);
  }
}
