/** What becomes of a circuit once the two ends of a lane disagree on its counter. */
module OutOfStep {
  import opened Wire
  import opened Cells
  import opened Layers
  import opened Relays
  import opened Channel
  import Client
  import Dialling

  /** Two messages share a counter exactly if they are a multiple of 2^64 apart. */
  lemma AheadIff(c: Counter, j: nat, k: nat)
    ensures Ahead(c, j) == Ahead(c, k) <==> (k - j) % COUNTER_RANGE == 0
  {
    var x, y := c + j, c + k;
    if Ahead(c, j) == Ahead(c, k) {
      assert y - x == (y / COUNTER_RANGE - x / COUNTER_RANGE) * COUNTER_RANGE;
      Multiple(y / COUNTER_RANGE - x / COUNTER_RANGE);
    }
    if (k - j) % COUNTER_RANGE == 0 {
      assert y == x + (k - j) / COUNTER_RANGE * COUNTER_RANGE;
    }
  }

  lemma Multiple(q: int)
    ensures (q * COUNTER_RANGE) % COUNTER_RANGE == 0
  {
  }

  // --------------------------------------------------------- replies written out of turn

  /** A command the exit relay sends back: target data, or its answer to a request. */
  datatype Reply = Reply(command: Byte, body: Bytes)

  /** A reply sealed while the counter stood number steps ahead. */
  datatype Numbered = Numbered(number: nat, reply: Reply)

  ghost predicate Encodable(replies: seq<Reply>) {
    forall k :: 0 <= k < |replies| ==> |replies[k].body| <= MAX_RELAY_DATA_PAYLOAD
  }

  ghost predicate Packable(cells: seq<Numbered>) {
    forall k :: 0 <= k < |cells| ==> |cells[k].reply.body| <= MAX_RELAY_DATA_PAYLOAD
  }

  /** The cell that a sender makes who found the exit relay's counter number steps ahead. */
  function SealedAs(a: Aead, r: RelayState, cell: Numbered): Effect {
    SendBackward(a, r.(backward := Advanced(r.backward, cell.number)), cell.reply.command, cell.reply.body).1
  }

  function AllSealed(a: Aead, r: RelayState, cells: seq<Numbered>): (s: seq<Effect>)
    ensures |s| == |cells|
  {
    seq(|cells|, i requires 0 <= i < |cells| => SealedAs(a, r, cells[i]))
  }

  /** The exit relay sealing its replies one after another. */
  function SealTurns(a: Aead, r: RelayState, replies: seq<Reply>): (s: seq<Effect>)
    ensures |s| == |replies|
    decreases |replies|
  {
    if replies == [] then []
    else
      var (r', effect) := SendBackward(a, r, replies[0].command, replies[0].body);
      [effect] + SealTurns(a, r', replies[1..])
  }

  /** Sealed cells in the order in which they reach the connection. */
  function Arranged<T>(sealed: seq<T>, order: seq<nat>): seq<T>
    requires forall i :: 0 <= i < |order| ==> order[i] < |sealed|
  {
    seq(|order|, i requires 0 <= i < |order| => sealed[order[i]])
  }

  /** Replies numbered as they are sealed in turn. */
  function InOrder(replies: seq<Reply>): (cells: seq<Numbered>)
    ensures |cells| == |replies|
  {
    seq(|replies|, k requires 0 <= k < |replies| => Numbered(k, replies[k]))
  }

  /** Each cell goes down through the other relays and is read by the client, until the circuit closes. */
  function Deliver(a: Aead, relays: seq<RelayState>, lanes: seq<Lane>, cells: seq<Effect>): seq<Client.Incoming>
    requires |relays| > 0
    decreases |cells|
  {
    if cells == [] then []
    else if !cells[0].Replied? then [Client.Closed]
    else
      var (moved, back) := Dialling.CarryDown(a, relays, |relays| - 1, cells[0].payload);
      if back.None? then [Client.Closed]
      else
        var (lanes', incoming) := Client.Receive(a, lanes, back.value);
        if incoming.Closed? then [Client.Closed] else [incoming] + Deliver(a, moved, lanes', cells[1..])
  }

  /** What a reply is to the client. */
  function Means(r: Reply): Client.Incoming {
    if r.command == CMD_DATA then Client.Data(r.body)
    else if r.command == CMD_END || r.command == CMD_ERROR then Client.Closed
    else Client.Ignored
  }

  predicate InTurn(place: nat, number: nat) {
    (number - place) % COUNTER_RANGE == 0
  }

  /** The replies read in turn, closed at the first one out of turn or the first that ends the circuit. */
  function Expected(cells: seq<Numbered>, at: nat): seq<Client.Incoming>
    requires at <= |cells|
    decreases |cells| - at
  {
    if at == |cells| then []
    else if !InTurn(at, cells[at].number) || Means(cells[at].reply).Closed? then [Client.Closed]
    else [Means(cells[at].reply)] + Expected(cells, at + 1)
  }

  function Packed(r: Reply): Bytes
    requires |r.body| <= MAX_RELAY_DATA_PAYLOAD
  {
    EncodeEnvelope(r.command, r.body).value
  }

  lemma SealedIs(a: Aead, r: RelayState, lane: Lane, from: nat, cell: Numbered)
    requires Ideal(a) && |cell.reply.body| <= MAX_RELAY_DATA_PAYLOAD && r.backward == Advanced(lane, from)
    ensures SealedAs(a, r, cell) == Replied(a.seal(lane.key, Ahead(lane.counter, from + cell.number), Packed(cell.reply)))
  {
    AdvancedTwice(lane, from, cell.number);
  }

  /** Sealing one after another gives each reply the next number. */
  lemma {:induction false} SealTurnsAre(a: Aead, r: RelayState, lane: Lane, from: nat, replies: seq<Reply>, k: nat)
    requires Ideal(a) && Encodable(replies) && r.backward == Advanced(lane, from) && k < |replies|
    ensures SealTurns(a, r, replies)[k] == Replied(a.seal(lane.key, Ahead(lane.counter, from + k), Packed(replies[k])))
    decreases |replies|
  {
    AdvancedStep(lane, from);
    var next := SendBackward(a, r, replies[0].command, replies[0].body);
    assert next == (r.(backward := Advanced(lane, from + 1)),
                    Replied(a.seal(lane.key, Ahead(lane.counter, from), Packed(replies[0]))));
    if k > 0 {
      SealTurnsAre(a, next.0, lane, from + 1, replies[1..], k - 1);
    }
  }

  lemma {:induction false} TurnsAreNumbered(a: Aead, r: RelayState, replies: seq<Reply>, order: seq<nat>)
    requires Ideal(a) && Encodable(replies) && forall i :: 0 <= i < |order| ==> order[i] < |replies|
    ensures Arranged(SealTurns(a, r, replies), order) == AllSealed(a, r, Arranged(InOrder(replies), order))
  {
    hide SealTurns, SealedAs, Ideal;
    forall i | 0 <= i < |order|
      ensures SealTurns(a, r, replies)[order[i]] == SealedAs(a, r, Arranged(InOrder(replies), order)[i])
    {
      SealTurnsAre(a, r, r.backward, 0, replies, order[i]);
      SealedIs(a, r, r.backward, 0, Numbered(order[i], replies[order[i]]));
    }
  }

  /** A layer sealed under another counter stops the opening, however many layers lie around it. */
  lemma {:induction false} OpenMismatch(a: Aead, lanes: seq<Lane>, sealed: seq<Lane>, i: nat, p: Bytes)
    requires Ideal(a) && Binding(a) && i < |lanes| == |sealed|
    requires forall j :: i <= j < |lanes| - 1 ==> lanes[j] == sealed[j]
    requires var last := |lanes| - 1; lanes[last].key == sealed[last].key && lanes[last].counter != sealed[last].counter
    ensures OpenAll(a, lanes, i, Onion(a, sealed, i, p)).1 == None
    decreases |lanes| - i
  {
    if i < |lanes| - 1 {
      OpenMismatch(a, lanes[i := Stepped(lanes[i])], sealed, i + 1, p);
    }
  }

  /** A cell the exit relay sealed as its m-th and the t-th to come down is understood exactly if m is in turn at t. */
  lemma {:induction false} CellArrives(a: Aead, relays: seq<RelayState>, base: seq<Lane>, t: nat, m: nat, reply: Reply)
    requires Ideal(a) && Binding(a) && 0 < |relays| == |base| <= MAX_RELAY_LAYERS && |reply.body| <= MAX_RELAY_DATA_PAYLOAD
    requires forall j :: 0 <= j < |base| - 1 ==> relays[j].backward == Advanced(base[j], t)
    ensures var last := |base| - 1;
      var (moved, back) := Dialling.CarryDown(a, relays, last,
        a.seal(base[last].key, Ahead(base[last].counter, m), Packed(reply)));
      && moved == Dialling.MovedDown(relays, last)
      && back.Some?
      && var (lanes, incoming) := Client.Receive(a, AdvanceAll(base, t), back.value);
         if InTurn(t, m) then incoming == Means(reply) && lanes == AdvanceAll(base, t + 1) else incoming == Client.Closed
  {
    hide Dialling.CarryDown, EncodeEnvelope, DecodeEnvelope, Ahead, OpenAll, InTurn;
    var n := |base|;
    var lanes, envelope := AdvanceAll(base, t), Packed(reply);
    var sealed := lanes[n - 1 := Advanced(base[n - 1], m)];
    assert Onion(a, sealed, n, envelope) == envelope;
    assert Onion(a, sealed, n - 1, envelope) == a.seal(base[n - 1].key, Ahead(base[n - 1].counter, m), envelope);
    OnionLength(a, sealed, 0, envelope);
    Dialling.CarryDownReaches(a, sealed, relays, n - 1, envelope);
    Understood(a, base, t, m, reply);
  }

  lemma {:induction false} Understood(a: Aead, base: seq<Lane>, t: nat, m: nat, reply: Reply)
    requires Ideal(a) && Binding(a) && 0 < |base| && |reply.body| <= MAX_RELAY_DATA_PAYLOAD
    ensures var lanes := AdvanceAll(base, t);
      var sealed := lanes[|base| - 1 := Advanced(base[|base| - 1], m)];
      var (lanes', incoming) := Client.Receive(a, lanes, Onion(a, sealed, 0, Packed(reply)));
      if InTurn(t, m) then incoming == Means(reply) && lanes' == AdvanceAll(base, t + 1) else incoming == Client.Closed
  {
    hide EncodeEnvelope, DecodeEnvelope, OpenAll, Ideal, Binding, Ahead;
    var lanes, envelope := AdvanceAll(base, t), Packed(reply);
    var sealed := lanes[|base| - 1 := Advanced(base[|base| - 1], m)];
    AheadIff(base[|base| - 1].counter, t, m);
    if InTurn(t, m) {
      assert sealed == lanes;
      OpenAllOnion(a, lanes, 0, envelope);
      assert lanes[..0] + StepAll(lanes)[0..] == StepAll(lanes);
      AdvanceAllStep(base, t);
      EnvelopeRoundTrip(reply.command, reply.body);
    } else {
      OpenMismatch(a, lanes, sealed, 0, envelope);
    }
  }

  lemma {:induction false} DeliveredFrom(a: Aead, relays: seq<RelayState>, base: seq<Lane>, cells: seq<Numbered>, sealed: seq<Effect>, at: nat)
    requires Ideal(a) && Binding(a) && 0 < |relays| == |base| <= MAX_RELAY_LAYERS && Packable(cells) && |sealed| == |cells| && at <= |cells|
    requires forall j :: 0 <= j < |base| - 1 ==> relays[j].backward == Advanced(base[j], at)
    requires var lane := base[|base| - 1]; forall k :: 0 <= k < |sealed| ==>
      sealed[k] == Replied(a.seal(lane.key, Ahead(lane.counter, cells[k].number), Packed(cells[k].reply)))
    ensures Deliver(a, relays, AdvanceAll(base, at), sealed[at..]) == Expected(cells, at)
    decreases |cells| - at
  {
    hide Deliver, Packed, Ahead, AdvanceAll, Advanced, Means, InTurn, Ideal, Binding, Dialling.MovedDown;
    if at < |cells| {
      var n := |base|;
      assert sealed[at..][0] == sealed[at] && sealed[at..][1..] == sealed[at + 1..];
      DeliverOne(a, relays, base, at, cells[at].number, cells[at].reply, sealed[at..]);
      var moved := Dialling.MovedDown(relays, n - 1);
      forall j | 0 <= j < n - 1
        ensures moved[j].backward == Advanced(base[j], at + 1)
      {
        AdvancedStep(base[j], at);
      }
      DeliveredFrom(a, moved, base, cells, sealed, at + 1);
    } else {
      assert sealed[at..] == [];
      DeliverNone(a, relays, AdvanceAll(base, at));
    }
  }

  lemma DeliverNone(a: Aead, relays: seq<RelayState>, lanes: seq<Lane>)
    requires |relays| > 0
    ensures Deliver(a, relays, lanes, []) == []
  {
  }

  lemma {:induction false} DeliverOne(a: Aead, relays: seq<RelayState>, base: seq<Lane>, t: nat, m: nat, reply: Reply, cells: seq<Effect>)
    requires Ideal(a) && Binding(a) && 0 < |relays| == |base| <= MAX_RELAY_LAYERS && |reply.body| <= MAX_RELAY_DATA_PAYLOAD
    requires forall j :: 0 <= j < |base| - 1 ==> relays[j].backward == Advanced(base[j], t)
    requires cells != [] && var lane := base[|base| - 1]; cells[0] == Replied(a.seal(lane.key, Ahead(lane.counter, m), Packed(reply)))
    ensures Deliver(a, relays, AdvanceAll(base, t), cells)
      == if !InTurn(t, m) || Means(reply).Closed? then [Client.Closed]
         else [Means(reply)] + Deliver(a, Dialling.MovedDown(relays, |base| - 1), AdvanceAll(base, t + 1), cells[1..])
  {
    hide Dialling.CarryDown, Packed, Ahead, AdvanceAll, Client.Receive, Means, InTurn, Ideal, Binding, Dialling.MovedDown;
    CellArrives(a, relays, base, t, m, reply);
  }

  /** What the client of a built circuit reads of cells written in the given order. */
  function ReadBack(a: Aead, c: Circuit, cells: seq<Numbered>): seq<Client.Incoming>
    requires |c.relays| > 0
  {
    Deliver(a, c.relays, c.backward, AllSealed(a, c.relays[|c.relays| - 1], cells))
  }

  /** Whatever numbers the senders found, the client reads in turn up to the first cell out of turn, which closes the circuit. */
  lemma {:induction false} CellsReadInTurn(a: Aead, c: Circuit, cells: seq<Numbered>)
    requires Ideal(a) && Binding(a) && Ready(c) && Packable(cells)
    ensures ReadBack(a, c, cells) == Expected(cells, 0)
  {
    hide Deliver, Expected, Ideal, Binding, SealedAs;
    var n := |c.relays|;
    var sealed := AllSealed(a, c.relays[n - 1], cells);
    forall k | 0 <= k < |sealed|
      ensures sealed[k] == Replied(a.seal(c.backward[n - 1].key, Ahead(c.backward[n - 1].counter, cells[k].number), Packed(cells[k].reply)))
    {
      SealedIs(a, c.relays[n - 1], c.backward[n - 1], 0, cells[k]);
    }
    assert sealed[0..] == sealed;
    DeliveredFrom(a, c.relays, c.backward, cells, sealed, 0);
  }

  /** In particular replies sealed in turn and written in any order. */
  lemma {:induction false} RepliesReadInTurn(a: Aead, c: Circuit, replies: seq<Reply>, order: seq<nat>)
    requires Ideal(a) && Binding(a) && Ready(c) && Encodable(replies)
    requires forall i :: 0 <= i < |order| ==> order[i] < |replies|
    ensures Deliver(a, c.relays, c.backward, Arranged(SealTurns(a, c.relays[|c.relays| - 1], replies), order))
            == Expected(Arranged(InOrder(replies), order), 0)
  {
    hide Deliver, SealTurns, Expected, Ideal, Binding, SealedAs;
    TurnsAreNumbered(a, c.relays[|c.relays| - 1], replies, order);
    CellsReadInTurn(a, c, Arranged(InOrder(replies), order));
  }

  ghost predicate Whole(cells: seq<Numbered>, at: nat, read: seq<Client.Incoming>)
    requires at <= |cells|
  {
    |read| == |cells| - at && forall i :: at <= i < |cells| ==> read[i - at] == Means(cells[i].reply)
  }

  lemma {:induction false} WholeIff(cells: seq<Numbered>, at: nat)
    requires at <= |cells| && forall c <- cells :: !Means(c.reply).Closed?
    ensures Whole(cells, at, Expected(cells, at)) <==> forall i :: at <= i < |cells| ==> InTurn(i, cells[i].number)
    decreases |cells| - at
  {
    hide Means, InTurn;
    if at < |cells| && InTurn(at, cells[at].number) {
      WholeIff(cells, at + 1);
      var rest := Expected(cells, at + 1);
      assert cells[at] in cells;
      assert Expected(cells, at) == [Means(cells[at].reply)] + rest;
      WholeStep(cells, at, Means(cells[at].reply), rest);
    } else if at < |cells| {
      assert Expected(cells, at) == [Client.Closed];
      assert cells[at] in cells;
    }
  }

  lemma WholeStep(cells: seq<Numbered>, at: nat, first: Client.Incoming, rest: seq<Client.Incoming>)
    requires at < |cells| && first == Means(cells[at].reply)
    ensures Whole(cells, at, [first] + rest) <==> Whole(cells, at + 1, rest)
  {
    hide Means;
    if Whole(cells, at, [first] + rest) {
      forall i | at + 1 <= i < |cells|
        ensures rest[i - (at + 1)] == Means(cells[i].reply)
      {
        assert ([first] + rest)[i - at] == rest[i - (at + 1)];
      }
    }
  }

  /**
   * Every cell that does not itself end the circuit is read, on a circuit of any length, if and only
   * if each is numbered by its place, modulo 2^64.
   */
  lemma {:induction false} ReadWholeIff(a: Aead, c: Circuit, cells: seq<Numbered>)
    requires Ideal(a) && Binding(a) && Ready(c) && Packable(cells) && forall x <- cells :: !Means(x.reply).Closed?
    ensures Whole(cells, 0, ReadBack(a, c, cells)) <==> forall i :: 0 <= i < |cells| ==> InTurn(i, cells[i].number)
  {
    hide ReadBack, Expected, Whole, Means;
    CellsReadInTurn(a, c, cells);
    WholeIff(cells, 0);
  }

  /** So replies sealed in turn are all read if and only if they are written in the order in which they were sealed. */
  lemma {:induction false} WrittenInOrderIff(a: Aead, c: Circuit, replies: seq<Reply>, order: seq<nat>)
    requires Ideal(a) && Binding(a) && Ready(c) && Encodable(replies) && |order| <= |replies| <= COUNTER_RANGE
    requires (forall i :: 0 <= i < |order| ==> order[i] < |replies|) && forall r <- replies :: !Means(r).Closed?
    ensures var cells := Arranged(InOrder(replies), order);
      Whole(cells, 0, Deliver(a, c.relays, c.backward, Arranged(SealTurns(a, c.relays[|c.relays| - 1], replies), order)))
      <==> forall i :: 0 <= i < |order| ==> order[i] == i
  {
    hide Deliver, SealTurns, ReadBack, Expected, Whole, Means;
    var cells := Arranged(InOrder(replies), order);
    forall x <- cells
      ensures !Means(x.reply).Closed?
    {
      assert x.reply in replies;
    }
    RepliesReadInTurn(a, c, replies, order);
    WholeIff(cells, 0);
    forall i | 0 <= i < |order|
      ensures InTurn(i, cells[i].number) <==> order[i] == i
    {
    }
  }

  /** And of two cells sealed under one counter, by senders that raced for it, one is always lost, with the circuit. */
  lemma {:induction false} SharedCounterCloses(a: Aead, c: Circuit, cells: seq<Numbered>, i: nat, j: nat)
    requires Ideal(a) && Binding(a) && Ready(c) && Packable(cells) && forall x <- cells :: !Means(x.reply).Closed?
    requires i < j < |cells| && j - i < COUNTER_RANGE && cells[i].number == cells[j].number
    ensures !Whole(cells, 0, ReadBack(a, c, cells))
  {
    hide ReadBack, Whole, Means;
    ReadWholeIff(a, c, cells);
    NotBoth(cells[i].number, i, j);
  }

  lemma NotBoth(number: nat, i: nat, j: nat)
    requires i < j && j - i < COUNTER_RANGE
    ensures !InTurn(i, number) || !InTurn(j, number)
  {
    var p, q := (number - i) / COUNTER_RANGE, (number - j) / COUNTER_RANGE;
    assert InTurn(i, number) && InTurn(j, number) ==> j - i == (p - q) * COUNTER_RANGE;
  }

  // -------------------------------------------------------- after a refused write

  /** A first relay takes a command sent with counters k ahead of its own exactly if k is a multiple of 2^64. */
  lemma {:induction false} FirstRelayIff(a: Aead, json: Json, r: RelayState, lanes: seq<Lane>, k: nat, command: Byte, body: Bytes)
    requires Ideal(a) && Binding(a) && |lanes| > 0 && r.forward == lanes[0]
    requires Client.SendCommand(a, AdvanceAll(lanes, k), command, body).1.Some?
    ensures HandleCell(a, json, r, Client.SendCommand(a, AdvanceAll(lanes, k), command, body).1.value) == (r, Broken)
            <==> k % COUNTER_RANGE != 0
  {
    hide EncodeEnvelope, DecodeEnvelope;
    var ahead := AdvanceAll(lanes, k);
    var envelope := EncodeEnvelope(command, body).value;
    AheadIff(lanes[0].counter, 0, k);
    var inner := Onion(a, ahead, 1, envelope);
    var cell := Client.SendCommand(a, ahead, command, body).1.value;
    assert cell == a.seal(lanes[0].key, Ahead(lanes[0].counter, k), inner);
    if k % COUNTER_RANGE == 0 {
      assert a.open(r.forward.key, r.forward.counter, cell) == Some(inner);
      Moves(a, json, r, cell);
    }
  }

  lemma Moves(a: Aead, json: Json, r: RelayState, cell: Bytes)
    requires a.open(r.forward.key, r.forward.counter, cell).Some?
    ensures HandleCell(a, json, r, cell).0.forward == Stepped(r.forward) != r.forward
  {
  }

  /** Refused writes one after another. */
  function WriteTurns(a: Aead, lanes: seq<Lane>, writes: seq<Bytes>): seq<Lane>
    decreases |writes|
  {
    if writes == [] then lanes else WriteTurns(a, Client.WriteAll(a, lanes, writes[0]).lanes, writes[1..])
  }

  ghost predicate Oversized(hops: nat, p: Bytes) {
    p != [] && RELAY_ENVELOPE_SIZE + Client.ChunkSize(p) + RELAY_TAG_SIZE * hops > CELL_PAYLOAD_SIZE
  }

  lemma {:induction false} RefusalsAdvance(a: Aead, lanes: seq<Lane>, k: nat, writes: seq<Bytes>)
    requires Ideal(a) && forall p <- writes :: Oversized(|lanes|, p)
    ensures WriteTurns(a, AdvanceAll(lanes, k), writes) == AdvanceAll(lanes, k + |writes|)
    decreases |writes|
  {
    hide Client.WriteAll, Client.ChunkSize, Ideal;
    if writes != [] {
      assert writes[0] in writes;
      Client.WriteRefusedIff(a, AdvanceAll(lanes, k), writes[0]);
      AdvanceAllStep(lanes, k);
      assert forall p <- writes[1..] :: p in writes;
      RefusalsAdvance(a, lanes, k + 1, writes[1..]);
    }
  }

  lemma AdvanceAllTwice(lanes: seq<Lane>, j: nat, k: nat)
    ensures AdvanceAll(AdvanceAll(lanes, j), k) == AdvanceAll(lanes, j + k)
  {
    forall i | 0 <= i < |lanes|
      ensures Advanced(Advanced(lanes[i], j), k) == Advanced(lanes[i], j + k)
    {
      AdvancedTwice(lanes[i], j, k);
    }
  }

  /**
   * After refused writes the first relay rejects every later command, with its state unmoved,
   * until the refusals and the commands sent since make up a multiple of 2^64.
   */
  lemma {:induction false} RefusedWritesLoseCircuit(a: Aead, json: Json, r: RelayState, lanes: seq<Lane>, writes: seq<Bytes>, since: nat,
                                                    command: Byte, body: Bytes)
    requires Ideal(a) && Binding(a) && |lanes| > 0 && r.forward == lanes[0]
    requires forall p <- writes :: Oversized(|lanes|, p)
    requires Client.SendCommand(a, AdvanceAll(WriteTurns(a, lanes, writes), since), command, body).1.Some?
    ensures HandleCell(a, json, r, Client.SendCommand(a, AdvanceAll(WriteTurns(a, lanes, writes), since), command, body).1.value) == (r, Broken)
            <==> (|writes| + since) % COUNTER_RANGE != 0
  {
    hide HandleCell, Client.SendCommand, WriteTurns, Ideal, Binding, AdvanceAll;
    RefusalsAdvance(a, lanes, 0, writes);
    assert AdvanceAll(lanes, 0) == lanes;
    AdvanceAllTwice(lanes, |writes|, since);
    FirstRelayIff(a, json, r, lanes, |writes| + since, command, body);
  }
}
