/** The client end of a circuit: layering on write, unwrapping on read. */
module Client {
  import opened Wire
  import opened Cells
  import opened Layers

  /**
   * Sends one relay command through every hop. None means the command was refused:
   * a body over the envelope limit leaves the counters alone, a cell over the cell
   * limit is refused after every counter has already moved.
   */
  function SendCommand(a: Aead, lanes: seq<Lane>, command: Byte, body: Bytes): (r: (seq<Lane>, Option<Bytes>))
    ensures |r.0| == |lanes|
  {
    match EncodeEnvelope(command, body)
    case None => (lanes, None)
    case Some(envelope) =>
      var payload := Onion(a, lanes, 0, envelope);
      (StepAll(lanes), if Fits(payload) then Some(payload) else None)
  }

  /** A data chunk is accepted exactly when envelope and one tag per hop still fit the cell. */
  lemma SendFits(a: Aead, lanes: seq<Lane>, command: Byte, body: Bytes)
    requires Ideal(a)
    ensures SendCommand(a, lanes, command, body).1.Some? <==>
            |body| <= MAX_RELAY_DATA_PAYLOAD
            && RELAY_ENVELOPE_SIZE + |body| + RELAY_TAG_SIZE * |lanes| <= CELL_PAYLOAD_SIZE
    ensures |lanes| <= MAX_RELAY_LAYERS && |body| <= MAX_RELAY_DATA_PAYLOAD ==>
            SendCommand(a, lanes, command, body).1.Some?
  {
    var envelope := EncodeEnvelope(command, body);
    if envelope.Some? {
      OnionLength(a, lanes, 0, envelope.value);
    }
  }

  datatype Written = Written(lanes: seq<Lane>, cells: seq<Bytes>, total: nat, ok: bool)

  function ChunkSize(p: Bytes): nat {
    if |p| > MAX_RELAY_DATA_PAYLOAD then MAX_RELAY_DATA_PAYLOAD else |p|
  }

  /** Splits p into data cells until done or refused. */
  function WriteAll(a: Aead, lanes: seq<Lane>, p: Bytes): (w: Written)
    ensures |w.lanes| == |lanes| && w.total <= |p|
    decreases |p|
  {
    if p == [] then Written(lanes, [], 0, true)
    else
      var n := ChunkSize(p);
      var (lanes', cell) := SendCommand(a, lanes, CMD_DATA, p[..n]);
      if cell.None? then Written(lanes', [], 0, false)
      else
        var rest := WriteAll(a, lanes', p[n..]);
        rest.(cells := [cell.value] + rest.cells, total := n + rest.total)
  }

  /** A write of which the first total bytes have gone out as the cells in done. */
  function Sofar(a: Aead, lanes: seq<Lane>, done: seq<Bytes>, total: nat, rest: Bytes): Written {
    var w := WriteAll(a, lanes, rest);
    w.(cells := done + w.cells, total := total + w.total)
  }

  lemma SofarNone(a: Aead, lanes: seq<Lane>, done: seq<Bytes>, p: Bytes)
    ensures Sofar(a, lanes, done, 0, p) == WriteAll(a, lanes, p).(cells := done + WriteAll(a, lanes, p).cells)
  {
    hide WriteAll;
  }

  lemma SofarDone(a: Aead, lanes: seq<Lane>, done: seq<Bytes>, total: nat)
    ensures Sofar(a, lanes, done, total, []) == Written(lanes, done, total, true)
  {
    assert done + [] == done;
  }

  lemma SofarStep(a: Aead, lanes: seq<Lane>, done: seq<Bytes>, total: nat, rest: Bytes)
    requires rest != []
    ensures var n := ChunkSize(rest);
      var (lanes', cell) := SendCommand(a, lanes, CMD_DATA, rest[..n]);
      Sofar(a, lanes, done, total, rest)
      == if cell.None? then Written(lanes', done, total, false) else Sofar(a, lanes', done + [cell.value], total + n, rest[n..])
  {
    hide SendCommand;
    var n := ChunkSize(rest);
    var (lanes', cell) := SendCommand(a, lanes, CMD_DATA, rest[..n]);
    assert done + [] == done;
    if cell.Some? {
      var after := WriteAll(a, lanes', rest[n..]);
      assert done + ([cell.value] + after.cells) == done + [cell.value] + after.cells;
    }
  }

  function Chunks(p: Bytes): seq<Bytes>
    decreases |p|
  {
    if p == [] then [] else [p[..ChunkSize(p)]] + Chunks(p[ChunkSize(p)..])
  }

  /** A write on a circuit within the hop limit is never refused, and costs one cell per chunk. */
  lemma {:induction false} WriteAllComplete(a: Aead, lanes: seq<Lane>, p: Bytes)
    requires Ideal(a) && |lanes| <= MAX_RELAY_LAYERS
    ensures var w := WriteAll(a, lanes, p); w.ok && w.total == |p| && |w.cells| == |Chunks(p)|
    decreases |p|
  {
    if p != [] {
      var n := ChunkSize(p);
      SendFits(a, lanes, CMD_DATA, p[..n]);
      WriteAllComplete(a, StepAll(lanes), p[n..]);
    }
  }

  lemma {:induction false} ChunksFlatten(p: Bytes)
    ensures Flatten(Chunks(p)) == p
    decreases |p|
  {
    if p != [] {
      var n := ChunkSize(p);
      ChunksFlatten(p[n..]);
      FlattenCons(p[..n], Chunks(p[n..]));
      assert p == p[..n] + p[n..];
    }
  }

  /** Every chunk but the last is as large as a cell can carry through five hops, and none is empty. */
  lemma {:induction false} ChunksFull(p: Bytes)
    ensures forall i :: 0 <= i < |Chunks(p)| ==> 0 < |Chunks(p)[i]| <= 917 && (i < |Chunks(p)| - 1 ==> |Chunks(p)[i]| == 917)
    decreases |p|
  {
    if p != [] {
      ChunksFull(p[ChunkSize(p)..]);
      assert |p| <= 917 ==> Chunks(p[ChunkSize(p)..]) == [];
    }
  }

  lemma {:induction false} FlattenCons(chunk: Bytes, chunks: seq<Bytes>)
    ensures Flatten([chunk] + chunks) == chunk + Flatten(chunks)
  {
    if chunks == [] {
      assert [chunk] + chunks == [chunk];
      assert Flatten([chunk]) == Flatten([]) + chunk;
    } else {
      var init := chunks[..|chunks| - 1];
      FlattenCons(chunk, init);
      assert ([chunk] + chunks)[..|chunks|] == [chunk] + init;
    }
  }

  /** A write is refused exactly if its first chunk does not fit, with nothing sent and every counter moved once. */
  lemma {:induction false} WriteRefusedIff(a: Aead, lanes: seq<Lane>, p: Bytes)
    requires Ideal(a)
    ensures WriteAll(a, lanes, p).ok <==>
            p == [] || RELAY_ENVELOPE_SIZE + ChunkSize(p) + RELAY_TAG_SIZE * |lanes| <= CELL_PAYLOAD_SIZE
    ensures !WriteAll(a, lanes, p).ok ==> WriteAll(a, lanes, p) == Written(StepAll(lanes), [], 0, false)
    decreases |p|
  {
    if p != [] {
      var n := ChunkSize(p);
      SendFits(a, lanes, CMD_DATA, p[..n]);
      if SendCommand(a, lanes, CMD_DATA, p[..n]).1.Some? {
        WriteRefusedIff(a, StepAll(lanes), p[n..]);
      }
    }
  }

  datatype Incoming =
    | Data(body: Bytes)
    | Ignored
    | Closed             // end, error, destroyed or undecodable

  function Receive(a: Aead, lanes: seq<Lane>, payload: Bytes): (r: (seq<Lane>, Incoming))
    ensures |r.0| == |lanes|
  {
    var (lanes', plain) := OpenAll(a, lanes, 0, payload);
    (lanes', if plain.None? then Closed else Classify(plain.value))
  }

  function Classify(plain: Bytes): Incoming {
    match DecodeEnvelope(plain)
    case Opaque => Closed
    case Malformed => Closed
    case Command(command, body) =>
      if command == CMD_DATA then Data(body)
      else if command == CMD_END || command == CMD_ERROR then Closed
      else Ignored
  }

  /** What a reply sealed through all hops comes to: data is data, an end or an error closes, anything else is passed over. */
  lemma ReplyMeans(a: Aead, lanes: seq<Lane>, command: Byte, body: Bytes)
    requires Ideal(a) && |body| <= 917
    ensures EncodeEnvelope(command, body).Some?
    ensures Receive(a, lanes, Onion(a, lanes, 0, EncodeEnvelope(command, body).value))
         == (StepAll(lanes), if command == 5 then Data(body) else if command == 6 || command == 7 then Closed else Ignored)
  {
    hide Onion, OpenAll, EncodeEnvelope, DecodeEnvelope;
    EnvelopeRoundTrip(command, body);
    OpenAllOnion(a, lanes, 0, EncodeEnvelope(command, body).value);
    assert lanes[..0] + StepAll(lanes)[0..] == StepAll(lanes);
  }

  class ClientCircuit {
    const aead: Aead
    const hops: seq<CircuitKeys>
    var sent: seq<Bytes>       // payloads of the relay cells written to the first hop
    var inbox: seq<Bytes>      // data bodies not yet taken by Read
    var readBuf: Bytes
    var closed: bool           // the read pump has stopped, leaving one error behind
    var told: bool             // a Read has taken that error

    ghost predicate Valid() {
      && (forall i :: 0 <= i < |hops| ==> hops[i].aead == aead)
      && (forall i, j :: 0 <= i < j < |hops| ==> hops[i] != hops[j])
    }

    constructor (aead: Aead, hops: seq<CircuitKeys>)
      requires forall i :: 0 <= i < |hops| ==> hops[i].aead == aead
      requires forall i, j :: 0 <= i < j < |hops| ==> hops[i] != hops[j]
      ensures Valid() && this.aead == aead && this.hops == hops
      ensures sent == [] && inbox == [] && readBuf == [] && !closed && !told
    {
      this.aead := aead;
      this.hops := hops;
      sent, inbox, readBuf, closed, told := [], [], [], false, false;
    }

    ghost function Forward(): (r: seq<Lane>)
      reads hops
      ensures |r| == |hops|
    {
      seq(|hops|, i requires 0 <= i < |hops| reads hops => hops[i].Forward())
    }

    ghost function Backward(): (r: seq<Lane>)
      reads hops
      ensures |r| == |hops|
    {
      seq(|hops|, i requires 0 <= i < |hops| reads hops => hops[i].Backward())
    }

    /** Seals for the last hop first, so that the first hop's layer is outermost. */
    method Wrap(envelope: Bytes) returns (payload: Bytes)
      requires Valid()
      modifies hops
      ensures payload == Onion(aead, old(Forward()), 0, envelope)
      ensures Forward() == StepAll(old(Forward()))
      ensures Backward() == old(Backward())
    {
      ghost var lanes := Forward();
      payload := envelope;
      for i := |hops| downto 0
        invariant payload == Onion(aead, lanes, i, envelope)
        invariant forall j :: 0 <= j < i ==> hops[j].forwardCounter == old(hops[j].forwardCounter)
        invariant forall j :: i <= j < |hops| ==> hops[j].forwardCounter == NextCounter(old(hops[j].forwardCounter))
        invariant forall j :: 0 <= j < |hops| ==> hops[j].backwardCounter == old(hops[j].backwardCounter)
      {
        assert lanes[i] == hops[i].Forward();
        payload := hops[i].SealForward(payload);
      }
    }

    method SendRelayCommand(command: Byte, body: Bytes) returns (ok: bool)
      requires Valid()
      modifies this`sent, hops
      ensures var (lanes, cell) := SendCommand(aead, old(Forward()), command, body);
        && Forward() == lanes && Backward() == old(Backward())
        && ok == cell.Some?
        && sent == if ok then old(sent) + [cell.value] else old(sent)
    {
      var envelope := EncodeEnvelope(command, body);
      if envelope.None? {
        return false;
      }
      var payload := Wrap(envelope.value);
      ok := Fits(payload);
      if ok {
        sent := sent + [payload];
      }
    }

    method Write(p: Bytes) returns (total: nat, ok: bool)
      requires Valid()
      modifies this`sent, hops
      ensures var w := WriteAll(aead, old(Forward()), p);
        && Forward() == w.lanes && Backward() == old(Backward())
        && total == w.total && ok == w.ok
        && sent == old(sent) + w.cells
    {
      hide WriteAll, SendCommand, Sofar, Forward, Backward, Valid;
      total := 0;
      var rest := p;
      ghost var goal := Sofar(aead, Forward(), sent, 0, p);
      SofarNone(aead, Forward(), sent, p);
      while rest != []
        invariant Backward() == old(Backward())
        invariant goal == Sofar(aead, Forward(), sent, total, rest)
        decreases |rest|
      {
        var n := ChunkSize(rest);
        SofarStep(aead, Forward(), sent, total, rest);
        var accepted := SendRelayCommand(CMD_DATA, rest[..n]);
        if !accepted {
          return total, false;
        }
        total, rest := total + n, rest[n..];
      }
      SofarDone(aead, Forward(), sent, total);
      ok := true;
    }

    /** One turn of the read pump on a relay cell. */
    method ReceiveCell(payload: Bytes)
      requires Valid()
      modifies this`inbox, this`closed, hops
      ensures var (lanes, incoming) := Receive(aead, old(Backward()), payload);
        && Backward() == lanes && Forward() == old(Forward())
        && closed == (old(closed) || incoming == Closed)
        && inbox == if incoming.Data? then old(inbox) + [incoming.body] else old(inbox)
    {
      ghost var start := Backward();
      ghost var lanes := start;
      var layer := payload;
      for i := 0 to |hops|
        invariant |lanes| == |hops| && Backward() == lanes
        invariant Forward() == old(Forward())
        invariant inbox == old(inbox) && closed == old(closed)
        invariant OpenAll(aead, start, 0, payload) == OpenAll(aead, lanes, i, layer)
      {
        var inner := hops[i].OpenBackward(layer);
        assert Forward() == old(Forward());
        if inner.None? {
          assert Backward() == lanes;
          closed := true;
          return;
        }
        lanes := lanes[i := Stepped(lanes[i])];
        assert Backward() == lanes;
        layer := inner.value;
      }
      var incoming := Classify(layer);
      if incoming.Data? {
        inbox := inbox + [incoming.body];
      } else if incoming.Closed? {
        closed := true;
      }
    }

    ghost function View(): Pipe
      reads this
    {
      Pipe(readBuf, inbox, closed && !told)
    }

    /** Takes up to max bytes. With both a body and the error waiting, either may be chosen. */
    method Read(max: nat) returns (out: Taken)
      modifies this`inbox, this`readBuf, this`told
      ensures Reads(old(View()), max, View(), out)
    {
      while readBuf == []
        invariant Unread(View()) == Unread(old(View())) && told == old(told)
        invariant old(readBuf) != [] ==> readBuf != []
        decreases |inbox| + (if readBuf == [] then 1 else 0)
      {
        var ended := closed && !told;
        if inbox == [] && !ended {
          return Nothing;
        }
        var takeBody := true;
        if ended {
          if * {
            takeBody := inbox != [];
          } else {
            takeBody := false;
          }
        }
        if !takeBody {
          told := true;
          return End;
        }
        FlattenCons(inbox[0], inbox[1..]);
        assert [inbox[0]] + inbox[1..] == inbox;
        readBuf, inbox := inbox[0], inbox[1..];
      }
      var n := if |readBuf| > max then max else |readBuf|;
      out := Got(readBuf[..n]);
      assert readBuf == readBuf[..n] + readBuf[n..];
      readBuf := readBuf[n..];
    }
  }

  // -------------------------------------------------------------------- reading

  /** What waits for the reader: bytes taken up, bodies queued, and whether an end or error does. */
  datatype Pipe = Pipe(readBuf: Bytes, inbox: seq<Bytes>, ended: bool)

  datatype Taken = Got(bytes: Bytes) | End | Nothing

  /** Bytes received but not yet read, in arrival order. */
  ghost function Unread(p: Pipe): Bytes {
    p.readBuf + Flatten(p.inbox)
  }

  /** One read; Nothing stands for waiting. */
  ghost predicate Reads(p: Pipe, max: nat, p': Pipe, out: Taken) {
    match out
    case Got(bytes) => Unread(p) == bytes + Unread(p') && |bytes| <= max && (max > 0 ==> bytes != []) && p'.ended == p.ended
    case End => p.ended && !p'.ended && p.readBuf == [] == p'.readBuf && Unread(p') == Unread(p)
    case Nothing => !p.ended && !p'.ended && Unread(p) == [] == Unread(p')
  }

  ghost predicate Turn(p: Pipe, p': Pipe, out: Taken) {
    exists max :: Reads(p, max, p', out)
  }

  /** Reads one after another with nothing arriving in between. */
  ghost predicate ReadRun(pipes: seq<Pipe>, outs: seq<Taken>) {
    |pipes| == |outs| + 1 && forall i :: 0 <= i < |outs| ==> Turn(pipes[i], pipes[i + 1], outs[i])
  }

  ghost function Handed(outs: seq<Taken>): Bytes {
    if outs == [] then []
    else
      var last := outs[|outs| - 1];
      Handed(outs[..|outs| - 1]) + (if last.Got? then last.bytes else [])
  }

  lemma RunFront(pipes: seq<Pipe>, outs: seq<Taken>)
    requires ReadRun(pipes, outs) && outs != []
    ensures var n := |outs| - 1; |pipes| == n + 2 && ReadRun(pipes[..n + 1], outs[..n]) && Turn(pipes[n], pipes[n + 1], outs[n])
  {
    hide Turn;
    var n := |outs| - 1;
    forall i | 0 <= i < n
      ensures Turn(pipes[..n + 1][i], pipes[..n + 1][i + 1], outs[..n][i])
    {
      assert Turn(pipes[i], pipes[i + 1], outs[i]);
    }
  }

  /** Reads hand out the bytes in order, none lost and none twice. */
  lemma {:induction false} ReadsConserve(pipes: seq<Pipe>, outs: seq<Taken>)
    requires ReadRun(pipes, outs)
    ensures Unread(pipes[0]) == Handed(outs) + Unread(pipes[|outs|])
    decreases |outs|
  {
    hide Unread, ReadRun;
    if outs != [] {
      var n := |outs| - 1;
      RunFront(pipes, outs);
      ReadsConserve(pipes[..n + 1], outs[..n]);
      if outs[n].Got? {
        assert Handed(outs[..n]) + (outs[n].bytes + Unread(pipes[n + 1])) == (Handed(outs[..n]) + outs[n].bytes) + Unread(pipes[n + 1]);
      } else {
        assert Handed(outs[..n]) + [] == Handed(outs[..n]);
      }
    }
  }

  /** The end is told at most once, and only if it was waiting. */
  lemma {:induction false} EndToldOnce(pipes: seq<Pipe>, outs: seq<Taken>)
    requires ReadRun(pipes, outs)
    ensures pipes[|outs|].ended ==> pipes[0].ended
    ensures forall i :: 0 <= i < |outs| && outs[i].End? ==> pipes[0].ended && !pipes[|outs|].ended
    ensures forall i, j :: 0 <= i < j < |outs| && outs[i].End? ==> !outs[j].End?
    decreases |outs|
  {
    hide Unread, ReadRun;
    if outs != [] {
      var n := |outs| - 1;
      RunFront(pipes, outs);
      EndToldOnce(pipes[..n + 1], outs[..n]);
      assert forall i :: 0 <= i < n ==> outs[..n][i] == outs[i];
    }
  }

  /** A reader told of the end has had every byte if and only if no body with bytes was queued then. */
  lemma EndIsLastIff(pipes: seq<Pipe>, outs: seq<Taken>)
    requires ReadRun(pipes, outs) && outs != [] && outs[|outs| - 1].End?
    ensures Handed(outs) == Unread(pipes[0]) <==> Flatten(pipes[|outs| - 1].inbox) == []
  {
    hide Handed, ReadRun, Flatten;
    ReadsConserve(pipes, outs);
    RunFront(pipes, outs);
    var n := |outs| - 1;
    Whole(Unread(pipes[0]), Handed(outs), Unread(pipes[n + 1]));
    assert [] + Flatten(pipes[n].inbox) == Flatten(pipes[n].inbox);
  }

  lemma Whole(all: Bytes, front: Bytes, rest: Bytes)
    requires all == front + rest
    ensures front == all <==> rest == []
  {
    assert |all| == |front| + |rest|;
    assert front + [] == front;
  }

  /** And bodies may well be queued: the end can be told before any of them. */
  lemma EndMayComeFirst(inbox: seq<Bytes>)
    ensures var p := Pipe([], inbox, true); ReadRun([p, p.(ended := false)], [End])
  {
    var p := Pipe([], inbox, true);
    assert Reads(p, 0, p.(ended := false), End);
    assert Turn(p, p.(ended := false), End);
  }
}
