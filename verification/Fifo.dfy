/** Whole runs of a circuit, and the byte channel they implement. */
module Fifo {
  import opened Wire
  import opened Cells
  import opened Layers
  import opened Relays
  import opened Channel

  /** Any interleaving of turns, each enabled when taken and each write free of look-alike layers. */
  predicate Runnable(a: Aead, json: Json, c: Circuit, steps: seq<Step>)
    decreases |steps|
  {
    steps == [] || (Enabled(c, steps[0]) && Clear(a, c, steps[0]) && Runnable(a, json, Apply(a, json, c, steps[0]), steps[1..]))
  }

  function After(a: Aead, json: Json, c: Circuit, steps: seq<Step>): Circuit
    requires Runnable(a, json, c, steps)
    decreases |steps|
  {
    if steps == [] then c else After(a, json, Apply(a, json, c, steps[0]), steps[1..])
  }

  lemma StepKeeps(a: Aead, json: Json, c0: Circuit, c: Circuit, d: seq<nat>, e: seq<nat>, s: Step)
    returns (d': seq<nat>, e': seq<nat>)
    requires Ideal(a) && Inv(a, c0, c, d, e) && Enabled(c, s) && Clear(a, c, s)
    ensures Inv(a, c0, Apply(a, json, c, s), d', e')
  {
    hide Inv, Apply;
    d', e' := d, e;
    match s {
      case Write(chunk) => WriteKeeps(a, json, c0, c, d, e, chunk);
      case Peel(i) => d' := PeelKeeps(a, json, c0, c, d, e, i);
      case Emit(chunk) => e' := EmitKeeps(a, json, c0, c, d, e, chunk);
      case Pass(i) => e' := PassKeeps(a, json, c0, c, d, e, i);
      case Receive => ReceiveKeeps(a, json, c0, c, d, e);
    }
  }

  lemma {:induction false} RunKeeps(a: Aead, json: Json, c0: Circuit, c: Circuit, d: seq<nat>, e: seq<nat>, steps: seq<Step>)
    returns (d': seq<nat>, e': seq<nat>)
    requires Ideal(a) && Inv(a, c0, c, d, e) && Runnable(a, json, c, steps)
    ensures Inv(a, c0, After(a, json, c, steps), d', e')
    decreases |steps|
  {
    hide Inv, Apply, Enabled, Clear;
    d', e' := d, e;
    if steps != [] {
      d', e' := StepKeeps(a, json, c0, c, d, e, steps[0]);
      d', e' := RunKeeps(a, json, c0, Apply(a, json, c, steps[0]), d', e', steps[1..]);
    }
  }

  /** Cells waiting on the first i links. */
  function Queued(links: seq<seq<Bytes>>, i: nat): nat
    requires i <= |links|
  {
    if i == 0 then 0 else Queued(links, i - 1) + |links[i - 1]|
  }

  lemma {:induction false} QueuedUp(a: Aead, c0: Circuit, c: Circuit, d: seq<nat>, e: seq<nat>, i: nat)
    requires Inv(a, c0, c, d, e) && i < |c0.relays|
    ensures d[i] + Queued(c.up, i + 1) == |c.written|
  {
    assert ForwardHop(a, c0.forward, c, d, i);
    if i > 0 {
      QueuedUp(a, c0, c, d, e, i - 1);
    }
  }

  lemma {:induction false} QueuedDown(a: Aead, c0: Circuit, c: Circuit, d: seq<nat>, e: seq<nat>, i: nat)
    requires Inv(a, c0, c, d, e) && i < |c0.relays|
    ensures e[i] == |c.received| + Queued(c.down, i + 1)
  {
    assert BackwardHop(a, c0.backward, c, e, i);
    if i > 0 {
      QueuedDown(a, c0, c, d, e, i - 1);
    }
  }

  /** The relay's counter plus the cells queued ahead of it is the client's counter, and back. */
  ghost predicate CountersAgree(c: Circuit) {
    && Shape(c, |c.relays|)
    && forall i :: 0 <= i < |c.relays| ==>
         && c.forward[i] == Advanced(c.relays[i].forward, Queued(c.up, i + 1))
         && c.relays[i].backward == Advanced(c.backward[i], Queued(c.down, i + 1))
  }

  ghost predicate AllFit(c: Circuit) {
    && (forall i, j :: 0 <= i < |c.up| && 0 <= j < |c.up[i]| ==> Fits(c.up[i][j]))
    && (forall i, j :: 0 <= i < |c.down| && 0 <= j < |c.down[i]| ==> Fits(c.down[i][j]))
  }

  lemma InvCounters(a: Aead, c0: Circuit, c: Circuit, d: seq<nat>, e: seq<nat>)
    requires Inv(a, c0, c, d, e)
    ensures CountersAgree(c)
  {
    hide Link, Advanced, AllClear;
    forall i | 0 <= i < |c.relays|
      ensures c.forward[i] == Advanced(c.relays[i].forward, Queued(c.up, i + 1))
      ensures c.relays[i].backward == Advanced(c.backward[i], Queued(c.down, i + 1))
    {
      QueuedUp(a, c0, c, d, e, i);
      QueuedDown(a, c0, c, d, e, i);
      assert ForwardHop(a, c0.forward, c, d, i) && BackwardHop(a, c0.backward, c, e, i);
      AdvancedTwice(c0.forward[i], d[i], Queued(c.up, i + 1));
      AdvancedTwice(c0.backward[i], |c.received|, Queued(c.down, i + 1));
    }
  }

  lemma LinkFits(a: Aead, base: seq<Lane>, messages: seq<Bytes>, queue: seq<Bytes>, from: nat, i: nat)
    requires Ideal(a) && i <= |base| <= MAX_RELAY_LAYERS && Sendable(messages)
    requires Link(a, base, messages, queue, from, i)
    ensures forall j :: 0 <= j < |queue| ==> Fits(queue[j])
  {
    hide Ideal, AdvanceAll;
    forall j | 0 <= j < |queue|
      ensures Fits(queue[j])
    {
      OnionLength(a, AdvanceAll(base, from + j), i, DataEnvelope(messages[from + j]));
    }
  }

  lemma InvFits(a: Aead, c0: Circuit, c: Circuit, d: seq<nat>, e: seq<nat>)
    requires Ideal(a) && Inv(a, c0, c, d, e)
    ensures AllFit(c)
  {
    hide Link, Ideal, AllClear, Advanced, AdvanceAll;
    forall i | 0 <= i < |c.relays|
      ensures forall j :: 0 <= j < |c.up[i]| ==> Fits(c.up[i][j])
      ensures forall j :: 0 <= j < |c.down[i]| ==> Fits(c.down[i][j])
    {
      assert ForwardHop(a, c0.forward, c, d, i) && BackwardHop(a, c0.backward, c, e, i);
      LinkFits(a, c0.forward, c.written, c.up[i], d[i], i);
      LinkFits(a, c0.backward, c.emitted, c.down[i], Consumed(c, e, i), i);
    }
  }

  /**
   * In every interleaving on a built circuit nobody fails to open a layer, the counters
   * stay matched, every cell in flight fits, and the bytes at each far end are a prefix
   * of the bytes sent from the near end.
   */
  lemma RunIsFifo(a: Aead, json: Json, c0: Circuit, steps: seq<Step>)
    requires Ideal(a) && Ready(c0) && Runnable(a, json, c0, steps)
    ensures var c := After(a, json, c0, steps);
      && !c.broken && CountersAgree(c) && AllFit(c)
      && Flatten(c.arrived) <= Flatten(c.written)
      && Flatten(c.received) <= Flatten(c.emitted)
  {
    hide Apply, Enabled, Clear, Runnable, After, Ideal, CountersAgree, AllFit, Ready;
    var c := After(a, json, c0, steps);
    var d, e := Initially(a, c0);
    d, e := RunKeeps(a, json, c0, c0, d, e, steps);
    InvCounters(a, c0, c, d, e);
    InvFits(a, c0, c, d, e);
    assert c.arrived == c.written[..d[|c0.relays| - 1]] && c.received == c.emitted[..|c.received|];
    FlattenPrefix(c.written, d[|c0.relays| - 1]);
    FlattenPrefix(c.emitted, |c.received|);
  }

  // ------------------------------------------------------------ refinement

  /** A plain FIFO byte pipe: what was put in and has not come out yet. */
  datatype PipeStep = Put(bytes: Bytes) | Take(bytes: Bytes)

  ghost predicate PipeMoves(before: Bytes, s: PipeStep, after: Bytes) {
    match s
    case Put(bytes) => after == before + bytes
    case Take(bytes) => before == bytes + after
  }

  /** The pipe a direction of the circuit stands for. */
  ghost function InTransit(sent: seq<Bytes>, got: seq<Bytes>): Bytes {
    if |Flatten(got)| <= |Flatten(sent)| then Flatten(sent)[|Flatten(got)|..] else []
  }

  /** What a turn means to the target's pipe, and to the client's. */
  ghost function Outward(c: Circuit, s: Step, c': Circuit): PipeStep {
    if s.Write? then Put(s.chunk)
    else Take(if |c'.arrived| > |c.arrived| then c'.arrived[|c'.arrived| - 1] else [])
  }

  ghost function Inward(c: Circuit, s: Step, c': Circuit): PipeStep {
    if s.Emit? then Put(s.chunk)
    else Take(if |c'.received| > |c.received| then c'.received[|c'.received| - 1] else [])
  }

  lemma PutRefines(sent: seq<Bytes>, got: seq<Bytes>, k: nat, chunk: Bytes)
    requires k <= |sent| && got == sent[..k]
    ensures PipeMoves(InTransit(sent, got), Put(chunk), InTransit(sent + [chunk], got))
  {
    hide Flatten;
    FlattenPrefix(sent, k);
    FlattenAppend(sent, chunk);
  }

  lemma TakeRefines(sent: seq<Bytes>, k: nat)
    requires k < |sent|
    ensures PipeMoves(InTransit(sent, sent[..k]), Take(sent[k]), InTransit(sent, sent[..k + 1]))
  {
    hide Flatten;
    FlattenPrefix(sent, k);
    FlattenPrefix(sent, k + 1);
    FlattenAppend(sent[..k], sent[k]);
    assert sent[..k] + [sent[k]] == sent[..k + 1];
  }

  /** Every turn of every run is one move, possibly of nothing, of each pipe. */
  lemma TurnRefines(a: Aead, json: Json, c0: Circuit, steps: seq<Step>, s: Step)
    requires Ideal(a) && Ready(c0) && Runnable(a, json, c0, steps)
    requires Enabled(After(a, json, c0, steps), s) && Clear(a, After(a, json, c0, steps), s)
    ensures var c := After(a, json, c0, steps); var c' := Apply(a, json, c, s);
      && PipeMoves(InTransit(c.written, c.arrived), Outward(c, s, c'), InTransit(c'.written, c'.arrived))
      && PipeMoves(InTransit(c.emitted, c.received), Inward(c, s, c'), InTransit(c'.emitted, c'.received))
  {
    hide Runnable, After, Ideal, Ready, Clear, InTransit, PipeMoves, Outward, Inward, Inv, Apply;
    var c := After(a, json, c0, steps);
    var d, e := Initially(a, c0);
    d, e := RunKeeps(a, json, c0, c0, d, e, steps);
    var d', e' := StepKeeps(a, json, c0, c, d, e, s);
    var c' := Apply(a, json, c, s);
    SentGrows(a, json, c0, c, c', d, e, d', e', s);
    PipesMove(c, c', s);
  }

  /** Exactly one history moves per turn, by one chunk. */
  ghost predicate Moves(c: Circuit, c': Circuit, s: Step) {
    && |c.arrived| <= |c.written| && c.arrived == c.written[..|c.arrived|]
    && |c'.arrived| <= |c'.written| && c'.arrived == c'.written[..|c'.arrived|]
    && |c.received| <= |c.emitted| && c.received == c.emitted[..|c.received|]
    && |c'.received| <= |c'.emitted| && c'.received == c'.emitted[..|c'.received|]
    && c'.written == (if s.Write? then c.written + [s.chunk] else c.written)
    && c'.emitted == (if s.Emit? then c.emitted + [s.chunk] else c.emitted)
    && |c'.arrived| == |c.arrived| + (if s.Peel? && s.i + 1 == |c.relays| then 1 else 0)
    && |c'.received| == |c.received| + (if s.Receive? then 1 else 0)
  }

  lemma SentGrows(a: Aead, json: Json, c0: Circuit, c: Circuit, c': Circuit, d: seq<nat>, e: seq<nat>,
                  d': seq<nat>, e': seq<nat>, s: Step)
    requires Ideal(a) && Inv(a, c0, c, d, e) && Enabled(c, s) && Clear(a, c, s)
    requires c' == Apply(a, json, c, s) && Inv(a, c0, c', d', e')
    ensures Moves(c, c', s)
  {
    hide Link, Advanced, AdvanceAll, AllClear, Layer;
    match s {
      case Write(chunk) => WriteKeeps(a, json, c0, c, d, e, chunk);
      case Peel(i) => PeelCounts(a, json, c0, c, d, e, i);
      case Emit(chunk) => var _ := EmitKeeps(a, json, c0, c, d, e, chunk);
      case Pass(i) =>
      case Receive => ReceiveKeeps(a, json, c0, c, d, e);
    }
  }

  lemma PeelCounts(a: Aead, json: Json, c0: Circuit, c: Circuit, d: seq<nat>, e: seq<nat>, i: nat)
    requires Ideal(a) && Inv(a, c0, c, d, e) && Enabled(c, Peel(i))
    ensures |Apply(a, json, c, Peel(i)).arrived| == |c.arrived| + (if i + 1 == |c.relays| then 1 else 0)
  {
    hide Link, Layer, ClearLayers, Advanced, AdvanceAll, HandleCell, DataEnvelope, Ideal;
    var base, k := c0.forward, d[i];
    assert ForwardHop(a, base, c, d, i) && RoleKept(|c0.relays|, c, i);
    LinkFront(a, base, c.written, c.up[i], k, i);
    PeelIs(a, json, c.relays[i], base, k, i, c.written[k]);
    PeelShape(a, json, c0, c, i, Advanced(base[i], k + 1));
  }

  lemma PipesMove(c: Circuit, c': Circuit, s: Step)
    requires Moves(c, c', s)
    ensures PipeMoves(InTransit(c.written, c.arrived), Outward(c, s, c'), InTransit(c'.written, c'.arrived))
    ensures PipeMoves(InTransit(c.emitted, c.received), Inward(c, s, c'), InTransit(c'.emitted, c'.received))
  {
    hide InTransit;
    if s.Write? {
      PutRefines(c.written, c.arrived, |c.arrived|, s.chunk);
      assert c'.arrived == c.arrived;
    } else if |c'.arrived| > |c.arrived| {
      TakeRefines(c.written, |c.arrived|);
    } else {
      assert c'.arrived == c.arrived;
    }
    if s.Emit? {
      PutRefines(c.emitted, c.received, |c.received|, s.chunk);
      assert c'.received == c.received;
    } else if |c'.received| > |c.received| {
      TakeRefines(c.emitted, |c.received|);
    } else {
      assert c'.received == c.received;
    }
  }
}
