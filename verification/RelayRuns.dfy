/** A relay's whole life: what its history says about what it does with the next command. */
module RelayRuns {
  import opened Wire
  import opened Cells
  import opened Layers
  import opened Relays

  /** What happens to a relay: a command for it, a dial it was waiting for, or the end of one of its connections. */
  datatype Happening =
    | Told(command: Byte, body: Bytes)
    | Extended(answer: DialAnswer)
    | Begun(reached: bool)
    | TargetGone
    | OutboundGone

  function After(a: Aead, json: Json, r: RelayState, e: Happening): (RelayState, Effect) {
    match e
    case Told(command, body) => RelayCommand(a, json, r, command, body)
    case Extended(answer) => FinishExtend(a, json, r, answer)
    case Begun(reached) => FinishBegin(a, json, r, reached)
    case TargetGone => LoseTarget(a, r)
    case OutboundGone => LoseOutbound(a, r)
  }

  function Finally(a: Aead, json: Json, r: RelayState, events: seq<Happening>): RelayState {
    if events == [] then r
    else After(a, json, Finally(a, json, r, events[..|events| - 1]), events[|events| - 1]).0
  }

  /** A cell that opens to a command is that command, with the forward counter moved. */
  lemma CellIsCommand(a: Aead, json: Json, r: RelayState, payload: Bytes, command: Byte, body: Bytes)
    requires a.open(r.forward.key, r.forward.counter, payload).Some?
    requires DecodeEnvelope(a.open(r.forward.key, r.forward.counter, payload).value) == Command(command, body)
    ensures HandleCell(a, json, r, payload) == After(a, json, r.(forward := Stepped(r.forward)), Told(command, body))
  {
  }

  predicate OpensTarget(e: Happening) {
    e.Begun? && e.reached
  }

  predicate ClosesTarget(e: Happening) {
    e.TargetGone? || (e.Told? && e.command == CMD_END)
  }

  predicate OpensOutbound(e: Happening) {
    e.Extended? && e.answer.Answered? && e.answer.kind == CELL_CREATED
  }

  /** A target was reached and neither ended nor was ended since. */
  ghost predicate HasTarget(events: seq<Happening>) {
    exists i :: 0 <= i < |events| && OpensTarget(events[i]) && forall j :: i < j < |events| ==> !ClosesTarget(events[j])
  }

  /** A next hop answered and has not gone since. */
  ghost predicate HasOutbound(events: seq<Happening>) {
    exists i :: 0 <= i < |events| && OpensOutbound(events[i]) && forall j :: i < j < |events| ==> !events[j].OutboundGone?
  }

  lemma Replying(a: Aead, r: RelayState, command: Byte, body: Bytes)
    ensures var r' := SendBackward(a, r, command, body).0; r'.target == r.target && r'.outbound == r.outbound && r'.forward == r.forward
  {
  }

  lemma AfterIs(a: Aead, json: Json, r: RelayState, e: Happening)
    ensures var r' := After(a, json, r, e).0;
      && r'.target == (if OpensTarget(e) then true else if ClosesTarget(e) then false else r.target)
      && r'.outbound == (if OpensOutbound(e) then true else if e.OutboundGone? then false else r.outbound)
  {
  }

  lemma {:induction false} HasTargetLast(events: seq<Happening>, e: Happening)
    ensures HasTarget(events + [e]) <==> OpensTarget(e) || (HasTarget(events) && !ClosesTarget(e))
  {
    var all := events + [e];
    if HasTarget(all) {
      var i :| 0 <= i < |all| && OpensTarget(all[i]) && forall j :: i < j < |all| ==> !ClosesTarget(all[j]);
      if i < |events| {
        assert events[i] == all[i] && all[|events|] == e;
        assert forall j :: i < j < |events| ==> events[j] == all[j];
      }
    }
    if OpensTarget(e) {
      assert all[|events|] == e;
    } else if HasTarget(events) && !ClosesTarget(e) {
      var i :| 0 <= i < |events| && OpensTarget(events[i]) && forall j :: i < j < |events| ==> !ClosesTarget(events[j]);
      assert all[i] == events[i];
    }
  }

  lemma {:induction false} HasOutboundLast(events: seq<Happening>, e: Happening)
    ensures HasOutbound(events + [e]) <==> OpensOutbound(e) || (HasOutbound(events) && !e.OutboundGone?)
  {
    var all := events + [e];
    if HasOutbound(all) {
      var i :| 0 <= i < |all| && OpensOutbound(all[i]) && forall j :: i < j < |all| ==> !all[j].OutboundGone?;
      if i < |events| {
        assert events[i] == all[i] && all[|events|] == e;
        assert forall j :: i < j < |events| ==> events[j] == all[j];
      }
    }
    if OpensOutbound(e) {
      assert all[|events|] == e;
    } else if HasOutbound(events) && !e.OutboundGone? {
      var i :| 0 <= i < |events| && OpensOutbound(events[i]) && forall j :: i < j < |events| ==> !events[j].OutboundGone?;
      assert all[i] == events[i];
    }
  }

  /** Whether a relay has a target, and a next hop, is what its history says. */
  lemma {:induction false} HistoryTells(a: Aead, json: Json, r: RelayState, events: seq<Happening>)
    requires !r.target && !r.outbound
    ensures Finally(a, json, r, events).target <==> HasTarget(events)
    ensures Finally(a, json, r, events).outbound <==> HasOutbound(events)
  {
    hide After, HasTarget, HasOutbound;
    if events == [] {
      NothingYet();
    } else {
      var front, last := events[..|events| - 1], events[|events| - 1];
      assert events == front + [last];
      HistoryTells(a, json, r, front);
      AfterIs(a, json, Finally(a, json, r, front), last);
      HasTargetLast(front, last);
      HasOutboundLast(front, last);
    }
  }

  lemma NothingYet()
    ensures !HasTarget([]) && !HasOutbound([])
  {
  }

  /** Data is handed to the target exactly while there is one; else it earns the error that there is none. */
  lemma DataGoes(a: Aead, json: Json, r: RelayState, events: seq<Happening>, body: Bytes)
    requires !r.target && !r.outbound
    ensures var s := Finally(a, json, r, events);
      After(a, json, s, Told(CMD_DATA, body)) == if HasTarget(events) then (s, Delivered(body)) else SendBackward(a, s, CMD_ERROR, json.report(NoTarget))
  {
    hide Finally, HasTarget, HasOutbound;
    HistoryTells(a, json, r, events);
  }

  /** After an end no data is delivered until a begin succeeds again. */
  lemma NothingAfterEnd(a: Aead, json: Json, r: RelayState, before: seq<Happening>, body: Bytes, since: seq<Happening>, chunk: Bytes)
    requires !r.target && !r.outbound && forall e <- since :: !OpensTarget(e)
    ensures var s := Finally(a, json, r, before + [Told(CMD_END, body)] + since);
      After(a, json, s, Told(CMD_DATA, chunk)) == SendBackward(a, s, CMD_ERROR, json.report(NoTarget))
  {
    hide Finally, HasOutbound;
    var events := before + [Told(CMD_END, body)] + since;
    DataGoes(a, json, r, events, chunk);
    var n := |before|;
    assert events[n] == Told(CMD_END, body);
    forall i | n < i < |events|
      ensures !OpensTarget(events[i])
    {
      assert events[i] == since[i - n - 1];
    }
  }

  /** An end is answered in kind. */
  lemma EndAnswered(a: Aead, json: Json, r: RelayState, body: Bytes)
    ensures After(a, json, r, Told(CMD_END, body)).1 == SendBackward(a, r, CMD_END, []).1
  {
  }

  /** A relay asked to extend dials the address and expects the node it was told, exactly if it has no next hop yet. */
  lemma ExtendGoes(a: Aead, json: Json, r: RelayState, events: seq<Happening>, body: Bytes, next: string, node: string, key: Bytes)
    requires !r.target && !r.outbound && json.extend(body) == Some(ExtendCommand(next, node, Some(key)))
    ensures var s := Finally(a, json, r, events);
      After(a, json, s, Told(CMD_EXTEND, body))
      == if next != "" && |key| == 32 && !HasOutbound(events) then (s, ExtendAsked(ExtendCommand(next, node, Some(key))))
         else SendBackward(a, s, CMD_ERROR, json.report(if next == "" then MissingNextHop else if |key| != 32 then BadClientKeySize else AlreadyExtended))
  {
    hide Finally, HasTarget, HasOutbound;
    HistoryTells(a, json, r, events);
  }

  /** A relay asked to begin dials the address it was told, exactly if it has no target. */
  lemma BeginGoes(a: Aead, json: Json, r: RelayState, events: seq<Happening>, body: Bytes, addr: string)
    requires !r.target && !r.outbound && json.begin(body) == Some(addr)
    ensures var s := Finally(a, json, r, events);
      After(a, json, s, Told(CMD_BEGIN, body))
      == if addr != "" && !HasTarget(events) then (s, BeginAsked(addr))
         else SendBackward(a, s, CMD_ERROR, json.report(if addr == "" then MissingTarget else AlreadyHasTarget))
  {
    hide Finally, HasTarget, HasOutbound;
    HistoryTells(a, json, r, events);
  }

  /** The outcome of a dial is reported: the answer itself, or what went wrong. */
  lemma DialReported(a: Aead, json: Json, r: RelayState, answer: DialAnswer, reached: bool)
    ensures var created := answer.Answered? && answer.kind == CELL_CREATED;
      After(a, json, r, Extended(answer))
      == if created then SendBackward(a, r.(outbound := true), CMD_EXTENDED, answer.payload)
         else SendBackward(a, r, CMD_ERROR, json.report(if answer.Unreachable? then DialFailed else NotCreated(answer.kind)))
    ensures After(a, json, r, Begun(reached))
      == if reached then SendBackward(a, r.(target := true), CMD_CONNECTED, []) else SendBackward(a, r, CMD_ERROR, json.report(TargetUnreachable))
  {
  }
}
