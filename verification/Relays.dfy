/** One relay of a circuit: what it does with a cell from either side. */
module Relays {
  import opened Wire
  import opened Cells
  import opened Layers

  datatype RelayState = RelayState(forward: Lane, backward: Lane, outbound: bool, target: bool)

  /** A decoded extend request; the client key is None when its base64 does not decode. */
  datatype ExtendCommand = ExtendCommand(nextHop: string, expectedNodeId: string, clientKey: Option<Bytes>)

  datatype Problem =
    | BadExtend | BadBegin | NoTarget | Unsupported(command: Byte)
    | MissingNextHop | BadClientKey | BadClientKeySize | AlreadyExtended
    | DialFailed | NotCreated(kind: Byte)
    | MissingTarget | AlreadyHasTarget | TargetUnreachable

  /** JSON bodies of the relay commands. */
  datatype Json = Json(
    extend: Bytes -> Option<ExtendCommand>,
    begin: Bytes -> Option<string>,
    report: Problem -> Bytes)

  datatype Effect =
    | Forwarded(payload: Bytes)       // relay cell written to the next hop
    | Delivered(body: Bytes)          // bytes written to the target
    | ExtendAsked(request: ExtendCommand)
    | BeginAsked(targetAddr: string)
    | Replied(payload: Bytes)         // relay cell written toward the client
    | Broken                          // the serve loop ends and the circuit closes

  /** The next relay's reply to a forwarded create cell. */
  datatype DialAnswer = Unreachable | Answered(kind: Byte, payload: Bytes)

  /** One more backward layer around a payload, then onto the inbound connection. */
  function SealInbound(a: Aead, r: RelayState, payload: Bytes): (RelayState, Effect) {
    var sealed := a.seal(r.backward.key, r.backward.counter, payload);
    (r.(backward := Stepped(r.backward)), if Fits(sealed) then Replied(sealed) else Broken)
  }

  function SendBackward(a: Aead, r: RelayState, command: Byte, body: Bytes): (RelayState, Effect) {
    match EncodeEnvelope(command, body)
    case None => (r, Broken)
    case Some(payload) => SealInbound(a, r, payload)
  }

  function SendError(a: Aead, json: Json, r: RelayState, problem: Problem): (RelayState, Effect) {
    SendBackward(a, r, CMD_ERROR, json.report(problem))
  }

  function RelayCommand(a: Aead, json: Json, r: RelayState, command: Byte, body: Bytes): (RelayState, Effect) {
    if command == CMD_EXTEND then
      match json.extend(body)
      case None => SendError(a, json, r, BadExtend)
      case Some(request) =>
        if request.nextHop == "" then SendError(a, json, r, MissingNextHop)
        else if request.clientKey.None? then SendError(a, json, r, BadClientKey)
        else if |request.clientKey.value| != 32 then SendError(a, json, r, BadClientKeySize)
        else if r.outbound then SendError(a, json, r, AlreadyExtended)
        else (r, ExtendAsked(request))
    else if command == CMD_BEGIN then
      match json.begin(body)
      case None => SendError(a, json, r, BadBegin)
      case Some(addr) =>
        if addr == "" then SendError(a, json, r, MissingTarget)
        else if r.target then SendError(a, json, r, AlreadyHasTarget)
        else (r, BeginAsked(addr))
    else if command == CMD_DATA then
      if !r.target then SendError(a, json, r, NoTarget) else (r, Delivered(body))
    else if command == CMD_END then
      SendBackward(a, r.(target := false), CMD_END, [])
    else
      SendError(a, json, r, Unsupported(command))
  }

  function HandleCell(a: Aead, json: Json, r: RelayState, payload: Bytes): (RelayState, Effect) {
    match a.open(r.forward.key, r.forward.counter, payload)
    case None => (r, Broken)
    case Some(inner) =>
      var r1 := r.(forward := Stepped(r.forward));
      match DecodeEnvelope(inner)
      case Malformed => (r1, Broken)
      case Opaque => (r1, if r1.outbound && Fits(inner) then Forwarded(inner) else Broken)
      case Command(command, body) => RelayCommand(a, json, r1, command, body)
  }

  /** The rest of an extend command once the next hop has answered, or not. */
  function FinishExtend(a: Aead, json: Json, r: RelayState, answer: DialAnswer): (RelayState, Effect) {
    match answer
    case Unreachable => SendError(a, json, r, DialFailed)
    case Answered(kind, payload) =>
      if kind != CELL_CREATED then SendError(a, json, r, NotCreated(kind))
      else SendBackward(a, r.(outbound := true), CMD_EXTENDED, payload)
  }

  function FinishBegin(a: Aead, json: Json, r: RelayState, reached: bool): (RelayState, Effect) {
    if !reached then SendError(a, json, r, TargetUnreachable)
    else SendBackward(a, r.(target := true), CMD_CONNECTED, [])
  }

  /** The pump of a connection reports its end and forgets the connection. */
  function LoseTarget(a: Aead, r: RelayState): (RelayState, Effect) {
    SendBackward(a, r.(target := false), CMD_END, [])
  }

  function LoseOutbound(a: Aead, r: RelayState): (RelayState, Effect) {
    SendBackward(a, r.(outbound := false), CMD_END, [])
  }

  /** The relay process; its fields change with every cell it handles. */
  class RelayCircuit {
    const aead: Aead
    const json: Json
    const keys: CircuitKeys
    var outbound: bool
    var target: bool

    constructor (keys: CircuitKeys, json: Json)
      ensures this.keys == keys && this.json == json && Valid()
      ensures View() == RelayState(keys.Forward(), keys.Backward(), false, false)
    {
      this.aead := keys.aead;
      this.json := json;
      this.keys := keys;
      outbound := false;
      target := false;
    }

    ghost predicate Valid() {
      keys.aead == aead
    }

    function View(): RelayState
      reads this, keys
    {
      RelayState(keys.Forward(), keys.Backward(), outbound, target)
    }

    method WriteInbound(payload: Bytes) returns (e: Effect)
      requires Valid()
      modifies keys
      ensures (View(), e) == SealInbound(aead, old(View()), payload)
    {
      var sealed := keys.SealBackward(payload);
      e := if Fits(sealed) then Replied(sealed) else Broken;
    }

    method SendBackwardPlain(command: Byte, body: Bytes) returns (e: Effect)
      requires Valid()
      modifies keys
      ensures (View(), e) == SendBackward(aead, old(View()), command, body)
    {
      var envelope := EncodeEnvelope(command, body);
      if envelope.None? {
        return Broken;
      }
      e := WriteInbound(envelope.value);
    }

    method SendBackwardError(problem: Problem) returns (e: Effect)
      requires Valid()
      modifies keys
      ensures (View(), e) == SendError(aead, json, old(View()), problem)
    {
      e := SendBackwardPlain(CMD_ERROR, json.report(problem));
    }

    method HandleExtendCommand(request: ExtendCommand) returns (e: Effect)
      requires Valid()
      modifies keys
      ensures forall body :: json.extend(body) == Some(request) ==>
        (View(), e) == RelayCommand(aead, json, old(View()), CMD_EXTEND, body)
    {
      if request.nextHop == "" {
        e := SendBackwardError(MissingNextHop);
      } else if request.clientKey.None? {
        e := SendBackwardError(BadClientKey);
      } else if |request.clientKey.value| != 32 {
        e := SendBackwardError(BadClientKeySize);
      } else if outbound {
        e := SendBackwardError(AlreadyExtended);
      } else {
        e := ExtendAsked(request);
      }
    }

    method HandleBeginCommand(addr: string) returns (e: Effect)
      requires Valid()
      modifies keys
      ensures forall body :: json.begin(body) == Some(addr) ==>
        (View(), e) == RelayCommand(aead, json, old(View()), CMD_BEGIN, body)
    {
      if addr == "" {
        e := SendBackwardError(MissingTarget);
      } else if target {
        e := SendBackwardError(AlreadyHasTarget);
      } else {
        e := BeginAsked(addr);
      }
    }

    method HandleRelayCell(payload: Bytes) returns (e: Effect)
      requires Valid()
      modifies this, keys
      ensures (View(), e) == HandleCell(aead, json, old(View()), payload)
    {
      var plain := keys.OpenForward(payload);
      if plain.None? {
        return Broken;
      }
      match DecodeEnvelope(plain.value) {
        case Malformed => e := Broken;
        case Opaque =>
          e := if outbound && Fits(plain.value) then Forwarded(plain.value) else Broken;
        case Command(command, body) =>
          if command == CMD_EXTEND {
            var request := json.extend(body);
            if request.None? {
              e := SendBackwardError(BadExtend);
            } else {
              e := HandleExtendCommand(request.value);
            }
          } else if command == CMD_BEGIN {
            var addr := json.begin(body);
            if addr.None? {
              e := SendBackwardError(BadBegin);
            } else {
              e := HandleBeginCommand(addr.value);
            }
          } else if command == CMD_DATA {
            if target {
              e := Delivered(body);
            } else {
              e := SendBackwardError(NoTarget);
            }
          } else if command == CMD_END {
            target := false;
            e := SendBackwardPlain(CMD_END, []);
          } else {
            e := SendBackwardError(Unsupported(command));
          }
      }
    }

    method ExtendAnswered(answer: DialAnswer) returns (e: Effect)
      requires Valid()
      modifies this, keys
      ensures (View(), e) == FinishExtend(aead, json, old(View()), answer)
    {
      if answer.Unreachable? {
        e := SendBackwardError(DialFailed);
      } else if answer.kind != CELL_CREATED {
        e := SendBackwardError(NotCreated(answer.kind));
      } else {
        outbound := true;
        e := SendBackwardPlain(CMD_EXTENDED, answer.payload);
      }
    }

    method TargetDialled(reached: bool) returns (e: Effect)
      requires Valid()
      modifies this, keys
      ensures (View(), e) == FinishBegin(aead, json, old(View()), reached)
    {
      if reached {
        target := true;
        e := SendBackwardPlain(CMD_CONNECTED, []);
      } else {
        e := SendBackwardError(TargetUnreachable);
      }
    }

    method TargetEnded() returns (e: Effect)
      requires Valid()
      modifies this, keys
      ensures (View(), e) == LoseTarget(aead, old(View()))
    {
      target := false;
      e := SendBackwardPlain(CMD_END, []);
    }

    method OutboundEnded() returns (e: Effect)
      requires Valid()
      modifies this, keys
      ensures (View(), e) == LoseOutbound(aead, old(View()))
    {
      outbound := false;
      e := SendBackwardPlain(CMD_END, []);
    }
  }
}
