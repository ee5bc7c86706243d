/** Building a circuit hop by hop, each extension travelling through the hops already in place. */
module Dialling {
  import opened Wire
  import opened Cells
  import opened Layers
  import opened Relays
  import Client
  import Channel

  datatype Label = ForwardLabel | BackwardLabel

  datatype RelayPlan = RelayPlan(address: string, nodeId: string, publicKey: Bytes)

  /** X25519, Ed25519, HKDF and the JSON request bodies, as far as the handshake uses them. */
  datatype Suite = Suite(
    publicOf: Bytes -> Bytes,
    shared: (Bytes, Bytes) -> Bytes,
    signerKey: Bytes -> Bytes,
    sign: (Bytes, Bytes) -> Bytes,
    verify: (Bytes, Bytes, Bytes) -> bool,
    derive: (Bytes, Bytes, Label) -> Key,
    extendBody: (RelayPlan, Bytes) -> Bytes,
    beginBody: string -> Bytes)

  ghost predicate Lawful(h: Suite, json: Json) {
    && (forall x :: |h.publicOf(x)| == 32)
    && (forall x, y :: h.shared(x, h.publicOf(y)) == h.shared(y, h.publicOf(x)))
    && (forall s, m :: |h.sign(s, m)| == 64)
    && (forall s, m :: h.verify(h.signerKey(s), m, h.sign(s, m)))
    && (forall pk, m, s :: h.verify(pk, m, h.sign(s, m)) ==> pk == h.signerKey(s))
    && (forall r, pub :: json.extend(h.extendBody(r, pub)) == Some(ExtendCommand(r.address, r.nodeId, Some(pub))))
    && (forall addr :: json.begin(h.beginBody(addr)) == Some(addr))
  }

  /**
   * The relay that cells sent to a hop's address come to, whoever passes them on, with its identity key
   * and the ephemeral key it draws. says: the bytes that come back in place of the created payload the
   * protocol calls for.
   */
  datatype Responder = Responder(signer: Bytes, ephemeral: Bytes, says: Option<Bytes>)

  /** Who answers when an address is dialled and a node ID expected there. */
  type Peers = (string, string) -> Option<Responder>

  function At(dial: Peers, plan: RelayPlan): Option<Responder> {
    dial(plan.address, plan.nodeId)
  }

  const CREATE_LABEL: Bytes := [118, 120, 54, 45, 111, 110, 105, 111, 110, 45, 99, 114, 101, 97, 116, 101, 10]

  function SigningPayload(circuitId: Bytes, clientPub: Bytes, serverPub: Bytes): Bytes {
    CREATE_LABEL + circuitId + clientPub + serverPub
  }

  function FreshLanes(h: Suite, circuitId: Bytes, secret: Bytes): (Lane, Lane) {
    (Lane(h.derive(secret, circuitId, ForwardLabel), 0), Lane(h.derive(secret, circuitId, BackwardLabel), 0))
  }

  /** A relay answering a create cell: its new state and the created payload it returns. */
  function AcceptCreate(h: Suite, circuitId: Bytes, relay: Responder, clientPub: Bytes): Option<(RelayState, Bytes)> {
    if |clientPub| != 32 then None
    else
      var serverPub := h.publicOf(relay.ephemeral);
      var sig := h.sign(relay.signer, SigningPayload(circuitId, clientPub, serverPub));
      var (forward, backward) := FreshLanes(h, circuitId, h.shared(relay.ephemeral, clientPub));
      Some((RelayState(forward, backward, false, false), if relay.says.Some? then relay.says.value else serverPub + sig))
  }

  /** The client checking a created payload against the key in its plan. */
  function ClientHopKeys(h: Suite, circuitId: Bytes, priv: Bytes, expected: Bytes, payload: Bytes): Option<(Lane, Lane)> {
    if |payload| != 96 then None
    else
      var serverPub := payload[..32];
      if |expected| != 32 || !h.verify(expected, SigningPayload(circuitId, h.publicOf(priv), serverPub), payload[32..]) then None
      else Some(FreshLanes(h, circuitId, h.shared(priv, serverPub)))
  }

  /** A create request that the owner of a key has answered, with the ephemeral key drawn for it. */
  datatype Session = Session(signer: Bytes, circuitId: Bytes, clientPub: Bytes, ephemeral: Bytes)

  /** What the owner signed in a session. */
  function Message(h: Suite, s: Session): Bytes {
    SigningPayload(s.circuitId, s.clientPub, h.publicOf(s.ephemeral))
  }

  /** The session belongs to the key and to this request, and the payload carries its public key. */
  ghost predicate Answers(h: Suite, s: Session, circuitId: Bytes, clientPub: Bytes, expected: Bytes, payload: Bytes) {
    && h.signerKey(s.signer) == expected && s.circuitId == circuitId && s.clientPub == clientPub
    && |payload| == 96 && payload[..32] == h.publicOf(s.ephemeral)
  }

  /** If the signature in the payload is good under the key, its owner has signed the message in one of the sessions. */
  ghost predicate Unforged(h: Suite, sessions: set<Session>, circuitId: Bytes, clientPub: Bytes, expected: Bytes, payload: Bytes) {
    |payload| == 96 && h.verify(expected, SigningPayload(circuitId, clientPub, payload[..32]), payload[32..]) ==>
      exists s <- sessions ::
        && h.signerKey(s.signer) == expected && |s.circuitId| == |circuitId| && |s.clientPub| == 32
        && Message(h, s) == SigningPayload(circuitId, clientPub, payload[..32])
  }

  lemma MessageTells(id: Bytes, pub: Bytes, server: Bytes, id': Bytes, pub': Bytes, server': Bytes)
    requires SigningPayload(id, pub, server) == SigningPayload(id', pub', server') && |id| == |id'| && |pub| == |pub'|
    ensures id == id' && pub == pub' && server == server'
  {
    var n := |CREATE_LABEL|;
    var m, m' := SigningPayload(id, pub, server), SigningPayload(id', pub', server');
    assert m[n..n + |id|] == id && m'[n..n + |id|] == id';
    assert m[n + |id|..n + |id| + |pub|] == pub && m'[n + |id|..n + |id| + |pub|] == pub';
    assert m[n + |id| + |pub|..] == server && m'[n + |id| + |pub|..] == server';
  }

  /**
   * Whoever the payload came from, a client that accepts it shares both lanes with a session that the owner
   * of the planned key opened for this very request.
   */
  lemma AcceptedMeans(h: Suite, json: Json, sessions: set<Session>, circuitId: Bytes, priv: Bytes, expected: Bytes, payload: Bytes)
    requires Lawful(h, json) && Unforged(h, sessions, circuitId, h.publicOf(priv), expected, payload)
    requires ClientHopKeys(h, circuitId, priv, expected, payload).Some?
    ensures exists s <- sessions ::
      && Answers(h, s, circuitId, h.publicOf(priv), expected, payload)
      && ClientHopKeys(h, circuitId, priv, expected, payload).value == FreshLanes(h, circuitId, h.shared(s.ephemeral, h.publicOf(priv)))
  {
    hide SigningPayload;
    var clientPub := h.publicOf(priv);
    var s :| s in sessions && h.signerKey(s.signer) == expected && |s.circuitId| == |circuitId| && |s.clientPub| == 32
             && Message(h, s) == SigningPayload(circuitId, clientPub, payload[..32]);
    MessageTells(s.circuitId, s.clientPub, h.publicOf(s.ephemeral), circuitId, clientPub, payload[..32]);
    assert Answers(h, s, circuitId, clientPub, expected, payload);
  }

  /** Cells on the connection come to the session whose answer came back on it. */
  ghost predicate Connected(h: Suite, sessions: set<Session>, circuitId: Bytes, clientPub: Bytes, expected: Bytes, relay: Responder) {
    relay.says.Some? ==> forall s <- sessions :: Answers(h, s, circuitId, clientPub, expected, relay.says.value) ==>
      s.signer == relay.signer && s.ephemeral == relay.ephemeral
  }

  ghost predicate Genuine(h: Suite, sessions: set<Session>, circuitId: Bytes, clientPub: Bytes, expected: Bytes, relay: Responder) {
    && Connected(h, sessions, circuitId, clientPub, expected, relay)
    && (relay.says.Some? ==> Unforged(h, sessions, circuitId, clientPub, expected, relay.says.value))
  }

  /** So the two ends of the connection agree, and only with the owner of the planned key. */
  lemma HandshakeAgrees(h: Suite, json: Json, sessions: set<Session>, circuitId: Bytes, priv: Bytes, relay: Responder, expected: Bytes)
    requires Lawful(h, json) && Genuine(h, sessions, circuitId, h.publicOf(priv), expected, relay)
    ensures var created := AcceptCreate(h, circuitId, relay, h.publicOf(priv));
      && created.Some?
      && var keys := ClientHopKeys(h, circuitId, priv, expected, created.value.1);
         && (keys.Some? ==> expected == h.signerKey(relay.signer) && |expected| == 32)
         && (keys.Some? ==> keys.value == (created.value.0.forward, created.value.0.backward))
         && (relay.says.None? ==> |created.value.1| == 96 && (keys.Some? <==> expected == h.signerKey(relay.signer) && |expected| == 32))
  {
    if relay.says.Some? {
      if ClientHopKeys(h, circuitId, priv, expected, relay.says.value).Some? {
        AcceptedMeans(h, json, sessions, circuitId, priv, expected, relay.says.value);
      }
    } else {
      OwnAnswer(h, json, circuitId, priv, relay, expected);
    }
  }

  /** The protocol's own answer is accepted exactly from the owner of the planned key. */
  lemma OwnAnswer(h: Suite, json: Json, circuitId: Bytes, priv: Bytes, relay: Responder, expected: Bytes)
    requires Lawful(h, json) && relay.says.None?
    ensures var created := AcceptCreate(h, circuitId, relay, h.publicOf(priv));
      && created.Some? && |created.value.1| == 96
      && var keys := ClientHopKeys(h, circuitId, priv, expected, created.value.1);
         && (keys.Some? <==> expected == h.signerKey(relay.signer) && |expected| == 32)
         && (keys.Some? ==> keys.value == (created.value.0.forward, created.value.0.backward))
  {
    var clientPub, serverPub := h.publicOf(priv), h.publicOf(relay.ephemeral);
    var sig := h.sign(relay.signer, SigningPayload(circuitId, clientPub, serverPub));
    assert (serverPub + sig)[..32] == serverPub;
    assert (serverPub + sig)[32..] == sig;
  }

  lemma Accepts(h: Suite, json: Json, circuitId: Bytes, priv: Bytes, relay: Responder)
    requires Lawful(h, json)
    ensures AcceptCreate(h, circuitId, relay, h.publicOf(priv)).Some?
  {
  }

  // ------------------------------------------------------- one control exchange

  /** A cell handed from relay to relay until one of them acts on it. */
  function CarryUp(a: Aead, json: Json, relays: seq<RelayState>, i: nat, payload: Bytes): (r: (seq<RelayState>, nat, Effect))
    requires i < |relays|
    ensures |r.0| == |relays| && r.1 < |relays|
    decreases |relays| - i
  {
    var (state, effect) := HandleCell(a, json, relays[i], payload);
    var moved := relays[i := state];
    if effect.Forwarded? && i + 1 < |relays| then CarryUp(a, json, moved, i + 1, effect.payload)
    else (moved, i, effect)
  }

  /** A reply of relay i on its way back, each relay before it adding its layer. */
  function CarryDown(a: Aead, relays: seq<RelayState>, i: nat, payload: Bytes): (r: (seq<RelayState>, Option<Bytes>))
    requires i < |relays|
    ensures |r.0| == |relays|
    decreases i
  {
    if i == 0 then (relays, Some(payload))
    else
      var (state, effect) := SealInbound(a, relays[i - 1], payload);
      var moved := relays[i - 1 := state];
      if effect.Replied? then CarryDown(a, moved, i - 1, effect.payload) else (moved, None)
  }

  /** Client and relays hold the same lanes and only the last relay has nothing behind it. */
  ghost predicate Synced(forward: seq<Lane>, backward: seq<Lane>, relays: seq<RelayState>) {
    && |forward| == |backward| == |relays| > 0
    && forall i :: 0 <= i < |relays| ==>
         relays[i] == RelayState(forward[i], backward[i], i + 1 < |relays|, false)
  }

  /** relays with the counters of the hops from i on moved forward by one. */
  ghost function MovedUp(relays: seq<RelayState>, i: nat): (r: seq<RelayState>)
    ensures |r| == |relays|
    ensures forall j :: 0 <= j < |r| ==> r[j] == if j < i then relays[j] else relays[j].(forward := Stepped(relays[j].forward))
  {
    seq(|relays|, j requires 0 <= j < |relays| =>
      if j < i then relays[j] else relays[j].(forward := Stepped(relays[j].forward)))
  }

  lemma PeelLayer(a: Aead, lanes: seq<Lane>, i: nat, envelope: Bytes)
    requires Ideal(a) && i < |lanes|
    ensures a.open(lanes[i].key, lanes[i].counter, Onion(a, lanes, i, envelope)) == Some(Onion(a, lanes, i + 1, envelope))
  {
  }

  lemma {:induction false} CarryUpReaches(a: Aead, json: Json, lanes: seq<Lane>, relays: seq<RelayState>, i: nat, envelope: Bytes,
                                          command: Byte, body: Bytes)
    requires Ideal(a) && i < |relays| == |lanes|
    requires forall j :: i <= j < |relays| ==> relays[j].forward == lanes[j]
    requires forall j :: 0 <= j < |relays| ==> relays[j].outbound == (j + 1 < |relays|)
    requires DecodeEnvelope(envelope) == Command(command, body) && ClearLayers(a, lanes, envelope)
    requires Fits(Onion(a, lanes, 0, envelope))
    ensures var last := |relays| - 1;
      var (state, effect) := RelayCommand(a, json, relays[last].(forward := Stepped(relays[last].forward)), command, body);
      !effect.Forwarded? && CarryUp(a, json, relays, i, Onion(a, lanes, i, envelope)) == (MovedUp(relays, i)[last := state], last, effect)
    decreases |relays| - i
  {
    hide RelayCommand, MovedUp, Ideal, Stepped;
    var r := relays[i];
    PeelLayer(a, lanes, i, envelope);
    var inner := Onion(a, lanes, i + 1, envelope);
    assert a.open(r.forward.key, r.forward.counter, Onion(a, lanes, i, envelope)) == Some(inner);
    var moved := relays[i := r.(forward := Stepped(r.forward))];
    var last := |relays| - 1;
    CommandStays(a, json, relays[last].(forward := Stepped(relays[last].forward)), command, body);
    if i < last {
      assert !StartsWithMagic(inner);
      OnionLength(a, lanes, 0, envelope);
      OnionLength(a, lanes, i + 1, envelope);
      CarryUpReaches(a, json, lanes, moved, i + 1, envelope, command, body);
      assert MovedUp(moved, i + 1) == MovedUp(relays, i);
    } else {
      var state := RelayCommand(a, json, r.(forward := Stepped(r.forward)), command, body).0;
      assert MovedUp(relays, i)[last := state] == relays[i := state];
    }
  }

  lemma CommandStays(a: Aead, json: Json, r: RelayState, command: Byte, body: Bytes)
    ensures !RelayCommand(a, json, r, command, body).1.Forwarded?
  {
  }

  ghost function MovedDown(relays: seq<RelayState>, i: nat): (r: seq<RelayState>)
    ensures |r| == |relays|
    ensures forall j :: 0 <= j < |r| ==> r[j] == if j < i then relays[j].(backward := Stepped(relays[j].backward)) else relays[j]
  {
    seq(|relays|, j requires 0 <= j < |relays| =>
      if j < i then relays[j].(backward := Stepped(relays[j].backward)) else relays[j])
  }

  lemma {:induction false} CarryDownReaches(a: Aead, lanes: seq<Lane>, relays: seq<RelayState>, i: nat, envelope: Bytes)
    requires Ideal(a) && i < |relays| == |lanes|
    requires forall j :: 0 <= j < i ==> relays[j].backward == lanes[j]
    ensures var r := CarryDown(a, relays, i, Onion(a, lanes, i, envelope));
      && (r.1.Some? ==> r == (MovedDown(relays, i), Some(Onion(a, lanes, 0, envelope))))
      && (Fits(Onion(a, lanes, 0, envelope)) ==> r.1.Some?)
    decreases i
  {
    if i == 0 {
      assert MovedDown(relays, 0) == relays;
    } else {
      var r := relays[i - 1];
      var sealed := Onion(a, lanes, i - 1, envelope);
      assert sealed == a.seal(lanes[i - 1].key, lanes[i - 1].counter, Onion(a, lanes, i, envelope));
      var moved := relays[i - 1 := r.(backward := Stepped(r.backward))];
      CarryDownReaches(a, lanes, moved, i - 1, envelope);
      assert MovedDown(moved, i - 1) == MovedDown(relays, i);
      OnionLength(a, lanes, i - 1, envelope);
      OnionLength(a, lanes, 0, envelope);
    }
  }

  // ------------------------------------------------------------------ dialling

  datatype Hops = Hops(forward: seq<Lane>, backward: seq<Lane>, relays: seq<RelayState>)

  datatype DialError =
    | NoRelays
    | Refused                // a relay reported an error: nobody answered it, or the request was bad
    | Impostor               // somebody answered without the planned key
    | Torn                   // a cell did not fit, or the circuit was closed

  ghost predicate InStep(h: Hops) {
    Synced(h.forward, h.backward, h.relays)
  }

  /** Every hop's counters after one more request and one more reply. */
  ghost predicate OneExchangeLater(before: Hops, after: Hops) {
    && |before.forward| <= |after.forward| && |before.backward| <= |after.backward|
    && after.forward[..|before.forward|] == StepAll(before.forward)
    && after.backward[..|before.backward|] == StepAll(before.backward)
  }

  /** The request reaches the last relay, which is then where it stands with all counters moved. */
  lemma RequestArrives(a: Aead, json: Json, hops: Hops, command: Byte, body: Bytes)
    requires Ideal(a) && InStep(hops) && Client.SendCommand(a, hops.forward, command, body).1.Some?
    requires ClearLayers(a, hops.forward, EncodeEnvelope(command, body).value)
    ensures var last := |hops.relays| - 1;
      var (state, effect) := RelayCommand(a, json, hops.relays[last].(forward := Stepped(hops.relays[last].forward)), command, body);
      CarryUp(a, json, hops.relays, 0, Client.SendCommand(a, hops.forward, command, body).1.value)
      == (MovedUp(hops.relays, 0)[last := state], last, effect)
  {
    hide RelayCommand, Ideal, CarryUp;
    EnvelopeRoundTrip(command, body);
    CarryUpReaches(a, json, hops.forward, hops.relays, 0, EncodeEnvelope(command, body).value, command, body);
  }

  /** A reply of the last relay comes back through all relays and opens at the client. */
  lemma ReplyArrives(a: Aead, hops: Hops, relays: seq<RelayState>, command: Byte, body: Bytes)
    requires Ideal(a) && |hops.backward| == |relays| > 0 && |body| <= MAX_RELAY_DATA_PAYLOAD
    requires forall j :: 0 <= j < |relays| ==> relays[j].backward == hops.backward[j]
    ensures var last := |relays| - 1;
      var (state, effect) := SendBackward(a, relays[last], command, body);
      && effect.Replied?
      && var (after, back) := CarryDown(a, relays[last := state], last, effect.payload);
         && (back.None? ==> !Fits(Onion(a, hops.backward, 0, EncodeEnvelope(command, body).value)))
         && (back.Some? ==>
               && after == MovedDown(relays, |relays|)
               && OpenAll(a, hops.backward, 0, back.value)
                  == (StepAll(hops.backward), Some(EncodeEnvelope(command, body).value)))
  {
    hide CarryDown, EncodeEnvelope, OpenAll;
    var n := |relays|;
    var envelope := EncodeEnvelope(command, body).value;
    assert Onion(a, hops.backward, n, envelope) == envelope;
    assert Onion(a, hops.backward, n - 1, envelope)
        == a.seal(hops.backward[n - 1].key, hops.backward[n - 1].counter, envelope);
    OnionLength(a, hops.backward, n - 1, envelope);
    OnionLength(a, hops.backward, 0, envelope);
    var state := SendBackward(a, relays[n - 1], command, body).0;
    var sent := relays[n - 1 := state];
    CarryDownReaches(a, hops.backward, sent, n - 1, envelope);
    assert MovedDown(sent, n - 1) == MovedDown(relays, n);
    OpenAllOnion(a, hops.backward, 0, envelope);
    assert hops.backward[..0] + StepAll(hops.backward)[0..] == StepAll(hops.backward);
  }

  /** What the new hop must be for the extension to succeed: the planned relay, with shared keys. */
  ghost predicate Agreed(h: Suite, circuitId: Bytes, priv: Bytes, plan: RelayPlan, answer: Option<Responder>,
                         forwardKey: Key, backwardKey: Key) {
    && answer.Some? && plan.publicKey == h.signerKey(answer.value.signer)
    && var secret := h.shared(answer.value.ephemeral, h.publicOf(priv));
       && forwardKey == h.derive(secret, circuitId, ForwardLabel)
       && backwardKey == h.derive(secret, circuitId, BackwardLabel)
  }

  ghost predicate Trusted(h: Suite, sessions: set<Session>, circuitId: Bytes, plan: RelayPlan, priv: Bytes, answer: Option<Responder>) {
    answer.Some? ==> Genuine(h, sessions, circuitId, h.publicOf(priv), plan.publicKey, answer.value)
  }

  /** The planned relay answers and keeps to the protocol. */
  ghost predicate Complies(h: Suite, plan: RelayPlan, answer: Option<Responder>) {
    answer.Some? && answer.value.says.None? && plan.publicKey == h.signerKey(answer.value.signer) && |plan.publicKey| == 32
  }

  function FirstHop(h: Suite, circuitId: Bytes, plan: RelayPlan, priv: Bytes, dial: Peers): (r: Result<Hops, DialError>)
    ensures r.Ok? ==> |r.value.relays| == 1
  {
    var answer := dial(plan.address, plan.nodeId);
    var created := if answer.None? then None else AcceptCreate(h, circuitId, answer.value, h.publicOf(priv));
    if created.None? then Err(Refused)
    else
      var keys := ClientHopKeys(h, circuitId, priv, plan.publicKey, created.value.1);
      if keys.None? then Err(Impostor)
      else Ok(Hops([keys.value.0], [keys.value.1], [created.value.0]))
  }

  method EstablishFirstHop(h: Suite, json: Json, circuitId: Bytes, plan: RelayPlan, priv: Bytes, dial: Peers,
                           ghost sessions: set<Session>)
    returns (r: Result<Hops, DialError>)
    requires Lawful(h, json)
    ensures r == FirstHop(h, circuitId, plan, priv, dial)
    ensures Complies(h, plan, At(dial, plan)) ==> r.Ok?
    ensures At(dial, plan).Some? && At(dial, plan).value.says.None? ==> (r.Ok? <==> Complies(h, plan, At(dial, plan)))
    ensures r.Ok? && Trusted(h, sessions, circuitId, plan, priv, At(dial, plan)) ==>
      var hops := r.value;
      && plan.publicKey == h.signerKey(At(dial, plan).value.signer)
      && InStep(hops) && |hops.relays| == 1
      && hops.forward[0].counter == hops.backward[0].counter == 0
      && Agreed(h, circuitId, priv, plan, At(dial, plan), hops.forward[0].key, hops.backward[0].key)
  {
    var answer := dial(plan.address, plan.nodeId);
    if answer.None? {
      return Err(Refused);
    }
    Accepts(h, json, circuitId, priv, answer.value);
    if Trusted(h, sessions, circuitId, plan, priv, answer) {
      HandshakeAgrees(h, json, sessions, circuitId, priv, answer.value, plan.publicKey);
    }
    var created := AcceptCreate(h, circuitId, answer.value, h.publicOf(priv));
    var keys := ClientHopKeys(h, circuitId, priv, plan.publicKey, created.value.1);
    if keys.None? {
      return Err(Impostor);
    }
    var (forward, backward) := keys.value;
    r := Ok(Hops([forward], [backward], [created.value.0]));
  }

  /** The last relay's part of an extension: dial, pass the create on, report back. */
  function ServeExtend(a: Aead, json: Json, h: Suite, circuitId: Bytes, relay: RelayState, request: ExtendCommand,
                       answer: Option<Responder>): (RelayState, Effect, seq<RelayState>)
  {
    var created := if answer.Some? && request.clientKey.Some?
                   then AcceptCreate(h, circuitId, answer.value, request.clientKey.value) else None;
    if created.None? then
      var (state, effect) := FinishExtend(a, json, relay, Unreachable);
      (state, effect, [])
    else
      var (state, effect) := FinishExtend(a, json, relay, Answered(CELL_CREATED, created.value.1));
      (state, effect, [created.value.0])
  }

  /** The response back at the client, with the relays it moved on the way; None if it never came. */
  function Respond(a: Aead, hops: Hops, relays: seq<RelayState>, at: nat, reply: Effect): (r: Option<(seq<Lane>, seq<RelayState>, Envelope)>)
    requires at < |relays|
    ensures r.Some? ==> |r.value.1| == |relays|
  {
    if !reply.Replied? then None
    else
      var (moved, back) := CarryDown(a, relays, at, reply.payload);
      if back.None? then None
      else
        var (lanes, plain) := OpenAll(a, hops.backward, 0, back.value);
        if plain.None? then None else Some((lanes, moved, DecodeEnvelope(plain.value)))
  }

  /** One extension as the client and the relays carry it out. */
  function Extend(a: Aead, json: Json, h: Suite, circuitId: Bytes, plan: RelayPlan, priv: Bytes,
                  dial: Peers, hops: Hops): (r: Result<Hops, DialError>)
    requires |hops.relays| > 0
    ensures r.Ok? ==> |r.value.relays| > 0
  {
    var body := h.extendBody(plan, h.publicOf(priv));
    var (forward, cell) := Client.SendCommand(a, hops.forward, CMD_EXTEND, body);
    if cell.None? then Err(Torn)
    else
      var (relays, at, effect) := CarryUp(a, json, hops.relays, 0, cell.value);
      var (state, reply, joined) :=
        if effect.ExtendAsked?
        then ServeExtend(a, json, h, circuitId, relays[at], effect.request, dial(effect.request.nextHop, effect.request.expectedNodeId))
        else (relays[at], effect, []);
      FinishExtension(h, circuitId, plan, priv, forward, joined, Respond(a, hops, relays[at := state], at, reply))
  }

  function FinishExtension(h: Suite, circuitId: Bytes, plan: RelayPlan, priv: Bytes, forward: seq<Lane>,
                           joined: seq<RelayState>, response: Option<(seq<Lane>, seq<RelayState>, Envelope)>): Result<Hops, DialError>
  {
    if response.None? then Err(Torn)
    else
      var (backward, relays, envelope) := response.value;
      if !envelope.Command? || envelope.command != CMD_EXTENDED then Err(Refused)
      else
        var keys := ClientHopKeys(h, circuitId, priv, plan.publicKey, envelope.body);
        if keys.None? then Err(Impostor)
        else Ok(Hops(forward + [keys.value.0], backward + [keys.value.1], relays + joined))
  }

  /** No layer of the control cell happens to start with the magic, so each relay but the last passes it on. */
  predicate ExtendClear(a: Aead, h: Suite, plan: RelayPlan, priv: Bytes, hops: Hops) {
    var body := h.extendBody(plan, h.publicOf(priv));
    |body| <= MAX_RELAY_DATA_PAYLOAD ==> ClearLayers(a, hops.forward, EncodeEnvelope(CMD_EXTEND, body).value)
  }

  predicate BeginClear(a: Aead, h: Suite, target: string, hops: Hops) {
    var body := h.beginBody(target);
    |body| <= MAX_RELAY_DATA_PAYLOAD ==> ClearLayers(a, hops.forward, EncodeEnvelope(CMD_BEGIN, body).value)
  }

  /** What comes back when the last relay, with all counters in step, sends one reply. */
  lemma ResponseIs(a: Aead, hops: Hops, relays: seq<RelayState>, command: Byte, body: Bytes)
    requires Ideal(a) && |hops.backward| == |relays| > 0
    requires forall j :: 0 <= j < |relays| ==> relays[j].backward == hops.backward[j]
    ensures var last := |relays| - 1;
      var (state, reply) := SendBackward(a, relays[last], command, body);
      var response := Respond(a, hops, relays[last := state], last, reply);
      && (response.Some? ==>
            && |body| <= MAX_RELAY_DATA_PAYLOAD
            && response.value == (StepAll(hops.backward), MovedDown(relays, |relays|), Command(command, body)))
      && (|relays| <= MAX_RELAY_LAYERS && |body| <= MAX_RELAY_DATA_PAYLOAD ==> response.Some?)
  {
    hide CarryDown, OpenAll, Ideal;
    if |body| <= MAX_RELAY_DATA_PAYLOAD {
      ReplyArrives(a, hops, relays, command, body);
      EnvelopeRoundTrip(command, body);
      OnionLength(a, hops.backward, 0, EncodeEnvelope(command, body).value);
    }
  }

  /** What the last relay sends back to an extend request, and who joins. */
  ghost function ExtendReply(json: Json, h: Suite, circuitId: Bytes, plan: RelayPlan, priv: Bytes, answer: Option<Responder>)
    : (r: (Byte, Bytes, seq<RelayState>))
    requires Lawful(h, json)
  {
    if plan.address == "" then (CMD_ERROR, json.report(MissingNextHop), [])
    else if answer.None? then (CMD_ERROR, json.report(DialFailed), [])
    else
      Accepts(h, json, circuitId, priv, answer.value);
      var created := AcceptCreate(h, circuitId, answer.value, h.publicOf(priv)).value;
      (CMD_EXTENDED, created.1, [created.0])
  }

  /** The last relay, its counter moved, acting on an extend request. */
  lemma ServeIs(a: Aead, json: Json, h: Suite, circuitId: Bytes, plan: RelayPlan, priv: Bytes, dial: Peers, relay: RelayState)
    requires Lawful(h, json) && !relay.outbound
    ensures
      var body := h.extendBody(plan, h.publicOf(priv));
      var (state, effect) := RelayCommand(a, json, relay, CMD_EXTEND, body);
      var (state', reply, joined) := if effect.ExtendAsked?
                                     then ServeExtend(a, json, h, circuitId, state, effect.request,
                                                      dial(effect.request.nextHop, effect.request.expectedNodeId))
                                     else (state, effect, []);
      var (command, rbody, who) := ExtendReply(json, h, circuitId, plan, priv, At(dial, plan));
      && joined == who
      && (state', reply) == SendBackward(a, relay.(outbound := command == CMD_EXTENDED), command, rbody)
  {
    hide AcceptCreate, EncodeEnvelope;
    var body := h.extendBody(plan, h.publicOf(priv));
    assert json.extend(body) == Some(ExtendCommand(plan.address, plan.nodeId, Some(h.publicOf(priv))));
    assert |h.publicOf(priv)| == 32;
    assert relay.(outbound := false) == relay;
    if plan.address != "" && At(dial, plan).Some? {
      Accepts(h, json, circuitId, priv, At(dial, plan).value);
    }
  }

  /** The whole exchange boiled down to the reply the client finally decodes. */
  lemma ExtendIs(a: Aead, json: Json, h: Suite, circuitId: Bytes, plan: RelayPlan, priv: Bytes, dial: Peers, hops: Hops)
    requires Ideal(a) && Lawful(h, json) && InStep(hops)
    requires Client.SendCommand(a, hops.forward, CMD_EXTEND, h.extendBody(plan, h.publicOf(priv))).1.Some? && ExtendClear(a, h, plan, priv, hops)
    ensures
      var (command, rbody, joined) := ExtendReply(json, h, circuitId, plan, priv, At(dial, plan));
      var last := |hops.relays| - 1;
      var moved := MovedUp(hops.relays, 0);
      var relays := moved[last := moved[last].(outbound := command == CMD_EXTENDED)];
      var (state, reply) := SendBackward(a, relays[last], command, rbody);
      Extend(a, json, h, circuitId, plan, priv, dial, hops)
      == FinishExtension(h, circuitId, plan, priv, StepAll(hops.forward), joined, Respond(a, hops, relays[last := state], last, reply))
  {
    hide ClearLayers, CarryUp, Respond, SendBackward, Ideal, Lawful, EncodeEnvelope, RelayCommand, ServeExtend,
         FinishExtension, ExtendReply, Onion;
    var body := h.extendBody(plan, h.publicOf(priv));
    var last := |hops.relays| - 1;
    var moved := MovedUp(hops.relays, 0);
    RequestArrives(a, json, hops, CMD_EXTEND, body);
    ServeIs(a, json, h, circuitId, plan, priv, dial, moved[last]);
    var (command, rbody, joined) := ExtendReply(json, h, circuitId, plan, priv, At(dial, plan));
    var relays := moved[last := moved[last].(outbound := command == CMD_EXTENDED)];
    var state := SendBackward(a, relays[last], command, rbody).0;
    var acted := RelayCommand(a, json, moved[last], CMD_EXTEND, body).0;
    assert moved[last := acted][last := state] == relays[last := state];
  }

  /**
   * One extension. Success means the new hop is the planned relay, both ends hold the keys
   * the two of them derive, and every hop's counters on both sides moved together; and an
   * honest, reachable relay within the size limits is always added.
   */
  lemma ExtendSound(a: Aead, json: Json, h: Suite, sessions: set<Session>, circuitId: Bytes, plan: RelayPlan, priv: Bytes,
                    dial: Peers, hops: Hops)
    requires Ideal(a) && Lawful(h, json) && InStep(hops) && ExtendClear(a, h, plan, priv, hops)
    ensures var r := Extend(a, json, h, circuitId, plan, priv, dial, hops); var n := |hops.relays|;
      r.Ok? && Trusted(h, sessions, circuitId, plan, priv, At(dial, plan)) ==>
        && InStep(r.value) && |r.value.relays| == n + 1 && OneExchangeLater(hops, r.value)
        && r.value.forward[n].counter == r.value.backward[n].counter == 0
        && Agreed(h, circuitId, priv, plan, At(dial, plan), r.value.forward[n].key, r.value.backward[n].key)
    ensures
      var body := h.extendBody(plan, h.publicOf(priv));
      Complies(h, plan, At(dial, plan)) && plan.address != "" && |hops.relays| <= MAX_RELAY_LAYERS && |body| <= MAX_RELAY_DATA_PAYLOAD
      ==> Extend(a, json, h, circuitId, plan, priv, dial, hops).Ok?
  {
    hide *;
    ExtendAdds(a, json, h, sessions, circuitId, plan, priv, dial, hops);
    ExtendServes(a, json, h, circuitId, plan, priv, dial, hops);
  }

  lemma ExtendAdds(a: Aead, json: Json, h: Suite, sessions: set<Session>, circuitId: Bytes, plan: RelayPlan, priv: Bytes,
                   dial: Peers, hops: Hops)
    requires Ideal(a) && Lawful(h, json) && InStep(hops) && ExtendClear(a, h, plan, priv, hops)
    ensures var r := Extend(a, json, h, circuitId, plan, priv, dial, hops); var n := |hops.relays|;
      r.Ok? && Trusted(h, sessions, circuitId, plan, priv, At(dial, plan)) ==>
        && InStep(r.value) && |r.value.relays| == n + 1 && OneExchangeLater(hops, r.value)
        && r.value.forward[n].counter == r.value.backward[n].counter == 0
        && Agreed(h, circuitId, priv, plan, At(dial, plan), r.value.forward[n].key, r.value.backward[n].key)
  {
    hide ClearLayers, Client.SendCommand, CarryUp, Respond, SendBackward, ClientHopKeys, Ideal, Lawful, EncodeEnvelope,
         RelayCommand, ServeExtend;
    var n := |hops.relays|;
    var body := h.extendBody(plan, h.publicOf(priv));
    Client.SendFits(a, hops.forward, CMD_EXTEND, body);
    if Client.SendCommand(a, hops.forward, CMD_EXTEND, body).1.Some? {
      ExtendIs(a, json, h, circuitId, plan, priv, dial, hops);
      var (command, rbody, joined) := ExtendReply(json, h, circuitId, plan, priv, At(dial, plan));
      var moved := MovedUp(hops.relays, 0);
      var relays := moved[n - 1 := moved[n - 1].(outbound := command == CMD_EXTENDED)];
      ResponseIs(a, hops, relays, command, rbody);
      if plan.address != "" && At(dial, plan).Some? && Trusted(h, sessions, circuitId, plan, priv, At(dial, plan)) {
        HandshakeAgrees(h, json, sessions, circuitId, priv, At(dial, plan).value, plan.publicKey);
        JoinInStep(a, h, hops, circuitId, priv, At(dial, plan).value, MovedDown(relays, n), joined);
      }
    }
  }

  lemma ExtendServes(a: Aead, json: Json, h: Suite, circuitId: Bytes, plan: RelayPlan, priv: Bytes,
                     dial: Peers, hops: Hops)
    requires Ideal(a) && Lawful(h, json) && InStep(hops) && ExtendClear(a, h, plan, priv, hops)
    ensures
      var body := h.extendBody(plan, h.publicOf(priv));
      Complies(h, plan, At(dial, plan)) && plan.address != "" && |hops.relays| <= MAX_RELAY_LAYERS && |body| <= MAX_RELAY_DATA_PAYLOAD
      ==> Extend(a, json, h, circuitId, plan, priv, dial, hops).Ok?
  {
    hide ClearLayers, Client.SendCommand, CarryUp, Respond, SendBackward, ClientHopKeys, Ideal, Lawful, EncodeEnvelope,
         RelayCommand, ServeExtend, StepAll, MovedDown;
    var n := |hops.relays|;
    var body := h.extendBody(plan, h.publicOf(priv));
    Client.SendFits(a, hops.forward, CMD_EXTEND, body);
    if Client.SendCommand(a, hops.forward, CMD_EXTEND, body).1.Some? {
      ExtendIs(a, json, h, circuitId, plan, priv, dial, hops);
      var (command, rbody, joined) := ExtendReply(json, h, circuitId, plan, priv, At(dial, plan));
      var moved := MovedUp(hops.relays, 0);
      var relays := moved[n - 1 := moved[n - 1].(outbound := command == CMD_EXTENDED)];
      ResponseIs(a, hops, relays, command, rbody);
      if Complies(h, plan, At(dial, plan)) {
        OwnAnswer(h, json, circuitId, priv, At(dial, plan).value, plan.publicKey);
      }
    }
  }

  /** A fresh relay joins behind relays whose counters have all just moved. */
  lemma JoinInStep(a: Aead, h: Suite, hops: Hops, circuitId: Bytes, priv: Bytes, relay: Responder, relays: seq<RelayState>, joined: seq<RelayState>)
    requires InStep(hops)
    requires var n := |hops.relays|;
      var moved := MovedUp(hops.relays, 0);
      relays == MovedDown(moved[n - 1 := moved[n - 1].(outbound := true)], n)
    ensures forall f, b :: joined == [RelayState(f, b, false, false)] ==>
      InStep(Hops(StepAll(hops.forward) + [f], StepAll(hops.backward) + [b], relays + joined))
  {
  }

  // --------------------------------------------------------------------- begin

  function Begin(a: Aead, json: Json, h: Suite, target: string, reach: string -> bool, hops: Hops): Result<Hops, DialError>
    requires |hops.relays| > 0
  {
    var body := h.beginBody(target);
    var (forward, cell) := Client.SendCommand(a, hops.forward, CMD_BEGIN, body);
    if cell.None? then Err(Torn)
    else
      var (relays, at, effect) := CarryUp(a, json, hops.relays, 0, cell.value);
      var (state, reply) := if effect.BeginAsked? then FinishBegin(a, json, relays[at], reach(effect.targetAddr)) else (relays[at], effect);
      var response := Respond(a, hops, relays[at := state], at, reply);
      if response.None? then Err(Torn)
      else if response.value.2 != Command(CMD_CONNECTED, []) then Err(Refused)
      else Ok(Hops(forward, response.value.0, response.value.1))
  }

  /** A built circuit: as in step, and the last relay has reached the target. */
  ghost predicate Built(h: Hops) {
    && |h.forward| == |h.backward| == |h.relays| > 0
    && forall i :: 0 <= i < |h.relays| ==>
         h.relays[i] == RelayState(h.forward[i], h.backward[i], i + 1 < |h.relays|, i + 1 == |h.relays|)
  }

  lemma BeginServed(a: Aead, json: Json, h: Suite, target: string, reach: string -> bool, relay: RelayState)
    requires Lawful(h, json) && target != "" && !relay.target
    ensures
      var (state, effect) := RelayCommand(a, json, relay, CMD_BEGIN, h.beginBody(target));
      var (state', reply) := if effect.BeginAsked? then FinishBegin(a, json, state, reach(effect.targetAddr)) else (state, effect);
      var command := if reach(target) then CMD_CONNECTED else CMD_ERROR;
      (state', reply) == SendBackward(a, relay.(target := reach(target)), command, if reach(target) then [] else json.report(TargetUnreachable))
  {
    hide EncodeEnvelope;
    assert json.begin(h.beginBody(target)) == Some(target);
    assert relay.(target := false) == relay;
  }

  lemma BeginSound(a: Aead, json: Json, h: Suite, target: string, reach: string -> bool, hops: Hops)
    requires Ideal(a) && Lawful(h, json) && InStep(hops) && target != "" && BeginClear(a, h, target, hops)
    ensures var r := Begin(a, json, h, target, reach, hops);
      r.Ok? ==> reach(target) && Built(r.value) && r.value.forward == StepAll(hops.forward) && r.value.backward == StepAll(hops.backward)
    ensures reach(target) && |hops.relays| <= MAX_RELAY_LAYERS && |h.beginBody(target)| <= MAX_RELAY_DATA_PAYLOAD
      ==> Begin(a, json, h, target, reach, hops).Ok?
  {
    hide ClearLayers, CarryUp, Respond, SendBackward, Ideal, Lawful, EncodeEnvelope, RelayCommand, FinishBegin, Onion;
    var n := |hops.relays|;
    var body := h.beginBody(target);
    Client.SendFits(a, hops.forward, CMD_BEGIN, body);
    if Client.SendCommand(a, hops.forward, CMD_BEGIN, body).1.Some? {
      RequestArrives(a, json, hops, CMD_BEGIN, body);
      var moved := MovedUp(hops.relays, 0);
      BeginServed(a, json, h, target, reach, moved[n - 1]);
      var relays := moved[n - 1 := moved[n - 1].(target := reach(target))];
      var command, rbody := if reach(target) then CMD_CONNECTED else CMD_ERROR, if reach(target) then [] else json.report(TargetUnreachable);
      ResponseIs(a, hops, relays, command, rbody);
      var acted := RelayCommand(a, json, moved[n - 1], CMD_BEGIN, body).0;
      var state := SendBackward(a, relays[n - 1], command, rbody).0;
      assert moved[n - 1 := acted][n - 1 := state] == relays[n - 1 := state];
    }
  }

  // ---------------------------------------------------------------- whole dial

  ghost predicate AllAgreed(h: Suite, circuitId: Bytes, plan: seq<RelayPlan>, privs: nat -> Bytes,
                            network: nat -> Peers, hops: Hops, n: nat)
  {
    && n <= |plan| && n <= |hops.forward| && n <= |hops.backward|
    && forall i {:trigger plan[i]} :: 0 <= i < n ==>
         Agreed(h, circuitId, privs(i), plan[i], At(network(i), plan[i]), hops.forward[i].key, hops.backward[i].key)
  }

  /** Hop i has seen one exchange for every hop behind it, and extra more. */
  ghost predicate CountersAre(hops: Hops, extra: nat) {
    && |hops.forward| == |hops.backward|
    && forall i :: 0 <= i < |hops.forward| ==>
         hops.forward[i].counter == hops.backward[i].counter == Ahead(0, |hops.forward| - 1 - i + extra)
  }

  /** Everything the network and the plan owe the client for a dial to succeed. */
  ghost predicate Honest(h: Suite, plan: seq<RelayPlan>, target: string, reach: string -> bool, privs: nat -> Bytes, network: nat -> Peers) {
    && 0 < |plan| <= MAX_RELAY_LAYERS
    && (forall i {:trigger plan[i]} :: 0 <= i < |plan| ==>
          && Complies(h, plan[i], At(network(i), plan[i]))
          && (i > 0 ==> plan[i].address != "" && |h.extendBody(plan[i], h.publicOf(privs(i)))| <= MAX_RELAY_DATA_PAYLOAD))
    && (target != "" ==> reach(target) && |h.beginBody(target)| <= MAX_RELAY_DATA_PAYLOAD)
  }

  /** Every answer of the dial is genuine. */
  ghost predicate AllTrusted(h: Suite, sessions: set<Session>, circuitId: Bytes, plan: seq<RelayPlan>, privs: nat -> Bytes, network: nat -> Peers) {
    forall i {:trigger plan[i]} :: 0 <= i < |plan| ==> Trusted(h, sessions, circuitId, plan[i], privs(i), At(network(i), plan[i]))
  }

  lemma ExchangeCounters(before: Hops, after: Hops, extra: nat)
    requires |before.forward| == |before.backward| && CountersAre(before, extra)
    requires after.forward == StepAll(before.forward) && after.backward == StepAll(before.backward)
    ensures CountersAre(after, extra + 1)
  {
    forall i | 0 <= i < |before.forward|
      ensures after.forward[i].counter == after.backward[i].counter == Ahead(0, |before.forward| - 1 - i + extra + 1)
    {
      AheadStep(0, |before.forward| - 1 - i + extra);
    }
  }

  lemma ExtendedCounters(before: Hops, after: Hops)
    requires InStep(before) && InStep(after) && CountersAre(before, 0) && OneExchangeLater(before, after)
    requires |after.forward| == |before.forward| + 1
    requires after.forward[|before.forward|].counter == after.backward[|before.forward|].counter == 0
    ensures CountersAre(after, 0)
  {
    var n := |before.forward|;
    forall i | 0 <= i < n + 1
      ensures after.forward[i].counter == after.backward[i].counter == Ahead(0, n - i)
    {
      if i < n {
        AheadStep(0, n - 1 - i);
        assert after.forward[..n][i] == StepAll(before.forward)[i];
        assert after.backward[..n][i] == StepAll(before.backward)[i];
      }
    }
  }

  lemma ExtendedKeys(h: Suite, circuitId: Bytes, plan: seq<RelayPlan>, privs: nat -> Bytes, network: nat -> Peers,
                     before: Hops, after: Hops, n: nat)
    requires n <= |before.forward| && n <= |before.backward|
    requires AllAgreed(h, circuitId, plan, privs, network, before, n) && OneExchangeLater(before, after)
    ensures AllAgreed(h, circuitId, plan, privs, network, after, n)
  {
    hide Agreed;
    forall i | 0 <= i < n
      ensures after.forward[i].key == before.forward[i].key && after.backward[i].key == before.backward[i].key
    {
      assert after.forward[..|before.forward|][i] == StepAll(before.forward)[i];
      assert after.backward[..|before.backward|][i] == StepAll(before.backward)[i];
    }
  }

  function Circuit(hops: Hops): Channel.Circuit {
    var empty := seq(|hops.relays|, _ => []);
    Channel.Circuit(hops.forward, hops.backward, hops.relays, empty, empty, [], [], [], [], false)
  }

  /** No control cell of the dial, from hop i on, is mistaken for a command by a relay that should pass it on. */
  ghost predicate ClearFrom(a: Aead, json: Json, h: Suite, circuitId: Bytes, plan: seq<RelayPlan>, target: string,
                            privs: nat -> Bytes, network: nat -> Peers, i: nat, hops: Hops)
    requires i <= |plan| && |hops.relays| > 0
    decreases |plan| - i
  {
    if i == |plan| then target != "" ==> BeginClear(a, h, target, hops)
    else
      var next := Extend(a, json, h, circuitId, plan[i], privs(i), network(i), hops);
      ExtendClear(a, h, plan[i], privs(i), hops)
      && (next.Ok? ==> ClearFrom(a, json, h, circuitId, plan, target, privs, network, i + 1, next.value))
  }

  ghost predicate DialClear(a: Aead, json: Json, h: Suite, circuitId: Bytes, plan: seq<RelayPlan>, target: string,
                            privs: nat -> Bytes, network: nat -> Peers)
  {
    |plan| > 0 && FirstHop(h, circuitId, plan[0], privs(0), network(0)).Ok? ==>
      ClearFrom(a, json, h, circuitId, plan, target, privs, network, 1, FirstHop(h, circuitId, plan[0], privs(0), network(0)).value)
  }

  /** At every hop, in plan order, the relay holding the planned key and the client share both keys and both counters. */
  ghost predicate Dialled(h: Suite, circuitId: Bytes, plan: seq<RelayPlan>, target: string, reach: string -> bool, privs: nat -> Bytes,
                          network: nat -> Peers, hops: Hops)
  {
    && |hops.relays| == |hops.forward| == |plan| > 0
    && AllAgreed(h, circuitId, plan, privs, network, hops, |plan|)
    && (target == "" ==> InStep(hops) && CountersAre(hops, 0))
    && (target != "" ==> reach(target) && Built(hops) && CountersAre(hops, 1))
    && (target != "" && |plan| <= MAX_RELAY_LAYERS ==> Channel.Ready(Circuit(hops)))
  }

  /**
   * Dialling a plan. If no control cell is mistaken on its way and no signature is forged, success
   * means the circuit is dialled as planned and, with a target, ready to carry data, whatever bytes
   * the relays have returned; and honest relays are always reached.
   */
  method DialPlannedCircuit(a: Aead, json: Json, h: Suite, circuitId: Bytes, plan: seq<RelayPlan>, target: string, reach: string -> bool,
                            privs: nat -> Bytes, network: nat -> Peers, ghost sessions: set<Session>)
    returns (r: Result<Hops, DialError>)
    requires Ideal(a) && Lawful(h, json)
    ensures DialClear(a, json, h, circuitId, plan, target, privs, network) && AllTrusted(h, sessions, circuitId, plan, privs, network) ==>
      && (r.Ok? ==> Dialled(h, circuitId, plan, target, reach, privs, network, r.value))
      && (Honest(h, plan, target, reach, privs, network) ==> r.Ok?)
  {
    hide Ideal, Lawful, Agreed, Extend, Begin, FirstHop, ExtendClear, BeginClear, Along, Dialled, Honest, Trusted, Complies;
    if |plan| == 0 {
      Nowhere(h, plan, target, reach, privs, network);
      return Err(NoRelays);
    }
    ghost var clear := DialClear(a, json, h, circuitId, plan, target, privs, network) && AllTrusted(h, sessions, circuitId, plan, privs, network);
    r := EstablishFirstHop(h, json, circuitId, plan[0], privs(0), network(0), sessions);
    Started(h, sessions, circuitId, plan, target, reach, privs, network, r);
    if r.Err? {
      return;
    }
    var hops := r.value;
    for i := 1 to |plan|
      invariant |hops.relays| > 0
      invariant clear ==> ClearFrom(a, json, h, circuitId, plan, target, privs, network, i, hops)
      invariant clear ==> Along(h, circuitId, plan, privs, network, hops, i)
    {
      r := Extend(a, json, h, circuitId, plan[i], privs(i), network(i), hops);
      if clear {
        ExtendAlong(a, json, h, sessions, circuitId, plan, target, reach, privs, network, hops, i);
      }
      if r.Err? {
        return;
      }
      hops := r.value;
    }
    if target != "" {
      r := Begin(a, json, h, target, reach, hops);
      if clear {
        BeginAlong(a, json, h, circuitId, plan, target, reach, privs, network, hops);
      }
    } else {
      r := Ok(hops);
      if clear {
        NoTarget(h, circuitId, plan, reach, privs, network, hops);
      }
    }
  }

  /** The first n hops are in place. */
  ghost predicate Along(h: Suite, circuitId: Bytes, plan: seq<RelayPlan>, privs: nat -> Bytes, network: nat -> Peers, hops: Hops, n: nat) {
    InStep(hops) && |hops.relays| == n && CountersAre(hops, 0) && AllAgreed(h, circuitId, plan, privs, network, hops, n)
  }

  lemma Nowhere(h: Suite, plan: seq<RelayPlan>, target: string, reach: string -> bool, privs: nat -> Bytes, network: nat -> Peers)
    ensures plan == [] ==> !Honest(h, plan, target, reach, privs, network)
  {
  }

  lemma Started(h: Suite, sessions: set<Session>, circuitId: Bytes, plan: seq<RelayPlan>, target: string, reach: string -> bool, privs: nat -> Bytes,
                network: nat -> Peers, r: Result<Hops, DialError>)
    requires |plan| > 0
    requires r.Ok? && Trusted(h, sessions, circuitId, plan[0], privs(0), At(network(0), plan[0])) ==>
      && InStep(r.value) && |r.value.relays| == 1
      && r.value.forward[0].counter == r.value.backward[0].counter == 0
      && Agreed(h, circuitId, privs(0), plan[0], At(network(0), plan[0]), r.value.forward[0].key, r.value.backward[0].key)
    requires Complies(h, plan[0], At(network(0), plan[0])) ==> r.Ok?
    ensures r.Ok? && Trusted(h, sessions, circuitId, plan[0], privs(0), At(network(0), plan[0])) ==> Along(h, circuitId, plan, privs, network, r.value, 1)
    ensures Honest(h, plan, target, reach, privs, network) ==> r.Ok?
  {
    hide Agreed, Trusted, Complies;
    if Honest(h, plan, target, reach, privs, network) {
      var first := plan[0];
      assert Complies(h, first, At(network(0), first));
    }
  }

  lemma ExtendAlong(a: Aead, json: Json, h: Suite, sessions: set<Session>, circuitId: Bytes, plan: seq<RelayPlan>, target: string, reach: string -> bool,
                    privs: nat -> Bytes, network: nat -> Peers, hops: Hops, i: nat)
    requires Ideal(a) && Lawful(h, json) && i < |plan| && Along(h, circuitId, plan, privs, network, hops, i)
    requires ExtendClear(a, h, plan[i], privs(i), hops) && Trusted(h, sessions, circuitId, plan[i], privs(i), At(network(i), plan[i]))
    ensures var r := Extend(a, json, h, circuitId, plan[i], privs(i), network(i), hops);
      && (r.Ok? ==> Along(h, circuitId, plan, privs, network, r.value, i + 1))
      && (Honest(h, plan, target, reach, privs, network) ==> r.Ok?)
  {
    hide Ideal, Lawful, Agreed, Extend, ExtendClear, Trusted, Complies;
    var r := Extend(a, json, h, circuitId, plan[i], privs(i), network(i), hops);
    ExtendSound(a, json, h, sessions, circuitId, plan[i], privs(i), network(i), hops);
    if r.Ok? {
      ExtendedCounters(hops, r.value);
      ExtendedKeys(h, circuitId, plan, privs, network, hops, r.value, i);
    }
  }

  lemma BeginAlong(a: Aead, json: Json, h: Suite, circuitId: Bytes, plan: seq<RelayPlan>, target: string, reach: string -> bool,
                   privs: nat -> Bytes, network: nat -> Peers, hops: Hops)
    requires Ideal(a) && Lawful(h, json) && Along(h, circuitId, plan, privs, network, hops, |plan|)
    requires target != "" && BeginClear(a, h, target, hops)
    ensures var r := Begin(a, json, h, target, reach, hops);
      && (r.Ok? ==> Dialled(h, circuitId, plan, target, reach, privs, network, r.value))
      && (Honest(h, plan, target, reach, privs, network) ==> r.Ok?)
  {
    hide Ideal, Lawful, Agreed, Begin, BeginClear;
    var r := Begin(a, json, h, target, reach, hops);
    BeginSound(a, json, h, target, reach, hops);
    if r.Ok? {
      ExchangeCounters(hops, r.value, 0);
      ExtendedKeys(h, circuitId, plan, privs, network, hops, r.value, |plan|);
    }
  }

  lemma NoTarget(h: Suite, circuitId: Bytes, plan: seq<RelayPlan>, reach: string -> bool, privs: nat -> Bytes, network: nat -> Peers, hops: Hops)
    requires Along(h, circuitId, plan, privs, network, hops, |plan|)
    ensures Dialled(h, circuitId, plan, "", reach, privs, network, hops)
  {
    hide Agreed;
  }
}
