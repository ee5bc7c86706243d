/** The liveness packet: a compact probe and its answer, or a padded probe that asks for an identity. */
module Liveness {
  import opened Wire

  const MAX_PACKET := 512
  const HEADER := 25
  const VERSION: Byte := 1
  const PING: Byte := 1
  const PONG: Byte := 2
  const NONCE := 16
  const MAGIC: Bytes := [0x56, 0x36, 0x4C, 0x50]

  datatype Message = Message(kind: Byte, wantIdentity: bool, nonce: Bytes, identity: Bytes)

  datatype Problem = Length | Header | Flags | PayloadLength | EmptyNonce | FixedSize | Padding | Unexpected | PongFlags | Trailing | Kind

  function Front(m: Message): Bytes
    requires |m.identity| <= MAX_PACKET - HEADER
  {
    MAGIC + [VERSION, m.kind, if m.wantIdentity then 1 else 0] + m.nonce + PutUint16(|m.identity|)
  }

  /** Empty if the identity does not fit a packet. */
  function Encode(m: Message): Bytes {
    if |m.identity| > MAX_PACKET - HEADER then []
    else if m.kind == PING && m.wantIdentity then Front(m) + m.identity + Zeros(MAX_PACKET - HEADER - |m.identity|)
    else if m.kind == PONG then Front(m) + m.identity
    else Front(m)
  }

  function Decode(data: Bytes): Result<Message, Problem> {
    if |data| < HEADER || |data| > MAX_PACKET then Err(Length)
    else if data[..4] != MAGIC || data[4] != VERSION then Err(Header)
    else if data[6] > 1 then Err(Flags)
    else
      var nonce, length := data[7..23], Uint16(data[23..25]);
      if length > |data| - HEADER then Err(PayloadLength)
      else if nonce == Zeros(NONCE) then Err(EmptyNonce)
      else
        var m := Message(data[5], data[6] == 1, nonce, []);
        if m.kind == PING then
          if m.wantIdentity then
            if |data| != MAX_PACKET then Err(FixedSize)
            else if exists k :: HEADER + length <= k < |data| && data[k] != 0 then Err(Padding)
            else Ok(m.(identity := data[HEADER..HEADER + length]))
          else if |data| != HEADER || length != 0 then Err(Unexpected)
          else Ok(m)
        else if m.kind == PONG then
          if m.wantIdentity then Err(PongFlags)
          else if |data| != HEADER + length then Err(Trailing)
          else Ok(m.(identity := data[HEADER..]))
        else Err(Kind)
  }

  /** A message both sides would send: only a probe asks, and only an asking probe or an answer carries an identity. */
  predicate WellFormed(m: Message) {
    && |m.nonce| == NONCE && m.nonce != Zeros(NONCE) && |m.identity| <= MAX_PACKET - HEADER
    && (m.kind == PING || m.kind == PONG)
    && (m.kind == PING && !m.wantIdentity ==> m.identity == [])
    && (m.kind == PONG ==> !m.wantIdentity)
  }

  lemma FrontIs(m: Message, rest: Bytes)
    requires |m.nonce| == NONCE && |m.identity| <= MAX_PACKET - HEADER
    ensures var data := Front(m) + rest;
      && |Front(m)| == HEADER && data[..4] == MAGIC && data[4] == VERSION && data[5] == m.kind
      && data[6] == (if m.wantIdentity then 1 else 0) && data[7..23] == m.nonce
      && Uint16(data[23..25]) == |m.identity| && data[HEADER..] == rest
  {
    var data := Front(m) + rest;
    assert data[23..25] == PutUint16(|m.identity|);
  }

  /** What is decoded is what was encoded, for exactly the well-formed messages. */
  lemma DecodeEncode(m: Message)
    requires |m.nonce| == NONCE
    ensures Decode(Encode(m)) == Ok(m) <==> WellFormed(m)
  {
    hide Front, Uint16;
    if |m.identity| <= MAX_PACKET - HEADER {
      var rest := if m.kind == PING && m.wantIdentity then m.identity + Zeros(MAX_PACKET - HEADER - |m.identity|)
                  else if m.kind == PONG then m.identity else [];
      assert Encode(m) == Front(m) + rest;
      FrontIs(m, rest);
      var data := Encode(m);
      if WellFormed(m) && m.kind == PING && m.wantIdentity {
        assert data[HEADER..HEADER + |m.identity|] == data[HEADER..][..|m.identity|] == m.identity;
        forall k | HEADER + |m.identity| <= k < |data|
          ensures data[k] == 0
        {
          assert data[k] == data[HEADER..][k - HEADER];
        }
      }
    }
  }

  /** Every packet that is accepted is the one encoding of the message it yields. */
  lemma EncodeDecode(data: Bytes)
    requires Decode(data).Ok?
    ensures WellFormed(Decode(data).value) && Encode(Decode(data).value) == data
  {
    hide Uint16;
    var m := Decode(data).value;
    assert PutUint16(Uint16(data[23..25])) == data[23..25] by {
      Uint16Back(data[23..25]);
    }
    assert Front(m) == data[..HEADER] by {
      assert data[..HEADER] == data[..4] + [data[4], data[5], data[6]] + data[7..23] + data[23..25];
    }
    assert data == data[..HEADER] + data[HEADER..];
    if m.kind == PING && m.wantIdentity {
      var n := |m.identity|;
      assert data[HEADER..] == data[HEADER..HEADER + n] + data[HEADER + n..];
      assert data[HEADER + n..] == Zeros(MAX_PACKET - HEADER - n);
    }
  }
}
