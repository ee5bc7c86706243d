/** Fixed-size onion cells and the relay envelope carried inside their payload. */
module Cells {
  import opened Wire

  const CELL_VERSION: Byte := 1
  const CELL_SIZE := 1024
  const CELL_HEADER_SIZE := 20
  const CELL_PAYLOAD_SIZE := CELL_SIZE - CELL_HEADER_SIZE
  const MAX_RELAY_LAYERS := 5
  const RELAY_TAG_SIZE := 16
  const RELAY_ENVELOPE_SIZE := 7
  const MAX_RELAY_PLAIN_PAYLOAD := CELL_PAYLOAD_SIZE - MAX_RELAY_LAYERS * RELAY_TAG_SIZE
  const MAX_RELAY_DATA_PAYLOAD := MAX_RELAY_PLAIN_PAYLOAD - RELAY_ENVELOPE_SIZE

  const CELL_CREATE: Byte := 1
  const CELL_CREATED: Byte := 2
  const CELL_RELAY: Byte := 3
  const CELL_DESTROY: Byte := 4

  const CMD_EXTEND: Byte := 1
  const CMD_EXTENDED: Byte := 2
  const CMD_BEGIN: Byte := 3
  const CMD_CONNECTED: Byte := 4
  const CMD_DATA: Byte := 5
  const CMD_END: Byte := 6
  const CMD_ERROR: Byte := 7

  /** The bytes of "VXRL". */
  const RELAY_MAGIC: Bytes := [86, 88, 82, 76]

  datatype Cell = Cell(kind: Byte, circuitId: Bytes, payload: Bytes)

  datatype CellError = PayloadTooLarge | EndOfStream | BadVersion | BadLength

  ghost predicate WellFormed(c: Cell) {
    |c.circuitId| == 16
  }

  predicate Fits(payload: Bytes) {
    |payload| <= CELL_PAYLOAD_SIZE
  }

  function EncodeCell(c: Cell): (r: Result<Bytes, CellError>)
    requires WellFormed(c)
    ensures r.Ok? <==> Fits(c.payload)
    ensures r.Ok? ==> |r.value| == CELL_SIZE
  {
    if !Fits(c.payload) then Err(PayloadTooLarge)
    else
      Ok([CELL_VERSION, c.kind] + c.circuitId + PutUint16(|c.payload|)
         + c.payload + Zeros(CELL_PAYLOAD_SIZE - |c.payload|))
  }

  /** One cell off the front of a byte stream, with the bytes left behind it. */
  function ReadCell(stream: Bytes): (r: Result<(Cell, Bytes), CellError>)
    ensures r.Ok? ==> |stream| >= CELL_SIZE && r.value.1 == stream[CELL_SIZE..]
    ensures r.Ok? ==> WellFormed(r.value.0) && Fits(r.value.0.payload)
  {
    if |stream| < CELL_SIZE then Err(EndOfStream)
    else if stream[0] != CELL_VERSION then Err(BadVersion)
    else
      var length := Uint16(stream[18..20]);
      if length > CELL_PAYLOAD_SIZE then Err(BadLength)
      else
        Ok((Cell(stream[1], stream[2..18], stream[CELL_HEADER_SIZE..CELL_HEADER_SIZE + length]),
            stream[CELL_SIZE..]))
  }

  lemma CellRoundTrip(c: Cell, rest: Bytes)
    requires WellFormed(c) && Fits(c.payload)
    ensures ReadCell(EncodeCell(c).value + rest) == Ok((c, rest))
  {
    var head: Bytes := [CELL_VERSION, c.kind];
    var len := PutUint16(|c.payload|);
    var pad := Zeros(CELL_PAYLOAD_SIZE - |c.payload|);
    var raw := EncodeCell(c).value;
    assert raw == head + c.circuitId + len + c.payload + pad;
    var stream := raw + rest;
    assert stream[18..20] == len;
    assert stream[2..18] == c.circuitId;
    assert stream[CELL_HEADER_SIZE..CELL_HEADER_SIZE + |c.payload|] == c.payload;
    assert stream[CELL_SIZE..] == rest;
  }

  /** What a peer that writes the cells one after another puts on the connection. */
  function EncodeCells(cells: seq<Cell>): (s: Bytes)
    requires forall c <- cells :: WellFormed(c) && Fits(c.payload)
  {
    if cells == [] then [] else EncodeCell(cells[0]).value + EncodeCells(cells[1..])
  }

  /** The read loop at the other end: cells until the stream ends or breaks. */
  function ReadCells(stream: Bytes): (r: (seq<Cell>, CellError))
    decreases |stream|
  {
    var next := ReadCell(stream);
    if next.Err? then ([], next.error)
    else
      var (cells, err) := ReadCells(next.value.1);
      ([next.value.0] + cells, err)
  }

  /**
   * Reading back any written stream gives exactly the written cells; a partial
   * cell behind them is never mistaken for one.
   */
  lemma {:induction false} StreamRoundTrip(cells: seq<Cell>, tail: Bytes)
    requires forall c <- cells :: WellFormed(c) && Fits(c.payload)
    requires |tail| < CELL_SIZE
    ensures ReadCells(EncodeCells(cells) + tail) == (cells, EndOfStream)
  {
    if cells == [] {
      assert EncodeCells(cells) + tail == tail;
    } else {
      var rest := EncodeCells(cells[1..]) + tail;
      assert EncodeCells(cells) + tail == EncodeCell(cells[0]).value + rest;
      CellRoundTrip(cells[0], rest);
      StreamRoundTrip(cells[1..], tail);
      assert [cells[0]] + cells[1..] == cells;
    }
  }

  datatype Envelope =
    | Opaque                            // not addressed to this hop
    | Malformed                         // magic present, length field impossible
    | Command(command: Byte, body: Bytes)

  predicate StartsWithMagic(payload: Bytes) {
    |payload| >= RELAY_ENVELOPE_SIZE && payload[..4] == RELAY_MAGIC
  }

  function EncodeEnvelope(command: Byte, body: Bytes): (r: Option<Bytes>)
    ensures r.Some? <==> |body| <= MAX_RELAY_DATA_PAYLOAD
    ensures r.Some? ==> |r.value| == RELAY_ENVELOPE_SIZE + |body| && StartsWithMagic(r.value)
  {
    if |body| > MAX_RELAY_DATA_PAYLOAD then None
    else
      var out := RELAY_MAGIC + [command] + PutUint16(|body|) + body;
      assert out[..4] == RELAY_MAGIC;
      Some(out)
  }

  function DecodeEnvelope(payload: Bytes): (r: Envelope)
    ensures r.Opaque? <==> !StartsWithMagic(payload)
  {
    if !StartsWithMagic(payload) then Opaque
    else
      var length := Uint16(payload[5..7]);
      if RELAY_ENVELOPE_SIZE + length > |payload| then Malformed
      else Command(payload[4], payload[7..7 + length])
  }

  lemma EnvelopeRoundTrip(command: Byte, body: Bytes)
    requires |body| <= MAX_RELAY_DATA_PAYLOAD
    ensures DecodeEnvelope(EncodeEnvelope(command, body).value) == Command(command, body)
  {
    var out := EncodeEnvelope(command, body).value;
    assert out == RELAY_MAGIC + [command] + PutUint16(|body|) + body;
    assert out[5..7] == PutUint16(|body|);
    assert out[7..7 + |body|] == body;
  }
}
