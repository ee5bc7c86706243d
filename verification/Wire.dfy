/** Values every component of the model shares: optional results and byte strings. */
module Wire {

  datatype Option<+T> = None | Some(value: T)

  datatype Result<+T, +E> = Ok(value: T) | Err(error: E)

  type Byte = b: int | 0 <= b < 0x100

  type Bytes = seq<Byte>

  /** Big-endian 16-bit length field. */
  function PutUint16(n: nat): (s: Bytes)
    requires n < 0x1_0000
    ensures |s| == 2 && Uint16(s) == n
  {
    [n / 0x100, n % 0x100]
  }

  function Uint16(s: Bytes): (n: nat)
    requires |s| == 2
    ensures n < 0x1_0000
  {
    var high: int := s[0];
    var low: int := s[1];
    high * 0x100 + low
  }

  lemma Uint16Back(s: Bytes)
    requires |s| == 2
    ensures PutUint16(Uint16(s)) == s
  {
    var high: int := s[0];
    var low: int := s[1];
    assert (high * 0x100 + low) / 0x100 == high && (high * 0x100 + low) % 0x100 == low;
  }

  function Zeros(n: nat): (s: Bytes)
    ensures |s| == n
    ensures forall i :: 0 <= i < n ==> s[i] == 0
  {
    seq(n, _ => 0)
  }

  /** The byte stream made of consecutive writes. */
  function Flatten(chunks: seq<Bytes>): Bytes {
    if chunks == [] then [] else Flatten(chunks[..|chunks| - 1]) + chunks[|chunks| - 1]
  }

  lemma FlattenAppend(chunks: seq<Bytes>, chunk: Bytes)
    ensures Flatten(chunks + [chunk]) == Flatten(chunks) + chunk
  {
    assert (chunks + [chunk])[..|chunks|] == chunks;
  }

  lemma {:induction false} FlattenPrefix(chunks: seq<Bytes>, k: nat)
    requires k <= |chunks|
    ensures Flatten(chunks[..k]) <= Flatten(chunks)
  {
    if k == |chunks| {
      assert chunks[..k] == chunks;
    } else {
      FlattenPrefix(chunks[..|chunks| - 1], k);
      assert chunks[..|chunks| - 1][..k] == chunks[..k];
    }
  }
}
