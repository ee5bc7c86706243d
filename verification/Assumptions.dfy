/** The laws assumed of ciphers, keys and encodings can all be met, so nothing is proved from a contradiction. */
module Assumptions {
  import opened Wire
  import opened Cells
  import opened Layers
  import opened Relays
  import opened Channel
  import opened Dialling
  import Coordinates
  import Delivery

  // ----------------------------------------------------------------------- cipher

  /** A number spelt out in base sixteen. */
  function Digits(n: nat, k: nat): (t: Bytes)
    ensures |t| == k
  {
    if k == 0 then [] else Digits(n / 16, k - 1) + [n % 16]
  }

  lemma {:induction false} DigitsTell(n: nat, m: nat, k: nat)
    requires Digits(n, k) == Digits(m, k) && n < Coordinates.Pow2(4 * k) && m < Coordinates.Pow2(4 * k)
    ensures n == m
  {
    if k > 0 {
      Coordinates.Pow16(k);
      var a, b := Digits(n, k), Digits(m, k);
      assert a[..k - 1] == Digits(n / 16, k - 1) && b[..k - 1] == Digits(m / 16, k - 1);
      assert a[k - 1] == n % 16 && b[k - 1] == m % 16;
      hide Coordinates.Pow2;
      DigitsTell(n / 16, m / 16, k - 1);
    }
  }

  lemma CounterFits(n: Counter)
    ensures n < Coordinates.Pow2(4 * RELAY_TAG_SIZE)
  {
    assert Coordinates.Pow2(0) == 1;
    hide Coordinates.Pow2;
    Coordinates.Pow16(1); Coordinates.Pow16(2); Coordinates.Pow16(3); Coordinates.Pow16(4);
    Coordinates.Pow16(5); Coordinates.Pow16(6); Coordinates.Pow16(7); Coordinates.Pow16(8);
    Coordinates.Pow16(9); Coordinates.Pow16(10); Coordinates.Pow16(11); Coordinates.Pow16(12);
    Coordinates.Pow16(13); Coordinates.Pow16(14); Coordinates.Pow16(15); Coordinates.Pow16(16);
  }

  /** The counter as the tag, checked on opening; the tag goes before the message or behind it. */
  function Toy(before: bool): Aead {
    Aead((key: Key, n: Counter, p: Bytes) => var tag := Digits(n, RELAY_TAG_SIZE); if before then tag + p else p + tag,
         (key: Key, n: Counter, c: Bytes) =>
           if |c| < RELAY_TAG_SIZE then None
           else
             var size := |c| - RELAY_TAG_SIZE;
             var (tag, p) := if before then (c[..RELAY_TAG_SIZE], c[RELAY_TAG_SIZE..]) else (c[size..], c[..size]);
             if tag == Digits(n, RELAY_TAG_SIZE) then Some(p) else None)
  }

  lemma ToyOpens(before: bool, k: Key, n: Counter, m: Counter, p: Bytes)
    ensures Toy(before).open(k, n, Toy(before).seal(k, m, p)) == if n == m then Some(p) else None
    ensures |Toy(before).seal(k, m, p)| == |p| + RELAY_TAG_SIZE
  {
    hide Digits;
    var a, tag := Toy(before), Digits(m, RELAY_TAG_SIZE);
    var c := a.seal(k, m, p);
    assert before ==> c == tag + p && c[..RELAY_TAG_SIZE] == tag && c[RELAY_TAG_SIZE..] == p;
    assert !before ==> c == p + tag && c[|p|..] == tag && c[..|p|] == p;
    if Digits(n, RELAY_TAG_SIZE) == Digits(m, RELAY_TAG_SIZE) {
      CounterFits(n);
      CounterFits(m);
      DigitsTell(n, m, RELAY_TAG_SIZE);
    }
  }

  lemma ToyIdeal(before: bool)
    ensures Ideal(Toy(before)) && Binding(Toy(before))
  {
    hide Toy;
    forall k: Key, n: Counter, m: Counter, p: Bytes
      ensures Toy(before).open(k, n, Toy(before).seal(k, m, p)) == if n == m then Some(p) else None
      ensures |Toy(before).seal(k, m, p)| == |p| + RELAY_TAG_SIZE
    {
      ToyOpens(before, k, n, m, p);
    }
  }

  /** A digit is never the first byte of the envelope's magic. */
  lemma {:induction false} DigitsSmall(n: nat, k: nat)
    ensures forall i :: 0 <= i < k ==> Digits(n, k)[i] < 16
  {
    if k > 0 {
      DigitsSmall(n / 16, k - 1);
    }
  }

  /** Some cipher obeys every law assumed here, and no layer it makes can be taken for a command. */
  lemma CipherExists()
    ensures exists a :: Ideal(a) && Binding(a) && forall lanes, p :: ClearLayers(a, lanes, p)
  {
    hide Digits;
    var a := Toy(true);
    ToyIdeal(true);
    forall lanes: seq<Lane>, p: Bytes
      ensures ClearLayers(a, lanes, p)
    {
      forall i | 1 <= i < |lanes|
        ensures !StartsWithMagic(Onion(a, lanes, i, p))
      {
        var tag := Digits(lanes[i].counter, RELAY_TAG_SIZE);
        var sealed := Onion(a, lanes, i, p);
        DigitsSmall(lanes[i].counter, RELAY_TAG_SIZE);
        assert sealed == tag + Onion(a, lanes, i + 1, p) && sealed[0] == tag[0] < 16;
        assert sealed[..4][0] == sealed[0] != RELAY_MAGIC[0];
      }
    }
  }

  /** The laws alone do not clear a single layer: under this cipher nothing crosses a second hop. */
  lemma LawsDoNotClear()
    ensures exists a :: Ideal(a) && Binding(a) && Deaf(a)
  {
    var a := Toy(false);
    ToyIdeal(false);
    forall json: Json, c: Circuit, chunk: Bytes | Ready(c) && |c.relays| >= 2 && |chunk| <= MAX_RELAY_DATA_PAYLOAD
      ensures Delivery.Traverse(a, json, c.relays, 0, Onion(a, c.forward, 0, DataEnvelope(chunk))) == None
    {
      Uncovered(c.forward, 1, DataEnvelope(chunk));
      assert !ClearLayers(a, c.forward, DataEnvelope(chunk));
      Delivery.DeliveredIffClear(a, json, c, chunk);
    }
  }

  ghost predicate Deaf(a: Aead) {
    forall json: Json, c: Circuit, chunk: Bytes :: Ready(c) && |c.relays| >= 2 && |chunk| <= MAX_RELAY_DATA_PAYLOAD ==>
      Delivery.Traverse(a, json, c.relays, 0, Onion(a, c.forward, 0, DataEnvelope(chunk))) == None
  }

  /** With the tag behind the message every layer still starts like the envelope. */
  lemma {:induction false} Uncovered(lanes: seq<Lane>, i: nat, p: Bytes)
    requires i <= |lanes| && StartsWithMagic(p)
    ensures StartsWithMagic(Onion(Toy(false), lanes, i, p))
    decreases |lanes| - i
  {
    hide Digits;
    if i < |lanes| {
      Uncovered(lanes, i + 1, p);
      var inner := Onion(Toy(false), lanes, i + 1, p);
      var sealed := Onion(Toy(false), lanes, i, p);
      assert sealed == inner + Digits(lanes[i].counter, RELAY_TAG_SIZE);
      assert sealed[..4] == inner[..4];
    }
  }

  // -------------------------------------------------------------- keys and bodies

  function Ones(n: nat): (s: Bytes)
    ensures |s| == n && forall i :: 0 <= i < n ==> s[i] == 1
  {
    seq(n, _ => 1)
  }

  /** A text that can be read back whatever follows it. */
  function Text(s: string): Bytes {
    if s == [] then [2] else Ones(s[0] as int) + [0] + Text(s[1..])
  }

  lemma {:induction false} TextTells(s: string, t: string, x: Bytes, y: Bytes)
    requires Text(s) + x == Text(t) + y
    ensures s == t && x == y
    decreases |s| + |t|
  {
    hide Ones;
    var a, b := Text(s) + x, Text(t) + y;
    if s == [] && t == [] {
      assert a[1..] == x && b[1..] == y;
    } else if s == [] {
      Starts(t, y);
    } else if t == [] {
      Starts(s, x);
    } else {
      Starts(s, x);
      Starts(t, y);
      TextTells(s[1..], t[1..], x, y);
    }
  }

  /** Where the first character of a non-empty text ends. */
  lemma Starts(s: string, x: Bytes)
    requires s != []
    ensures var a, n := Text(s) + x, s[0] as int;
      && |a| > n && a[n] == 0 && (forall i :: 0 <= i < n ==> a[i] == 1) && a[n + 1..] == Text(s[1..]) + x && a[0] != 2
  {
    var n, rest := s[0] as int, Text(s[1..]);
    assert Text(s) == Ones(n) + [0] + rest;
    hide Text, Ones;
    assert (Ones(n) + [0] + rest) + x == Ones(n) + [0] + (rest + x);
  }

  function Body(r: RelayPlan, pub: Bytes): Bytes {
    Text(r.address) + (Text(r.nodeId) + pub)
  }

  ghost predicate Says(body: Bytes, c: ExtendCommand) {
    c.clientKey.Some? && body == Text(c.nextHop) + (Text(c.expectedNodeId) + c.clientKey.value)
  }

  ghost function ReadExtend(body: Bytes): Option<ExtendCommand> {
    if exists c :: Says(body, c) then
      var c :| Says(body, c);
      Some(c)
    else None
  }

  ghost function ReadBegin(body: Bytes): Option<string> {
    if exists s :: Text(s) == body then
      var s :| Text(s) == body;
      Some(s)
    else None
  }

  /** Thirty-two bytes made of whatever is given. */
  function Fit(s: Bytes): (r: Bytes)
    ensures |r| == 32 && (|s| == 32 ==> r == s)
  {
    (s + Zeros(32))[..32]
  }

  /** Some keys, signatures and bodies obey the laws the handshake relies on. */
  lemma SuiteExists()
    ensures exists h, json :: Lawful(h, json)
  {
    hide Text;
    var h := Suite(x => Zeros(32), (x, y) => [], s => Fit(s), (s, m) => Fit(s) + Zeros(32),
                   (pk, m, sig) => sig == Fit(pk) + Zeros(32) && |pk| == 32, (secret, id, side) => [], Body, Text);
    var json := Json(ReadExtend, ReadBegin, p => []);
    forall pk, m, s | h.verify(pk, m, h.sign(s, m))
      ensures pk == h.signerKey(s)
    {
      assert (Fit(pk) + Zeros(32))[..32] == Fit(pk) && (Fit(s) + Zeros(32))[..32] == Fit(s);
    }
    forall r: RelayPlan, pub: Bytes
      ensures json.extend(h.extendBody(r, pub)) == Some(ExtendCommand(r.address, r.nodeId, Some(pub)))
    {
      ExtendTells(r, pub);
    }
    forall addr: string
      ensures json.begin(h.beginBody(addr)) == Some(addr)
    {
      BeginTells(addr);
    }
    assert Lawful(h, json);
  }

  lemma ExtendTells(r: RelayPlan, pub: Bytes)
    ensures ReadExtend(Body(r, pub)) == Some(ExtendCommand(r.address, r.nodeId, Some(pub)))
  {
    hide Text;
    var body, want := Body(r, pub), ExtendCommand(r.address, r.nodeId, Some(pub));
    assert Says(body, want);
    forall c | Says(body, c)
      ensures c == want
    {
      TextTells(c.nextHop, r.address, Text(c.expectedNodeId) + c.clientKey.value, Text(r.nodeId) + pub);
      TextTells(c.expectedNodeId, r.nodeId, c.clientKey.value, pub);
    }
  }

  lemma BeginTells(addr: string)
    ensures ReadBegin(Text(addr)) == Some(addr)
  {
    hide Text;
    forall s | Text(s) == Text(addr)
      ensures s == addr
    {
      TextTells(s, addr, [], []);
    }
  }
}
