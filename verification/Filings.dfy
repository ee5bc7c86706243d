/** Which records a registry takes and holds, in versions, sequence numbers and times. */
module Filings {
  import opened Records
  import opened Registries
  import opened Updates

  /** A record that is complete, signed and in date. */
  ghost predicate Fine(signed: EndpointRecord -> bool, r: EndpointRecord, now: int) {
    && r.nodeId != "" && r.nodeName != "" && r.address != "" && signed(r) && now <= r.expiresAt
    && (r.version == 2 ==> r.sequence > 0)
    && (r.version < 2 ==> r.sequence == 0 && r.issuedAt.Some? && r.issuedAt.value < r.expiresAt)
    && r.version <= 2
  }

  /** The same in all that is signed; legacy records do not sign their version. */
  ghost predicate Same(r: EndpointRecord, q: EndpointRecord) {
    && r.nodeId == q.nodeId && r.nodeName == q.nodeName && r.address == q.address && r.publicKey == q.publicKey
    && r.issuedAt == q.issuedAt && r.expiresAt == q.expiresAt
    && (r.version >= 2 || q.version >= 2 ==> r.version == q.version && r.sequence == q.sequence)
  }

  lemma VerifiesIff(signed: EndpointRecord -> bool, r: EndpointRecord, now: int)
    ensures Verifies(signed, r, now) <==> Fine(signed, r, now)
  {
  }

  /** Whether a record is taken: if its node is new, if it is further on, or on publication if it is the same again. */
  ghost predicate Takes(signed: EndpointRecord -> bool, t: Tables, r: EndpointRecord, now: int, publishing: bool) {
    && Fine(signed, r, now)
    && (r.nodeId in t.byNode ==> Behind(StageOf(t.byNode[r.nodeId]), StageOf(r)) || (publishing && Same(r, t.byNode[r.nodeId])))
  }

  /** The tables with the record: under its node and its one name, all else as it was. */
  ghost predicate Filed(t: Tables, r: EndpointRecord, t': Tables) {
    && t'.byNode == t.byNode[r.nodeId := r]
    && (forall name :: name in t'.byName <==> name == r.nodeName || (name in t.byName && t.byName[name].nodeId != r.nodeId))
    && (forall name :: name in t'.byName ==> t'.byName[name] == if name == r.nodeName then r else t.byName[name])
  }

  lemma UpsertFiles(t: Tables, r: EndpointRecord)
    requires SubIndex(t)
    ensures Filed(t, r, Upsert(t, r))
  {
  }

  /** One record offered, by either way in. */
  lemma TakenIff(signed: EndpointRecord -> bool, t: Tables, r: EndpointRecord, now: int, publishing: bool)
    requires SubIndex(t)
    ensures var t' := if publishing then Published(signed, t, r, now) else ImportedOne(signed, t, r, now);
      if Takes(signed, t, r, now, publishing) then Filed(t, r, t') else t' == t
  {
    hide Verifies, Fine, Upsert, SubIndex, Filed, StageOf, Newer;
    VerifiesIff(signed, r, now);
    UpsertFiles(t, r);
    if Fine(signed, r, now) && r.nodeId in t.byNode {
      NewerFiled(signed, t, r, now);
    }
  }

  lemma NewerFiled(signed: EndpointRecord -> bool, t: Tables, r: EndpointRecord, now: int)
    requires SubIndex(t) && Fine(signed, r, now) && r.nodeId in t.byNode
    ensures Newer(r, t.byNode[r.nodeId]) <==> Behind(StageOf(t.byNode[r.nodeId]), StageOf(r))
    ensures PayloadOf(r) == PayloadOf(t.byNode[r.nodeId]) <==> Same(r, t.byNode[r.nodeId])
  {
    NewerIs(r, t.byNode[r.nodeId]);
  }

  // ------------------------------------------------------------------ whole runs

  /** The record was offered, at a time when it was fine. */
  ghost predicate Offered(signed: EndpointRecord -> bool, ops: seq<Op>, r: EndpointRecord) {
    exists op <- ops :: Fine(signed, r, op.now) && (if op.Publishing? then op.record == r else r in op.records)
  }

  ghost predicate Origin(signed: EndpointRecord -> bool, t: Tables, ops: seq<Op>, r: EndpointRecord) {
    (r.nodeId in t.byNode && t.byNode[r.nodeId] == r) || Offered(signed, ops, r)
  }

  lemma {:induction false} ImportOrigin(signed: EndpointRecord -> bool, t: Tables, records: seq<EndpointRecord>, now: int, id: string)
    requires SubIndex(t) && id in Imported(signed, t, records, now).byNode
    ensures SubIndex(Imported(signed, t, records, now))
    ensures var r := Imported(signed, t, records, now).byNode[id];
      r.nodeId == id && ((id in t.byNode && r == t.byNode[id]) || (r in records && Fine(signed, r, now)))
  {
    hide Newer, Verifies, ImportedOne, Filed, Fine, Behind, StageOf, Same;
    if records != [] {
      var front, last := records[..|records| - 1], records[|records| - 1];
      var before := Imported(signed, t, front, now);
      ImportedKeeps(signed, t, front, now);
      ImportedKeeps(signed, t, records, now);
      TakenIff(signed, before, last, now, false);
      OnlyOne(before, last, ImportedOne(signed, before, last, now), id);
      if id in before.byNode {
        ImportOrigin(signed, t, front, now, id);
      }
    }
  }

  lemma OnlyOne(t: Tables, r: EndpointRecord, t': Tables, id: string)
    ensures Filed(t, r, t') && id in t'.byNode ==> (id == r.nodeId && t'.byNode[id] == r) || (id in t.byNode && t'.byNode[id] == t.byNode[id])
  {
  }

  lemma ApplyOrigin(signed: EndpointRecord -> bool, t: Tables, op: Op, id: string)
    requires SubIndex(t) && id in Apply(signed, t, op).byNode
    ensures Origin(signed, t, [op], Apply(signed, t, op).byNode[id])
  {
    hide Newer, Verifies, Published, Imported, Filed, Fine, Behind, StageOf, Same;
    assert op in [op];
    match op
    case Publishing(r, now) =>
      TakenIff(signed, t, r, now, true);
      OnlyOne(t, r, Published(signed, t, r, now), id);
    case Importing(records, now) =>
      ImportOrigin(signed, t, records, now, id);
  }

  /** After any run every record held was held before or was offered when it was fine. */
  lemma {:induction false} NothingInvented(signed: EndpointRecord -> bool, t: Tables, ops: seq<Op>, id: string)
    requires SubIndex(t) && id in ApplyAll(signed, t, ops).byNode
    ensures Origin(signed, t, ops, ApplyAll(signed, t, ops).byNode[id])
    decreases |ops|
  {
    hide Newer, Verifies, Apply, Fine, SubIndex, Offered;
    if ops == [] {
      OwnNode(t, id);
    } else {
      var t1 := Apply(signed, t, ops[0]);
      var r := ApplyAll(signed, t, ops).byNode[id];
      ApplyKeeps(signed, t, ops[0]);
      NothingInvented(signed, t1, ops[1..], id);
      OfferedMore(signed, ops, r);
      if !Offered(signed, ops[1..], r) {
        OwnNode(t1, r.nodeId);
        ApplyOrigin(signed, t, ops[0], r.nodeId);
      }
    }
  }

  lemma OwnNode(t: Tables, id: string)
    requires SubIndex(t) && id in t.byNode
    ensures t.byNode[id].nodeId == id
  {
  }

  lemma OfferedMore(signed: EndpointRecord -> bool, ops: seq<Op>, r: EndpointRecord)
    requires ops != []
    ensures Offered(signed, ops, r) <==> Offered(signed, [ops[0]], r) || Offered(signed, ops[1..], r)
  {
    hide Fine;
    assert ops == [ops[0]] + ops[1..];
  }

  /** And without a downgrade none that was offered is further on than what is held of its node. */
  lemma {:induction false} FurthestFiled(signed: EndpointRecord -> bool, t: Tables, ops: seq<Op>, r: EndpointRecord)
    requires SubIndex(t) && Upward(signed, t, ops) && Origin(signed, t, ops, r)
    ensures r.nodeId in ApplyAll(signed, t, ops).byNode && !Behind(StageOf(ApplyAll(signed, t, ops).byNode[r.nodeId]), StageOf(r))
    decreases |ops|
  {
    hide Newer, Verifies, Apply, Fine, SubIndex, Offered, Behind, StageOf, Downgrades;
    if ops == [] {
      NobodyOffers(signed, r);
      NotBehindItself(StageOf(r));
    } else {
      var t1, end := Apply(signed, t, ops[0]), ApplyAll(signed, t, ops);
      ApplyKeeps(signed, t, ops[0]);
      OfferedMore(signed, ops, r);
      if Offered(signed, ops[1..], r) {
        FurthestFiled(signed, t1, ops[1..], r);
      } else {
        ApplyCovers(signed, t, ops[0], r);
        var q := t1.byNode[r.nodeId];
        OwnNode(t1, r.nodeId);
        FurthestFiled(signed, t1, ops[1..], q);
        Onward(StageOf(end.byNode[r.nodeId]), StageOf(q), StageOf(r));
      }
    }
  }

  /** What was held or is offered is then held, or something no less far on. */
  lemma ApplyCovers(signed: EndpointRecord -> bool, t: Tables, op: Op, r: EndpointRecord)
    requires SubIndex(t) && Origin(signed, t, [op], r)
    requires op.Publishing? && Verifies(signed, op.record, op.now) ==> !Downgrades(t, op.record)
    ensures var t1 := Apply(signed, t, op); r.nodeId in t1.byNode && !Behind(StageOf(t1.byNode[r.nodeId]), StageOf(r))
  {
    hide Newer, Verifies, Published, Imported, Filed, Fine, Behind, StageOf, Same, SubIndex, Downgrades;
    var t1 := Apply(signed, t, op);
    ApplyKeeps(signed, t, op);
    if r.nodeId in t.byNode && t.byNode[r.nodeId] == r {
      assert Advances(t, t1);
      BothReadable(t, t1, r.nodeId);
      NewerIs(r, t1.byNode[r.nodeId]);
    } else {
      assert Fine(signed, r, op.now);
      match op
      case Publishing(record, now) =>
        TakenIff(signed, t, r, now, true);
        FiledHolds(t, r, t1);
        NotBehindItself(StageOf(r));
      case Importing(records, now) =>
        VerifiesIff(signed, r, now);
        ImportedKeeps(signed, t, records, now);
        FineReadable(signed, t1, r, now);
        NewerIs(r, t1.byNode[r.nodeId]);
    }
  }

  lemma FiledHolds(t: Tables, r: EndpointRecord, t': Tables)
    ensures Filed(t, r, t') ==> r.nodeId in t'.byNode && t'.byNode[r.nodeId] == r
  {
  }

  lemma BothReadable(t: Tables, t': Tables, id: string)
    requires SubIndex(t) && SubIndex(t') && id in t.byNode && id in t'.byNode
    ensures Readable(t.byNode[id]) && Readable(t'.byNode[id])
  {
  }

  lemma FineReadable(signed: EndpointRecord -> bool, t: Tables, r: EndpointRecord, now: int)
    requires SubIndex(t) && Fine(signed, r, now) && r.nodeId in t.byNode
    ensures Readable(r) && Readable(t.byNode[r.nodeId])
  {
  }

  lemma NobodyOffers(signed: EndpointRecord -> bool, r: EndpointRecord)
    ensures !Offered(signed, [], r)
  {
  }

  lemma NotBehindItself(s: Stage)
    ensures !Behind(s, s)
  {
  }

  lemma Onward(a: Stage, b: Stage, c: Stage)
    requires !Behind(a, b) && !Behind(b, c)
    ensures !Behind(a, c)
  {
  }
}
