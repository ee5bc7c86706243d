/** The registry of signed endpoint records, by node and by name. */
module Registries {
  import opened Wire
  import opened Records

  /** What a signature covers: the version only from version two on. */
  datatype Payload =
    | Legacy(nodeId: string, nodeName: string, address: string, publicKey: string, issuedAt: Option<int>, expiresAt: int)
    | Sequenced(version: nat, sequence: nat, nodeId: string, nodeName: string, address: string, publicKey: string,
                issuedAt: Option<int>, expiresAt: int)

  function PayloadOf(r: EndpointRecord): Payload {
    if r.version >= 2
    then Sequenced(r.version, r.sequence, r.nodeId, r.nodeName, r.address, r.publicKey, r.issuedAt, r.expiresAt)
    else Legacy(r.nodeId, r.nodeName, r.address, r.publicKey, r.issuedAt, r.expiresAt)
  }

  /** What holds of every record that verifies, whatever the time. */
  predicate WellFormed(r: EndpointRecord) {
    && r.nodeId != "" && r.nodeName != "" && r.address != "" && r.version <= 2
    && (r.version == 2 <==> r.sequence != 0) && Readable(r)
  }

  /** signed: the checks of the formats and of the signature. */
  predicate Verifies(signed: EndpointRecord -> bool, r: EndpointRecord, now: int) {
    && WellFormed(r) && now <= r.expiresAt && signed(r)
    && (r.version < 2 ==> r.issuedAt.Some? && r.expiresAt > r.issuedAt.value)
  }

  datatype Tables = Tables(byName: map<string, EndpointRecord>, byNode: map<string, EndpointRecord>)

  function Upsert(t: Tables, r: EndpointRecord): Tables {
    var names :=
      if r.nodeId in t.byNode && t.byNode[r.nodeId].nodeName != r.nodeName && t.byNode[r.nodeId].nodeName in t.byName
         && t.byName[t.byNode[r.nodeId].nodeName].nodeId == r.nodeId
      then t.byName - {t.byNode[r.nodeId].nodeName} else t.byName;
    Tables(names[r.nodeName := r], t.byNode[r.nodeId := r])
  }

  /** Names lead to records that are stored, under the name they carry. */
  ghost predicate SubIndex(t: Tables) {
    && (forall id :: id in t.byNode ==> t.byNode[id].nodeId == id && WellFormed(t.byNode[id]))
    && (forall name :: name in t.byName ==>
          var r := t.byName[name]; r.nodeName == name && r.nodeId in t.byNode && t.byNode[r.nodeId] == r)
  }

  /** The record is found under its node and its name, and only a name the node has given up is forgotten. */
  lemma UpsertKeeps(t: Tables, r: EndpointRecord)
    requires SubIndex(t) && WellFormed(r)
    ensures var t' := Upsert(t, r);
      && SubIndex(t') && r.nodeName in t'.byName && t'.byName[r.nodeName] == r
      && (forall id :: id in t'.byNode <==> id in t.byNode || id == r.nodeId)
      && (forall id :: id in t'.byNode ==> t'.byNode[id] == if id == r.nodeId then r else t.byNode[id])
      && (forall name :: name in t.byName && name != r.nodeName && t.byName[name].nodeId != r.nodeId ==>
            name in t'.byName && t'.byName[name] == t.byName[name])
      && (forall name :: name in t'.byName && t'.byName[name].nodeId == r.nodeId ==> name == r.nodeName)
  {
  }

  predicate Publishable(t: Tables, r: EndpointRecord) {
    r.nodeId in t.byNode ==> Newer(r, t.byNode[r.nodeId]) || PayloadOf(r) == PayloadOf(t.byNode[r.nodeId])
  }

  predicate Importable(t: Tables, r: EndpointRecord) {
    r.nodeId in t.byNode ==> Newer(r, t.byNode[r.nodeId])
  }

  /** No node's record has been lost or replaced by an older one. */
  ghost predicate Advances(t: Tables, t': Tables) {
    forall id :: id in t.byNode ==> id in t'.byNode && !Newer(t.byNode[id], t'.byNode[id])
  }

  lemma AdvancesOn(t: Tables, t': Tables, t'': Tables)
    requires SubIndex(t') && Advances(t, t') && Advances(t', t'')
    ensures Advances(t, t'')
  {
    forall id | id in t.byNode
      ensures !Newer(t.byNode[id], t''.byNode[id])
    {
      NewerOrder(t.byNode[id], t'.byNode[id], t''.byNode[id]);
    }
  }

  /** A record published under the payload of a legacy one, but claiming a lower version. */
  predicate Downgrades(t: Tables, r: EndpointRecord) {
    r.nodeId in t.byNode && PayloadOf(r) == PayloadOf(t.byNode[r.nodeId]) && r.version < t.byNode[r.nodeId].version
  }

  /** Publishing moves a node's record backwards exactly when it is such a downgrade. */
  lemma PublishIff(t: Tables, r: EndpointRecord)
    requires SubIndex(t) && Publishable(t, r)
    ensures Advances(t, Upsert(t, r)) <==> !Downgrades(t, r)
  {
    forall id | id in t.byNode && id != r.nodeId
      ensures !Newer(t.byNode[id], Upsert(t, r).byNode[id])
    {
      NewerOrder(t.byNode[id], t.byNode[id], t.byNode[id]);
    }
    if r.nodeId in t.byNode {
      NewerOrder(r, t.byNode[r.nodeId], r);
      assert Upsert(t, r).byNode[r.nodeId] == r;
    }
  }

  // ----------------------------------------------------------------------- runs

  function Published(signed: EndpointRecord -> bool, t: Tables, r: EndpointRecord, now: int): Tables {
    if Verifies(signed, r, now) && Publishable(t, r) then Upsert(t, r) else t
  }

  function ImportedOne(signed: EndpointRecord -> bool, t: Tables, r: EndpointRecord, now: int): Tables {
    if Verifies(signed, r, now) && Importable(t, r) then Upsert(t, r) else t
  }

  function Imported(signed: EndpointRecord -> bool, t: Tables, records: seq<EndpointRecord>, now: int): Tables {
    if records == [] then t
    else ImportedOne(signed, Imported(signed, t, records[..|records| - 1], now), records[|records| - 1], now)
  }

  /** From an empty registry: a version-one record, then its version-zero copy, which the same signature covers. */
  lemma DowngradePublished(signed: EndpointRecord -> bool, one: EndpointRecord, now: int)
    requires one.version == 1 && Verifies(signed, one, now) && Verifies(signed, one.(version := 0), now)
    ensures var zero := one.(version := 0);
      var t := Published(signed, Tables(map[], map[]), one, now);
      && PayloadOf(zero) == PayloadOf(one) && SubIndex(t) && Downgrades(t, zero)
      && one.nodeId in t.byNode && t.byNode[one.nodeId] == one
      && one.nodeId in Published(signed, t, zero, now).byNode && Published(signed, t, zero, now).byNode[one.nodeId] == zero
      && !Advances(t, Published(signed, t, zero, now))
  {
    hide Newer;
    var none, zero := Tables(map[], map[]), one.(version := 0);
    var t := Published(signed, none, one, now);
    UpsertKeeps(none, one);
    assert Publishable(t, zero);
    PublishIff(t, zero);
  }

  /** Such a record exists. */
  lemma DowngradeExists()
    ensures exists signed, one: EndpointRecord, now :: one.version == 1 && Verifies(signed, one, now) && Verifies(signed, one.(version := 0), now)
  {
    var one := EndpointRecord(1, 0, "vx6_a", "a", "[::1]:1", "", Some(0), 1, "");
    assert Verifies((r: EndpointRecord) => true, one, 0) && Verifies((r: EndpointRecord) => true, one.(version := 0), 0);
  }

  lemma Unmoved(t: Tables)
    ensures Advances(t, t)
  {
    forall id | id in t.byNode
      ensures !Newer(t.byNode[id], t.byNode[id])
    {
      NewerOrder(t.byNode[id], t.byNode[id], t.byNode[id]);
    }
  }

  lemma ImportedOneKeeps(signed: EndpointRecord -> bool, t: Tables, r: EndpointRecord, now: int)
    requires SubIndex(t)
    ensures SubIndex(ImportedOne(signed, t, r, now)) && Advances(t, ImportedOne(signed, t, r, now))
    ensures Verifies(signed, r, now) ==>
      var t' := ImportedOne(signed, t, r, now); r.nodeId in t'.byNode && !Newer(r, t'.byNode[r.nodeId])
  {
    hide Newer, Verifies;
    Unmoved(t);
    if Verifies(signed, r, now) && Importable(t, r) {
      WellFormedIf(signed, r, now);
      UpsertKeeps(t, r);
      PublishIff(t, r);
      NewerOrder(r, r, r);
      if r.nodeId in t.byNode {
        NewerIsHigher(r, t.byNode[r.nodeId]);
      }
    }
  }

  lemma WellFormedIf(signed: EndpointRecord -> bool, r: EndpointRecord, now: int)
    requires Verifies(signed, r, now)
    ensures WellFormed(r)
  {
  }

  lemma NewerIsHigher(r: EndpointRecord, q: EndpointRecord)
    requires Newer(r, q)
    ensures r.version >= q.version
  {
  }

  /** After an import the registry holds, for each record that verifies, that one or one it is not newer than. */
  lemma {:induction false} ImportedKeeps(signed: EndpointRecord -> bool, t: Tables, records: seq<EndpointRecord>, now: int)
    requires SubIndex(t)
    ensures var t' := Imported(signed, t, records, now);
      && SubIndex(t') && Advances(t, t')
      && (forall r <- records :: Verifies(signed, r, now) ==> r.nodeId in t'.byNode && !Newer(r, t'.byNode[r.nodeId]))
  {
    hide Newer, Verifies, ImportedOne, SubIndex;
    if records == [] {
      Unmoved(t);
    } else {
      var front, last := records[..|records| - 1], records[|records| - 1];
      var before := Imported(signed, t, front, now);
      var after := ImportedOne(signed, before, last, now);
      ImportedKeeps(signed, t, front, now);
      ImportedOneKeeps(signed, before, last, now);
      AdvancesOn(t, before, after);
      forall r <- records | Verifies(signed, r, now)
        ensures r.nodeId in after.byNode && !Newer(r, after.byNode[r.nodeId])
      {
        if r in front {
          Covered(before, after, r);
        }
      }
    }
  }

  lemma Covered(t: Tables, t': Tables, r: EndpointRecord)
    requires SubIndex(t) && Advances(t, t') && r.nodeId in t.byNode && !Newer(r, t.byNode[r.nodeId])
    ensures r.nodeId in t'.byNode && !Newer(r, t'.byNode[r.nodeId])
  {
    NewerOrder(r, t.byNode[r.nodeId], t'.byNode[r.nodeId]);
  }

  datatype Op = Publishing(record: EndpointRecord, now: int) | Importing(records: seq<EndpointRecord>, now: int)

  function Apply(signed: EndpointRecord -> bool, t: Tables, op: Op): Tables {
    match op
    case Publishing(r, now) => Published(signed, t, r, now)
    case Importing(records, now) => Imported(signed, t, records, now)
  }

  function ApplyAll(signed: EndpointRecord -> bool, t: Tables, ops: seq<Op>): Tables
    decreases |ops|
  {
    if ops == [] then t else ApplyAll(signed, Apply(signed, t, ops[0]), ops[1..])
  }

  /** No publication along the run is a downgrade. */
  ghost predicate Upward(signed: EndpointRecord -> bool, t: Tables, ops: seq<Op>)
    decreases |ops|
  {
    ops == []
    || ((ops[0].Publishing? && Verifies(signed, ops[0].record, ops[0].now) ==> !Downgrades(t, ops[0].record))
        && Upward(signed, Apply(signed, t, ops[0]), ops[1..]))
  }

  lemma ApplyKeeps(signed: EndpointRecord -> bool, t: Tables, op: Op)
    requires SubIndex(t)
    ensures SubIndex(Apply(signed, t, op))
    ensures (op.Publishing? && Verifies(signed, op.record, op.now) ==> !Downgrades(t, op.record)) ==> Advances(t, Apply(signed, t, op))
  {
    hide Newer, Verifies, Upsert, Advances, SubIndex, Downgrades, Publishable;
    match op
    case Publishing(r, now) =>
      Unmoved(t);
      if Verifies(signed, r, now) && Publishable(t, r) {
        WellFormedIf(signed, r, now);
        UpsertKeeps(t, r);
        PublishIff(t, r);
      }
    case Importing(records, now) =>
      ImportedKeeps(signed, t, records, now);
  }

  /** Over any run without a downgrade, no node's record is ever lost or replaced by an older one. */
  lemma {:induction false} RunAdvances(signed: EndpointRecord -> bool, t: Tables, ops: seq<Op>)
    requires SubIndex(t) && Upward(signed, t, ops)
    ensures SubIndex(ApplyAll(signed, t, ops)) && Advances(t, ApplyAll(signed, t, ops))
    decreases |ops|
  {
    hide Newer, Verifies, SubIndex, Advances, Apply, Downgrades;
    if ops == [] {
      Unmoved(t);
    } else {
      var t1 := Apply(signed, t, ops[0]);
      ApplyKeeps(signed, t, ops[0]);
      RunAdvances(signed, t1, ops[1..]);
      AdvancesOn(t, t1, ApplyAll(signed, t1, ops[1..]));
    }
  }

  class Registry {
    const signed: EndpointRecord -> bool
    var byName: map<string, EndpointRecord>
    var byNode: map<string, EndpointRecord>

    ghost function View(): Tables
      reads this
    {
      Tables(byName, byNode)
    }

    constructor (signed: EndpointRecord -> bool)
      ensures this.signed == signed && View() == Tables(map[], map[]) && SubIndex(View())
    {
      this.signed := signed;
      byName, byNode := map[], map[];
    }

    method UpsertEndpoint(r: EndpointRecord)
      requires SubIndex(View()) && WellFormed(r)
      modifies this
      ensures View() == Upsert(old(View()), r) && SubIndex(View())
    {
      UpsertKeeps(View(), r);
      if r.nodeId in byNode {
        var existing := byNode[r.nodeId];
        if existing.nodeName != "" && existing.nodeName != r.nodeName && existing.nodeName in byName
           && byName[existing.nodeName].nodeId == r.nodeId {
          byName := byName - {existing.nodeName};
        }
      }
      byName := byName[r.nodeName := r];
      byNode := byNode[r.nodeId := r];
    }

    /** saved: whether the registry could be written to disk; a failure is reported, and the record stays in memory. */
    method Publish(r: EndpointRecord, now: int, saved: bool) returns (ok: bool)
      requires SubIndex(View())
      modifies this
      ensures SubIndex(View()) && View() == Published(signed, old(View()), r, now)
      ensures ok <==> Verifies(signed, r, now) && Publishable(old(View()), r) && saved
    {
      hide Upsert, SubIndex;
      if !Verifies(signed, r, now) {
        return false;
      }
      if r.nodeId in byNode && !Newer(r, byNode[r.nodeId]) && PayloadOf(r) != PayloadOf(byNode[r.nodeId]) {
        return false;
      }
      UpsertEndpoint(r);
      ok := saved;
    }

    method Import(records: seq<EndpointRecord>, now: int, saved: bool) returns (ok: bool)
      requires SubIndex(View())
      modifies this
      ensures SubIndex(View()) && View() == Imported(signed, old(View()), records, now)
      ensures (saved ==> ok) && (!saved && View() != old(View()) ==> !ok)
    {
      hide Upsert, SubIndex, Newer;
      assert records[..0] == [];
      var changed := false;
      for i := 0 to |records|
        invariant SubIndex(View()) && View() == Imported(signed, old(View()), records[..i], now)
        invariant View() != old(View()) ==> changed
      {
        var r := records[i];
        assert records[..i + 1][..i] == records[..i];
        if Verifies(signed, r, now) {
          if r.nodeId !in byNode || Newer(r, byNode[r.nodeId]) {
            UpsertEndpoint(r);
            changed := true;
          }
        }
      }
      assert records[..|records|] == records;
      ok := saved || !changed;
    }

    /** A name is resolved only while a single stored identity bears it. */
    method ResolveName(name: string, now: int) returns (r: Option<EndpointRecord>)
      requires SubIndex(View()) && name != ""
      ensures r.Some? <==> exists id :: id in byNode && byNode[id].nodeName == name && Verifies(signed, byNode[id], now)
                                     && forall other :: other in byNode && byNode[other].nodeName == name ==> other == id
      ensures r.Some? ==> r.value.nodeId in byNode && byNode[r.value.nodeId] == r.value && r.value.nodeName == name
    {
      hide Verifies;
      var left, found: Option<string> := byNode.Keys, None;
      while left != {}
        invariant left <= byNode.Keys
        invariant found.None? ==> forall id :: id in byNode && id !in left ==> byNode[id].nodeName != name
        invariant found.Some? ==> found.value in byNode && found.value !in left && byNode[found.value].nodeName == name
        invariant found.Some? ==> forall id :: id in byNode && id !in left && byNode[id].nodeName == name ==> id == found.value
        decreases |left|
      {
        var id :| id in left;
        left := left - {id};
        if byNode[id].nodeName == name {
          if found.Some? && byNode[found.value].nodeId != byNode[id].nodeId {
            return None;
          }
          found := Some(id);
        }
      }
      if found.None? || !Verifies(signed, byNode[found.value], now) {
        return None;
      }
      r := Some(byNode[found.value]);
    }
  }
}
