/** A node's own endpoint record: which sequence numbers it issues, across restarts. */
module Owners {
  import opened Wire
  import opened Records
  import opened Registries

  const MAX_SEQUENCE := 0xFFFF_FFFF_FFFF_FFFF
  const LIFETIME := 1200      // twenty minutes
  const MARGIN := 300         // five minutes

  datatype Identity = Identity(nodeId: string, publicKey: string)

  /** Builds and signs a record under the name's normal form; None if the name or address is refused. */
  datatype Signer = Signer(make: (Identity, string, string, nat, int) -> Option<EndpointRecord>, normal: string -> string)

  predicate Bears(signer: Signer, r: EndpointRecord, id: Identity, name: string, address: string, sequence: nat, now: int) {
    && r.version == 2 && r.sequence == sequence && r.nodeId == id.nodeId && r.nodeName == signer.normal(name) && r.address == address
    && r.expiresAt == now + LIFETIME
  }

  ghost predicate Signs(signer: Signer) {
    forall id, name, address, sequence, now ::
      var r := signer.make(id, name, address, sequence, now); r.Some? ==> Bears(signer, r.value, id, name, address, sequence, now)
  }

  /** The node's settings on disk, and every record it has ever given out. */
  class Settings {
    var sequence: nat
    var name: string
    var address: string
    ghost var issued: seq<EndpointRecord>

    constructor ()
      ensures sequence == 0 && issued == []
    {
      sequence, name, address, issued := 0, "", "", [];
    }
  }

  /** Records are given out with rising sequence numbers, none beyond what the disk remembers. */
  ghost predicate Rising(issued: seq<EndpointRecord>, sequence: nat) {
    && (forall r <- issued :: r.version == 2 && r.sequence <= sequence)
    && (forall i, j :: 0 <= i < j < |issued| ==> issued[i].sequence < issued[j].sequence)
  }

  class EndpointRecordState {
    const signer: Signer
    const disk: Settings
    var sequence: nat
    var name: string
    var address: string
    var current: Option<EndpointRecord>

    ghost predicate Valid()
      reads this, disk
    {
      && Signs(signer) && Rising(disk.issued, disk.sequence)
      && (current.Some? ==> current.value in disk.issued && current.value.nodeName == signer.normal(name) && current.value.address == address)
      && (current.Some? ==> current.value.sequence == sequence)
    }

    /** A start of the node; loaded says whether the settings could be read. */
    constructor (signer: Signer, disk: Settings, loaded: bool)
      requires Signs(signer) && Rising(disk.issued, disk.sequence)
      ensures Valid() && this.disk == disk && this.signer == signer && current.None?
    {
      this.signer, this.disk := signer, disk;
      sequence, name, address, current := 0, "", "", None;
      if loaded {
        sequence, name, address := disk.sequence, disk.name, disk.address;
      }
    }

    /** The current record is for this and good for another five minutes. */
    predicate Lasts(id: Identity, name: string, address: string, now: int)
      reads this
    {
      current.Some? && current.value.nodeId == id.nodeId && this.name == name && this.address == address && now + 300 < current.value.expiresAt
    }

    /** loaded and saved say whether reading and writing the settings succeed. */
    method Current(id: Identity, name: string, address: string, now: int, loaded: bool, saved: bool) returns (r: Option<EndpointRecord>)
      requires Valid()
      modifies this, disk
      ensures Valid()
      ensures r.None? ==> disk.issued == old(disk.issued)
      ensures r.Some? ==> r.value in disk.issued && r.value.nodeId == id.nodeId && now + 300 < r.value.expiresAt
      ensures r.Some? ==> r.value.nodeName == signer.normal(name) && r.value.address == address
      ensures old(Lasts(id, name, address, now)) ==> r == old(current) && disk.issued == old(disk.issued)
      ensures r.Some? && !old(Lasts(id, name, address, now)) ==>
        r.value.sequence == disk.sequence == (if old(sequence) > old(disk.sequence) then old(sequence) else old(disk.sequence)) + 1
      ensures loaded && saved && old(sequence) < MAX_SEQUENCE && old(disk.sequence) < MAX_SEQUENCE ==>
        r.Some? || exists n: nat :: signer.make(id, name, address, n, now).None?
      ensures r.Some? && disk.issued != old(disk.issued) ==> disk.issued == old(disk.issued) + [r.value]
      ensures r.Some? && disk.issued != old(disk.issued) ==> forall q <- old(disk.issued) :: q.sequence < r.value.sequence
    {
      if current.Some? && current.value.nodeId == id.nodeId && this.name == name && this.address == address
         && now + MARGIN < current.value.expiresAt {
        return current;
      }
      if sequence == MAX_SEQUENCE {
        return None;
      }
      var next := sequence + 1;
      var created := signer.make(id, name, address, next, now);
      if created.None? || !loaded {
        return None;
      }
      if disk.sequence >= next {
        if disk.sequence == MAX_SEQUENCE {
          return None;
        }
        next := disk.sequence + 1;
        created := signer.make(id, name, address, next, now);
        if created.None? {
          return None;
        }
      }
      if !saved {
        return None;
      }
      disk.sequence, disk.name, disk.address := next, name, address;
      sequence, this.name, this.address, current := next, name, address, created;
      disk.issued := disk.issued + [created.value];
      r := created;
    }
  }

  datatype Event =
    | Restart(loaded: bool)
    | Request(id: Identity, name: string, address: string, now: int, loaded: bool, saved: bool)

  /** The node's whole life, through any number of restarts: what it has given out only ever grows, rising. */
  method Live(signer: Signer, disk: Settings, events: seq<Event>)
    requires Signs(signer) && Rising(disk.issued, disk.sequence)
    modifies disk
    ensures Rising(disk.issued, disk.sequence) && old(disk.issued) <= disk.issued
    ensures forall i, j :: 0 <= i < |disk.issued| && 0 <= j < |disk.issued| && disk.issued[i].sequence == disk.issued[j].sequence ==> i == j
  {
    hide Signs, Rising;
    var owner := new EndpointRecordState(signer, disk, true);
    for i := 0 to |events|
      invariant owner.Valid() && owner.disk == disk && fresh(owner) && old(disk.issued) <= disk.issued
    {
      match events[i]
      case Restart(loaded) => owner := new EndpointRecordState(signer, disk, loaded);
      case Request(id, name, address, now, loaded, saved) => var _ := owner.Current(id, name, address, now, loaded, saved);
    }
    NeverReused(disk.issued, disk.sequence);
  }

  /** No sequence number is given out twice. */
  lemma NeverReused(issued: seq<EndpointRecord>, sequence: nat)
    requires Rising(issued, sequence)
    ensures forall i, j :: 0 <= i < |issued| && 0 <= j < |issued| && issued[i].sequence == issued[j].sequence ==> i == j
  {
  }

  /** A registry that holds an earlier record of the node takes every later one, by either way in. */
  lemma LaterTaken(issued: seq<EndpointRecord>, sequence: nat, i: nat, j: nat, signed: EndpointRecord -> bool, t: Tables, now: int)
    requires Rising(issued, sequence) && i < j < |issued| && issued[i].nodeId == issued[j].nodeId
    requires issued[i].nodeId in t.byNode && t.byNode[issued[i].nodeId] == issued[i] && Verifies(signed, issued[j], now)
    ensures Published(signed, t, issued[j], now).byNode[issued[j].nodeId] == issued[j]
    ensures ImportedOne(signed, t, issued[j], now).byNode[issued[j].nodeId] == issued[j]
  {
    assert issued[i] in issued && issued[j] in issued && issued[i].sequence < issued[j].sequence;
    assert Newer(issued[j], issued[i]);
  }
}
