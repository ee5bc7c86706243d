/** The persisted peers and the indexes of friends and of used peers. */
module PeerStores {
  import opened Ordering
  import opened Routing
  import opened Retention

  type Rows = map<string, Peer>

  predicate Reused(p: Peer) {
    p.useCount >= 3 || p.lastUsed != 0
  }

  ghost predicate Keyed(rows: Rows) {
    forall id :: id in rows ==> rows[id].node.id == id && id != "" && rows[id].node.addr != ""
  }

  /** The two indexes list exactly the rows they are for. */
  ghost predicate Indexed(rows: Rows, friends: set<string>, used: set<string>) {
    && (forall id :: id in friends <==> id in rows && rows[id].friend)
    && (forall id :: id in used <==> id in rows && (rows[id].useCount >= 3 || rows[id].lastUsed != 0))
  }

  // ---------------------------------------------------------------------- merging

  /** A fresh observation keeps what only the store may know: friendship, use, and the first sighting. */
  function Merge(was: Peer, p: Peer): Peer {
    p.(friend := p.friend || was.friend,
       useCount := if was.useCount > p.useCount then was.useCount else p.useCount,
       lastUsed := if was.lastUsed > p.lastUsed then was.lastUsed else p.lastUsed,
       firstSeen := if p.firstSeen == 0 || (was.firstSeen != 0 && was.firstSeen < p.firstSeen) then was.firstSeen else p.firstSeen)
  }

  function MergeOne(rows: Rows, p: Peer): Rows {
    rows[p.node.id := if p.node.id in rows then Merge(rows[p.node.id], p) else p]
  }

  function Merged(rows: Rows, peers: seq<Peer>): Rows {
    if peers == [] then rows else MergeOne(Merged(rows, peers[..|peers| - 1]), peers[|peers| - 1])
  }

  ghost predicate Friendly(rows: Rows, peers: seq<Peer>, id: string) {
    (id in rows && rows[id].friend) || exists p <- peers :: p.node.id == id && p.friend
  }

  lemma {:induction false} MergedKeyed(rows: Rows, peers: seq<Peer>)
    requires Keyed(rows)
    ensures forall id :: id in Merged(rows, peers) ==> Merged(rows, peers)[id].node.id == id
  {
    if peers != [] {
      var front, last := peers[..|peers| - 1], peers[|peers| - 1];
      assert peers == front + [last] && last in peers;
      MergedKeyed(rows, front);
    }
  }

  /** Who is a friend after merging: those the store or any observation calls so. */
  lemma {:induction false} MergedFriends(rows: Rows, peers: seq<Peer>, id: string)
    ensures id in Merged(rows, peers) && Merged(rows, peers)[id].friend <==> Friendly(rows, peers, id)
  {
    if peers != [] {
      var front, last := peers[..|peers| - 1], peers[|peers| - 1];
      assert peers == front + [last] && last in peers;
      MergedFriends(rows, front, id);
      if p :| p in front && p.node.id == id && p.friend {
        assert p in peers;
      }
    }
  }

  /** Merging forgets no row and no use of one. */
  lemma {:induction false} MergedUse(rows: Rows, peers: seq<Peer>, id: string)
    requires id in rows
    ensures id in Merged(rows, peers)
    ensures Merged(rows, peers)[id].useCount >= rows[id].useCount && Merged(rows, peers)[id].lastUsed >= rows[id].lastUsed
  {
    if peers != [] {
      MergedUse(rows, peers[..|peers| - 1], id);
    }
  }

  /** Rows are written for peers with an identity and an address that have not been away too long. */
  predicate Eligible(p: Peer, now: Time) {
    && p.node.id != "" && p.node.addr != ""
    && (p.pinned || p.friend
        || !((p.offlineSince != 0 && now - p.offlineSince > HISTORY_TTL)
             || (p.offlineSince == 0 && p.lastSeen != 0 && now - p.lastSeen > HISTORY_TTL)))
  }

  /** list holds each of the rows once. */
  ghost predicate ListOf(list: seq<Peer>, rows: Rows) {
    && DistinctPeers(list) && (forall p <- list :: p.node.id in rows && rows[p.node.id] == p)
    && NamesIn(list) == rows.Keys
  }

  method Listing(rows: Rows) returns (list: seq<Peer>)
    requires forall id :: id in rows ==> rows[id].node.id == id
    ensures ListOf(list, rows)
  {
    list := [];
    var left := rows.Keys;
    while left != {}
      invariant left <= rows.Keys
      invariant ListOf(list, rows - left)
      decreases |left|
    {
      var id :| id in left;
      ListOne(list, rows, left, id);
      list := list + [rows[id]];
      left := left - {id};
    }
    assert rows - left == rows;
  }

  lemma ListOne(list: seq<Peer>, rows: Rows, left: set<string>, id: string)
    requires ListOf(list, rows - left) && left <= rows.Keys && id in left && rows[id].node.id == id
    ensures ListOf(list + [rows[id]], rows - (left - {id}))
  {
    var more := list + [rows[id]];
    forall i, j | 0 <= i < j < |more|
      ensures more[i].node.id != more[j].node.id
    {
      assert more[i] in list;
    }
    NamesSnoc(list, rows[id]);
    assert (rows - (left - {id})).Keys == (rows - left).Keys + {id};
  }

  /** The rows left by a list of peers. */
  function RowsOf(list: seq<Peer>): Rows {
    if list == [] then map[] else RowsOf(list[..|list| - 1])[list[|list| - 1].node.id := list[|list| - 1]]
  }

  lemma {:induction false} RowsOfIs(list: seq<Peer>)
    requires DistinctPeers(list)
    ensures ListOf(list, RowsOf(list)) && |RowsOf(list)| == |list|
  {
    hide ListOf, DistinctPeers;
    if list == [] {
      ListNone();
    } else {
      var front, last := list[..|list| - 1], list[|list| - 1];
      assert list == front + [last];
      LastNew(front, last);
      RowsOfIs(front);
      ListMore(front, RowsOf(front), last);
    }
    ListSize(list, RowsOf(list));
  }

  lemma NoRows()
    ensures RowsOf([]) == map[]
  {
  }

  lemma RowsSnoc(front: seq<Peer>, last: Peer)
    ensures RowsOf(front + [last]) == RowsOf(front)[last.node.id := last]
  {
    assert (front + [last])[..|front|] == front;
  }

  lemma NextRow(list: seq<Peer>, i: nat)
    requires DistinctPeers(list) && i < |list|
    ensures list[i] in list && list[i].node.id !in RowsOf(list[..i])
    ensures RowsOf(list[..i + 1]) == RowsOf(list[..i])[list[i].node.id := list[i]]
  {
    hide RowsOf, NamesIn, DistinctPeers;
    assert list[..i + 1] == list[..i] + [list[i]];
    RowsSnoc(list[..i], list[i]);
    Unlisted(list, i);
    assert list == list[..i] + list[i..];
    NamesSplit(list[..i], list[i..]);
    RowsOfIs(list[..i]);
  }

  lemma ListNone()
    ensures ListOf([], map[])
  {
  }

  lemma ListMore(front: seq<Peer>, rows: Rows, last: Peer)
    requires ListOf(front, rows) && last.node.id !in NamesIn(front) && DistinctPeers(front + [last])
    ensures ListOf(front + [last], rows[last.node.id := last])
  {
    NamesSnoc(front, last);
    forall p <- front
      ensures p.node.id != last.node.id
    {
      assert p.node.id in NamesIn(front);
    }
  }

  lemma ListSize(list: seq<Peer>, rows: Rows)
    requires ListOf(list, rows)
    ensures |rows| == |list|
  {
    DistinctCount(list);
    assert |rows| == |rows.Keys|;
  }

  /** A row belongs to a listed peer. */
  lemma Listed(list: seq<Peer>, rows: Rows, id: string)
    requires ListOf(list, rows) && id in rows
    ensures rows[id] in list && rows[id].node.id == id
  {
    assert id in NamesIn(list);
  }

  // -------------------------------------------------------------------- the store

  ghost function EligibleRows(rows: Rows, now: Time): Rows {
    map id | id in rows && Eligible(rows[id], now) :: rows[id]
  }

  /** Friends a row can be written for. */
  ghost function FriendIds(rows: Rows): set<string> {
    set id | id in rows && rows[id].friend && id != "" && rows[id].node.addr != ""
  }

  /** What a snapshot keeps: of the eligible rows, in whatever order they come, the preferred ones. */
  ghost predicate Keeps(policy: Policy, eligible: seq<Peer>, merged: Rows, now: Time, rows: Rows) {
    ListOf(eligible, EligibleRows(merged, now)) && ListOf(First(Dedup(Preference(policy, policy.sort(eligible))), LIMIT), rows)
  }

  lemma KeepsSound(policy: Policy, eligible: seq<Peer>, merged: Rows, now: Time, rows: Rows)
    requires Permutes(policy) && Keeps(policy, eligible, merged, now, rows)
    ensures |rows| <= LIMIT && forall id :: id in rows ==> id in EligibleRows(merged, now) && rows[id] == EligibleRows(merged, now)[id]
  {
    hide Preference, Dedup, First, EligibleRows;
    var selected := First(Dedup(Preference(policy, policy.sort(eligible))), LIMIT);
    SelectionSound(policy, eligible, LIMIT);
    ListSize(selected, rows);
    forall id | id in rows
      ensures id in EligibleRows(merged, now) && rows[id] == EligibleRows(merged, now)[id]
    {
      Listed(selected, rows, id);
    }
  }

  /** Up to the limit no friend with an address is lost, and nobody becomes one. */
  lemma KeepsFriends(policy: Policy, eligible: seq<Peer>, merged: Rows, now: Time, rows: Rows, id: string)
    requires Permutes(policy) && Keeps(policy, eligible, merged, now, rows)
    requires |FriendIds(merged)| <= LIMIT && forall x :: x in merged ==> merged[x].node.id == x
    ensures id in rows && rows[id].friend <==> id in FriendIds(merged)
  {
    hide Preference, Dedup, First;
    var selected := First(Dedup(Preference(policy, policy.sort(eligible))), LIMIT);
    var able := EligibleRows(merged, now);
    assert FriendNames(eligible) <= FriendIds(merged);
    SubsetSize(FriendNames(eligible), FriendIds(merged));
    FriendsSelected(policy, eligible, LIMIT);
    KeepsSound(policy, eligible, merged, now, rows);
    if id in FriendIds(merged) {
      assert id in able;
      Listed(eligible, able, id);
      assert able[id] in eligible && able[id].friend;
      assert id in FriendNames(eligible);
    }
  }

  /** Unless they are too many, the friends after a snapshot are the friends before with an address, and those observed. */
  ghost predicate FriendsKept(before: Rows, peers: seq<Peer>, rows: Rows) {
    var merged := Merged(before, peers);
    |FriendIds(merged)| <= LIMIT ==>
      forall id :: id in rows && rows[id].friend <==>
                   id in merged && Friendly(before, peers, id) && id != "" && merged[id].node.addr != ""
  }

  lemma SnapshotFriends(policy: Policy, eligible: seq<Peer>, before: Rows, peers: seq<Peer>, now: Time, rows: Rows)
    requires Permutes(policy) && Keyed(before) && Keeps(policy, eligible, Merged(before, peers), now, rows)
    ensures FriendsKept(before, peers, rows)
  {
    hide Permutes, Keeps, Merged, Friendly;
    var merged := Merged(before, peers);
    MergedKeyed(before, peers);
    if |FriendIds(merged)| <= LIMIT {
      forall id: string
        ensures id in rows && rows[id].friend <==> id in FriendIds(merged)
        ensures id in merged && merged[id].friend <==> Friendly(before, peers, id)
      {
        MergedFriends(before, peers, id);
        KeepsFriends(policy, eligible, merged, now, rows, id);
      }
    }
  }

  class PeerStore {
    const policy: Policy
    var rows: Rows
    var friends: set<string>
    var used: set<string>

    ghost predicate Valid()
      reads this
    {
      Permutes(policy) && Keyed(rows) && |rows| <= LIMIT && Indexed(rows, friends, used)
    }

    constructor (policy: Policy)
      requires Permutes(policy)
      ensures Valid() && rows == map[] && this.policy == policy
    {
      this.policy := policy;
      rows, friends, used := map[], {}, {};
    }

    method SaveSnapshot(peers: seq<Peer>, now: Time)
      requires Valid()
      modifies this
      ensures Valid()
      ensures exists eligible :: Keeps(policy, eligible, Merged(old(rows), peers), now, rows)
      ensures FriendsKept(old(rows), peers, rows)
    {
      hide Permutes, Keeps, Preference, Dedup, First, Merged, FriendsKept;
      MergedKeyed(rows, peers);
      var merged := MergeAll(rows, peers);
      var list := Listing(merged);
      var eligible := KeepEligible(merged, list, now);
      var selected := SelectRetention(policy, eligible, LIMIT);
      SelectionSound(policy, eligible, LIMIT);
      RowsOfIs(selected);
      KeptRows(policy, eligible, merged, now, selected);
      Rebuild(selected);
      SnapshotFriends(policy, eligible, old(rows), peers, now, rows);
    }

    /** Clears the indexes and writes every selected row with its categories. */
    method Rebuild(selected: seq<Peer>)
      requires DistinctPeers(selected) && forall p <- selected :: p.node.id != "" && p.node.addr != ""
      modifies this
      ensures rows == RowsOf(selected) && Keyed(rows) && Indexed(rows, friends, used)
    {
      rows, friends, used := map[], {}, {};
      assert Keyed(rows) && Indexed(rows, friends, used);
      hide Keyed, Indexed, DistinctPeers, RowsOf;
      NoRows();
      for i := 0 to |selected|
        invariant rows == RowsOf(selected[..i]) && Keyed(rows) && Indexed(rows, friends, used)
      {
        NextRow(selected, i);
        PutRow(selected[i]);
      }
      assert selected[..|selected|] == selected;
    }

    method PutRow(p: Peer)
      requires Keyed(rows) && Indexed(rows, friends, used) && p.node.id != "" && p.node.addr != "" && p.node.id !in rows
      modifies this
      ensures rows == old(rows)[p.node.id := p] && Keyed(rows) && Indexed(rows, friends, used)
    {
      hide Keyed, Indexed, Reused;
      IndexedPut(rows, friends, used, p);
      Unindexed(rows, friends, used, p.node.id);
      rows := rows[p.node.id := p];
      if p.friend {
        friends := friends + {p.node.id};
      }
      if Reused(p) {
        used := used + {p.node.id};
      }
    }

    method SetFriend(node: NodeInfo, friend: bool, now: Time) returns (ok: bool)
      requires Valid()
      modifies this
      ensures Valid() && ok == (node.id != "" && node.addr != "")
      ensures !ok ==> rows == old(rows)
      ensures ok ==> TrimOf(rows, old(rows)[node.id := Befriended(old(rows), node, friend, now)])
    {
      if node.id == "" || node.addr == "" {
        return false;
      }
      hide Permutes, Keyed, Indexed;
      var p := Befriended(rows, node, friend, now);
      IndexedPut(rows, friends, used, p);
      SameUse(rows, friends, used, p);
      rows := rows[node.id := p];
      friends := if friend then friends + {node.id} else friends - {node.id};
      Trim();
      ok := true;
    }

    method SetFriendById(id: string, friend: bool) returns (ok: bool)
      requires Valid()
      modifies this
      ensures Valid() && ok == (id in old(rows))
      ensures rows == if ok then old(rows)[id := old(rows)[id].(friend := friend)] else old(rows)
    {
      if id !in rows {
        return false;
      }
      SameKeys(rows, id, rows[id].(friend := friend));
      rows := rows[id := rows[id].(friend := friend)];
      friends := if friend then friends + {id} else friends - {id};
      ok := true;
    }

    method RecordUse(node: NodeInfo, now: Time) returns (ok: bool)
      requires Valid() && now > 0
      modifies this
      ensures Valid() && ok == (node.id != "" && node.addr != "")
      ensures !ok ==> rows == old(rows)
      ensures ok ==> TrimOf(rows, old(rows)[node.id := UsedRow(old(rows), node, now)])
    {
      if node.id == "" || node.addr == "" {
        return false;
      }
      hide Permutes, Keyed, Indexed;
      var p := UsedRow(rows, node, now);
      IndexedPut(rows, friends, used, p);
      SameFriendship(rows, friends, used, p);
      rows := rows[node.id := p];
      used := used + {node.id};
      Trim();
      ok := true;
    }

    /** Drops whatever sorting puts past the limit. */
    method Trim()
      requires Permutes(policy) && Keyed(rows) && Indexed(rows, friends, used)
      modifies this
      ensures Keyed(rows) && Indexed(rows, friends, used) && TrimOf(rows, old(rows))
    {
      hide Permutes, Keyed, Indexed, ListOf, DistinctPeers, NamesIn, Dropped, TrimOf;
      if |rows| <= LIMIT {
        NothingTrimmed(rows);
        return;
      }
      ByName(rows);
      var list := Listing(rows);
      ListSize(list, rows);
      var ordered := policy.sort(list);
      Reordered(policy, list, rows);
      ghost var before := rows;
      DropNone(before, ordered);
      for i := LIMIT to |ordered|
        invariant rows == Dropped(before, ordered, i) && Keyed(rows) && Indexed(rows, friends, used)
      {
        var id := ordered[i].node.id;
        IndexedDrop(rows, friends, used, id);
        DropNext(before, ordered, i);
        rows, friends, used := rows - {id}, friends - {id}, used - {id};
      }
      TrimCount(ordered, before);
    }
  }

  /** The rows without those of the peers from the limit up to i. */
  ghost function Dropped(rows: Rows, ordered: seq<Peer>, i: nat): Rows
    requires LIMIT <= i <= |ordered|
  {
    rows - NamesIn(ordered[LIMIT..i])
  }

  lemma DropNone(rows: Rows, ordered: seq<Peer>)
    requires LIMIT <= |ordered|
    ensures Dropped(rows, ordered, LIMIT) == rows
  {
    NoNames();
    assert ordered[LIMIT..LIMIT] == [];
    assert rows - {} == rows;
  }

  lemma DropNext(rows: Rows, ordered: seq<Peer>, i: nat)
    requires LIMIT <= i < |ordered|
    ensures Dropped(rows, ordered, i + 1) == Dropped(rows, ordered, i) - {ordered[i].node.id}
  {
    hide NamesIn;
    assert ordered[LIMIT..i + 1] == ordered[LIMIT..i] + [ordered[i]];
    NamesSnoc(ordered[LIMIT..i], ordered[i]);
  }

  lemma NothingTrimmed(rows: Rows)
    requires |rows| <= LIMIT
    ensures TrimOf(rows, rows)
  {
  }

  lemma ByName(rows: Rows)
    requires Keyed(rows)
    ensures forall id :: id in rows ==> rows[id].node.id == id
  {
  }

  lemma IndexedDrop(rows: Rows, friends: set<string>, used: set<string>, id: string)
    requires Keyed(rows) && Indexed(rows, friends, used)
    ensures Keyed(rows - {id}) && Indexed(rows - {id}, friends - {id}, used - {id})
  {
  }

  lemma Unindexed(rows: Rows, friends: set<string>, used: set<string>, id: string)
    requires Indexed(rows, friends, used) && id !in rows
    ensures friends - {id} == friends && used - {id} == used
  {
  }

  /** A row whose use is unchanged, or which is new and unused, stays where the used index has it. */
  lemma SameUse(rows: Rows, friends: set<string>, used: set<string>, p: Peer)
    requires Indexed(rows, friends, used)
    requires if p.node.id in rows then Reused(p) == Reused(rows[p.node.id]) else !Reused(p)
    ensures (if Reused(p) then used + {p.node.id} else used - {p.node.id}) == used
  {
  }

  lemma SameFriendship(rows: Rows, friends: set<string>, used: set<string>, p: Peer)
    requires Indexed(rows, friends, used)
    requires p.friend == (p.node.id in rows && rows[p.node.id].friend)
    ensures (if p.friend then friends + {p.node.id} else friends - {p.node.id}) == friends
  {
  }

  /** Writing a row and putting it in or out of each index. */
  lemma IndexedPut(rows: Rows, friends: set<string>, used: set<string>, p: Peer)
    requires Keyed(rows) && Indexed(rows, friends, used) && p.node.id != "" && p.node.addr != ""
    ensures var id := p.node.id;
      && Keyed(rows[id := p])
      && Indexed(rows[id := p], if p.friend then friends + {id} else friends - {id}, if Reused(p) then used + {id} else used - {id})
  {
  }

  lemma {:induction false} NamesSplit(a: seq<Peer>, b: seq<Peer>)
    requires DistinctPeers(a + b)
    ensures NamesIn(a + b) == NamesIn(a) + NamesIn(b) && NamesIn(a) !! NamesIn(b) && DistinctPeers(a)
    decreases |b|
  {
    hide DistinctPeers, NamesIn;
    if b == [] {
      assert a + b == a;
      NoNames();
    } else {
      var front, last := b[..|b| - 1], b[|b| - 1];
      assert a + b == a + front + [last] && b == front + [last];
      LastNew(a + front, last);
      NamesSplit(a, front);
      NamesSnoc(a + front, last);
      NamesSnoc(front, last);
    }
  }

  lemma TrimCount(ordered: seq<Peer>, rows: Rows)
    requires ListOf(ordered, rows) && |ordered| > LIMIT
    ensures TrimOf(Dropped(rows, ordered, |ordered|), rows)
  {
    hide NamesIn, DistinctPeers;
    var left := Dropped(rows, ordered, |ordered|);
    assert ordered[LIMIT..|ordered|] == ordered[LIMIT..];
    assert ordered == ordered[..LIMIT] + ordered[LIMIT..];
    NamesSplit(ordered[..LIMIT], ordered[LIMIT..]);
    DistinctCount(ordered[..LIMIT]);
    ListSize(ordered, rows);
    assert left.Keys == NamesIn(ordered[..LIMIT]);
    assert |left| == |left.Keys|;
  }

  function Befriended(rows: Rows, node: NodeInfo, friend: bool, now: Time): Peer {
    var p := if node.id in rows then rows[node.id] else NewPeer(node);
    p.(node := node, friend := friend, firstSeen := if p.firstSeen == 0 then now else p.firstSeen,
       lastSeen := if p.lastSeen == 0 then now else p.lastSeen)
  }

  function UsedRow(rows: Rows, node: NodeInfo, now: Time): Peer {
    var p := if node.id in rows then rows[node.id] else NewPeer(node);
    p.(node := node, lastUsed := now, lastSeen := now, useCount := if p.useCount < MAX_UINT32 then p.useCount + 1 else p.useCount,
       firstSeen := if p.firstSeen == 0 then now else p.firstSeen)
  }

  /** rows is all of full, or as many of its rows as the limit allows. */
  ghost predicate TrimOf(rows: Rows, full: Rows) {
    && (forall id :: id in rows ==> id in full && rows[id] == full[id])
    && |rows| == (if |full| <= LIMIT then |full| else LIMIT)
  }

  method MergeAll(rows: Rows, peers: seq<Peer>) returns (merged: Rows)
    ensures merged == Merged(rows, peers)
  {
    hide Merge;
    merged := rows;
    for i := 0 to |peers|
      invariant merged == Merged(rows, peers[..i])
    {
      assert peers[..i + 1][..i] == peers[..i];
      var p, id := peers[i], peers[i].node.id;
      if id in merged {
        p := Merge(merged[id], p);
      }
      merged := merged[id := p];
    }
    assert peers[..|peers|] == peers;
  }

  method KeepEligible(rows: Rows, list: seq<Peer>, now: Time) returns (eligible: seq<Peer>)
    requires ListOf(list, rows)
    ensures ListOf(eligible, EligibleRows(rows, now))
  {
    hide Eligible;
    eligible := [];
    for i := 0 to |list|
      invariant DistinctPeers(eligible) && forall p <- eligible :: p in list[..i] && Eligible(p, now)
      invariant forall p <- list[..i] :: Eligible(p, now) ==> p in eligible
    {
      assert list[..i + 1] == list[..i] + [list[i]];
      if Eligible(list[i], now) {
        StillDistinct(list, i, eligible);
        eligible := eligible + [list[i]];
      }
    }
    assert list[..|list|] == list;
    EligibleListed(rows, list, now, eligible);
  }

  lemma StillDistinct(list: seq<Peer>, i: nat, eligible: seq<Peer>)
    requires DistinctPeers(list) && i < |list| && DistinctPeers(eligible) && forall p <- eligible :: p in list[..i]
    ensures DistinctPeers(eligible + [list[i]])
  {
    Unlisted(list, i);
    var more := eligible + [list[i]];
    forall a, b | 0 <= a < b < |more|
      ensures more[a].node.id != more[b].node.id
    {
      assert more[a] in eligible;
      assert more[a].node.id in NamesIn(list[..i]);
    }
  }

  lemma EligibleListed(rows: Rows, list: seq<Peer>, now: Time, eligible: seq<Peer>)
    requires ListOf(list, rows) && DistinctPeers(eligible)
    requires forall p :: p in eligible <==> p in list && Eligible(p, now)
    ensures ListOf(eligible, EligibleRows(rows, now))
  {
    hide Eligible;
    forall id
      ensures id in NamesIn(eligible) <==> id in EligibleRows(rows, now)
    {
      if id in rows {
        Listed(list, rows, id);
      }
    }
  }

  lemma Unlisted(list: seq<Peer>, i: nat)
    requires DistinctPeers(list) && i < |list|
    ensures list[i].node.id !in NamesIn(list[..i])
  {
    forall p <- list[..i]
      ensures p.node.id != list[i].node.id
    {
      var k :| 0 <= k < i && list[k] == p;
    }
  }

  lemma KeptRows(policy: Policy, eligible: seq<Peer>, merged: Rows, now: Time, selected: seq<Peer>)
    requires Permutes(policy) && selected == First(Dedup(Preference(policy, policy.sort(eligible))), LIMIT)
    requires ListOf(eligible, EligibleRows(merged, now)) && ListOf(selected, RowsOf(selected))
    ensures Keeps(policy, eligible, merged, now, RowsOf(selected)) && |RowsOf(selected)| <= LIMIT
    ensures forall p <- selected :: p.node.id != "" && p.node.addr != ""
  {
    hide Preference, Dedup, First, RowsOf;
    SelectionSound(policy, eligible, LIMIT);
    ListSize(selected, RowsOf(selected));
  }

  lemma SameKeys(rows: Rows, id: string, p: Peer)
    requires id in rows
    ensures |rows[id := p]| == |rows|
  {
    assert rows[id := p].Keys == rows.Keys;
    assert |rows[id := p]| == |rows[id := p].Keys| && |rows| == |rows.Keys|;
  }

  lemma Reordered(policy: Policy, list: seq<Peer>, rows: Rows)
    requires Permutes(policy) && ListOf(list, rows)
    ensures ListOf(policy.sort(list), rows) && |policy.sort(list)| == |list|
  {
    var s := policy.sort(list);
    SameElements(s, list);
    assert NoRepeats(list) by {
      forall i, j | 0 <= i < j < |list|
        ensures list[i] != list[j]
      {
        assert list[i].node.id != list[j].node.id;
      }
    }
    NoRepeatsByCount(s, list);
    forall i, j | 0 <= i < j < |s|
      ensures s[i].node.id != s[j].node.id
    {
      assert s[i] in list && s[j] in list;
    }
    NamesBoth(s, list);
    assert |s| == |multiset(s)| == |multiset(list)| == |list|;
  }
}
