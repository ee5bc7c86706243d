/** The values a node stores for others: last version wins, with a short history per key. */
module ValueStore {
  import opened Wire
  import opened Values

  const MAX_TRACKED := 6

  /** Validation: what a text says does not change, whether it is still valid does. */
  datatype Rules = Rules(parse: (string, string) -> Value, valid: (string, string, int) -> bool)

  datatype StoredVersion = StoredVersion(family: string, fingerprint: string, publisher: string, version: nat, issuedAt: int, expiresAt: int)

  datatype State = State(current: Option<StoredVersion>, previous: seq<StoredVersion>, conflicts: seq<StoredVersion>)

  function VersionOf(v: Value): StoredVersion {
    StoredVersion(v.family, v.fingerprint, v.publisher, v.version, v.issuedAt, v.expiresAt)
  }

  datatype Choice =
    | Invalid
    | Conflicting(incoming: Value)
    | Keep(incoming: Value)
    | Replace(previous: Option<Value>, incoming: Value)

  function Choose(rules: Rules, key: string, existing: string, incoming: string, now: int): Choice {
    if !rules.valid(key, incoming, now) then Invalid
    else
      var next := rules.parse(key, incoming);
      if existing == "" || !rules.valid(key, existing, now) then Replace(None, next)
      else
        var current := rules.parse(key, existing);
        if !next.verified then (if existing == incoming then Keep(next) else Replace(Some(current), next))
        else if !current.verified then Replace(Some(current), next)
        else if current.family != next.family then Conflicting(next)
        else if next.fingerprint == current.fingerprint || !IsNewer(next, current) then Keep(next)
        else Replace(Some(current), next)
  }

  // -------------------------------------------------------------- convergence

  /** The text stored for a key after one more arrives. */
  function Kept(rules: Rules, key: string, existing: string, incoming: string, now: int): string {
    if Choose(rules, key, existing, incoming, now).Replace? then incoming else existing
  }

  /** The text stored after a sequence of (text, time) arrivals. */
  function KeptAll(rules: Rules, key: string, arrivals: seq<(string, int)>): string {
    if arrivals == [] then ""
    else
      var last := arrivals[|arrivals| - 1];
      Kept(rules, key, KeptAll(rules, key, arrivals[..|arrivals| - 1]), last.0, last.1)
  }

  ghost function Texts(arrivals: seq<(string, int)>): set<string> {
    set a | a in arrivals :: a.0
  }

  /** Signed texts of one family and one kind, told apart by fingerprint, that stay valid. */
  ghost predicate Comparable(rules: Rules, key: string, texts: set<string>, family: string) {
    && "" !in texts
    && (forall t <- texts :: rules.parse(key, t).verified && rules.parse(key, t).family == family)
    && (forall t, now :: t in texts ==> rules.valid(key, t, now))
    && Uniform(set t | t in texts :: rules.parse(key, t))
  }

  /** text is a newest of the texts. */
  ghost predicate Maximal(rules: Rules, key: string, texts: set<string>, text: string) {
    text in texts && forall t <- texts :: !IsNewer(rules.parse(key, t), rules.parse(key, text))
  }

  lemma {:induction false} KeepsNewest(rules: Rules, key: string, arrivals: seq<(string, int)>, family: string)
    requires arrivals != [] && Comparable(rules, key, Texts(arrivals), family)
    ensures Maximal(rules, key, Texts(arrivals), KeptAll(rules, key, arrivals))
    decreases |arrivals|
  {
    hide IsNewer;
    var front, last := arrivals[..|arrivals| - 1], arrivals[|arrivals| - 1];
    assert arrivals == front + [last];
    assert last in arrivals;
    assert forall t :: t in Texts(arrivals) <==> t in Texts(front) || t == last.0;
    var s := set t | t in Texts(arrivals) :: rules.parse(key, t);
    NewerOrder(s, rules.parse(key, last.0), rules.parse(key, last.0), rules.parse(key, last.0));
    if front == [] {
      assert Texts(front) == {};
      assert KeptAll(rules, key, arrivals) == last.0;
    } else {
      assert (set t | t in Texts(front) :: rules.parse(key, t)) <= s;
      KeepsNewest(rules, key, front, family);
      KeptMaximal(rules, key, Texts(front), KeptAll(rules, key, front), last.0, last.1, family, Texts(arrivals));
    }
  }

  lemma KeptMaximal(rules: Rules, key: string, texts: set<string>, existing: string, incoming: string, now: int, family: string, all: set<string>)
    requires all == texts + {incoming} && Comparable(rules, key, all, family) && Maximal(rules, key, texts, existing)
    ensures Maximal(rules, key, all, Kept(rules, key, existing, incoming, now))
  {
    hide IsNewer, Uniform;
    var s := set t | t in all :: rules.parse(key, t);
    var current, next := rules.parse(key, existing), rules.parse(key, incoming);
    assert current in s && next in s;
    NewerOrder(s, next, current, next);
    NewerOrder(s, current, next, current);
    forall t <- all
      ensures !IsNewer(rules.parse(key, t), rules.parse(key, Kept(rules, key, existing, incoming, now)))
    {
      assert rules.parse(key, t) in s;
      NewerOrder(s, rules.parse(key, t), current, next);
    }
  }

  /** The same texts in any order, with any repeats and at any times, leave the same record stored. */
  lemma Converges(rules: Rules, key: string, a: seq<(string, int)>, b: seq<(string, int)>, family: string)
    requires a != [] && b != [] && Texts(a) == Texts(b) && Comparable(rules, key, Texts(a), family)
    ensures var x, y := KeptAll(rules, key, a), KeptAll(rules, key, b);
      CoreOf(rules.parse(key, x)) == CoreOf(rules.parse(key, y))
    ensures (forall t, u :: t in Texts(a) && u in Texts(a) && rules.parse(key, t).fingerprint == rules.parse(key, u).fingerprint ==> t == u)
      ==> KeptAll(rules, key, a) == KeptAll(rules, key, b)
  {
    hide IsNewer, KeptAll;
    KeepsNewest(rules, key, a, family);
    KeepsNewest(rules, key, b, family);
    var x, y := KeptAll(rules, key, a), KeptAll(rules, key, b);
    var s := set t | t in Texts(a) :: rules.parse(key, t);
    NewerOrder(s, rules.parse(key, x), rules.parse(key, y), rules.parse(key, x));
  }

  /** A signed value, still valid, is stored. */
  predicate Holds(rules: Rules, key: string, text: string, now: int) {
    text != "" && rules.valid(key, text, now) && rules.parse(key, text).verified
  }

  /** While a signed value holds its key, signed arrivals never lower the version, and a higher one of its family is taken. */
  lemma KeptVersion(rules: Rules, key: string, existing: string, incoming: string, now: int)
    requires Holds(rules, key, existing, now) && rules.parse(key, incoming).verified
    ensures rules.parse(key, existing).version <= rules.parse(key, Kept(rules, key, existing, incoming, now)).version
    ensures rules.valid(key, incoming, now) && rules.parse(key, incoming).family == rules.parse(key, existing).family ==>
      rules.parse(key, incoming).fingerprint == rules.parse(key, existing).fingerprint
      || rules.parse(key, incoming).version <= rules.parse(key, Kept(rules, key, existing, incoming, now)).version
  {
    hide IsNewer;
    NewerSays(rules.parse(key, incoming), rules.parse(key, existing));
    NewerSays(rules.parse(key, existing), rules.parse(key, incoming));
  }

  /**
   * A valid text replaces whatever is stored, unless both are signed and what is stored is still valid: then
   * only another record of its family that outranks it does.
   */
  lemma KeptIff(rules: Rules, key: string, existing: string, incoming: string, now: int)
    requires existing != incoming
    ensures var current, next := rules.parse(key, existing), rules.parse(key, incoming);
      Kept(rules, key, existing, incoming, now) == incoming <==>
        && rules.valid(key, incoming, now)
        && (Holds(rules, key, existing, now) && next.verified ==>
              next.family == current.family && next.fingerprint != current.fingerprint && Outranks(next, current))
  {
    hide IsNewer, Outranks;
    NewerIff(rules.parse(key, incoming), rules.parse(key, existing));
  }

  // ------------------------------------------------------ convergence, both kinds

  /** Signed texts of one family, told apart by fingerprint, that stay valid; of either kind. */
  ghost predicate Signed(rules: Rules, key: string, texts: set<string>, family: string) {
    && "" !in texts
    && (forall t <- texts :: rules.parse(key, t).verified && rules.parse(key, t).family == family)
    && (forall t, now :: t in texts ==> rules.valid(key, t, now))
    && forall t, u :: t in texts && u in texts && rules.parse(key, t).fingerprint == rules.parse(key, u).fingerprint ==>
         CoreOf(rules.parse(key, t)) == CoreOf(rules.parse(key, u))
  }

  /** v is as good as u: the same record or a newer one. */
  predicate Beats(v: Value, u: Value) {
    v.fingerprint == u.fingerprint || IsNewer(v, u)
  }

  /** text beats all of the texts. */
  ghost predicate Top(rules: Rules, key: string, texts: set<string>, text: string) {
    text in texts && forall t <- texts :: Beats(rules.parse(key, text), rules.parse(key, t))
  }

  /** Whatever the order, the repeats and the times, the same record is stored in the end. */
  ghost predicate Agreeing(rules: Rules, key: string, texts: set<string>) {
    forall a: seq<(string, int)>, b: seq<(string, int)> :: Texts(a) == texts && Texts(b) == texts ==>
      CoreOf(rules.parse(key, KeptAll(rules, key, a))) == CoreOf(rules.parse(key, KeptAll(rules, key, b)))
  }

  lemma TextsLast(arrivals: seq<(string, int)>)
    requires arrivals != []
    ensures Texts(arrivals) == Texts(arrivals[..|arrivals| - 1]) + {arrivals[|arrivals| - 1].0}
  {
    var front, last := arrivals[..|arrivals| - 1], arrivals[|arrivals| - 1];
    assert arrivals == front + [last] && last in arrivals;
  }

  /** Of two different signed records one is newer, and not the other; records with one core compare alike. */
  lemma OneIsNewer(u: Value, v: Value, w: Value)
    ensures u.fingerprint != v.fingerprint ==> (IsNewer(u, v) <==> !IsNewer(v, u))
    ensures CoreOf(v) == CoreOf(w) ==> (IsNewer(u, v) <==> IsNewer(u, w)) && (IsNewer(v, u) <==> IsNewer(w, u))
  {
    hide After;
    AfterOrder(u.fingerprint, v.fingerprint);
  }

  /** Of two signed texts of a family the stored one stays exactly if it beats the other. */
  lemma KeptIs(rules: Rules, key: string, texts: set<string>, family: string, existing: string, incoming: string, now: int)
    requires Signed(rules, key, texts, family) && incoming in texts
    ensures existing == "" ==> Kept(rules, key, existing, incoming, now) == incoming
    ensures existing in texts ==>
      Kept(rules, key, existing, incoming, now)
      == if Beats(rules.parse(key, existing), rules.parse(key, incoming)) then existing else incoming
  {
    hide IsNewer;
    OneIsNewer(rules.parse(key, existing), rules.parse(key, incoming), rules.parse(key, incoming));
  }

  lemma {:induction false} KeptAmong(rules: Rules, key: string, texts: set<string>, family: string, arrivals: seq<(string, int)>)
    requires Signed(rules, key, texts, family) && Texts(arrivals) <= texts && arrivals != []
    ensures KeptAll(rules, key, arrivals) in texts
    decreases |arrivals|
  {
    hide Kept, Signed;
    TextsLast(arrivals);
    var front, last := arrivals[..|arrivals| - 1], arrivals[|arrivals| - 1];
    if front != [] {
      KeptAmong(rules, key, texts, family, front);
    }
    KeptIs(rules, key, texts, family, KeptAll(rules, key, front), last.0, last.1);
  }

  /** Of signed texts of either kind, however they arrive, one of the highest version is stored in the end. */
  lemma {:induction false} HighestStored(rules: Rules, key: string, texts: set<string>, family: string, arrivals: seq<(string, int)>)
    requires Signed(rules, key, texts, family) && Texts(arrivals) <= texts && arrivals != []
    ensures KeptAll(rules, key, arrivals) in Texts(arrivals)
    ensures forall t <- Texts(arrivals) :: rules.parse(key, t).version <= rules.parse(key, KeptAll(rules, key, arrivals)).version
    decreases |arrivals|
  {
    hide Kept, Signed, IsNewer;
    TextsLast(arrivals);
    var front, last := arrivals[..|arrivals| - 1], arrivals[|arrivals| - 1];
    var had := KeptAll(rules, key, front);
    KeptIs(rules, key, texts, family, had, last.0, last.1);
    if front == [] {
      assert Texts(front) == {};
    } else {
      HighestStored(rules, key, texts, family, front);
      HigherStays(rules, key, texts, family, had, last.0, last.1);
    }
  }

  lemma HigherStays(rules: Rules, key: string, texts: set<string>, family: string, existing: string, incoming: string, now: int)
    requires Signed(rules, key, texts, family) && existing in texts && incoming in texts
    ensures var kept := Kept(rules, key, existing, incoming, now);
      && (kept == existing || kept == incoming)
      && rules.parse(key, existing).version <= rules.parse(key, kept).version
      && rules.parse(key, incoming).version <= rules.parse(key, kept).version
  {
    hide IsNewer;
    KeptVersion(rules, key, existing, incoming, now);
  }

  /** Once a record that beats all has arrived it stays. */
  lemma {:induction false} TopStays(rules: Rules, key: string, texts: set<string>, family: string, top: string, arrivals: seq<(string, int)>)
    requires Signed(rules, key, texts, family) && Top(rules, key, texts, top) && top in Texts(arrivals) && Texts(arrivals) <= texts
    ensures rules.parse(key, KeptAll(rules, key, arrivals)).fingerprint == rules.parse(key, top).fingerprint
    decreases |arrivals|
  {
    hide Kept, IsNewer;
    TextsLast(arrivals);
    var front, last := arrivals[..|arrivals| - 1], arrivals[|arrivals| - 1];
    var had := KeptAll(rules, key, front);
    if front != [] {
      KeptAmong(rules, key, texts, family, front);
    }
    KeptIs(rules, key, texts, family, had, last.0, last.1);
    var best := rules.parse(key, top);
    if top in Texts(front) {
      TopStays(rules, key, texts, family, top, front);
      OneIsNewer(rules.parse(key, last.0), rules.parse(key, had), best);
    } else if front != [] {
      OneIsNewer(rules.parse(key, had), best, best);
    }
  }

  lemma {:induction false} Enumerate(texts: set<string>) returns (arrivals: seq<(string, int)>)
    ensures Texts(arrivals) == texts
  {
    arrivals := [];
    var rest := texts;
    while rest != {}
      invariant rest <= texts && Texts(arrivals) == texts - rest
      decreases |rest|
    {
      var t :| t in rest;
      var next := arrivals + [(t, 0)];
      TextsLast(next);
      assert next[..|next| - 1] == arrivals;
      arrivals, rest := next, rest - {t};
    }
  }

  /** The stored record is independent of how the texts arrive if and only if one of them beats all others. */
  lemma ConvergesIff(rules: Rules, key: string, texts: set<string>, family: string)
    requires Signed(rules, key, texts, family) && texts != {}
    ensures Agreeing(rules, key, texts) <==> exists top :: Top(rules, key, texts, top)
  {
    hide KeptAll, Signed, Beats;
    if top :| Top(rules, key, texts, top) {
      forall a: seq<(string, int)>, b: seq<(string, int)> | Texts(a) == texts && Texts(b) == texts
        ensures CoreOf(rules.parse(key, KeptAll(rules, key, a))) == CoreOf(rules.parse(key, KeptAll(rules, key, b)))
      {
        SameEnd(rules, key, texts, family, top, a, b);
      }
    } else {
      var a := Enumerate(texts);
      assert a != [] by {
        assert Texts([]) == {};
      }
      KeptAmong(rules, key, texts, family, a);
      var kept := KeptAll(rules, key, a);
      assert !Top(rules, key, texts, kept);
      var t :| t in texts && !Beats(rules.parse(key, kept), rules.parse(key, t));
      OneMore(rules, key, texts, family, a, t);
      assert Texts(a + [(t, 0)]) == texts;
    }
  }

  lemma SameEnd(rules: Rules, key: string, texts: set<string>, family: string, top: string, a: seq<(string, int)>, b: seq<(string, int)>)
    requires Signed(rules, key, texts, family) && Top(rules, key, texts, top) && Texts(a) == texts && Texts(b) == texts
    ensures CoreOf(rules.parse(key, KeptAll(rules, key, a))) == CoreOf(rules.parse(key, KeptAll(rules, key, b)))
  {
    hide KeptAll, Beats;
    assert a != [] && b != [] by {
      assert Texts([]) == {};
    }
    TopStays(rules, key, texts, family, top, a);
    TopStays(rules, key, texts, family, top, b);
    KeptAmong(rules, key, texts, family, a);
    KeptAmong(rules, key, texts, family, b);
  }

  /** A record that the stored one does not beat replaces it, were it to arrive once more. */
  lemma OneMore(rules: Rules, key: string, texts: set<string>, family: string, a: seq<(string, int)>, t: string)
    requires Signed(rules, key, texts, family) && Texts(a) == texts && t in texts
    requires KeptAll(rules, key, a) in texts && !Beats(rules.parse(key, KeptAll(rules, key, a)), rules.parse(key, t))
    ensures Texts(a + [(t, 0)]) == texts
    ensures CoreOf(rules.parse(key, KeptAll(rules, key, a + [(t, 0)]))) != CoreOf(rules.parse(key, KeptAll(rules, key, a)))
  {
    hide Kept, Signed;
    var next := a + [(t, 0)];
    assert next[..|next| - 1] == a;
    TextsLast(next);
    KeptIs(rules, key, texts, family, KeptAll(rules, key, a), t, 0);
  }

  /** No three texts, each newer than the next. */
  ghost predicate Acyclic(rules: Rules, key: string, texts: set<string>) {
    forall t, u, v :: t in texts && u in texts && v in texts ==>
      !Straddled(rules.parse(key, t), rules.parse(key, u), rules.parse(key, v))
  }

  /** A record that the best of the others does not beat is better than all of them. */
  lemma NewTop(rules: Rules, key: string, texts: set<string>, family: string, t: string, best: string, u: string)
    requires Signed(rules, key, texts, family) && Acyclic(rules, key, texts) && t in texts && best in texts && u in texts
    requires Beats(rules.parse(key, best), rules.parse(key, u)) && !Beats(rules.parse(key, best), rules.parse(key, t))
    ensures Beats(rules.parse(key, t), rules.parse(key, u))
  {
    hide IsNewer, Straddled;
    var x, y, z := rules.parse(key, t), rules.parse(key, best), rules.parse(key, u);
    OneIsNewer(x, y, z);
    OneIsNewer(x, z, y);
    CyclicIff(z, x, y);
  }

  /** So it converges unless an unsequenced record was issued between two sequenced ones of its version. */
  lemma {:induction false} TopUnlessStraddled(rules: Rules, key: string, texts: set<string>, family: string) returns (top: string)
    requires Signed(rules, key, texts, family) && texts != {} && Acyclic(rules, key, texts)
    ensures Top(rules, key, texts, top)
    decreases |texts|
  {
    hide IsNewer, Straddled, CoreOf;
    var t :| t in texts;
    var rest := texts - {t};
    if rest == {} {
      assert texts == {t};
      top := t;
    } else {
      var best := TopUnlessStraddled(rules, key, rest, family);
      if Beats(rules.parse(key, best), rules.parse(key, t)) {
        top := best;
      } else {
        top := t;
        forall u <- texts
          ensures Beats(rules.parse(key, t), rules.parse(key, u))
        {
          if u in rest {
            NewTop(rules, key, texts, family, t, best, u);
          }
        }
      }
    }
  }

  /** And three such records, arriving alone, end differently with their order. */
  lemma StraddledDiverge(rules: Rules, key: string, t: string, u: string, v: string, family: string)
    requires Signed(rules, key, {t, u, v}, family) && Straddled(rules.parse(key, t), rules.parse(key, u), rules.parse(key, v))
    ensures !Agreeing(rules, key, {t, u, v})
  {
    hide IsNewer, KeptAll, Signed;
    var x, y, z := rules.parse(key, t), rules.parse(key, u), rules.parse(key, v);
    CyclicIff(x, y, z);
    assert x.fingerprint != y.fingerprint && y.fingerprint != z.fingerprint && z.fingerprint != x.fingerprint by {
      AfterOrder(x.fingerprint, y.fingerprint);
      SignedKinds(rules, key, t, u, v, family);
    }
    OneIsNewer(x, y, y);
    OneIsNewer(y, z, z);
    OneIsNewer(z, x, x);
    assert !exists top :: Top(rules, key, {t, u, v}, top);
    ConvergesIff(rules, key, {t, u, v}, family);
  }

  lemma SignedKinds(rules: Rules, key: string, t: string, u: string, v: string, family: string)
    requires Signed(rules, key, {t, u, v}, family)
    requires rules.parse(key, t).sequenceBased && rules.parse(key, u).sequenceBased && !rules.parse(key, v).sequenceBased
    ensures rules.parse(key, t).fingerprint != rules.parse(key, v).fingerprint
    ensures rules.parse(key, u).fingerprint != rules.parse(key, v).fingerprint
  {
  }

  // ------------------------------------------------------------------ histories

  predicate SameVersion(a: StoredVersion, b: StoredVersion) {
    a.fingerprint == b.fingerprint && a.version == b.version && a.publisher == b.publisher
  }

  ghost predicate Distinct(s: seq<StoredVersion>) {
    forall i, j :: 0 <= i < j < |s| ==> !SameVersion(s[i], s[j])
  }

  ghost predicate Bounded(s: seq<StoredVersion>) {
    |s| <= MAX_TRACKED && Distinct(s)
  }

  /** The history with one more version: unchanged if it is there already, else the latest six. */
  ghost function Appended(values: seq<StoredVersion>, incoming: StoredVersion): seq<StoredVersion> {
    if exists v <- values :: SameVersion(v, incoming) then values
    else (values + [incoming])[if |values| >= MAX_TRACKED then |values| + 1 - MAX_TRACKED else 0..]
  }

  /** The latest six, never the same version twice. */
  method AppendBounded(values: seq<StoredVersion>, incoming: StoredVersion) returns (r: seq<StoredVersion>)
    requires Bounded(values)
    ensures Bounded(r) && r == Appended(values, incoming)
    ensures exists v <- r :: SameVersion(v, incoming)
  {
    for i := 0 to |values|
      invariant forall j :: 0 <= j < i ==> !SameVersion(values[j], incoming)
    {
      if SameVersion(values[i], incoming) {
        assert values[i] in values;
        return values;
      }
    }
    r := values + [incoming];
    if |r| > MAX_TRACKED {
      r := r[|r| - MAX_TRACKED..];
    }
    assert r[|r| - 1] == incoming && r[|r| - 1] in r;
  }

  /** Every stored text has been recorded: it says something, and the current version is its own. */
  ghost predicate Described(rules: Rules, key: string, text: string, versions: map<string, State>) {
    && rules.parse(key, text).raw != "" && key in versions
    && versions[key].current == Some(VersionOf(rules.parse(key, text)))
  }

  ghost predicate Histories(versions: map<string, State>) {
    forall key :: key in versions ==> Bounded(versions[key].previous) && Bounded(versions[key].conflicts)
  }

  datatype Stored = Refused | Unsaved | Unchanged | Changed

  function StateOf(versions: map<string, State>, key: string): State {
    if key in versions then versions[key] else State(None, [], [])
  }

  /** A signed value that is still valid holds a key against another origin's. */
  predicate Foreign(rules: Rules, key: string, existing: string, incoming: string, now: int) {
    && existing != "" && rules.valid(key, existing, now) && rules.valid(key, incoming, now)
    && rules.parse(key, existing).verified && rules.parse(key, incoming).verified
    && rules.parse(key, existing).family != rules.parse(key, incoming).family
  }

  /** The value that a new one displaces: the stored one, unless it is no longer valid. */
  function Displaced(rules: Rules, key: string, existing: string, now: int): Option<Value> {
    if existing == "" || !rules.valid(key, existing, now) then None else Some(rules.parse(key, existing))
  }

  /** Only the key's entry differs. */
  ghost predicate OnlyAt(before: map<string, State>, key: string, after: map<string, State>) {
    before - {key} == after - {key}
  }

  /** The history after a value took the place of another. */
  ghost predicate Superseded(before: map<string, State>, key: string, previous: Option<Value>, incoming: Value, after: map<string, State>) {
    if incoming.raw == "" then after == before
    else
      && OnlyAt(before, key, after) && key in after
      && var was := StateOf(before, key);
         after[key] == State(
           Some(VersionOf(incoming)),
           if previous.Some? && previous.value.raw != "" then Appended(was.previous, VersionOf(previous.value)) else was.previous,
           was.conflicts)
  }

  /** The history after a value was refused for another origin's: one more conflict, all else as it was. */
  ghost predicate Contested(before: map<string, State>, key: string, incoming: Value, after: map<string, State>) {
    if incoming.raw == "" then after == before
    else
      && OnlyAt(before, key, after) && key in after
      && after[key] == StateOf(before, key).(conflicts := Appended(StateOf(before, key).conflicts, VersionOf(incoming)))
  }

  /** The history after a value was kept: the stored version is noted if none was. */
  ghost predicate Confirmed(before: map<string, State>, key: string, incoming: Value, after: map<string, State>) {
    if incoming.raw == "" || StateOf(before, key).current.Some? then after == before
    else OnlyAt(before, key, after) && key in after && after[key] == StateOf(before, key).(current := Some(VersionOf(incoming)))
  }

  /** An unsigned key takes any text, the empty one too, and the store then has no version for it. */
  function Unsigned(): Rules {
    Rules((key, text) => Value(text, false, "", text, 0, 0, 0, false, "", false, false), (key, text, now) => true)
  }

  lemma EmptyTextIsStored(key: string, now: int, versions: map<string, State>)
    ensures Choose(Unsigned(), key, "", "", now).Replace? && Kept(Unsigned(), key, "", "", now) == ""
    ensures !Described(Unsigned(), key, "", versions)
  {
  }

  class Store {
    const rules: Rules
    var values: map<string, string>
    var versions: map<string, State>

    ghost predicate Valid()
      reads this
    {
      Histories(versions)
    }

    /** Current versions describe the stored values. */
    ghost predicate Current()
      reads this
    {
      forall key :: key in values ==> Described(rules, key, values[key], versions)
    }

    constructor (rules: Rules)
      ensures Valid() && Current() && this.rules == rules && values == map[]
    {
      this.rules := rules;
      values, versions := map[], map[];
    }

    function Text(key: string): string
      reads this
    {
      if key in values then values[key] else ""
    }

    /** saved: whether a signed value could be written to disk first. */
    method StoreValidated(key: string, text: string, now: int, saved: bool) returns (r: Stored)
      requires Valid()
      modifies this
      ensures Valid()
      ensures r == Refused <==> !rules.valid(key, text, now) || Foreign(rules, key, old(Text(key)), text, now)
      ensures r == Unsaved <==> !saved && rules.parse(key, text).verified && Choose(rules, key, old(Text(key)), text, now).Replace?
      ensures r != Unsaved ==> Text(key) == Kept(rules, key, old(Text(key)), text, now)
      ensures values == if r == Changed then old(values)[key := text] else old(values)
      ensures r == Unsaved || !rules.valid(key, text, now) ==> versions == old(versions)
      ensures Foreign(rules, key, old(Text(key)), text, now) ==> Contested(old(versions), key, rules.parse(key, text), versions)
      ensures r == Unchanged ==> Confirmed(old(versions), key, rules.parse(key, text), versions)
      ensures r == Changed ==>
        Superseded(old(versions), key, Displaced(rules, key, old(Text(key)), now), rules.parse(key, text), versions)
      ensures Holds(rules, key, old(Text(key)), now) && rules.parse(key, text).verified ==>
        rules.parse(key, old(Text(key))).version <= rules.parse(key, Text(key)).version
      ensures old(Current()) ==> (Current() <==> (r == Changed ==> rules.parse(key, text).raw != ""))
    {
      hide Choose, Bounded, Contested, Confirmed, Superseded;
      ChooseIs(rules, key, Text(key), text, now);
      VersionRises(rules, key, Text(key), text, now);
      var choice := Choose(rules, key, Text(key), text, now);
      match choice
      case Invalid =>
        r := Refused;
      case Conflicting(incoming) =>
        RecordConflict(key, incoming);
        ContestedCurrent(old(versions), key, incoming, versions);
        r := Refused;
      case Keep(incoming) =>
        RecordVersion(key, None, incoming, false);
        ConfirmedCurrent(old(versions), key, incoming, versions);
        r := Unchanged;
      case Replace(previous, incoming) =>
        if !saved && incoming.verified {
          return Unsaved;
        }
        values := values[key := text];
        RecordVersion(key, previous, incoming, true);
        SupersededCurrent(old(versions), key, previous, incoming, versions);
        r := Changed;
    }

    method RecordVersion(key: string, previous: Option<Value>, incoming: Value, changed: bool)
      requires Valid()
      modifies this`versions
      ensures Valid()
      ensures changed ==> Superseded(old(versions), key, previous, incoming, versions)
      ensures !changed ==> Confirmed(old(versions), key, incoming, versions)
    {
      hide Bounded, Appended;
      if incoming.raw == "" {
        return;
      }
      NoHistory();
      var state := StateOf(versions, key);
      if changed {
        if previous.Some? && previous.value.raw != "" {
          var more := AppendBounded(state.previous, VersionOf(previous.value));
          state := state.(previous := more);
        }
        versions := versions[key := state.(current := Some(VersionOf(incoming)))];
      } else if state.current.None? {
        versions := versions[key := state.(current := Some(VersionOf(incoming)))];
      }
    }

    method RecordConflict(key: string, incoming: Value)
      requires Valid()
      modifies this`versions
      ensures Valid()
      ensures Contested(old(versions), key, incoming, versions)
    {
      hide Bounded, Appended;
      if incoming.raw == "" {
        return;
      }
      NoHistory();
      var state := StateOf(versions, key);
      var more := AppendBounded(state.conflicts, VersionOf(incoming));
      versions := versions[key := state.(conflicts := more)];
    }
  }

  /** What every history update leaves alone. */
  ghost predicate OthersKept(before: map<string, State>, key: string, after: map<string, State>) {
    forall other :: other in before && other != key ==> other in after && after[other] == before[other]
  }

  lemma OnlyAtKeeps(before: map<string, State>, key: string, after: map<string, State>)
    requires OnlyAt(before, key, after)
    ensures OthersKept(before, key, after)
  {
    forall other | other in before && other != key
      ensures other in after && after[other] == before[other]
    {
      assert other in before - {key};
    }
  }

  lemma SupersededCurrent(before: map<string, State>, key: string, previous: Option<Value>, incoming: Value, after: map<string, State>)
    requires Superseded(before, key, previous, incoming, after)
    ensures OthersKept(before, key, after)
    ensures incoming.raw != "" ==> key in after && after[key].current == Some(VersionOf(incoming))
  {
    if incoming.raw != "" {
      OnlyAtKeeps(before, key, after);
    }
  }

  lemma ContestedCurrent(before: map<string, State>, key: string, incoming: Value, after: map<string, State>)
    requires Contested(before, key, incoming, after)
    ensures OthersKept(before, key, after) && (key in before ==> key in after && after[key].current == before[key].current)
  {
    if incoming.raw != "" {
      OnlyAtKeeps(before, key, after);
    }
  }

  lemma ConfirmedCurrent(before: map<string, State>, key: string, incoming: Value, after: map<string, State>)
    requires Confirmed(before, key, incoming, after)
    ensures OthersKept(before, key, after)
    ensures key in before && before[key].current.Some? ==> key in after && after[key] == before[key]
  {
    if incoming.raw != "" && StateOf(before, key).current.None? {
      OnlyAtKeeps(before, key, after);
    }
  }

  lemma NoHistory()
    ensures Bounded([])
  {
  }

  lemma VersionRises(rules: Rules, key: string, existing: string, incoming: string, now: int)
    ensures Holds(rules, key, existing, now) && rules.parse(key, incoming).verified ==>
      rules.parse(key, existing).version <= rules.parse(key, Kept(rules, key, existing, incoming, now)).version
  {
    hide Kept;
    if Holds(rules, key, existing, now) && rules.parse(key, incoming).verified {
      KeptVersion(rules, key, existing, incoming, now);
    }
  }

  lemma ChooseIs(rules: Rules, key: string, existing: string, incoming: string, now: int)
    ensures var c := Choose(rules, key, existing, incoming, now);
      && (c.Conflicting? || c.Keep? || c.Replace? ==> c.incoming == rules.parse(key, incoming))
      && (c.Conflicting? || c.Keep? ==> existing != "")
      && (c.Invalid? <==> !rules.valid(key, incoming, now))
      && (c.Conflicting? <==> Foreign(rules, key, existing, incoming, now))
      && (c.Replace? ==> c.previous == Displaced(rules, key, existing, now))
  {
  }
}
