/** The rate limits of the liveness responder: one bucket for everyone, one for each source. */
module TokenBuckets {
  import opened Ordering

  const GLOBAL_RATE := 200.0
  const GLOBAL_BURST := 400.0
  const SOURCE_RATE := 5.0
  const SOURCE_BURST := 10.0
  const MAX_SOURCES := 2048
  const IDLE := 60.0

  /** Times in seconds; seen is when a token was last taken. */
  datatype Bucket = Bucket(tokens: real, updated: real, seen: real)

  function Min(a: real, b: real): real {
    if a < b then a else b
  }

  /** The tokens a bucket holds by a later time. */
  function Credit(b: Bucket, now: real, rate: real, burst: real): real {
    Min(burst, b.tokens + (now - b.updated) * rate)
  }

  function TakeToken(b: Bucket, now: real, rate: real, burst: real): (Bucket, bool) {
    var filled := if now > b.updated then b.(tokens := Credit(b, now, rate, burst), updated := now) else b;
    if filled.tokens < 1.0 then (filled, false) else (filled.(tokens := filled.tokens - 1.0), true)
  }

  datatype Limiter = Limiter(globe: Bucket, sources: map<string, Bucket>)

  function New(now: real): Limiter {
    Limiter(Bucket(GLOBAL_BURST, now, now), map[])
  }

  // ------------------------------------------------------------------ invariant

  /** How many listed sources took a token at or after a time. */
  ghost function Since(sources: map<string, Bucket>, time: real): nat {
    |set x | x in sources && sources[x].seen >= time|
  }

  ghost predicate Sound(b: Bucket, burst: real, now: real) {
    0.0 <= b.tokens <= burst && b.updated <= now
  }

  /** A source's bucket has refilled since it was last seen. */
  ghost predicate SourceOk(b: Bucket, now: real) {
    Sound(b, SOURCE_BURST, now) && b.seen <= b.updated && b.tokens >= Min(SOURCE_BURST, (b.updated - b.seen) * SOURCE_RATE)
  }

  /** Every source seen since a time cost a token then: few sources can be recent. */
  ghost predicate Paid(l: Limiter) {
    forall time :: time <= l.globe.updated ==>
      l.globe.tokens + Since(l.sources, time) as real <= GLOBAL_BURST + (l.globe.updated - time) * GLOBAL_RATE
  }

  ghost predicate Inv(l: Limiter) {
    && Sound(l.globe, GLOBAL_BURST, l.globe.updated) && |l.sources| <= MAX_SOURCES && "" !in l.sources
    && (forall x :: x in l.sources ==> SourceOk(l.sources[x], l.globe.updated))
    && Paid(l)
  }

  ghost predicate Less(sources': map<string, Bucket>, sources: map<string, Bucket>) {
    forall x :: x in sources' ==> x in sources && sources'[x] == sources[x]
  }

  function Live(sources: map<string, Bucket>, now: real): map<string, Bucket> {
    map x | x in sources && now - sources[x].seen <= IDLE :: sources[x]
  }

  ghost predicate Oldest(live: map<string, Bucket>, x: string) {
    x in live && forall y :: y in live ==> live[x].seen <= live[y].seen
  }

  /** Idle sources go; if the table is still full, so does the one seen longest ago. */
  ghost predicate Evicted(sources: map<string, Bucket>, kept: map<string, Bucket>, now: real) {
    var live := Live(sources, now);
    if |live| < MAX_SOURCES then kept == live else exists x :: Oldest(live, x) && kept == live - {x}
  }

  /** One call, as the responder answers it. */
  ghost predicate Next(l: Limiter, source: string, now: real, l': Limiter, allowed: bool) {
    var (globe, ok) := TakeToken(l.globe, now, GLOBAL_RATE, GLOBAL_BURST);
    l'.globe == globe
    && if !ok then !allowed && l'.sources == l.sources
       else if source in l.sources then
         var (b, some) := TakeToken(l.sources[source], now, SOURCE_RATE, SOURCE_BURST);
         allowed == some && l'.sources == l.sources[source := if some then b.(seen := now) else b]
       else allowed && exists kept :: Admits(l.sources, kept, now) && l'.sources == kept[source := Bucket(SOURCE_BURST - 1.0, now, now)]
  }

  ghost predicate Admits(sources: map<string, Bucket>, kept: map<string, Bucket>, now: real) {
    if |sources| < MAX_SOURCES then kept == sources else Evicted(sources, kept, now)
  }

  class Responder {
    var globe: Bucket
    var sources: map<string, Bucket>

    ghost function State(): Limiter
      reads this
    {
      Limiter(globe, sources)
    }

    constructor (now: real)
      ensures State() == New(now)
    {
      globe := Bucket(GLOBAL_BURST, now, now);
      sources := map[];
    }

    method Allow(source: string, now: real) returns (allowed: bool)
      requires Inv(State()) && source != "" && now >= globe.updated
      modifies this
      ensures Next(old(State()), source, now, State(), allowed)
    {
      hide Paid, SourceOk, Evicted;
      var (taken, ok) := TakeToken(globe, now, GLOBAL_RATE, GLOBAL_BURST);
      globe := taken;
      if !ok {
        return false;
      }
      if source in sources {
        var (b, some) := TakeToken(sources[source], now, SOURCE_RATE, SOURCE_BURST);
        sources := sources[source := if some then b.(seen := now) else b];
        return some;
      }
      if |sources| >= MAX_SOURCES {
        Evict(now);
      }
      assert Admits(old(sources), sources, now);
      var (b, _) := TakeToken(Bucket(SOURCE_BURST, now, now), now, SOURCE_RATE, SOURCE_BURST);
      sources := sources[source := b];
      allowed := true;
    }

    method Evict(now: real)
      requires "" !in sources
      modifies this`sources
      ensures Evicted(old(sources), sources, now)
    {
      var oldest, left := "", sources.Keys;
      ghost var live := Live(sources, now);
      while left != {}
        invariant left <= old(sources).Keys
        invariant forall x :: x in sources <==> x in old(sources) && (x in left || x in live)
        invariant forall x :: x in sources ==> sources[x] == old(sources)[x]
        invariant oldest != "" ==> oldest in live && oldest !in left && forall y :: y in live && y !in left ==> live[oldest].seen <= live[y].seen
        invariant oldest == "" ==> forall y :: y in live ==> y in left
        decreases |left|
      {
        var x :| x in left;
        left := left - {x};
        if now - sources[x].seen > IDLE {
          sources := sources - {x};
        } else if oldest == "" || sources[x].seen < sources[oldest].seen {
          oldest := x;
        }
      }
      assert sources == live;
      if |sources| >= MAX_SOURCES && oldest != "" {
        assert Oldest(live, oldest);
        sources := sources - {oldest};
      }
    }
  }

  // ------------------------------------------------------------- what calls keep

  lemma SinceLess(less: map<string, Bucket>, sources: map<string, Bucket>, time: real)
    requires Less(less, sources)
    ensures Since(less, time) <= Since(sources, time)
  {
    var a, b := set x | x in less && less[x].seen >= time, set x | x in sources && sources[x].seen >= time;
    assert a <= b;
    SubsetSize(a, b);
  }

  lemma SinceAdd(sources: map<string, Bucket>, x: string, b: Bucket, time: real)
    ensures Since(sources[x := b], time) <= Since(sources, time) + 1
    ensures x in sources && b.seen == sources[x].seen ==> Since(sources[x := b], time) <= Since(sources, time)
  {
    var more := sources[x := b];
    var before, after := set y | y in sources && sources[y].seen >= time, set y | y in more && more[y].seen >= time;
    assert after <= before + {x};
    SubsetSize(after, before + {x});
    if x in sources && b.seen == sources[x].seen {
      assert after <= before;
      SubsetSize(after, before);
    }
  }

  lemma SinceNone(sources: map<string, Bucket>, time: real)
    requires forall x :: x in sources ==> sources[x].seen < time
    ensures Since(sources, time) == 0
  {
    assert (set x | x in sources && sources[x].seen >= time) == {};
  }

  lemma NewInv(now: real)
    ensures Inv(New(now))
  {
    forall time
      ensures Since(New(now).sources, time) == 0
    {
      SinceNone(New(now).sources, time);
    }
  }

  /** What refilling does to the common bucket, before anything is taken. */
  lemma Refilled(l: Limiter, now: real, time: real)
    requires Inv(l) && now >= l.globe.updated && time <= now
    ensures Credit(l.globe, now, GLOBAL_RATE, GLOBAL_BURST) + Since(l.sources, time) as real <= GLOBAL_BURST + (now - time) * GLOBAL_RATE
  {
    if time > l.globe.updated {
      SinceNone(l.sources, time);
    }
  }

  lemma TakenFrom(b: Bucket, now: real, rate: real, burst: real)
    requires now >= b.updated && 0.0 <= b.tokens <= burst && rate >= 0.0
    ensures var (b', ok) := TakeToken(b, now, rate, burst);
      && b'.updated == now && b'.seen == b.seen && 0.0 <= b'.tokens <= burst
      && b'.tokens == Credit(b, now, rate, burst) - (if ok then 1.0 else 0.0)
  {
    var gain := (now - b.updated) * rate;
    Grows(now - b.updated, rate);
    assert gain >= 0.0 && (now == b.updated ==> gain == 0.0);
    assert Credit(b, now, rate, burst) == Min(burst, b.tokens + gain);
  }

  lemma Grows(a: real, b: real)
    requires a >= 0.0 && b >= 0.0
    ensures a * b >= 0.0 && (a == 0.0 ==> a * b == 0.0)
  {
  }

  lemma SourceTaken(b: Bucket, before: real, now: real)
    requires SourceOk(b, before) && now >= before
    ensures var (b', ok) := TakeToken(b, now, SOURCE_RATE, SOURCE_BURST);
      SourceOk(if ok then b'.(seen := now) else b', now)
  {
    TakenFrom(b, now, SOURCE_RATE, SOURCE_BURST);
  }

  lemma EvictedLess(sources: map<string, Bucket>, kept: map<string, Bucket>, now: real)
    requires Admits(sources, kept, now) && |sources| <= MAX_SOURCES
    ensures Less(kept, sources) && |kept| < MAX_SOURCES
  {
    if |sources| == MAX_SOURCES {
      var live := Live(sources, now);
      assert live.Keys <= sources.Keys;
      SubsetSize(live.Keys, sources.Keys);
      assert |live| == |live.Keys| && |sources| == |sources.Keys|;
      if |live| >= MAX_SOURCES {
        var x :| Oldest(live, x) && kept == live - {x};
        assert kept.Keys == live.Keys - {x} && |kept| == |kept.Keys|;
      }
    }
  }

  lemma NextKeeps(l: Limiter, source: string, now: real, l': Limiter, allowed: bool)
    requires Inv(l) && source != "" && now >= l.globe.updated && Next(l, source, now, l', allowed)
    ensures Inv(l') && l'.globe.updated == now
  {
    hide Paid, Admits, TakeToken, Credit, SourceOk;
    TakenFrom(l.globe, now, GLOBAL_RATE, GLOBAL_BURST);
    SourcesKept(l, source, now, l', allowed);
    PaidKept(l, source, now, l', allowed);
  }

  lemma SourcesKept(l: Limiter, source: string, now: real, l': Limiter, allowed: bool)
    requires Inv(l) && source != "" && now >= l.globe.updated && Next(l, source, now, l', allowed)
    ensures |l'.sources| <= MAX_SOURCES && "" !in l'.sources
    ensures forall x :: x in l'.sources ==> SourceOk(l'.sources[x], now)
  {
    hide Paid, TakeToken, Credit, Admits;
    forall x | x in l.sources
      ensures SourceOk(l.sources[x], now)
    {
      assert SourceOk(l.sources[x], l.globe.updated);
    }
    if TakeToken(l.globe, now, GLOBAL_RATE, GLOBAL_BURST).1 {
      if source in l.sources {
        SourceTaken(l.sources[source], l.globe.updated, now);
      } else {
        var kept :| Admits(l.sources, kept, now) && l'.sources == kept[source := Bucket(SOURCE_BURST - 1.0, now, now)];
        EvictedLess(l.sources, kept, now);
      }
    }
  }

  lemma PaidKept(l: Limiter, source: string, now: real, l': Limiter, allowed: bool)
    requires Inv(l) && source != "" && now >= l.globe.updated && Next(l, source, now, l', allowed)
    ensures Paid(l')
  {
    hide TakeToken, Credit, Admits, SourceOk, Since, Inv;
    SoundGlobe(l);
    TakenFrom(l.globe, now, GLOBAL_RATE, GLOBAL_BURST);
    forall time | time <= now
      ensures l'.globe.tokens + Since(l'.sources, time) as real <= GLOBAL_BURST + (now - time) * GLOBAL_RATE
    {
      Refilled(l, now, time);
      if TakeToken(l.globe, now, GLOBAL_RATE, GLOBAL_BURST).1 {
        if source in l.sources {
          SinceAdd(l.sources, source, l'.sources[source], time);
        } else {
          var kept :| Admits(l.sources, kept, now) && l'.sources == kept[source := Bucket(SOURCE_BURST - 1.0, now, now)];
          EvictedLess(l.sources, kept, now);
          SinceLess(kept, l.sources, time);
          SinceAdd(kept, source, Bucket(SOURCE_BURST - 1.0, now, now), time);
        }
      }
    }
  }

  lemma SoundGlobe(l: Limiter)
    requires Inv(l)
    ensures 0.0 <= l.globe.tokens <= GLOBAL_BURST && |l.sources| <= MAX_SOURCES
  {
  }

  // --------------------------------------------------------------------- credit

  /** What a source could still take at a time; one not listed has a full bucket to come. */
  function SourceCredit(l: Limiter, x: string, now: real): real {
    if x in l.sources then Credit(l.sources[x], now, SOURCE_RATE, SOURCE_BURST) else SOURCE_BURST
  }

  function GlobalCredit(l: Limiter, now: real): real {
    Credit(l.globe, now, GLOBAL_RATE, GLOBAL_BURST)
  }

  /** A bucket not seen for two seconds or more is full. */
  lemma Refills(b: Bucket, before: real, now: real)
    requires SourceOk(b, before) && now >= before && (now - b.seen) * SOURCE_RATE >= SOURCE_BURST
    ensures Credit(b, now, SOURCE_RATE, SOURCE_BURST) == SOURCE_BURST
  {
  }

  /**
   * A source is full whenever it is evicted: an idle one has had a minute, and filling the table
   * takes so many common tokens that the one seen longest ago was last seen eight seconds ago.
   */
  lemma EvictedFull(l: Limiter, kept: map<string, Bucket>, now: real, x: string)
    requires Inv(l) && now >= l.globe.updated && Admits(l.sources, kept, now) && x in l.sources && x !in kept
    ensures SourceCredit(l, x, now) == SOURCE_BURST
  {
    hide Since;
    var b := l.sources[x];
    assert SourceOk(b, l.globe.updated);
    if now - b.seen <= IDLE {
      var live := Live(l.sources, now);
      assert x in live && Oldest(live, x);
      AllSince(l.sources, live, x);
      Refilled(l, now, b.seen);
      assert Credit(l.globe, now, GLOBAL_RATE, GLOBAL_BURST) >= 0.0;
    }
    Refills(b, l.globe.updated, now);
  }

  lemma AllSince(sources: map<string, Bucket>, live: map<string, Bucket>, x: string)
    requires Less(live, sources) && Oldest(live, x)
    ensures Since(sources, live[x].seen) >= |live|
  {
    var recent := set y | y in sources && sources[y].seen >= live[x].seen;
    assert live.Keys <= recent;
    SubsetSize(live.Keys, recent);
    assert |live| == |live.Keys|;
  }

  lemma SourceStep(l: Limiter, source: string, now: real, l': Limiter, allowed: bool, x: string)
    requires Inv(l) && source != "" && now >= l.globe.updated && Next(l, source, now, l', allowed)
    ensures SourceCredit(l', x, now) <= SourceCredit(l, x, now) - (if allowed && source == x then 1.0 else 0.0)
  {
    hide Paid, Admits, Inv;
    if TakeToken(l.globe, now, GLOBAL_RATE, GLOBAL_BURST).1 {
      if source in l.sources {
        SourceSound(l, source);
        TakenFrom(l.sources[source], now, SOURCE_RATE, SOURCE_BURST);
      } else {
        var kept :| Admits(l.sources, kept, now) && l'.sources == kept[source := Bucket(SOURCE_BURST - 1.0, now, now)];
        SoundGlobe(l);
        EvictedLess(l.sources, kept, now);
        if x in l.sources && x !in kept {
          EvictedFull(l, kept, now, x);
        }
      }
    }
  }

  lemma SourceSound(l: Limiter, x: string)
    requires Inv(l) && x in l.sources
    ensures 0.0 <= l.sources[x].tokens <= SOURCE_BURST && l.sources[x].updated <= l.globe.updated
  {
  }

  lemma GlobalStep(l: Limiter, source: string, now: real, l': Limiter, allowed: bool)
    requires Inv(l) && now >= l.globe.updated && Next(l, source, now, l', allowed)
    ensures 0.0 <= GlobalCredit(l', now) <= GlobalCredit(l, now) - (if allowed then 1.0 else 0.0)
  {
    hide Paid, Admits, SourceOk;
    TakenFrom(l.globe, now, GLOBAL_RATE, GLOBAL_BURST);
  }

  // ----------------------------------------------------------------------- runs

  datatype Call = Call(source: string, now: real)

  /** A run: calls at times that never go back, the states between them and the answers given. */
  ghost predicate Run(start: real, calls: seq<Call>, states: seq<Limiter>, answers: seq<bool>) {
    && |states| == |calls| + 1 && |answers| == |calls| && states[0] == New(start)
    && (forall i :: 0 <= i < |calls| ==> calls[i].source != "" && calls[i].now >= states[i].globe.updated)
    && (forall i :: 0 <= i < |calls| ==> Next(states[i], calls[i].source, calls[i].now, states[i + 1], answers[i]))
  }

  /** Calls answered yes in a window of the run; to one source, or "" for all. */
  function Accepted(calls: seq<Call>, answers: seq<bool>, i: nat, j: nat, who: string): nat
    requires i <= j <= |calls| == |answers|
    decreases j
  {
    if i == j then 0
    else Accepted(calls, answers, i, j - 1, who)
         + (if answers[j - 1] && (who == "" || calls[j - 1].source == who) then 1 else 0)
  }

  lemma {:induction false} RunInv(start: real, calls: seq<Call>, states: seq<Limiter>, answers: seq<bool>, i: nat)
    requires Run(start, calls, states, answers) && i < |states|
    ensures Inv(states[i]) && |states[i].sources| <= MAX_SOURCES
    ensures i > 0 ==> states[i].globe.updated == calls[i - 1].now
  {
    hide Inv, Next;
    if i == 0 {
      NewInv(start);
    } else {
      RunInv(start, calls, states, answers, i - 1);
      NextKeeps(states[i - 1], calls[i - 1].source, calls[i - 1].now, states[i], answers[i - 1]);
    }
    SoundGlobe(states[i]);
  }

  lemma {:induction false} GlobalWindow(start: real, calls: seq<Call>, states: seq<Limiter>, answers: seq<bool>, i: nat, j: nat)
    requires Run(start, calls, states, answers) && i < j <= |calls|
    ensures var from, till := calls[i].now, calls[j - 1].now;
      && from <= till && 0.0 <= GlobalCredit(states[j], till)
      && Accepted(calls, answers, i, j, "") as real + GlobalCredit(states[j], till)
         <= GlobalCredit(states[i], from) + (till - from) * GLOBAL_RATE
    decreases j
  {
    hide Inv, Next;
    var k := j - 1;
    RunInv(start, calls, states, answers, k);
    GlobalStep(states[k], calls[k].source, calls[k].now, states[j], answers[k]);
    assert Accepted(calls, answers, i, j, "") == Accepted(calls, answers, i, k, "") + (if answers[k] then 1 else 0);
    if k > i {
      GlobalWindow(start, calls, states, answers, i, k);
    }
  }

  lemma {:induction false} SourceWindow(start: real, calls: seq<Call>, states: seq<Limiter>, answers: seq<bool>, i: nat, j: nat, x: string)
    requires Run(start, calls, states, answers) && i < j <= |calls| && x != ""
    ensures var from, till := calls[i].now, calls[j - 1].now;
      && from <= till && 0.0 <= SourceCredit(states[j], x, till)
      && Accepted(calls, answers, i, j, x) as real + SourceCredit(states[j], x, till)
         <= SourceCredit(states[i], x, from) + (till - from) * SOURCE_RATE
    decreases j
  {
    hide Inv, Next;
    var k := j - 1;
    RunInv(start, calls, states, answers, k);
    RunInv(start, calls, states, answers, j);
    SourceStep(states[k], calls[k].source, calls[k].now, states[j], answers[k], x);
    if x in states[j].sources {
      SourceSound(states[j], x);
    }
    assert Accepted(calls, answers, i, j, x)
        == Accepted(calls, answers, i, k, x) + (if answers[k] && calls[k].source == x then 1 else 0);
    if k > i {
      SourceWindow(start, calls, states, answers, i, k, x);
      Ages(states[k], x, calls[k - 1].now, calls[k].now);
    }
  }

  /** Credit grows at the bucket's rate at most. */
  lemma Ages(l: Limiter, x: string, before: real, now: real)
    requires before <= now
    ensures SourceCredit(l, x, now) <= SourceCredit(l, x, before) + (now - before) * SOURCE_RATE
  {
  }

  /**
   * In any stretch of any run, the calls answered yes number at most the burst plus the rate times
   * its length, for all sources together and for each one, whatever evictions fall within it.
   */
  lemma RateBound(start: real, calls: seq<Call>, states: seq<Limiter>, answers: seq<bool>, i: nat, j: nat, x: string)
    requires Run(start, calls, states, answers) && i < j <= |calls| && x != ""
    ensures var length := calls[j - 1].now - calls[i].now;
      && Accepted(calls, answers, i, j, "") as real <= GLOBAL_BURST + length * GLOBAL_RATE
      && Accepted(calls, answers, i, j, x) as real <= SOURCE_BURST + length * SOURCE_RATE
      && |states[j].sources| <= MAX_SOURCES
  {
    hide Inv, Next;
    GlobalWindow(start, calls, states, answers, i, j);
    SourceWindow(start, calls, states, answers, i, j, x);
    RunInv(start, calls, states, answers, j);
  }
}
