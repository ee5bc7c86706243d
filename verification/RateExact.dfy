/** The rate limiter by its answers alone: exactly which calls of a run are answered. */
module RateExact {
  import opened TokenBuckets

  function Length(calls: seq<Call>, i: nat, k: nat): real
    requires i < |calls| && k < |calls|
  {
    calls[k].now - calls[i].now
  }

  // ----------------------------------------------------------- all sources together

  /** Calls of a stretch that cost a common token: all but those that found too few. */
  ghost function Paying(calls: seq<Call>, i: nat, k: nat): nat
    requires i <= k <= |calls|
    decreases k, 0
  {
    if i == k then 0 else Paying(calls, i, k - 1) + (if Short(calls, k - 1) then 0 else 1)
  }

  /** In some stretch up to the call less than a token is left of 400 and 200 for each second. */
  ghost predicate Short(calls: seq<Call>, k: nat)
    requires k < |calls|
    decreases k, 1
  {
    exists i :: 0 <= i <= k && Paying(calls, i, k) as real > 399.0 + Length(calls, i, k) * 200.0
  }

  /** What is left of the common allowance at a call, by the stretch since call i. */
  ghost function Left(calls: seq<Call>, i: nat, k: nat): real
    requires i <= k < |calls|
  {
    400.0 + Length(calls, i, k) * 200.0 - Paying(calls, i, k) as real
  }

  lemma ShortIs(calls: seq<Call>, k: nat)
    requires k < |calls|
    ensures Short(calls, k) <==> exists i :: 0 <= i <= k && Left(calls, i, k) < 1.0
  {
    if Short(calls, k) {
      var i :| 0 <= i <= k && Paying(calls, i, k) as real > 399.0 + Length(calls, i, k) * 200.0;
      assert Left(calls, i, k) < 1.0;
    }
    if i :| 0 <= i <= k && Left(calls, i, k) < 1.0 {
      assert Paying(calls, i, k) as real > 399.0 + Length(calls, i, k) * 200.0;
    }
  }

  lemma LeftNext(calls: seq<Call>, i: nat, k: nat)
    requires i <= k && k + 1 < |calls|
    ensures Left(calls, i, k + 1) == Left(calls, i, k) + Length(calls, k, k + 1) * 200.0 - (if Short(calls, k) then 0.0 else 1.0)
  {
    hide Short;
    assert Length(calls, i, k + 1) * 200.0 == Length(calls, i, k) * 200.0 + Length(calls, k, k + 1) * 200.0;
  }

  /** The credit of the common bucket at a call is the least that any stretch leaves. */
  ghost predicate LeastLeft(calls: seq<Call>, k: nat, credit: real)
    requires k < |calls|
  {
    (forall i :: 0 <= i <= k ==> credit <= Left(calls, i, k)) && exists i :: 0 <= i <= k && credit == Left(calls, i, k)
  }

  lemma LeastNext(calls: seq<Call>, k: nat, credit: real)
    requires k + 1 < |calls| && LeastLeft(calls, k, credit) && calls[k].now <= calls[k + 1].now
    ensures LeastLeft(calls, k + 1,
              Min(400.0, credit - (if Short(calls, k) then 0.0 else 1.0) + Length(calls, k, k + 1) * 200.0))
  {
    hide Short, Paying;
    var next := k + 1;
    var taken := credit - (if Short(calls, k) then 0.0 else 1.0) + Length(calls, k, next) * 200.0;
    forall i | 0 <= i <= k
      ensures Left(calls, i, next) == Left(calls, i, k) - credit + taken
    {
      LeftNext(calls, i, k);
    }
    Fresh(calls, next);
    var i :| 0 <= i <= k && credit == Left(calls, i, k);
    var least := if taken < 400.0 then i else next;
    assert 0 <= least <= next && Left(calls, least, next) == Min(400.0, taken);
    forall j | 0 <= j <= next
      ensures Min(400.0, taken) <= Left(calls, j, next)
    {
      if j <= k {
        assert credit <= Left(calls, j, k);
      }
    }
  }

  lemma Fresh(calls: seq<Call>, k: nat)
    requires k < |calls|
    ensures Left(calls, k, k) == 400.0
  {
  }

  lemma CreditAges(b: Bucket, before: real, now: real, rate: real, burst: real)
    requires b.updated <= before <= now && rate >= 0.0 && b.tokens <= burst
    ensures Credit(b, now, rate, burst) == Min(burst, Credit(b, before, rate, burst) + (now - before) * rate)
  {
    var first, more := (before - b.updated) * rate, (now - before) * rate;
    assert (now - b.updated) * rate == first + more;
    Grows(before - b.updated, rate);
    Grows(now - before, rate);
  }

  lemma GlobalTaken(l: Limiter, source: string, now: real, l': Limiter, allowed: bool)
    requires Inv(l) && now >= l.globe.updated && Next(l, source, now, l', allowed)
    ensures GlobalCredit(l', now) == GlobalCredit(l, now) - (if GlobalCredit(l, now) < 1.0 then 0.0 else 1.0)
    ensures allowed ==> GlobalCredit(l, now) >= 1.0
    ensures l'.globe.updated == now && l'.globe.tokens <= GLOBAL_BURST
  {
    hide Paid, Admits, SourceOk;
    TokenIff(l.globe, now, GLOBAL_RATE, GLOBAL_BURST);
    TakenFrom(l.globe, now, GLOBAL_RATE, GLOBAL_BURST);
    var b := TakeToken(l.globe, now, GLOBAL_RATE, GLOBAL_BURST).0;
    assert Credit(b, now, GLOBAL_RATE, GLOBAL_BURST) == Min(GLOBAL_BURST, b.tokens + 0.0);
  }

  /** A token is given exactly if there is a whole one. */
  lemma TokenIff(b: Bucket, now: real, rate: real, burst: real)
    requires now >= b.updated && 0.0 <= b.tokens <= burst && rate >= 0.0
    ensures TakeToken(b, now, rate, burst).1 <==> Credit(b, now, rate, burst) >= 1.0
  {
    hide Credit;
    StillCredit(b, rate, burst);
  }

  lemma StillCredit(b: Bucket, rate: real, burst: real)
    requires b.tokens <= burst
    ensures Credit(b, b.updated, rate, burst) == b.tokens
  {
    assert (b.updated - b.updated) * rate == 0.0;
  }

  lemma RunOrdered(start: real, calls: seq<Call>, states: seq<Limiter>, answers: seq<bool>, k: nat)
    requires Run(start, calls, states, answers) && k + 1 < |calls|
    ensures calls[k].now <= calls[k + 1].now
  {
    hide Inv, Next;
    RunInv(start, calls, states, answers, k + 1);
  }

  lemma {:induction false} GlobalExact(start: real, calls: seq<Call>, states: seq<Limiter>, answers: seq<bool>, k: nat)
    requires Run(start, calls, states, answers) && k < |calls|
    ensures LeastLeft(calls, k, GlobalCredit(states[k], calls[k].now))
  {
    hide Inv, Next, Short, LeastLeft;
    if k == 0 {
      FirstLeft(start, calls);
    } else {
      GlobalExact(start, calls, states, answers, k - 1);
      RunInv(start, calls, states, answers, k - 1);
      RunOrdered(start, calls, states, answers, k - 1);
      var l, l', c := states[k - 1], states[k], calls[k - 1];
      GlobalTaken(l, c.source, c.now, l', answers[k - 1]);
      CreditAges(l'.globe, c.now, calls[k].now, GLOBAL_RATE, GLOBAL_BURST);
      ShortByCredit(calls, k - 1, GlobalCredit(l, c.now));
      LeastNext(calls, k - 1, GlobalCredit(l, c.now));
    }
  }

  lemma FirstLeft(start: real, calls: seq<Call>)
    requires |calls| > 0 && calls[0].now >= start
    ensures LeastLeft(calls, 0, GlobalCredit(New(start), calls[0].now))
  {
    Fresh(calls, 0);
    Grows(calls[0].now - start, GLOBAL_RATE);
    assert GlobalCredit(New(start), calls[0].now) == 400.0;
  }

  lemma ShortByCredit(calls: seq<Call>, k: nat, credit: real)
    requires k < |calls| && LeastLeft(calls, k, credit)
    ensures Short(calls, k) <==> credit < 1.0
  {
    hide Short, Left;
    ShortIs(calls, k);
  }

  // -------------------------------------------------------------------- one source

  /** In some stretch up to the call less than a token is left of 10 and 5 for each second, after the source's answered calls. */
  ghost predicate SourceShort(calls: seq<Call>, answers: seq<bool>, k: nat)
    requires k < |calls| == |answers|
  {
    exists i :: 0 <= i <= k && Accepted(calls, answers, i, k, calls[k].source) as real > 9.0 + Length(calls, i, k) * 5.0
  }

  ghost function SourceLeft(calls: seq<Call>, answers: seq<bool>, x: string, i: nat, k: nat): real
    requires i <= k < |calls| == |answers|
  {
    10.0 + Length(calls, i, k) * 5.0 - Accepted(calls, answers, i, k, x) as real
  }

  ghost predicate LeastSourceLeft(calls: seq<Call>, answers: seq<bool>, x: string, k: nat, credit: real)
    requires k < |calls| == |answers|
  {
    && (forall i :: 0 <= i <= k ==> credit <= SourceLeft(calls, answers, x, i, k))
    && exists i :: 0 <= i <= k && credit == SourceLeft(calls, answers, x, i, k)
  }

  predicate Served(calls: seq<Call>, answers: seq<bool>, x: string, k: nat)
    requires k < |calls| == |answers|
  {
    answers[k] && calls[k].source == x
  }

  lemma SourceLeftNext(calls: seq<Call>, answers: seq<bool>, x: string, i: nat, k: nat)
    requires i <= k && k + 1 < |calls| == |answers| && x != ""
    ensures SourceLeft(calls, answers, x, i, k + 1)
         == SourceLeft(calls, answers, x, i, k) + Length(calls, k, k + 1) * 5.0 - (if Served(calls, answers, x, k) then 1.0 else 0.0)
  {
    assert Length(calls, i, k + 1) * 5.0 == Length(calls, i, k) * 5.0 + Length(calls, k, k + 1) * 5.0;
  }

  lemma LeastSourceNext(calls: seq<Call>, answers: seq<bool>, x: string, k: nat, credit: real)
    requires k + 1 < |calls| == |answers| && LeastSourceLeft(calls, answers, x, k, credit) && calls[k].now <= calls[k + 1].now && x != ""
    ensures LeastSourceLeft(calls, answers, x, k + 1,
              Min(10.0, credit - (if Served(calls, answers, x, k) then 1.0 else 0.0) + Length(calls, k, k + 1) * 5.0))
  {
    hide Accepted, Served;
    var next := k + 1;
    var taken := credit - (if Served(calls, answers, x, k) then 1.0 else 0.0) + Length(calls, k, next) * 5.0;
    forall i | 0 <= i <= k
      ensures SourceLeft(calls, answers, x, i, next) == SourceLeft(calls, answers, x, i, k) - credit + taken
    {
      SourceLeftNext(calls, answers, x, i, k);
    }
    FreshSource(calls, answers, x, next);
    var i :| 0 <= i <= k && credit == SourceLeft(calls, answers, x, i, k);
    var least := if taken < 10.0 then i else next;
    assert 0 <= least <= next && SourceLeft(calls, answers, x, least, next) == Min(10.0, taken);
    forall j | 0 <= j <= next
      ensures Min(10.0, taken) <= SourceLeft(calls, answers, x, j, next)
    {
      if j <= k {
        assert credit <= SourceLeft(calls, answers, x, j, k);
      }
    }
  }

  lemma FreshSource(calls: seq<Call>, answers: seq<bool>, x: string, k: nat)
    requires k < |calls| == |answers|
    ensures SourceLeft(calls, answers, x, k, k) == 10.0
  {
  }

  /** A call costs its source a token exactly if it is answered, and nobody else anything, evictions included. */
  lemma SourceTakenExact(l: Limiter, source: string, now: real, l': Limiter, allowed: bool, x: string)
    requires Inv(l) && source != "" && now >= l.globe.updated && Next(l, source, now, l', allowed)
    ensures SourceCredit(l', x, now) == SourceCredit(l, x, now) - (if allowed && source == x then 1.0 else 0.0)
    ensures allowed <==> GlobalCredit(l, now) >= 1.0 && SourceCredit(l, source, now) >= 1.0
  {
    hide Paid, Admits, Inv;
    SoundGlobe(l);
    TokenIff(l.globe, now, GLOBAL_RATE, GLOBAL_BURST);
    if TakeToken(l.globe, now, GLOBAL_RATE, GLOBAL_BURST).1 {
      if source in l.sources {
        SourceSound(l, source);
        TakenFrom(l.sources[source], now, SOURCE_RATE, SOURCE_BURST);
        TokenIff(l.sources[source], now, SOURCE_RATE, SOURCE_BURST);
      } else {
        var kept :| Admits(l.sources, kept, now) && l'.sources == kept[source := Bucket(SOURCE_BURST - 1.0, now, now)];
        EvictedLess(l.sources, kept, now);
        if x in l.sources && x !in kept {
          EvictedFull(l, kept, now, x);
        }
      }
    }
  }

  lemma SourceAges(l: Limiter, x: string, before: real, now: real)
    requires Inv(l) && l.globe.updated <= before <= now
    ensures SourceCredit(l, x, now) == Min(SOURCE_BURST, SourceCredit(l, x, before) + (now - before) * SOURCE_RATE)
  {
    hide Inv;
    Grows(now - before, SOURCE_RATE);
    if x in l.sources {
      SourceSound(l, x);
      CreditAges(l.sources[x], before, now, SOURCE_RATE, SOURCE_BURST);
    }
  }

  lemma {:induction false} SourceExact(start: real, calls: seq<Call>, states: seq<Limiter>, answers: seq<bool>, x: string, k: nat)
    requires Run(start, calls, states, answers) && k < |calls| && x != ""
    ensures LeastSourceLeft(calls, answers, x, k, SourceCredit(states[k], x, calls[k].now))
  {
    hide Inv, Next, LeastSourceLeft, SourceCredit;
    if k == 0 {
      FirstSourceLeft(start, calls, answers, x);
    } else {
      SourceExact(start, calls, states, answers, x, k - 1);
      RunInv(start, calls, states, answers, k - 1);
      RunInv(start, calls, states, answers, k);
      RunOrdered(start, calls, states, answers, k - 1);
      var c := calls[k - 1];
      SourceTakenExact(states[k - 1], c.source, c.now, states[k], answers[k - 1], x);
      SourceAges(states[k], x, c.now, calls[k].now);
      LeastSourceNext(calls, answers, x, k - 1, SourceCredit(states[k - 1], x, c.now));
    }
  }

  lemma FirstSourceLeft(start: real, calls: seq<Call>, answers: seq<bool>, x: string)
    requires 0 < |calls| == |answers|
    ensures LeastSourceLeft(calls, answers, x, 0, SourceCredit(New(start), x, calls[0].now))
  {
    FreshSource(calls, answers, x, 0);
  }

  lemma SourceShortByCredit(calls: seq<Call>, answers: seq<bool>, k: nat, credit: real)
    requires k < |calls| == |answers| && LeastSourceLeft(calls, answers, calls[k].source, k, credit)
    ensures SourceShort(calls, answers, k) <==> credit < 1.0
  {
    var x := calls[k].source;
    if SourceShort(calls, answers, k) {
      var i :| 0 <= i <= k && Accepted(calls, answers, i, k, x) as real > 9.0 + Length(calls, i, k) * 5.0;
      assert SourceLeft(calls, answers, x, i, k) < 1.0;
    }
    if credit < 1.0 {
      var i :| 0 <= i <= k && credit == SourceLeft(calls, answers, x, i, k);
      assert Accepted(calls, answers, i, k, x) as real > 9.0 + Length(calls, i, k) * 5.0;
    }
  }

  // ----------------------------------------------------------------------- the law

  /**
   * A call is answered if and only if no stretch that ends with it is short: of the common allowance, which
   * every call pays that finds any, or of its source's, which its answered calls pay.
   */
  lemma {:induction false} AnsweredIff(start: real, calls: seq<Call>, states: seq<Limiter>, answers: seq<bool>, k: nat)
    requires Run(start, calls, states, answers) && k < |calls|
    ensures answers[k] <==> !Short(calls, k) && !SourceShort(calls, answers, k)
  {
    hide Inv, Next, Short, SourceShort, LeastLeft, LeastSourceLeft, SourceCredit, GlobalCredit;
    var x := calls[k].source;
    RunInv(start, calls, states, answers, k);
    GlobalExact(start, calls, states, answers, k);
    SourceExact(start, calls, states, answers, x, k);
    ShortByCredit(calls, k, GlobalCredit(states[k], calls[k].now));
    SourceShortByCredit(calls, answers, k, SourceCredit(states[k], x, calls[k].now));
    SourceTakenExact(states[k], x, calls[k].now, states[k + 1], answers[k], x);
  }

  /** None of the source's calls was answered within two seconds before call k. */
  ghost predicate Silent(calls: seq<Call>, answers: seq<bool>, x: string, k: nat)
    requires k < |calls| == |answers|
  {
    forall m :: 0 <= m < k && Served(calls, answers, x, m) ==> calls[k].now - calls[m].now >= 2.0
  }

  lemma {:induction false} FullAgain(start: real, calls: seq<Call>, states: seq<Limiter>, answers: seq<bool>, x: string, i: nat, m: nat, k: nat)
    requires Run(start, calls, states, answers) && x != "" && i <= m <= k < |calls| && Silent(calls, answers, x, k)
    requires Accepted(calls, answers, i, k, x) == Accepted(calls, answers, i, m, x) && Length(calls, i, k) >= 0.0
    ensures Accepted(calls, answers, i, k, x) as real <= Length(calls, i, k) * 5.0
    decreases m
  {
    hide Inv, Next;
    if i < m {
      if Served(calls, answers, x, m - 1) {
        RateBound(start, calls, states, answers, i, m, x);
        assert (calls[k].now - calls[i].now) * 5.0 == (calls[m - 1].now - calls[i].now) * 5.0 + (calls[k].now - calls[m - 1].now) * 5.0;
      } else {
        FullAgain(start, calls, states, answers, x, i, m - 1, k);
      }
    }
  }

  lemma {:induction false} StillOrdered(start: real, calls: seq<Call>, states: seq<Limiter>, answers: seq<bool>, i: nat, k: nat)
    requires Run(start, calls, states, answers) && i <= k < |calls|
    ensures calls[i].now <= calls[k].now
    decreases k
  {
    hide Inv, Next;
    if i < k {
      StillOrdered(start, calls, states, answers, i, k - 1);
      RunOrdered(start, calls, states, answers, k - 1);
    }
  }

  lemma {:induction false} AcceptedSplit(calls: seq<Call>, answers: seq<bool>, i: nat, m: nat, k: nat, x: string)
    requires i <= m <= k <= |calls| == |answers|
    ensures Accepted(calls, answers, i, k, x) == Accepted(calls, answers, i, m, x) + Accepted(calls, answers, m, k, x)
    decreases k
  {
    if m < k {
      AcceptedSplit(calls, answers, i, m, k - 1, x);
    }
  }

  lemma {:induction false} AcceptedSome(calls: seq<Call>, answers: seq<bool>, i: nat, m: nat, k: nat, x: string)
    requires m <= i <= k <= |calls| == |answers|
    ensures Accepted(calls, answers, i, k, x) <= Accepted(calls, answers, m, k, x)
  {
    AcceptedSplit(calls, answers, m, i, k, x);
  }

  /** After two seconds of silence a source's next ten calls are answered while the common bucket has tokens. */
  lemma {:induction false} TenAfterSilence(start: real, calls: seq<Call>, states: seq<Limiter>, answers: seq<bool>, k: nat, m: nat)
    requires Run(start, calls, states, answers) && k <= m < |calls| && Silent(calls, answers, calls[m].source, k)
    requires Accepted(calls, answers, k, m, calls[m].source) <= 9 && !Short(calls, m)
    ensures answers[m]
  {
    hide Inv, Next, Short;
    var x := calls[m].source;
    AnsweredIff(start, calls, states, answers, m);
    forall i | 0 <= i <= m
      ensures Accepted(calls, answers, i, m, x) as real <= 9.0 + Length(calls, i, m) * 5.0
    {
      StillOrdered(start, calls, states, answers, i, m);
      if i <= k {
        StillOrdered(start, calls, states, answers, i, k);
        StillOrdered(start, calls, states, answers, k, m);
        FullAgain(start, calls, states, answers, x, i, k, k);
        AcceptedSplit(calls, answers, i, k, m, x);
        assert Length(calls, i, m) * 5.0 == Length(calls, i, k) * 5.0 + Length(calls, k, m) * 5.0;
      } else {
        AcceptedSome(calls, answers, i, k, m, x);
      }
    }
  }
}
