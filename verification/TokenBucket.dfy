/** The bucket that limits operator retries (internal/controlplane/ratelimit.go). Times are seconds, and
    tokens are real numbers. */
module TokenBucket {

  datatype State = State(capacity: real, rate: real, tokens: real, last: real) {
    /** A rate of zero or less switches the limiter off. */
    predicate Enabled() {
      rate > 0.0
    }

    predicate Valid() {
      tokens <= capacity && (capacity >= 0.0 ==> tokens >= 0.0)
    }
  }

  function Created(capacity: int, rate: real, now: real): State {
    State(capacity as real, rate, capacity as real, now)
  }

  function Refill(rate: real, seconds: real): real {
    rate * seconds
  }

  lemma RefillIs(rate: real, seconds: real)
    ensures Refill(rate, seconds) == rate * seconds
  {
  }

  lemma RefillAdds(rate: real, a: real, b: real)
    ensures Refill(rate, a) + Refill(rate, b) == Refill(rate, a + b)
  {
  }

  lemma RefillGrows(rate: real, a: real, b: real)
    requires rate >= 0.0 && a <= b
    ensures Refill(rate, 0.0) == 0.0 && Refill(rate, a) <= Refill(rate, b)
  {
  }

  /** The bucket once the time since the last refill is credited; a clock that went back credits none. */
  function Refilled(s: State, now: real): State {
    if now <= s.last then s
    else
      var tokens := s.tokens + Refill(s.rate, now - s.last);
      s.(tokens := if tokens > s.capacity then s.capacity else tokens, last := now)
  }

  predicate Allows(s: State, now: real) {
    s.Enabled() ==> Refilled(s, now).tokens >= 1.0
  }

  function AfterCall(s: State, now: real): State {
    if !s.Enabled() then s
    else
      var r := Refilled(s, now);
      if r.tokens < 1.0 then r else r.(tokens := r.tokens - 1.0)
  }

  class TokenBucket {
    const capacity: real
    const refillPerSec: real
    var tokens: real
    var last: real

    function Contents(): State
      reads this
    {
      State(capacity, refillPerSec, tokens, last)
    }

    constructor (capacity: int, refillPerSec: real, now: real)
      ensures Contents() == Created(capacity, refillPerSec, now)
    {
      this.capacity := capacity as real;
      this.refillPerSec := refillPerSec;
      tokens := capacity as real;
      last := now;
    }

    method Allow(now: real) returns (ok: bool)
      modifies this`tokens, this`last
      ensures ok == Allows(old(Contents()), now)
      ensures Contents() == AfterCall(old(Contents()), now)
    {
      if refillPerSec <= 0.0 {
        return true;
      }
      var elapsed := now - last;
      assert refillPerSec * elapsed == Refill(refillPerSec, now - last);
      hide Refill;
      if elapsed > 0.0 {
        tokens := tokens + refillPerSec * elapsed;
        if tokens > capacity {
          tokens := capacity;
        }
        last := now;
      }
      assert Contents() == Refilled(old(Contents()), now);
      if tokens < 1.0 {
        return false;
      }
      tokens := tokens - 1.0;
      return true;
    }
  }

  // ---- Runs ----

  function AfterCalls(s: State, times: seq<real>): State
    decreases |times|
  {
    if times == [] then s else AfterCalls(AfterCall(s, times[0]), times[1..])
  }

  /** The answers of calls made at those times, one after the other. */
  function Answers(s: State, times: seq<real>): (r: seq<bool>)
    ensures |r| == |times|
    decreases |times|
  {
    if times == [] then [] else [Allows(s, times[0])] + Answers(AfterCall(s, times[0]), times[1..])
  }

  function Count(answers: seq<bool>): nat {
    if answers == [] then 0 else (if answers[0] then 1 else 0) + Count(answers[1..])
  }

  /** The tokens a call takes. */
  function Taken(s: State, now: real): real {
    if Allows(s, now) then 1.0 else 0.0
  }

  lemma CountByFirst(s: State, times: seq<real>)
    requires times != []
    ensures Count(Answers(s, times)) as real ==
              Taken(s, times[0]) + Count(Answers(AfterCall(s, times[0]), times[1..])) as real
  {
    hide AfterCall, Allows;
    assert Answers(s, times)[1..] == Answers(AfterCall(s, times[0]), times[1..]);
  }

  function Later(a: real, b: real): real {
    if a < b then b else a
  }

  lemma CallKeepsValid(s: State, now: real)
    requires s.Valid()
    ensures AfterCall(s, now).Valid()
  {
    if s.Enabled() && now > s.last {
      RefillGrows(s.rate, 0.0, now - s.last);
    }
  }

  /** Whatever the times of the calls, the tokens stay between none and the capacity. */
  lemma {:induction false} TokensStayInBucket(s: State, times: seq<real>)
    requires s.Valid()
    ensures AfterCalls(s, times).Valid()
    ensures AfterCalls(s, times).capacity == s.capacity && AfterCalls(s, times).rate == s.rate
    decreases |times|
  {
    if times != [] {
      CallKeepsValid(s, times[0]);
      TokensStayInBucket(AfterCall(s, times[0]), times[1..]);
    }
  }

  /** The answers of a run are those of its beginning and then those of its end. */
  lemma {:induction false} AnswersConcat(s: State, before: seq<real>, times: seq<real>)
    ensures Answers(s, before + times) == Answers(s, before) + Answers(AfterCalls(s, before), times)
    decreases |before|
  {
    if before == [] {
      assert before + times == times;
    } else {
      assert (before + times)[1..] == before[1..] + times;
      AnswersConcat(AfterCall(s, before[0]), before[1..], times);
    }
  }

  /** One call credits at most the time that went by, and takes a token when it is allowed. */
  lemma CallSpendsToken(s: State, now: real)
    requires s.Enabled()
    ensures var next := AfterCall(s, now);
            next.tokens + Taken(s, now) <= s.tokens + Refill(s.rate, Later(now, s.last) - s.last) &&
            next.last == Later(now, s.last) && next.rate == s.rate && next.capacity == s.capacity
  {
    hide Refill;
    RefillGrows(s.rate, 0.0, 0.0);
  }

  /** Calls made until then are paid for by the tokens there were and the time that went by. */
  lemma {:induction false} AllowedArePaidFor(s: State, times: seq<real>, end: real)
    requires s.Enabled() && s.Valid() && s.capacity >= 0.0
    requires forall i | 0 <= i < |times| :: times[i] <= end
    ensures Count(Answers(s, times)) as real <= s.tokens + Refill(s.rate, Later(end, s.last) - s.last)
    decreases |times|
  {
    if times == [] {
      RefillGrows(s.rate, 0.0, Later(end, s.last) - s.last);
    } else {
      hide AfterCall, Allows, Taken, Answers, Count, Refill;
      var next := AfterCall(s, times[0]);
      CallKeepsValid(s, times[0]);
      CallSpendsToken(s, times[0]);
      AllowedArePaidFor(next, times[1..], end);
      CountByFirst(s, times);
      RefillAdds(s.rate, Later(times[0], s.last) - s.last, Later(end, next.last) - next.last);
    }
  }

  /** Any stretch of a run of an enabled bucket, in whatever order its times come: the calls allowed are at
      most the capacity and what the stretch's length refills. */
  lemma AllowedAreBounded(capacity: int, rate: real, created: real, before: seq<real>, times: seq<real>,
                          start: real, end: real)
    requires rate > 0.0 && capacity >= 0 && start <= end
    requires forall i | 0 <= i < |times| :: start <= times[i] <= end
    ensures var answers := Answers(Created(capacity, rate, created), before + times);
            Count(answers[|before|..]) as real <= capacity as real + rate * (end - start)
  {
    hide AfterCall, Allows, Answers, Count, AfterCalls;
    var s := Created(capacity, rate, created);
    TokensStayInBucket(s, before);
    AnswersConcat(s, before, times);
    var b := AfterCalls(s, before);
    assert Answers(s, before + times)[|before|..] == Answers(b, times);
    StretchIsBounded(b, times, start, end);
    RefillIs(rate, end - start);
  }

  lemma StretchIsBounded(s: State, times: seq<real>, start: real, end: real)
    requires s.Enabled() && s.Valid() && s.capacity >= 0.0 && start <= end
    requires forall i | 0 <= i < |times| :: start <= times[i] <= end
    ensures Count(Answers(s, times)) as real <= s.capacity + Refill(s.rate, end - start)
  {
    hide Answers, Count, Refill, Later;
    if times == [] {
      RefillGrows(s.rate, 0.0, end - start);
      NoCalls(s);
    } else {
      var first := Later(times[0], s.last);
      CallsArePaidFor(s, times, end);
      CreditedIsBounded(start, times[0], s.last, end);
      RefillGrows(s.rate, Later(end, first) - first, end - start);
    }
  }

  lemma NoCalls(s: State)
    ensures Count(Answers(s, [])) == 0
  {
  }

  /** Calls made until then are paid for by the capacity and the time that went by since the first. */
  lemma CallsArePaidFor(s: State, times: seq<real>, end: real)
    requires s.Enabled() && s.Valid() && s.capacity >= 0.0 && times != []
    requires forall i | 0 <= i < |times| :: times[i] <= end
    ensures var first := Later(times[0], s.last);
            Count(Answers(s, times)) as real <= s.capacity + Refill(s.rate, Later(end, first) - first)
  {
    hide AfterCall, Taken, Answers, Count, Refill, Later;
    FirstCallLeaves(s, times[0]);
    CallKeepsValid(s, times[0]);
    AllowedArePaidFor(AfterCall(s, times[0]), times[1..], end);
    CountByFirst(s, times);
  }

  lemma CreditedIsBounded(start: real, now: real, last: real, end: real)
    requires start <= now <= end
    ensures Later(end, Later(now, last)) - Later(now, last) <= end - start
  {
  }

  lemma FirstCallLeaves(s: State, now: real)
    requires s.Enabled() && s.Valid()
    ensures var next := AfterCall(s, now);
            next.tokens + Taken(s, now) <= s.capacity &&
            next.last == Later(now, s.last) && next.rate == s.rate && next.capacity == s.capacity && next.Enabled()
  {
  }

  /** A call of an enabled bucket is credited the time since the last, up to the capacity, and takes a token exactly if
      it then finds one. */
  lemma CallDoes(s: State, now: real)
    requires s.Enabled() && s.Valid()
    ensures var passed := if now > s.last then now - s.last else 0.0;
            var filled := if s.tokens + s.rate * passed > s.capacity then s.capacity else s.tokens + s.rate * passed;
            && (Allows(s, now) <==> filled >= 1.0)
            && AfterCall(s, now) == State(s.capacity, s.rate, if filled >= 1.0 then filled - 1.0 else filled,
                                          if now > s.last then now else s.last)
  {
    var passed := if now > s.last then now - s.last else 0.0;
    RefillIs(s.rate, passed);
    RefillGrows(s.rate, 0.0, 0.0);
    hide Refill;
  }

  /** The time of the last of the calls. */
  function LastOf(s: State, times: seq<real>): real {
    if times == [] then s.last else times[|times| - 1]
  }

  /** As long as the bucket does not fill up, no fraction of a token is lost, however often it is asked: what is left
      and what was allowed are what there was and what the time refilled. */
  lemma NothingIsLost(s: State, times: seq<real>)
    requires s.Enabled() && s.Valid()
    requires forall i | 0 <= i < |times| :: s.last <= times[i] && (i > 0 ==> times[i - 1] <= times[i])
    requires s.tokens + s.rate * (LastOf(s, times) - s.last) <= s.capacity
    ensures AfterCalls(s, times).tokens + Count(Answers(s, times)) as real
            == s.tokens + s.rate * (LastOf(s, times) - s.last)
  {
    RefillIs(s.rate, LastOf(s, times) - s.last);
    hide Refill, AfterCalls, Count, Answers, LastOf;
    NoneLost(s, times);
  }

  lemma {:induction false} NoneLost(s: State, times: seq<real>)
    requires s.Enabled() && s.Valid()
    requires forall i | 0 <= i < |times| :: s.last <= times[i] && (i > 0 ==> times[i - 1] <= times[i])
    requires s.tokens + Refill(s.rate, LastOf(s, times) - s.last) <= s.capacity
    ensures AfterCalls(s, times).tokens + Count(Answers(s, times)) as real
            == s.tokens + Refill(s.rate, LastOf(s, times) - s.last)
    decreases |times|
  {
    if times == [] {
      RefillGrows(s.rate, 0.0, 0.0);
      hide Refill;
    } else {
      hide Refill, Answers, Count, AfterCall, Allows, Taken;
      var next, end := AfterCall(s, times[0]), LastOf(s, times);
      TimesRise(times);
      RefillGrows(s.rate, times[0] - s.last, end - s.last);
      RefillAdds(s.rate, times[0] - s.last, end - times[0]);
      CallKeepsValid(s, times[0]);
      NoneLostByCall(s, times[0]);
      assert LastOf(next, times[1..]) == end;
      NoneLost(next, times[1..]);
      CountByFirst(s, times);
      assert AfterCalls(s, times) == AfterCalls(next, times[1..]);
    }
  }

  lemma {:induction false} TimesRise(times: seq<real>)
    requires times != [] && forall i | 0 < i < |times| :: times[i - 1] <= times[i]
    ensures times[0] <= times[|times| - 1] && forall i | 0 <= i < |times| :: times[0] <= times[i]
  {
    if |times| > 1 {
      TimesRise(times[..|times| - 1]);
      assert forall i | 0 <= i < |times| - 1 :: times[..|times| - 1][i] == times[i];
    }
  }

  lemma NoneLostByCall(s: State, now: real)
    requires s.Enabled() && s.Valid() && s.last <= now && s.tokens + Refill(s.rate, now - s.last) <= s.capacity
    ensures var next := AfterCall(s, now);
            next.tokens + Taken(s, now) == s.tokens + Refill(s.rate, now - s.last)
            && next.last == now && next.rate == s.rate && next.capacity == s.capacity
  {
    RefillGrows(s.rate, 0.0, 0.0);
    hide Refill;
  }

  /** Calls one refilled token apart, the first of which finds a token, are all allowed when the bucket can
      hold one. */
  lemma {:induction false} SpacedCallsAreAllowed(s: State, times: seq<real>)
    requires s.Enabled() && s.Valid() && s.capacity >= 1.0
    requires times != [] ==> s.last <= times[0] && s.tokens + Refill(s.rate, times[0] - s.last) >= 1.0
    requires forall i | 0 < i < |times| :: Refill(s.rate, times[i] - times[i - 1]) >= 1.0
    ensures forall i | 0 <= i < |times| :: Answers(s, times)[i]
    decreases |times|
  {
    if times != [] {
      var next := AfterCall(s, times[0]);
      CallKeepsValid(s, times[0]);
      RefillGrows(s.rate, 0.0, 0.0);
      assert Allows(s, times[0]);
      assert next.last == times[0] && next.tokens >= 0.0 && next.rate == s.rate;
      if |times| > 1 {
        assert Refill(s.rate, times[1] - times[0]) >= 1.0;
        Positive(s.rate, times[1] - times[0]);
      }
      SpacedCallsAreAllowed(next, times[1..]);
      assert forall i | 0 < i < |times| :: Answers(s, times)[i] == Answers(next, times[1..])[i - 1];
    }
  }

  /** The time of the last refill is no later than the latest call. */
  lemma {:induction false} LastIsNoLater(s: State, times: seq<real>, latest: real)
    requires s.last <= latest && forall i | 0 <= i < |times| :: times[i] <= latest
    ensures AfterCalls(s, times).last <= latest
    decreases |times|
  {
    if times != [] {
      LastIsNoLater(AfterCall(s, times[0]), times[1..], latest);
    }
  }

  /** In any stretch of any run of an enabled bucket that can hold a token: of calls one refilled token apart,
      begun when no call had a later time, all after the first are allowed, whatever was asked before. */
  lemma SpacedStretchIsAllowed(capacity: int, rate: real, created: real, before: seq<real>, times: seq<real>)
    requires rate > 0.0 && capacity >= 1
    requires times != [] ==> created <= times[0] && (forall i | 0 <= i < |before| :: before[i] <= times[0])
    requires forall i | 0 < i < |times| :: Refill(rate, times[i] - times[i - 1]) >= 1.0
    ensures var answers := Answers(Created(capacity, rate, created), before + times)[|before|..];
            forall i | 0 < i < |times| :: answers[i]
  {
    if |times| > 1 {
      hide AfterCall, Allows, Answers, AfterCalls, Refill;
      var s := Created(capacity, rate, created);
      var b := AfterCalls(s, before);
      TokensStayInBucket(s, before);
      LastIsNoLater(s, before, times[0]);
      AnswersConcat(s, before, times);
      assert Answers(s, before + times)[|before|..] == Answers(b, times);
      AfterFirstOfSpaced(b, times);
    }
  }

  lemma AfterFirstOfSpaced(b: State, times: seq<real>)
    requires b.Enabled() && b.Valid() && b.capacity >= 1.0 && |times| > 1 && b.last <= times[0]
    requires forall i | 0 < i < |times| :: Refill(b.rate, times[i] - times[i - 1]) >= 1.0
    ensures forall i | 0 < i < |times| :: Answers(b, times)[i]
  {
    hide Allows, Refill, Answers;
    var next := AfterCall(b, times[0]);
    CallKeepsValid(b, times[0]);
    FirstCallLeaves(b, times[0]);
    assert Refill(b.rate, times[1] - times[0]) >= 1.0;
    Positive(b.rate, times[1] - times[0]);
    hide AfterCall;
    SpacedCallsAreAllowed(next, times[1..]);
    forall i | 0 < i < |times|
      ensures Answers(b, times)[i]
    {
      AnswersAt(b, times, i);
    }
  }

  lemma Positive(a: real, b: real)
    requires a > 0.0 && Refill(a, b) >= 1.0
    ensures b > 0.0
  {
    if b <= 0.0 {
      RefillGrows(a, b, 0.0);
    }
  }

  /** An enabled bucket that cannot hold a whole token allows nothing. */
  lemma {:induction false} SmallBucketAllowsNothing(s: State, times: seq<real>)
    requires s.Enabled() && s.Valid() && s.capacity < 1.0
    ensures Count(Answers(s, times)) == 0
    decreases |times|
  {
    if times != [] {
      CallKeepsValid(s, times[0]);
      SmallBucketAllowsNothing(AfterCall(s, times[0]), times[1..]);
      assert Answers(s, times)[1..] == Answers(AfterCall(s, times[0]), times[1..]);
    }
  }

  /** The bound is met: of calls at the moment of creation, exactly the first ones up to the capacity are
      allowed. */
  lemma {:induction false} BurstIsCapacity(s: State, times: seq<real>)
    requires s.Enabled() && s.tokens <= s.capacity && forall i | 0 <= i < |times| :: times[i] == s.last
    ensures forall i | 0 <= i < |times| :: Answers(s, times)[i] <==> i as real + 1.0 <= s.tokens
    decreases |times|
  {
    if times != [] {
      var next := AfterCall(s, times[0]);
      assert next == s.(tokens := if s.tokens < 1.0 then s.tokens else s.tokens - 1.0);
      BurstIsCapacity(next, times[1..]);
      hide AfterCall, Refill;
      forall i | 0 <= i < |times|
        ensures Answers(s, times)[i] <==> i as real + 1.0 <= s.tokens
      {
        if i > 0 {
          AnswersAt(s, times, i);
          assert (i - 1) as real + 1.0 == i as real;
        }
      }
    }
  }

  lemma AnswersAt(s: State, times: seq<real>, i: nat)
    requires 0 < i < |times|
    ensures Answers(s, times)[i] == Answers(AfterCall(s, times[0]), times[1..])[i - 1]
  {
    hide AfterCall, Allows;
  }

  /** A disabled bucket allows every call and is never changed by one. */
  lemma {:induction false} DisabledAllowsEverything(s: State, times: seq<real>)
    requires !s.Enabled()
    ensures Count(Answers(s, times)) == |times| && AfterCalls(s, times) == s
    decreases |times|
  {
    if times != [] {
      DisabledAllowsEverything(s, times[1..]);
      assert Answers(s, times)[1..] == Answers(s, times[1..]);
    }
  }
}
