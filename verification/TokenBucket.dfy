/** The per-client rate limiter of `relay-server/src/ratelimit.rs`, over exact time. */
module TokenBucket {

  datatype Bucket = Bucket(capacity: real, tokens: real, last: real)

  /** The tokens a refill source has produced by a given time; the limiter's is `rate * time`. */
  type Credit = real -> real

  function Linear(rate: real): Credit {
    (t: real) => rate * t
  }

  ghost predicate Monotone(credit: Credit) {
    forall x: real, y: real | x <= y :: credit(x) <= credit(y)
  }

  predicate Valid(b: Bucket) {
    b.capacity >= 1.0 && 0.0 <= b.tokens <= b.capacity
  }

  function AtLeastOne(n: nat): real {
    if n < 1 then 1.0 else n as real
  }

  function New(capacity: nat, now: real): (b: Bucket)
    ensures Valid(b) && b.tokens == b.capacity
  {
    Bucket(AtLeastOne(capacity), AtLeastOne(capacity), now)
  }

  /** Clocks that run backwards add nothing and do not move the bucket's clock. */
  function Refill(b: Bucket, credit: Credit, now: real): Bucket {
    if now > b.last then
      var filled := b.tokens + (credit(now) - credit(b.last));
      b.(tokens := if filled < b.capacity then filled else b.capacity, last := now)
    else b
  }

  predicate Granted(b: Bucket, credit: Credit, now: real) {
    Refill(b, credit, now).tokens >= 1.0
  }

  function Serve(b: Bucket, credit: Credit, now: real): Bucket {
    var r := Refill(b, credit, now);
    if r.tokens >= 1.0 then r.(tokens := r.tokens - 1.0) else r
  }

  lemma LinearFacts(rate: real, x: real, y: real)
    requires rate >= 1.0
    ensures Linear(rate)(y) - Linear(rate)(x) == (y - x) * rate
    ensures x <= y ==> Linear(rate)(x) <= Linear(rate)(y)
  {
  }

  lemma LinearMonotone(rate: real)
    requires rate >= 1.0
    ensures Monotone(Linear(rate))
  {
  }

  class Limiter {
    const capacity: real
    const rate: real
    var tokens: real
    var last: real

    function Value(): Bucket
      reads this
    {
      Bucket(capacity, tokens, last)
    }

    constructor (ratePerSec: nat, burst: nat, now: real)
      ensures Value() == New(burst, now) && rate == AtLeastOne(ratePerSec)
    {
      capacity, rate := AtLeastOne(burst), AtLeastOne(ratePerSec);
      tokens, last := AtLeastOne(burst), now;
    }

    method Allow(now: real) returns (ok: bool)
      requires rate >= 1.0
      modifies this`tokens, this`last
      ensures ok == Granted(old(Value()), Linear(rate), now) && Value() == Serve(old(Value()), Linear(rate), now)
    {
      var elapsed := if now > last then now - last else 0.0;
      LinearFacts(rate, last, now);
      if elapsed > 0.0 {
        tokens := tokens + elapsed * rate;
        if tokens > capacity { tokens := capacity; }
        last := now;
      }
      if tokens >= 1.0 {
        tokens := tokens - 1.0;
        ok := true;
      } else {
        ok := false;
      }
    }
  }

  // ---- Runs -------------------------------------------------------------------------------

  /** The bucket after the first n requests of a run. */
  function After(b: Bucket, credit: Credit, times: seq<real>, n: nat): Bucket
    requires n <= |times|
  {
    if n == 0 then b else Serve(After(b, credit, times, n - 1), credit, times[n - 1])
  }

  predicate GrantedAt(b: Bucket, credit: Credit, times: seq<real>, k: nat)
    requires k < |times|
  {
    Granted(After(b, credit, times, k), credit, times[k])
  }

  /** How many of the requests i..n of the run were granted. */
  function Grants(b: Bucket, credit: Credit, times: seq<real>, i: nat, n: nat): nat
    requires i <= n <= |times|
    decreases n
  {
    if n == i then 0 else Grants(b, credit, times, i, n - 1) + (if GrantedAt(b, credit, times, n - 1) then 1 else 0)
  }

  /** The latest of the first n times: the bucket's clock, whatever was granted. */
  function Clock(start: real, times: seq<real>, n: nat): real
    requires n <= |times|
  {
    if n == 0 then start
    else
      var c := Clock(start, times, n - 1);
      if times[n - 1] > c then times[n - 1] else c
  }

  lemma {:induction false} AfterFacts(b: Bucket, credit: Credit, times: seq<real>, n: nat)
    requires Valid(b) && Monotone(credit) && n <= |times|
    ensures
      var a := After(b, credit, times, n);
      Valid(a) && a.capacity == b.capacity && a.last == Clock(b.last, times, n)
  {
    if n > 0 { AfterFacts(b, credit, times, n - 1); }
  }

  /** No burst exceeds the envelope: in any run, the requests of a nonempty window i..n are granted
      at most the capacity plus the credit accrued since the window's first request. */
  lemma {:induction false} WindowBound(b: Bucket, credit: Credit, times: seq<real>, i: nat, n: nat)
    requires Valid(b) && Monotone(credit) && i < n <= |times|
    ensures Grants(b, credit, times, i, n) as real + After(b, credit, times, n).tokens
            <= b.capacity + credit(Clock(b.last, times, n)) - credit(Clock(b.last, times, i + 1))
    ensures Grants(b, credit, times, i, n) as real
            <= b.capacity + credit(Clock(b.last, times, n)) - credit(Clock(b.last, times, i + 1))
    decreases n
  {
    AfterFacts(b, credit, times, n - 1);
    AfterFacts(b, credit, times, n);
    if n > i + 1 {
      WindowBound(b, credit, times, i, n - 1);
    } else {
      assert Grants(b, credit, times, i, i) == 0;
    }
  }

  // ---- Exactness ---------------------------------------------------------------------------

  /** The balance request j finds, after the refill it triggers. */
  function Balance(b: Bucket, credit: Credit, times: seq<real>, j: nat): real
    requires j < |times|
  {
    Refill(After(b, credit, times, j), credit, times[j]).tokens
  }

  /** Credit accrued between the clock readings of requests i and j. */
  function Accrued(b: Bucket, credit: Credit, times: seq<real>, i: nat, j: nat): real
    requires i <= j < |times|
  {
    credit(Clock(b.last, times, j + 1)) - credit(Clock(b.last, times, i + 1))
  }

  /** Requests i..=j fit the envelope. */
  predicate Fits(b: Bucket, credit: Credit, times: seq<real>, i: nat, j: nat)
    requires i <= j < |times|
  {
    (j - i + 1) as real <= b.capacity + Accrued(b, credit, times, i, j)
  }

  ghost predicate AllFit(b: Bucket, credit: Credit, times: seq<real>) {
    forall i, j | 0 <= i <= j < |times| :: Fits(b, credit, times, i, j)
  }

  predicate AllGranted(b: Bucket, credit: Credit, times: seq<real>, n: nat)
    requires n <= |times|
  {
    forall k | 0 <= k < n :: GrantedAt(b, credit, times, k)
  }

  /** While everything is granted, the balance at j is what the envelope has left since the last
      request that found the bucket full. */
  lemma {:induction false} BalanceFromFull(b: Bucket, credit: Credit, times: seq<real>, j: nat) returns (i: nat)
    requires Valid(b) && Monotone(credit) && b.tokens == b.capacity && j < |times| && AllGranted(b, credit, times, j)
    ensures i <= j
    ensures Balance(b, credit, times, j) == b.capacity + Accrued(b, credit, times, i, j) - (j - i) as real
  {
    AfterFacts(b, credit, times, j);
    if j == 0 {
      i := 0;
    } else if Balance(b, credit, times, j) == b.capacity {
      i := j;
    } else {
      i := BalanceFromFull(b, credit, times, j - 1);
      assert GrantedAt(b, credit, times, j - 1);
    }
  }

  lemma {:induction false} FittingIsGranted(b: Bucket, credit: Credit, times: seq<real>, n: nat)
    requires Valid(b) && Monotone(credit) && b.tokens == b.capacity && n <= |times| && AllFit(b, credit, times)
    ensures AllGranted(b, credit, times, n)
  {
    if n > 0 {
      FittingIsGranted(b, credit, times, n - 1);
      var i := BalanceFromFull(b, credit, times, n - 1);
      assert Fits(b, credit, times, i, n - 1);
    }
  }

  lemma {:induction false} GrantsOfAll(b: Bucket, credit: Credit, times: seq<real>, i: nat, n: nat)
    requires i <= n <= |times| && AllGranted(b, credit, times, n)
    ensures Grants(b, credit, times, i, n) == n - i
    decreases n
  {
    if n > i { GrantsOfAll(b, credit, times, i, n - 1); }
  }

  /** The limiter is exact: a full bucket grants every request of a sequence if and only if every
      window of the sequence fits the capacity plus the credit accrued across it. */
  lemma GrantsAllIffFits(b: Bucket, credit: Credit, times: seq<real>)
    requires Valid(b) && Monotone(credit) && b.tokens == b.capacity
    ensures AllGranted(b, credit, times, |times|) <==> AllFit(b, credit, times)
  {
    if AllGranted(b, credit, times, |times|) {
      forall i, j | 0 <= i <= j < |times|
        ensures Fits(b, credit, times, i, j)
      {
        GrantsOfAll(b, credit, times, i, j + 1);
        WindowBound(b, credit, times, i, j + 1);
      }
    } else if AllFit(b, credit, times) {
      FittingIsGranted(b, credit, times, |times|);
    }
  }

  // ---- The constant-rate limiter ---------------------------------------------------------------

  predicate Nondecreasing(times: seq<real>) {
    forall x, y | 0 <= x <= y < |times| :: times[x] <= times[y]
  }

  /** With a clock that never runs backwards, the bucket's clock is the request's own time. */
  lemma {:induction false} MonotoneClock(start: real, times: seq<real>, j: nat)
    requires j < |times| && start <= times[0] && Nondecreasing(times)
    ensures Clock(start, times, j + 1) == times[j]
  {
    if j > 0 { MonotoneClock(start, times, j - 1); }
  }

  /** Over nondecreasing times, at most capacity + rate * (t - s) requests are granted among those
      that arrive within [s, t]. */
  lemma RateBound(b: Bucket, rate: real, times: seq<real>, i: nat, j: nat, s: real, t: real)
    requires Valid(b) && rate >= 1.0 && i <= j < |times| && b.last <= times[0] && Nondecreasing(times)
    requires s <= times[i] && times[j] <= t
    ensures Grants(b, Linear(rate), times, i, j + 1) as real <= b.capacity + (t - s) * rate
  {
    LinearMonotone(rate);
    WindowBound(b, Linear(rate), times, i, j + 1);
    MonotoneClock(b.last, times, i);
    MonotoneClock(b.last, times, j);
    LinearFacts(rate, s, times[i]);
    LinearFacts(rate, times[j], t);
    LinearFacts(rate, s, t);
  }

  /** A new limiter refuses none of a sequence of requests exactly when every window i..=j of it
      has at most capacity + rate * (times[j] - times[i]) requests. */
  lemma RateExact(capacity: nat, rate: real, start: real, times: seq<real>)
    requires rate >= 1.0 && Nondecreasing(times) && (times != [] ==> start <= times[0])
    ensures AllGranted(New(capacity, start), Linear(rate), times, |times|)
            <==> forall i, j | 0 <= i <= j < |times| :: (j - i + 1) as real <= AtLeastOne(capacity) + (times[j] - times[i]) * rate
  {
    var b := New(capacity, start);
    LinearMonotone(rate);
    GrantsAllIffFits(b, Linear(rate), times);
    forall i, j | 0 <= i <= j < |times|
      ensures Fits(b, Linear(rate), times, i, j) <==> (j - i + 1) as real <= AtLeastOne(capacity) + (times[j] - times[i]) * rate
    {
      MonotoneClock(start, times, i);
      MonotoneClock(start, times, j);
      LinearFacts(rate, times[i], times[j]);
    }
  }
}
