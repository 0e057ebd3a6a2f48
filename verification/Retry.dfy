/** publishBatchWithRetry: what a publish with retries leaves in the sink, and how long it waits. */
module Retry {
  import opened Common

  const INT64_RANGE := 0x1_0000_0000_0000_0000
  const HALF_RANGE := 0x8000_0000_0000_0000
  const QUARTER_RANGE := 0x4000_0000_0000_0000

  /** The destination: `log` holds the payloads it acknowledged.  Whether a call fails is the caller's script. */
  class Sink {
    const batching: bool
    var log: seq<seq<byte>>

    constructor (batching: bool)
      ensures this.batching == batching && log == []
    {
      this.batching := batching;
      log := [];
    }

    method Publish(payload: seq<byte>, fails: bool) returns (err: Err)
      modifies this
      ensures err == if fails then PublishErr else Nil
      ensures log == if fails then old(log) else old(log) + [payload]
    {
      if fails {
        return PublishErr;
      }
      log := log + [payload];
      err := Nil;
    }

    method PublishBatch(payloads: seq<seq<byte>>, fails: bool) returns (err: Err)
      modifies this
      ensures err == if fails then PublishErr else Nil
      ensures log == if fails then old(log) else old(log) + payloads
    {
      if fails {
        return PublishErr;
      }
      log := log + payloads;
      err := Nil;
    }
  }

  /**
   What the environment does to one attempt: the sink call number `failAt` fails, if the attempt makes that
   many, and `cancelled` tells whether the context ends during the wait that follows a failure.
   */
  datatype Attempt = Attempt(failAt: nat, cancelled: bool)

  /** How a publish ends; `Unfinished` is a run cut off while it is still retrying. */
  datatype Result = Published | GaveUp | Cancelled | Unfinished

  predicate Succeeds(batching: bool, payloads: seq<seq<byte>>, a: Attempt) {
    payloads == [] || if batching then a.failAt > 0 else a.failAt >= |payloads|
  }

  /** What one attempt leaves in the sink. */
  function Delivered(batching: bool, payloads: seq<seq<byte>>, a: Attempt): seq<seq<byte>> {
    if Succeeds(batching, payloads, a) then payloads
    else if batching then []
    else payloads[..a.failAt]
  }

  /** What a sequence of attempts leaves in the sink. */
  function DeliveredBy(batching: bool, payloads: seq<seq<byte>>, script: seq<Attempt>): seq<seq<byte>> {
    if script == [] then []
    else
      DeliveredBy(batching, payloads, script[..|script| - 1])
      + Delivered(batching, payloads, script[|script| - 1])
  }

  /** Go's int64 arithmetic: the value modulo 2^64 between -2^63 and 2^63 - 1. */
  function Wrap64(x: int): int {
    (x + HALF_RANGE) % INT64_RANGE - HALF_RANGE
  }

  predicate IsInt64(x: int) {
    -HALF_RANGE <= x < HALF_RANGE
  }

  /** The wait before retry `k`, counted from 0, as the loop computes it. */
  function Backoff(initial: int, max: int, k: nat): int {
    if k == 0 then initial
    else
      var previous := Backoff(initial, max, k - 1);
      if previous < max then
        var doubled := Wrap64(previous * 2);
        if doubled > max then max else doubled
      else previous
  }

  lemma BackoffNext(initial: int, max: int, k: nat)
    ensures Backoff(initial, max, 0) == initial
    ensures var b := Backoff(initial, max, k);
            Backoff(initial, max, k + 1) ==
            if b < max then (if Wrap64(b * 2) > max then max else Wrap64(b * 2)) else b
  {
    hide Wrap64;
  }

  method PublishToSink(s: Sink, payloads: seq<seq<byte>>, a: Attempt) returns (err: Err)
    modifies s
    ensures err == if Succeeds(s.batching, payloads, a) then Nil else PublishErr
    ensures s.log == old(s.log) + Delivered(s.batching, payloads, a)
  {
    if |payloads| == 0 {
      return Nil;
    }
    if s.batching {
      err := s.PublishBatch(payloads, a.failAt == 0);
      return;
    }
    for i := 0 to |payloads|
      invariant i <= a.failAt
      invariant s.log == old(s.log) + payloads[..i]
    {
      err := s.Publish(payloads[i], i == a.failAt);
      if err != Nil {
        return;
      }
    }
    err := Nil;
  }

  lemma DeliveredNone(batching: bool, payloads: seq<seq<byte>>)
    ensures DeliveredBy(batching, payloads, []) == []
  {
  }

  /** One attempt more, appended to a log. */
  lemma DeliveredNext(batching: bool, payloads: seq<seq<byte>>, script: seq<Attempt>, k: nat, log: seq<seq<byte>>)
    requires k < |script|
    ensures log + DeliveredBy(batching, payloads, script[..k]) + Delivered(batching, payloads, script[k])
            == log + DeliveredBy(batching, payloads, script[..k + 1])
  {
    hide Delivered;
    assert script[..k + 1][..k] == script[..k];
  }

  /**
   How a publish ends, and after how many attempts: all but the last one failed, and the wait after each was sat
   out; nil exactly when the last one succeeded; at most max_attempts, when that is positive.
   */
  predicate EndsAs(batching: bool, payloads: seq<seq<byte>>, maxAttempts: nat, script: seq<Attempt>, result: Result,
                   attempts: nat)
  {
    && attempts <= |script| && (maxAttempts > 0 ==> attempts <= maxAttempts)
    && (forall k :: 0 <= k < attempts - 1 ==> !Succeeds(batching, payloads, script[k]) && !script[k].cancelled)
    && (result == Published <==> attempts > 0 && Succeeds(batching, payloads, script[attempts - 1]))
    && (result == GaveUp <==> 0 < attempts == maxAttempts && !Succeeds(batching, payloads, script[attempts - 1]))
    && (result == Cancelled ==> attempts > 0 && script[attempts - 1].cancelled)
    && (result == Unfinished ==> attempts == |script| && (attempts > 0 ==> !script[attempts - 1].cancelled))
  }

  lemma EndsInside(batching: bool, payloads: seq<seq<byte>>, maxAttempts: nat, script: seq<Attempt>, result: Result,
                   attempts: nat)
    requires EndsAs(batching, payloads, maxAttempts, script, result, attempts)
    ensures attempts <= |script|
  {
  }

  /** The script alone decides how a publish ends. */
  lemma EndsOneWay(batching: bool, payloads: seq<seq<byte>>, maxAttempts: nat, script: seq<Attempt>,
                   r: Result, a: nat, r': Result, a': nat)
    requires EndsAs(batching, payloads, maxAttempts, script, r, a)
    requires EndsAs(batching, payloads, maxAttempts, script, r', a')
    ensures r == r' && a == a'
  {
    hide Succeeds;
    if a < a' {
      LateEnd(batching, payloads, maxAttempts, script, r, a, r', a');
    } else if a' < a {
      LateEnd(batching, payloads, maxAttempts, script, r', a', r, a);
    }
  }

  lemma LateEnd(batching: bool, payloads: seq<seq<byte>>, maxAttempts: nat, script: seq<Attempt>,
                r: Result, a: nat, r': Result, a': nat)
    requires EndsAs(batching, payloads, maxAttempts, script, r, a)
    requires EndsAs(batching, payloads, maxAttempts, script, r', a')
    ensures a >= a'
  {
    hide Succeeds;
  }

  /** Some attempt within max_attempts succeeds, and no wait before it is cancelled. */
  predicate PublishesBy(batching: bool, payloads: seq<seq<byte>>, maxAttempts: nat, script: seq<Attempt>) {
    exists k :: 0 <= k < |script| && (maxAttempts > 0 ==> k < maxAttempts)
      && Succeeds(batching, payloads, script[k]) && forall j :: 0 <= j < k ==> !script[j].cancelled
  }

  lemma PublishedExactly(batching: bool, payloads: seq<seq<byte>>, maxAttempts: nat, script: seq<Attempt>,
                         result: Result, attempts: nat)
    requires EndsAs(batching, payloads, maxAttempts, script, result, attempts)
    ensures result == Published <==> PublishesBy(batching, payloads, maxAttempts, script)
  {
    hide Succeeds;
    if result == Published {
      assert Succeeds(batching, payloads, script[attempts - 1]);
    } else {
      forall k | 0 <= k < |script| && (maxAttempts > 0 ==> k < maxAttempts) && Succeeds(batching, payloads, script[k])
        ensures exists j :: 0 <= j < k && script[j].cancelled
      {
        assert k >= attempts && (result == Cancelled ==> script[attempts - 1].cancelled);
      }
    }
  }

  /** The same for a single payload, whatever the sink and the payload are. */
  predicate OneReaches(maxAttempts: nat, script: seq<Attempt>) {
    exists k :: 0 <= k < |script| && (maxAttempts > 0 ==> k < maxAttempts)
      && script[k].failAt > 0 && forall j :: 0 <= j < k ==> !script[j].cancelled
  }

  lemma OneReachesExactly(batching: bool, payload: seq<byte>, maxAttempts: nat, script: seq<Attempt>, result: Result,
                          attempts: nat)
    requires EndsAs(batching, [payload], maxAttempts, script, result, attempts)
    ensures result == Published <==> OneReaches(maxAttempts, script)
  {
    PublishedExactly(batching, [payload], maxAttempts, script, result, attempts);
    assert forall a :: Succeeds(batching, [payload], a) <==> a.failAt > 0;
    hide EndsAs, Succeeds;
    if OneReaches(maxAttempts, script) {
      var k :| 0 <= k < |script| && (maxAttempts > 0 ==> k < maxAttempts)
        && script[k].failAt > 0 && forall j :: 0 <= j < k ==> !script[j].cancelled;
      assert Succeeds(batching, [payload], script[k]);
    }
  }

  /** Attempts to publish one payload deliver nothing else. */
  lemma {:induction false} DeliversOnly(batching: bool, payload: seq<byte>, script: seq<Attempt>)
    ensures forall i :: 0 <= i < |DeliveredBy(batching, [payload], script)| ==>
              DeliveredBy(batching, [payload], script)[i] == payload
  {
    if script != [] {
      DeliversOnly(batching, payload, script[..|script| - 1]);
    }
  }

  /**
   The retry loop.  `script` holds what the environment does to each attempt; `attempts` and `waits` report how
   many attempts were made and how long the loop waited after each failed one.
   */
  method PublishBatchWithRetry(s: Sink, payloads: seq<seq<byte>>, initial: int, max: int, maxAttempts: nat,
                               script: seq<Attempt>)
    returns (result: Result, attempts: nat, waits: seq<int>)
    modifies s
    ensures EndsAs(s.batching, payloads, maxAttempts, script, result, attempts)
    ensures s.log == old(s.log) + DeliveredBy(s.batching, payloads, script[..attempts])
    ensures |waits| == if result == Published || result == GaveUp then attempts - 1 else attempts
    ensures forall k :: 0 <= k < |waits| ==> waits[k] == Backoff(initial, max, k)
  {
    hide Wrap64, Succeeds, Delivered, DeliveredBy, Backoff;
    BackoffNext(initial, max, 0);
    DeliveredNone(s.batching, payloads);
    var backoff := initial;
    attempts, waits := 0, [];
    while attempts < |script|
      invariant attempts == |waits| <= |script|
      invariant s.log == old(s.log) + DeliveredBy(s.batching, payloads, script[..attempts])
      invariant forall k :: 0 <= k < attempts ==> !Succeeds(s.batching, payloads, script[k]) && !script[k].cancelled
      invariant maxAttempts > 0 ==> attempts < maxAttempts
      invariant backoff == Backoff(initial, max, attempts)
      invariant forall k :: 0 <= k < |waits| ==> waits[k] == Backoff(initial, max, k)
    {
      var a := script[attempts];
      var err := PublishToSink(s, payloads, a);
      DeliveredNext(s.batching, payloads, script, attempts, old(s.log));
      attempts := attempts + 1;
      if err == Nil {
        return Published, attempts, waits;
      }
      if maxAttempts > 0 && attempts >= maxAttempts {
        return GaveUp, attempts, waits;
      }
      waits := waits + [backoff];
      BackoffNext(initial, max, attempts - 1);
      if a.cancelled {
        return Cancelled, attempts, waits;
      }
      if backoff < max {
        backoff := Wrap64(backoff * 2);
        if backoff > max {
          backoff := max;
        }
      }
    }
    result := Unfinished;
  }

  // ---- Duplicates -----------------------------------------------------------------------------------------

  /** `a` attempts of which only the last succeeded. */
  ghost predicate LastSucceeds(batching: bool, payloads: seq<seq<byte>>, script: seq<Attempt>) {
    && |script| > 0
    && Succeeds(batching, payloads, script[|script| - 1])
    && forall k :: 0 <= k < |script| - 1 ==> !Succeeds(batching, payloads, script[k])
  }

  predicate ProperPrefix(a: seq<seq<byte>>, b: seq<seq<byte>>) {
    a < b
  }

  /** What each attempt on a sequential sink leaves there. */
  function Deliveries(payloads: seq<seq<byte>>, script: seq<Attempt>): seq<seq<seq<byte>>> {
    if script == [] then []
    else Deliveries(payloads, script[..|script| - 1]) + [Delivered(false, payloads, script[|script| - 1])]
  }

  /** Failed attempts on a sequential sink leave one proper prefix of the batch each. */
  lemma {:induction false} FailedAttemptsLeavePrefixes(payloads: seq<seq<byte>>, script: seq<Attempt>)
    requires forall k :: 0 <= k < |script| ==> !Succeeds(false, payloads, script[k])
    ensures var d := Deliveries(payloads, script);
            && |d| == |script| && (forall k :: 0 <= k < |d| ==> ProperPrefix(d[k], payloads))
            && DeliveredBy(false, payloads, script) == Flatten(d)
  {
    if script != [] {
      FailedAttemptsLeavePrefixes(payloads, script[..|script| - 1]);
      FlattenAppend(Deliveries(payloads, script[..|script| - 1]), payloads[..script[|script| - 1].failAt]);
    }
  }

  /** At-least-once on a sequential sink: a - 1 proper prefixes of the batch, then the whole batch. */
  lemma DuplicationLaw(payloads: seq<seq<byte>>, script: seq<Attempt>)
    requires LastSucceeds(false, payloads, script)
    ensures var cutShort := Deliveries(payloads, script[..|script| - 1]);
            && |cutShort| == |script| - 1
            && (forall k :: 0 <= k < |cutShort| ==> ProperPrefix(cutShort[k], payloads))
            && DeliveredBy(false, payloads, script) == Flatten(cutShort) + payloads
  {
    FailedAttemptsLeavePrefixes(payloads, script[..|script| - 1]);
  }

  /** Exactly once on a batch sink. */
  lemma {:induction false} BatchSinkOnce(payloads: seq<seq<byte>>, script: seq<Attempt>)
    requires forall k :: 0 <= k < |script| - 1 ==> !Succeeds(true, payloads, script[k])
    ensures DeliveredBy(true, payloads, script) ==
            if script != [] && Succeeds(true, payloads, script[|script| - 1]) then payloads else []
  {
    if script != [] {
      BatchSinkOnce(payloads, script[..|script| - 1]);
    }
  }

  // ---- Backoff --------------------------------------------------------------------------------------------

  function Pow2(k: nat): nat {
    if k == 0 then 1 else 2 * Pow2(k - 1)
  }

  function Min(a: int, b: int): int {
    if a < b then a else b
  }

  /** The exponential schedule with a cap, computed without overflow. */
  function Capped(initial: int, max: int, k: nat): int {
    Min(initial * Pow2(k), max)
  }

  /** Every doubling the loop makes below the cap stays within an int64. */
  ghost predicate DoublingFits(initial: int, max: int) {
    0 <= initial && forall k: nat :: initial * Pow2(k) < max ==> initial * Pow2(k) < QUARTER_RANGE
  }

  lemma Wrap64Fits(x: int)
    ensures IsInt64(Wrap64(x)) && (IsInt64(x) ==> Wrap64(x) == x)
    ensures HALF_RANGE <= x < INT64_RANGE ==> Wrap64(x) < 0
  {
    if HALF_RANGE <= x < INT64_RANGE {
      assert (x + HALF_RANGE) % INT64_RANGE == x + HALF_RANGE - INT64_RANGE;
    }
  }

  lemma Pow2Doubles(initial: int, k: nat)
    ensures initial * Pow2(k + 1) == 2 * (initial * Pow2(k))
  {
  }

  lemma {:induction false} BackoffIsInt64(initial: int, max: int, k: nat)
    requires IsInt64(initial) && IsInt64(max)
    ensures IsInt64(Backoff(initial, max, k))
  {
    if k > 0 {
      BackoffIsInt64(initial, max, k - 1);
      Wrap64Fits(Backoff(initial, max, k - 1) * 2);
    }
  }

  lemma {:induction false} BackoffIsCapped(initial: int, max: int, k: nat)
    requires initial <= max && IsInt64(max) && DoublingFits(initial, max)
    ensures Backoff(initial, max, k) == Capped(initial, max, k)
  {
    if k > 0 {
      BackoffIsCapped(initial, max, k - 1);
      Pow2Doubles(initial, k - 1);
      BackoffNext(initial, max, k - 1);
      var x := initial * Pow2(k - 1);
      assert x < max ==> x < QUARTER_RANGE;
      Wrap64Fits(x * 2);
      hide Backoff, Wrap64, Pow2;
    }
  }

  /** The waits follow the capped exponential schedule exactly when no doubling below the cap overflows. */
  lemma BackoffClosedForm(initial: int, max: int)
    requires IsInt64(initial) && IsInt64(max) && initial <= max
    ensures (forall k: nat :: Backoff(initial, max, k) == Capped(initial, max, k)) <==> DoublingFits(initial, max)
  {
    if DoublingFits(initial, max) {
      forall k: nat ensures Backoff(initial, max, k) == Capped(initial, max, k) {
        BackoffIsCapped(initial, max, k);
      }
    } else {
      var k := OverflowAt(initial, max);
      assert Backoff(initial, max, k) != Capped(initial, max, k);
    }
  }

  lemma OverflowAt(initial: int, max: int) returns (k: nat)
    requires IsInt64(initial) && IsInt64(max) && initial <= max && !DoublingFits(initial, max)
    ensures Backoff(initial, max, k) != Capped(initial, max, k)
  {
    if initial < 0 {
      k := 64;
      Pow2Of64();
      BackoffIsInt64(initial, max, 64);
      assert initial * Pow2(64) <= -INT64_RANGE;
    } else {
      var j: nat :| QUARTER_RANGE <= initial * Pow2(j) < max;
      k := j;
      if Backoff(initial, max, j) == Capped(initial, max, j) {
        k := j + 1;
        Pow2Doubles(initial, j);
        Wrap64Fits(initial * Pow2(j) * 2);
      }
    }
  }

  lemma {:induction false} Pow2Sum(a: nat, b: nat)
    ensures Pow2(a + b) == Pow2(a) * Pow2(b)
  {
    if b > 0 {
      Pow2Sum(a, b - 1);
      Pow2Doubles(Pow2(a), b - 1);
    }
  }

  lemma Pow2Of64()
    ensures Pow2(64) == INT64_RANGE
  {
    Pow2Sum(1, 1);
    Pow2Sum(2, 2);
    Pow2Sum(4, 4);
    Pow2Sum(8, 8);
    Pow2Sum(16, 16);
    Pow2Sum(32, 32);
  }

  /** A cap of at most 2^62 ns, about 146 years, is enough. */
  lemma ModestCapFits(initial: int, max: int, k: nat)
    requires 0 <= initial <= max <= QUARTER_RANGE
    ensures Backoff(initial, max, k) == Capped(initial, max, k)
    ensures initial <= Backoff(initial, max, k) <= Backoff(initial, max, k + 1) <= max
  {
    BackoffIsCapped(initial, max, k);
    BackoffIsCapped(initial, max, k + 1);
    Pow2Doubles(initial, k);
    assert initial * Pow2(k) >= initial by { Pow2Positive(k); MulAtLeast(initial, Pow2(k)); }
  }

  lemma Pow2Positive(k: nat)
    ensures Pow2(k) >= 1
  {
  }

  lemma MulAtLeast(a: int, b: int)
    requires a >= 0 && b >= 1
    ensures a * b >= a
  {
  }

  function Sum(waits: seq<int>): int {
    if waits == [] then 0 else Sum(waits[..|waits| - 1]) + waits[|waits| - 1]
  }

  /** The total time waited between a attempts is at most (a - 1) * max. */
  lemma {:induction false} TotalWaitBound(initial: int, max: int, waits: seq<int>)
    requires 0 <= initial <= max <= QUARTER_RANGE
    requires forall k :: 0 <= k < |waits| ==> waits[k] == Backoff(initial, max, k)
    ensures 0 <= Sum(waits) <= |waits| * max
  {
    if waits != [] {
      TotalWaitBound(initial, max, waits[..|waits| - 1]);
      ModestCapFits(initial, max, |waits| - 1);
      assert |waits| * max == (|waits| - 1) * max + max;
    }
  }
}
