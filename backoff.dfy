/** `retryWithBackoff`: up to `retries` attempts of one call, with a sleep of
    `InitialDelay * 2^i` milliseconds after each failed attempt `i` except
    the last. */
module Backoff {
  import opened Types
  import opened Payloads

  function Pow2(i: nat): nat
  {
    if i == 0 then 1 else 2 * Pow2(i - 1)
  }

  /** The sleep after failed attempt `i` (0-based). */
  function Delay(i: nat): nat
  {
    InitialDelay * Pow2(i)
  }

  /** `Math.pow(2, a + b) == Math.pow(2, a) * Math.pow(2, b)`: the factor
      is a power of two in the exponent's sense. */
  lemma {:induction false} Pow2Adds(a: nat, b: nat)
    ensures Pow2(a + b) == Pow2(a) * Pow2(b)
    decreases a
  {
    if a > 0 {
      Pow2Adds(a - 1, b);
      assert Pow2(a + b) == 2 * Pow2(a - 1 + b);
      assert 2 * (Pow2(a - 1) * Pow2(b)) == (2 * Pow2(a - 1)) * Pow2(b);
    }
  }

  /** Each sleep doubles the one before it, and the first lasts
      `InitialDelay`. */
  lemma DelayDoubles(i: nat)
    ensures Delay(0) == InitialDelay
    ensures Delay(i + 1) == 2 * Delay(i)
  {
  }

  /** Thrown after the loop; reached only when `retries <= 0`. */
  const MaxRetriesExceeded := Error("Max retries exceeded")

  /** Attempts `i`, `i + 1`, ... of `request`, the first of them recorded at
      log position `start`. */
  function RetryRun(w: Oracle, start: nat, request: Request, retries: int, i: nat): Run<Response>
    decreases retries - i
  {
    if i >= retries then Run(Err(MaxRetriesExceeded), [])
    else
      var reply := w.replies(start);
      if reply.Ok? || i >= retries - 1 then Run(reply, [Call(request)])
      else
        var rest := RetryRun(w, start + 2, request, retries, i + 1);
        Run(rest.result, [Call(request), Sleep(Delay(i))] + rest.effects)
  }

  /** Attempt `i`, made when the log is `before` and recorded in `after`,
      with reply `reply`, where the whole run appends `total` to `origin`
      and the attempts from `i` on append `rest`: a success or the last
      allowed attempt ends the run with its reply. */
  lemma RetryAttemptEnds(w: Oracle, request: Request, retries: int, i: nat,
                         origin: seq<Effect>, before: seq<Effect>, after: seq<Effect>, reply: Reply,
                         total: Run<Response>, rest: Run<Response>)
    requires i < retries
    requires rest == RetryRun(w, |before|, request, retries, i)
    requires reply == w.replies(|before|) && after == before + [Call(request)]
    requires reply.Ok? || i >= retries - 1
    requires total.result == rest.result && origin + total.effects == before + rest.effects
    ensures total.result == reply && after == origin + total.effects
  {
  }

  /** A failed attempt `i` before the last, recorded in `mid` and
      followed by the sleep recorded in `after`, leaves the run to the
      attempts from `i + 1` on, `next`. */
  lemma RetryAttemptFails(w: Oracle, request: Request, retries: int, i: nat,
                          origin: seq<Effect>, before: seq<Effect>, mid: seq<Effect>, after: seq<Effect>,
                          reply: Reply, total: Run<Response>, rest: Run<Response>, next: Run<Response>)
    requires i < retries - 1
    requires rest == RetryRun(w, |before|, request, retries, i)
    requires reply == w.replies(|before|) && reply.Err?
    requires mid == before + [Call(request)] && after == mid + [Sleep(Delay(i))]
    requires next == RetryRun(w, |after|, request, retries, i + 1)
    requires total.result == rest.result && origin + total.effects == before + rest.effects
    ensures total.result == next.result && origin + total.effects == after + next.effects
  {
    assert |after| == |before| + 2;
    assert rest.effects == [Call(request), Sleep(Delay(i))] + next.effects;
    assert after == before + [Call(request), Sleep(Delay(i))];
    AppendTwice(before, [Call(request), Sleep(Delay(i))], next.effects);
  }

  /** Once every allowed attempt is made, the run from there on throws the
      loop's fallback error without a call. */
  lemma RetryPastEnd(w: Oracle, request: Request, retries: int, i: nat,
                     origin: seq<Effect>, now: seq<Effect>, total: Run<Response>, rest: Run<Response>)
    requires i >= retries
    requires rest == RetryRun(w, |now|, request, retries, i)
    requires total.result == rest.result && origin + total.effects == now + rest.effects
    ensures total.result == Err(MaxRetriesExceeded) && now == origin + total.effects
  {
    assert now + rest.effects == now;
  }

  /** The whole run from attempt `i` on: the log alternates attempts and
      sleeps, starting and ending with an attempt; there are at most
      `retries - i` attempts; every attempt but the last failed; the outcome
      is the last attempt's reply, unchanged; and the run stops early only
      on a success. */
  lemma {:induction false} RetryShape(w: Oracle, start: nat, request: Request, retries: int, i: nat)
    requires i < retries
    ensures var r := RetryRun(w, start, request, retries, i);
      && |r.effects| % 2 == 1
      && i + (|r.effects| + 1) / 2 <= retries
      && (forall k :: 0 <= k < |r.effects| ==>
            r.effects[k] == if k % 2 == 0 then Call(request) else Sleep(Delay(i + k / 2)))
      && (forall p :: start <= p < start + |r.effects| - 1 && (p - start) % 2 == 0 ==> w.replies(p).Err?)
      && r.result == w.replies(start + |r.effects| - 1)
      && (i + (|r.effects| + 1) / 2 < retries ==> r.result.Ok?)
    decreases retries - i
  {
    var r := RetryRun(w, start, request, retries, i);
    var reply := w.replies(start);
    if reply.Ok? || i >= retries - 1 {
      assert r == Run(reply, [Call(request)]);
    } else {
      var rest := RetryRun(w, start + 2, request, retries, i + 1);
      RetryShape(w, start + 2, request, retries, i + 1);
      assert r.effects == [Call(request), Sleep(Delay(i))] + rest.effects;
      forall k | 0 <= k < |r.effects|
        ensures r.effects[k] == if k % 2 == 0 then Call(request) else Sleep(Delay(i + k / 2))
      {
        if k >= 2 {
          assert r.effects[k] == rest.effects[k - 2];
          assert (k - 2) % 2 == k % 2 && i + 1 + (k - 2) / 2 == i + k / 2;
        }
      }
    }
  }

  /** With no attempts allowed the call is never made and the loop's
      fallback error is thrown. */
  lemma RetryZeroAttempts(w: Oracle, start: nat, request: Request, retries: int, r: Run<Response>)
    requires retries <= 0
    requires r == RetryRun(w, start, request, retries, 0)
    ensures r.result == Err(MaxRetriesExceeded) && r.effects == []
  {
  }

  /** Every entry of a retry run is the retried call or a sleep; the run
      makes at least one attempt unless no attempt is allowed. */
  lemma RetryOnlyCalls(w: Oracle, start: nat, request: Request, retries: int, r: Run<Response>)
    requires r == RetryRun(w, start, request, retries, 0)
    ensures forall e :: e in r.effects ==> e.Sleep? || e == Call(request)
    ensures retries > 0 <==> Call(request) in r.effects
  {
    if retries > 0 {
      RetryShape(w, start, request, retries, 0);
      forall e | e in r.effects
        ensures e.Sleep? || e == Call(request)
      {
        var k :| 0 <= k < |r.effects| && r.effects[k] == e;
      }
      assert r.effects[0] == Call(request);
    }
  }

  /** The first attempt is made at once, before any sleep. */
  lemma RetryStartsWithAttempt(w: Oracle, start: nat, request: Request, retries: int, r: Run<Response>)
    requires retries > 0
    requires r == RetryRun(w, start, request, retries, 0)
    ensures |r.effects| > 0 && r.effects[0] == Call(request)
  {
    RetryShape(w, start, request, retries, 0);
  }

  /** A run with at least one attempt allowed ends with an attempt, and its
      outcome is that attempt's reply. */
  lemma RetryEndsWithAttempt(w: Oracle, start: nat, request: Request, retries: int, r: Run<Response>)
    requires retries > 0
    requires r == RetryRun(w, start, request, retries, 0)
    ensures |r.effects| > 0
    ensures r.effects[|r.effects| - 1] == Call(request)
    ensures r.result == w.replies(start + |r.effects| - 1)
  {
    RetryShape(w, start, request, retries, 0);
  }

  /** If attempt `j < retries` is the first that succeeds, the wrapper
      returns its response after exactly `j + 1` attempts and `j` sleeps,
      and attempts nothing after it. */
  lemma RetryReturnsFirstSuccess(w: Oracle, start: nat, request: Request, retries: int, j: nat, r: Run<Response>)
    requires j < retries
    requires w.replies(start + 2 * j).Ok?
    requires forall p :: start <= p < start + 2 * j && (p - start) % 2 == 0 ==> w.replies(p).Err?
    requires r == RetryRun(w, start, request, retries, 0)
    ensures r.result == w.replies(start + 2 * j) && |r.effects| == 2 * j + 1
  {
    RetryShape(w, start, request, retries, 0);
    var last := |r.effects| - 1;
    var pLast: nat, pj: nat := start + last, start + 2 * j;
    // an earlier last attempt would have failed, a later one would have
    // followed a failed attempt j
    assert last < 2 * j ==> w.replies(pLast).Err?;
    assert last > 2 * j ==> w.replies(pj).Err?;
  }

  /** If every allowed attempt fails, the wrapper makes exactly `retries`
      attempts separated by `retries - 1` sleeps and rethrows the final
      attempt's error unchanged. */
  lemma RetryExhausted(w: Oracle, start: nat, request: Request, retries: int, r: Run<Response>)
    requires retries > 0
    requires forall p :: start <= p < start + 2 * retries && (p - start) % 2 == 0 ==> w.replies(p).Err?
    requires r == RetryRun(w, start, request, retries, 0)
    ensures |r.effects| == 2 * retries - 1
    ensures r.result == w.replies(start + 2 * (retries - 1)) && r.result.Err?
  {
    RetryShape(w, start, request, retries, 0);
    var last := |r.effects| - 1;
    assert w.replies(start + last).Err?;
  }
}
