// `withRetry` of the synthesis service: call `fn`; when it rejects with a
// rate-limit error and retries remain, notify `onRetry`, wait `delay`
// milliseconds and try again with one retry fewer and twice the delay;
// otherwise resolve or rethrow what `fn` gave. The calls of `fn` are an
// oracle indexed by the call number, the timer becomes the recorded list of
// waits, and `onRetry` becomes the recorded list of attempt numbers.

module Retry {
  import opened Types

  /** What one call of `fn` settles to; a rejection's error may lack a `message`. */
  datatype Attempt<+T> = Resolved(value: T) | Rejected(message: Option<string>)

  /** A whole `withRetry` run: its outcome and what happened on the way. */
  datatype Run<+T> = Run(
    result: Attempt<T>,   // what the returned promise settles to
    calls: nat,           // how many times `fn` was called
    notices: seq<int>,    // the `attempt` argument of each `onRetry` call, in order
    waits: seq<int>)      // the delay of each timer, in order

  /** `sub` occurs in `s` at index `i`. */
  predicate OccursAt(s: string, sub: string, i: int) {
    0 <= i && i + |sub| <= |s| && s[i..i + |sub|] == sub
  }

  lemma OccursAtEnd(s: string, sub: string)
    ensures OccursAt(s + sub, sub, |s|)
  {
    assert (s + sub)[|s|..|s| + |sub|] == sub;
  }

  /** An occurrence stays where it is when text is appended. */
  lemma OccursExtend(s: string, sub: string, i: int, rest: string)
    requires OccursAt(s, sub, i)
    ensures OccursAt(s + rest, sub, i)
  {
    assert (s + rest)[i..i + |sub|] == s[i..i + |sub|];
  }

  /** An occurrence moves right by the length of prepended text. */
  lemma OccursShift(front: string, s: string, sub: string, i: int)
    requires OccursAt(s, sub, i)
    ensures OccursAt(front + s, sub, |front| + i)
  {
    assert (front + s)[|front| + i..|front| + i + |sub|] == s[i..i + |sub|];
  }

  /** `s.includes(sub)`, scanning from the left. */
  function Includes(s: string, sub: string): bool
    decreases |s|
  {
    if |sub| > |s| then false
    else if s[..|sub|] == sub then true
    else Includes(s[1..], sub)
  }

  /** `includes` finds `sub` exactly when it occurs somewhere in `s`. */
  lemma {:induction false} IncludesOccurs(s: string, sub: string)
    ensures Includes(s, sub) <==> exists i :: OccursAt(s, sub, i)
    decreases |s|
  {
    if |sub| > |s| {
    } else if s[..|sub|] == sub {
      assert OccursAt(s, sub, 0);
    } else {
      IncludesOccurs(s[1..], sub);
      if exists i :: OccursAt(s, sub, i) {
        var i :| OccursAt(s, sub, i);
        assert i != 0;
        assert s[1..][i - 1..i - 1 + |sub|] == s[i..i + |sub|];
        assert OccursAt(s[1..], sub, i - 1);
      }
      if exists i :: OccursAt(s[1..], sub, i) {
        var i :| OccursAt(s[1..], sub, i);
        assert s[1..][i..i + |sub|] == s[i + 1..i + 1 + |sub|];
        assert OccursAt(s, sub, i + 1);
      }
    }
  }

  /** A string none of whose characters starts `sub` does not include it. */
  lemma NotIncludes(s: string, sub: string)
    requires |sub| > 0 && sub[0] !in s
    ensures !Includes(s, sub)
  {
    IncludesOccurs(s, sub);
  }

  /** Text placed between a prefix and a suffix occurs right after the prefix. */
  lemma Embed(front: string, sub: string, back: string)
    ensures OccursAt(front + sub + back, sub, |front|)
  {
    assert (front + sub + back)[|front|..|front| + |sub|] == sub;
  }

  /** `error.message?.includes("429") || error.message?.includes("RESOURCE_EXHAUSTED")`. */
  predicate IsRateLimited(message: Option<string>) {
    message.Some? && (Includes(message.value, "429") || Includes(message.value, "RESOURCE_EXHAUSTED"))
  }

  /** A rejection that `withRetry` would retry while retries remain. */
  predicate Retryable<T>(a: Attempt<T>) {
    a.Rejected? && IsRateLimited(a.message)
  }

  function Pow2(k: nat): (p: nat)
    ensures p >= 1
  {
    if k == 0 then 1 else 2 * Pow2(k - 1)
  }

  /** How many retries a budget of `retries` allows. */
  function Budget(retries: int): nat {
    if retries > 0 then retries else 0
  }

  /**
   * The recursion of `withRetry` from call number `call` on, with `retries`
   * and `delay` as in that recursive call and `attempt` the number its
   * `onRetry` notice would carry.
   */
  function Retrying<T>(fn: nat -> Attempt<T>, call: nat, retries: int, delay: int, attempt: int): (r: Run<T>)
    ensures 1 <= r.calls <= Budget(retries) + 1
    ensures |r.notices| == |r.waits| == r.calls - 1
    decreases Budget(retries)
  {
    var a := fn(call);
    if a.Rejected? && retries > 0 && IsRateLimited(a.message) then
      var rest := Retrying(fn, call + 1, retries - 1, delay * 2, attempt + 1);
      Run(rest.result, rest.calls + 1, [attempt] + rest.notices, [delay] + rest.waits)
    else
      Run(a, 1, [], [])
  }

  /**
   * `withRetry(fn, retries, delay, onRetry)` as written: a retry made with
   * `retries` left is announced as attempt `6 - retries`.
   */
  function WithRetry<T>(fn: nat -> Attempt<T>, retries: int, delay: int): Run<T> {
    Retrying(fn, 0, retries, delay, 6 - retries)
  }

  /** The same policy with the retries announced as attempts 1, 2, 3, ... */
  function WithRetryCorrected<T>(fn: nat -> Attempt<T>, retries: int, delay: int): Run<T> {
    Retrying(fn, 0, retries, delay, 1)
  }

  /** The attempt number only labels the notices: the calls, waits and outcome do not depend on it. */
  lemma {:induction false} RetryingIgnoresLabels<T>(fn: nat -> Attempt<T>, call: nat, retries: int, delay: int, a1: int, a2: int)
    ensures var r1, r2 := Retrying(fn, call, retries, delay, a1), Retrying(fn, call, retries, delay, a2);
      r1.result == r2.result && r1.calls == r2.calls && r1.waits == r2.waits
    decreases Budget(retries)
  {
    var a := fn(call);
    if a.Rejected? && retries > 0 && IsRateLimited(a.message) {
      RetryingIgnoresLabels(fn, call + 1, retries - 1, delay * 2, a1 + 1, a2 + 1);
    }
  }

  /** When the first call resolves, that value is returned and nothing is retried or awaited. */
  lemma FirstCallResolves<T>(fn: nat -> Attempt<T>, call: nat, retries: int, delay: int, attempt: int)
    requires fn(call).Resolved?
    ensures Retrying(fn, call, retries, delay, attempt) == Run(fn(call), 1, [], [])
  {
  }

  /** An error that is not rate-limited is rethrown at once: one call, no notice, no wait. */
  lemma NotRateLimitedRethrown<T>(fn: nat -> Attempt<T>, call: nat, retries: int, delay: int, attempt: int)
    requires fn(call).Rejected? && !IsRateLimited(fn(call).message)
    ensures Retrying(fn, call, retries, delay, attempt) == Run(fn(call), 1, [], [])
  {
  }

  /** The outcome is that of the last call. */
  lemma {:induction false} RetryingLast<T>(fn: nat -> Attempt<T>, call: nat, retries: int, delay: int, attempt: int)
    ensures var r := Retrying(fn, call, retries, delay, attempt);
      r.result == fn(call + r.calls - 1)
    decreases Budget(retries)
  {
    var a := fn(call);
    if a.Rejected? && retries > 0 && IsRateLimited(a.message) {
      RetryingLast(fn, call + 1, retries - 1, delay * 2, attempt + 1);
    }
  }

  /**
   * Every call before the last was a rate-limited rejection, and the run
   * stops before its budget is spent only on a call that resolves or that
   * is not retryable.
   */
  lemma {:induction false} RetryingOutcome<T>(fn: nat -> Attempt<T>, call: nat, retries: int, delay: int, attempt: int)
    ensures var r := Retrying(fn, call, retries, delay, attempt);
      && r.result == fn(call + r.calls - 1)
      && (forall j :: call <= j < call + r.calls - 1 ==> Retryable(fn(j)))
      && (r.calls <= Budget(retries) ==> !Retryable(r.result))
    decreases Budget(retries)
  {
    var a := fn(call);
    if a.Rejected? && retries > 0 && IsRateLimited(a.message) {
      RetryingOutcome(fn, call + 1, retries - 1, delay * 2, attempt + 1);
    }
  }

  /**
   * A call that keeps being rate-limited is tried `retries + 1` times, and
   * the last error is rethrown once `retries` reaches 0.
   */
  lemma PersistentRateLimit<T>(fn: nat -> Attempt<T>, call: nat, retries: int, delay: int, attempt: int)
    requires forall j :: call <= j ==> Retryable(fn(j))
    ensures var r := Retrying(fn, call, retries, delay, attempt);
      r.calls == Budget(retries) + 1 && r.result == fn(call + Budget(retries)) && r.result.Rejected?
  {
    RetryingOutcome(fn, call, retries, delay, attempt);
  }

  /**
   * The k-th wait (from 0) lasts `delay * 2^k` and the k-th notice carries
   * `attempt + k`: the delay doubles and the attempt number goes up by one.
   */
  lemma Backoff<T>(fn: nat -> Attempt<T>, call: nat, retries: int, delay: int, attempt: int)
    ensures var r := Retrying(fn, call, retries, delay, attempt);
      forall k :: 0 <= k < |r.waits| ==> r.waits[k] == delay * Pow2(k)
    ensures var r := Retrying(fn, call, retries, delay, attempt);
      forall k :: 0 <= k < |r.notices| ==> r.notices[k] == attempt + k
  {
    WaitsDouble(fn, call, retries, delay, attempt);
    NoticesCount(fn, call, retries, delay, attempt);
  }

  lemma {:induction false} WaitsDouble<T>(fn: nat -> Attempt<T>, call: nat, retries: int, delay: int, attempt: int)
    ensures forall k :: 0 <= k < |Retrying(fn, call, retries, delay, attempt).waits| ==>
      Retrying(fn, call, retries, delay, attempt).waits[k] == delay * Pow2(k)
    decreases Budget(retries)
  {
    var a := fn(call);
    if a.Rejected? && retries > 0 && IsRateLimited(a.message) {
      var r := Retrying(fn, call, retries, delay, attempt);
      var rest := Retrying(fn, call + 1, retries - 1, delay * 2, attempt + 1);
      assert r.waits == [delay] + rest.waits;
      WaitsDouble(fn, call + 1, retries - 1, delay * 2, attempt + 1);
      forall k | 0 <= k < |r.waits| ensures r.waits[k] == delay * Pow2(k) {
        if k > 0 {
          assert r.waits[k] == rest.waits[k - 1];
          DoubledDelay(delay, k);
        }
      }
    }
  }

  lemma DoubledDelay(delay: int, k: nat)
    requires k > 0
    ensures (delay * 2) * Pow2(k - 1) == delay * Pow2(k)
  {
    assert Pow2(k) == 2 * Pow2(k - 1);
  }

  lemma {:induction false} NoticesCount<T>(fn: nat -> Attempt<T>, call: nat, retries: int, delay: int, attempt: int)
    ensures forall k :: 0 <= k < |Retrying(fn, call, retries, delay, attempt).notices| ==>
      Retrying(fn, call, retries, delay, attempt).notices[k] == attempt + k
    decreases Budget(retries)
  {
    var a := fn(call);
    if a.Rejected? && retries > 0 && IsRateLimited(a.message) {
      var r := Retrying(fn, call, retries, delay, attempt);
      var rest := Retrying(fn, call + 1, retries - 1, delay * 2, attempt + 1);
      assert r.notices == [attempt] + rest.notices;
      NoticesCount(fn, call + 1, retries - 1, delay * 2, attempt + 1);
      forall k | 0 <= k < |r.notices| ensures r.notices[k] == attempt + k {
        if k > 0 {
          assert r.notices[k] == rest.notices[k - 1];
        }
      }
    }
  }

  /** As written, the notices carry `6 - retries`, `7 - retries`, ...: 1, 2, ... only when `retries` is 5. */
  lemma WithRetryNotices<T>(fn: nat -> Attempt<T>, retries: int, delay: int)
    ensures var r := WithRetry(fn, retries, delay);
      forall k :: 0 <= k < |r.notices| ==> r.notices[k] == 6 - retries + k
  {
    var first := 6 - retries;
    var r := Retrying(fn, 0, retries, delay, first);
    Backoff(fn, 0, retries, delay, first);
    forall k | 0 <= k < |r.notices| ensures r.notices[k] == 6 - retries + k {
      assert r.notices[k] == Retrying(fn, 0, retries, delay, first).notices[k] == first + k;
    }
  }

  /** A budget of three retries against a call that is always rate-limited. */
  function AlwaysThrottled(call: nat): Attempt<int> {
    Rejected(Some("429 RESOURCE_EXHAUSTED"))
  }

  /**
   * With the budget of three retries that script analysis uses, a call that
   * stays rate-limited is announced as attempts 3, 4 and 5 instead of 1, 2, 3.
   */
  lemma ThreeRetriesMisnumbered()
    ensures WithRetry(AlwaysThrottled, 3, 2000).notices == [3, 4, 5]
    ensures WithRetryCorrected(AlwaysThrottled, 3, 2000).notices == [1, 2, 3]
  {
    assert Includes("429 RESOURCE_EXHAUSTED", "429") by {
      assert "429 RESOURCE_EXHAUSTED"[..3] == "429";
    }
    assert Retryable(AlwaysThrottled(0));
    PersistentRateLimit(AlwaysThrottled, 0, 3, 2000, 3);
    PersistentRateLimit(AlwaysThrottled, 0, 3, 2000, 1);
    Backoff(AlwaysThrottled, 0, 3, 2000, 3);
    Backoff(AlwaysThrottled, 0, 3, 2000, 1);
  }

  /** Corrected: the notices number the retries 1, 2, ... for every budget. */
  lemma WithRetryCorrectedNotices<T>(fn: nat -> Attempt<T>, retries: int, delay: int)
    ensures var r := WithRetryCorrected(fn, retries, delay);
      forall k :: 0 <= k < |r.notices| ==> r.notices[k] == k + 1
  {
    var r := Retrying(fn, 0, retries, delay, 1);
    assert WithRetryCorrected(fn, retries, delay) == r;
    NoticesCount(fn, 0, retries, delay, 1);
    forall k | 0 <= k < |r.notices| ensures r.notices[k] == k + 1 {
      assert r.notices[k] == 1 + k;
    }
  }

  /** The correction changes only the labels, and nothing at all for the default budget of five. */
  lemma CorrectionAgrees<T>(fn: nat -> Attempt<T>, retries: int, delay: int)
    ensures WithRetryCorrected(fn, retries, delay).result == WithRetry(fn, retries, delay).result
    ensures WithRetryCorrected(fn, retries, delay).calls == WithRetry(fn, retries, delay).calls
    ensures WithRetryCorrected(fn, retries, delay).waits == WithRetry(fn, retries, delay).waits
    ensures retries == 5 ==> WithRetryCorrected(fn, retries, delay) == WithRetry(fn, retries, delay)
  {
    RetryingIgnoresLabels(fn, 0, retries, delay, 1, 6 - retries);
  }
}
