/** The token bucket that throttles a caller's replies. Clock readings are parameters, in nanoseconds. */
module TokenBucket {
  import opened Sequences

  const TICKS := 1_000_000

  /** Whole milliseconds of a non-negative time. */
  function Ms(t: int): nat
    requires t >= 0
  {
    t / TICKS
  }

  datatype Bucket = Bucket(maxBurst: nat, tokens: nat, lastDrip: int, tokensPerMs: nat)

  predicate Valid(b: Bucket) { b.tokens <= b.maxBurst && b.tokensPerMs >= 1 }

  function Fresh(maxBandwidth: nat, now: int): Bucket {
    Bucket(maxBandwidth, maxBandwidth, now, if maxBandwidth / 1000 == 0 then 1 else maxBandwidth / 1000)
  }

  /** The clock is read twice: once to see how much time passed, once to remember when. */
  function Drip(b: Bucket, now: int, after: int): Bucket
    requires b.lastDrip <= now <= after
  {
    var delta := Ms(now - b.lastDrip);
    if delta == 0 then b else b.(tokens := Min(b.tokens + b.tokensPerMs * delta, b.maxBurst), lastDrip := after)
  }

  function Remove(b: Bucket, amount: nat, now: int, after: int): Bucket
    requires b.lastDrip <= now <= after
  {
    var d := Drip(b, now, after);
    if d.tokens >= amount then d.(tokens := d.tokens - amount) else d
  }

  predicate Granted(b: Bucket, amount: nat, now: int, after: int)
    requires b.lastDrip <= now <= after
  {
    Drip(b, now, after).tokens >= amount
  }

  // ----- Runs

  datatype Call = Call(amount: nat, now: int, after: int)

  /** Calls on one bucket by any number of senders, with a clock that never goes back. */
  ghost predicate IsRun(bs: seq<Bucket>, calls: seq<Call>) {
    && |bs| == |calls| + 1 && Valid(bs[0])
    && forall i | 0 <= i < |calls| ::
         && bs[i].lastDrip <= calls[i].now <= calls[i].after
         && (i + 1 < |calls| ==> calls[i].after <= calls[i + 1].now)
         && bs[i + 1] == Remove(bs[i], calls[i].amount, calls[i].now, calls[i].after)
  }

  function Removed(b: Bucket, call: Call): nat
    requires b.lastDrip <= call.now <= call.after
  {
    if Granted(b, call.amount, call.now, call.after) then call.amount else 0
  }

  /** Tokens removed by the calls from i up to j. */
  ghost function Total(bs: seq<Bucket>, calls: seq<Call>, i: nat, j: nat): nat
    requires IsRun(bs, calls) && i <= j <= |calls|
  {
    if i == j then 0 else Total(bs, calls, i, j - 1) + Removed(bs[j - 1], calls[j - 1])
  }

  lemma {:induction false} TokensBounded(bs: seq<Bucket>, calls: seq<Call>, i: nat)
    requires IsRun(bs, calls) && i < |bs|
    ensures Valid(bs[i]) && bs[i].maxBurst == bs[0].maxBurst && bs[i].tokensPerMs == bs[0].tokensPerMs
  {
    if i > 0 {
      TokensBounded(bs, calls, i - 1);
    }
  }

  lemma MsAdds(a: int, b: int)
    requires a >= 0 && b >= 0
    ensures Ms(a) + Ms(b) <= Ms(a + b)
  {
  }

  lemma MsGrows(a: int, b: int)
    requires 0 <= a <= b
    ensures Ms(a) <= Ms(b)
  {
  }

  lemma TimesGrows(rate: nat, a: nat, b: nat)
    requires a <= b
    ensures rate * a <= rate * b
  {
  }

  /** What one call removes and leaves is at most what was there and what dripped in. */
  lemma OneCall(b: Bucket, call: Call)
    requires Valid(b) && b.lastDrip <= call.now <= call.after
    ensures
      var b' := Remove(b, call.amount, call.now, call.after);
      && Removed(b, call) + b'.tokens <= b.tokens + b.tokensPerMs * Ms(call.now - b.lastDrip)
      && Removed(b, call) + b'.tokens <= b.maxBurst
      && b'.lastDrip == if Ms(call.now - b.lastDrip) == 0 then b.lastDrip else call.after
  {
  }

  /** Tokens removed and left since call i come from the burst and from whole milliseconds since the drip then. */
  lemma {:induction false} Conserved(bs: seq<Bucket>, calls: seq<Call>, i: nat, k: nat)
    requires IsRun(bs, calls) && i < k <= |calls|
    ensures bs[i + 1].lastDrip <= bs[k].lastDrip
    ensures
      Total(bs, calls, i, k) + bs[k].tokens
        <= bs[0].maxBurst + bs[0].tokensPerMs * Ms(bs[k].lastDrip - bs[i + 1].lastDrip)
  {
    TokensBounded(bs, calls, k - 1);
    OneCall(bs[k - 1], calls[k - 1]);
    if k > i + 1 {
      Conserved(bs, calls, i, k - 1);
      var rate, start, b, now := bs[0].tokensPerMs, bs[i + 1].lastDrip, bs[k - 1], calls[k - 1].now;
      var x, y := Ms(b.lastDrip - start), Ms(now - b.lastDrip);
      MsAdds(b.lastDrip - start, now - b.lastDrip);
      if y > 0 {
        MsGrows(now - start, bs[k].lastDrip - start);
      }
      Spread(rate, x, y);
      TimesGrows(rate, x + y, Ms(bs[k].lastDrip - start));
    } else {
      assert Total(bs, calls, i, i) == 0;
    }
  }

  lemma Spread(rate: nat, x: nat, y: nat)
    ensures rate * x + rate * y == rate * (x + y)
  {
  }

  /** In any stretch of calls within T milliseconds, at most a burst and T milliseconds' worth goes out. */
  lemma WindowBound(bs: seq<Bucket>, calls: seq<Call>, i: nat, j: nat, T: nat)
    requires IsRun(bs, calls) && i < j <= |calls| && calls[j - 1].now - calls[i].now <= T * TICKS
    ensures Total(bs, calls, i, j) <= bs[0].maxBurst + bs[0].tokensPerMs * T
  {
    TokensBounded(bs, calls, j - 1);
    var rate, b, now := bs[0].tokensPerMs, bs[j - 1], calls[j - 1].now;
    OneCall(b, calls[j - 1]);
    if j == i + 1 {
      assert Total(bs, calls, i, i) == 0;
      TimesGrows(rate, 0, T);
    } else {
      Conserved(bs, calls, i, j - 1);
      var start := bs[i + 1].lastDrip;
      var x, y := Ms(b.lastDrip - start), Ms(now - b.lastDrip);
      MsAdds(b.lastDrip - start, now - b.lastDrip);
      Spread(rate, x, y);
      TokensBounded(bs, calls, i);
      OneCall(bs[i], calls[i]);
      StartIsRecent(now, start, calls[i].now, T);
      TimesGrows(rate, x + y, T);
    }
  }

  /** The first drip of a window is less than a millisecond older than the window. */
  lemma StartIsRecent(end: int, start: int, first: int, T: nat)
    requires start <= end && end - first <= T * TICKS && first - start < TICKS
    ensures Ms(end - start) <= T
  {
  }

  /** In S seconds a new bucket lets out at most a burst and S times its bandwidth, which counts as 1000 at least. */
  lemma BandwidthBound(bs: seq<Bucket>, calls: seq<Call>, i: nat, j: nat, bandwidth: nat, start: int, S: nat)
    requires IsRun(bs, calls) && bs[0] == Fresh(bandwidth, start)
    requires i < j <= |calls| && calls[j - 1].now - calls[i].now <= S * 1000 * TICKS
    ensures Total(bs, calls, i, j) <= bandwidth + (if bandwidth < 1000 then 1000 else bandwidth) * S
  {
    WindowBound(bs, calls, i, j, S * 1000);
    Seconds(bs[0].tokensPerMs, if bandwidth < 1000 then 1000 else bandwidth, S);
  }

  lemma {:induction false} Seconds(rate: nat, bound: nat, S: nat)
    requires rate * 1000 <= bound
    ensures rate * (S * 1000) <= bound * S
  {
    if S > 0 {
      Seconds(rate, bound, S - 1);
      Spread(rate, (S - 1) * 1000, 1000);
      Spread(bound, S - 1, 1);
    }
  }

  // ----- Enough idle time

  /** A request within the burst is granted exactly if the tokens there and those of the idle time cover it. */
  lemma GrantedIff(b: Bucket, amount: nat, now: int, after: int)
    requires Valid(b) && amount <= b.maxBurst && b.lastDrip <= now <= after
    ensures Granted(b, amount, now, after) <==> b.tokens + b.tokensPerMs * Ms(now - b.lastDrip) >= amount
  {
    if Ms(now - b.lastDrip) == 0 {
      assert b.tokensPerMs * Ms(now - b.lastDrip) == 0;
    }
  }

  /** Asked again and again at least a millisecond apart, a bucket of one's own yields in time. */
  lemma {:induction false} RetriesSucceed(bs: seq<Bucket>, calls: seq<Call>, amount: nat, k: nat)
    requires IsRun(bs, calls) && k < |calls| && amount <= bs[0].maxBurst
    requires forall i | 0 <= i <= k :: calls[i].amount == amount && bs[i].lastDrip + TICKS <= calls[i].now
    requires forall i | 0 <= i <= k :: !Granted(bs[i], amount, calls[i].now, calls[i].after)
    ensures bs[k + 1].tokens >= bs[0].tokens + bs[0].tokensPerMs * (k + 1)
    ensures bs[0].tokensPerMs * (k + 1) < amount
  {
    TokensBounded(bs, calls, k);
    var b, call, rate := bs[k], calls[k], bs[0].tokensPerMs;
    if k > 0 {
      RetriesSucceed(bs, calls, amount, k - 1);
    }
    assert !Granted(b, amount, call.now, call.after);
    MsGrows(TICKS, call.now - b.lastDrip);
    TimesGrows(rate, 1, Ms(call.now - b.lastDrip));
    Spread(rate, k, 1);
  }

  // ----- The bucket object

  class Throttle {
    const maxBurst: nat
    var tokens: nat
    var lastDrip: int
    var tokensPerMs: nat

    function Abs(): Bucket
      reads this
    {
      Bucket(maxBurst, tokens, lastDrip, tokensPerMs)
    }

    constructor (maxBandwidth: nat, now: int)
      ensures Abs() == Fresh(maxBandwidth, now) && Valid(Abs())
    {
      maxBurst := maxBandwidth;
      tokens := maxBandwidth;
      lastDrip := now;
      tokensPerMs := maxBandwidth / 1000;
      new;
      if tokensPerMs == 0 {
        tokensPerMs := 1;
      }
    }

    method DripNow(now: int, after: int) returns (dripped: bool)
      requires lastDrip <= now <= after
      modifies this
      ensures Abs() == Drip(old(Abs()), now, after)
      ensures dripped == (now - old(lastDrip) >= TICKS)
    {
      var deltaTime := (now - lastDrip) / TICKS;
      if deltaTime <= 0 {
        return false;
      }
      var more := tokensPerMs * deltaTime;
      tokens := Min(tokens + more, maxBurst);
      lastDrip := after;
      return true;
    }

    method RemoveTokens(amount: nat, now: int, after: int) returns (ok: bool)
      requires lastDrip <= now <= after
      modifies this
      ensures Abs() == Remove(old(Abs()), amount, now, after)
      ensures ok == Granted(old(Abs()), amount, now, after)
    {
      var _ := DripNow(now, after);
      if tokens >= amount {
        tokens := tokens - amount;
        return true;
      }
      return false;
    }
  }
}
