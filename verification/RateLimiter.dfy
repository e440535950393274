/**
 Token bucket with lazily reset minute and hour windows. Times are in
 milliseconds; tokens are exact.
 */
module RateLimiter {
  import opened Wrappers

  const MINUTE := 60000
  const HOUR := 3600000

  datatype Bucket = Bucket(
    tokens: real, maxTokens: real, maxPerMinute: nat, maxPerHour: nat, lastRefill: int,
    minuteCount: nat, hourCount: nat, minuteStart: int, hourStart: int)
  {
    /** Tokens per second. */
    function RefillRate(): real {
      maxPerMinute as real / 60.0
    }
  }

  datatype Reason = PerMinute | PerHour | Burst

  datatype Verdict = Allowed(remaining: int) | Refused(waitMs: int, reason: Reason)

  function Min(a: real, b: real): real {
    if a <= b then a else b
  }

  /** The least integer not below `x`. */
  function Ceiling(x: real): int {
    if x.Floor as real == x then x.Floor else x.Floor + 1
  }

  function Configured(maxPerMinute: nat, maxPerHour: nat, burstSize: real, now: int): Bucket {
    Bucket(burstSize, burstSize, maxPerMinute, maxPerHour, now, 0, 0, now, now)
  }

  function Refill(b: Bucket, now: int): Bucket {
    var elapsed := (now - b.lastRefill) as real / 1000.0;
    b.(tokens := Min(b.maxTokens, b.tokens + elapsed * b.RefillRate()), lastRefill := now)
  }

  function ResetMinute(b: Bucket, now: int): Bucket {
    if now - b.minuteStart > MINUTE then b.(minuteCount := 0, minuteStart := now) else b
  }

  function ResetHour(b: Bucket, now: int): Bucket {
    if now - b.hourStart > HOUR then b.(hourCount := 0, hourStart := now) else b
  }

  /** A bucket as `check` leaves it. */
  function Checked(b: Bucket, now: int): Bucket {
    ResetHour(ResetMinute(Refill(b, now), now), now)
  }

  /** The time the burst refusal asks the caller to wait. */
  function BurstWait(b: Bucket): int
    requires b.maxPerMinute > 0
  {
    Ceiling((1.0 - b.tokens) / b.RefillRate() * 1000.0)
  }

  /** What `check` answers about a bucket it has just brought up to date. */
  function Judge(b: Bucket, now: int): Verdict {
    if b.minuteCount >= b.maxPerMinute then Refused(MINUTE - (now - b.minuteStart), PerMinute)
    else if b.hourCount >= b.maxPerHour then Refused(HOUR - (now - b.hourStart), PerHour)
    else if b.tokens < 1.0 then Refused(BurstWait(b), Burst)
    else Allowed(b.tokens.Floor)
  }

  function Consumed(b: Bucket): Bucket {
    b.(tokens := if b.tokens - 1.0 > 0.0 then b.tokens - 1.0 else 0.0,
       minuteCount := b.minuteCount + 1, hourCount := b.hourCount + 1)
  }

  class Limiter {
    var buckets: map<string, Bucket>

    constructor ()
      ensures buckets == map[]
    {
      buckets := map[];
    }

    /** A new bucket is full, counts nothing yet, and admits a call at once unless a limit is zero or the burst below
        one. */
    method Configure(id: string, maxPerMinute: nat, maxPerHour: nat, burstSize: real, now: int)
      modifies this
      ensures id in buckets && buckets - {id} == old(buckets) - {id}
      ensures var b := buckets[id];
              && b.tokens == b.maxTokens == burstSize && b.minuteCount == b.hourCount == 0
              && b.minuteStart == b.hourStart == b.lastRefill == now
              && (Judge(Checked(b, now), now).Allowed? <==> maxPerMinute > 0 && maxPerHour > 0 && burstSize >= 1.0)
      ensures buckets == old(buckets)[id := Configured(maxPerMinute, maxPerHour, burstSize, now)]
    {
      buckets := buckets[id := Bucket(burstSize, burstSize, maxPerMinute, maxPerHour, now, 0, 0, now, now)];
    }

    /** No answer stands for a connector without a bucket, which is always allowed. */
    method Check(id: string, now: int) returns (verdict: Option<Verdict>)
      modifies this
      ensures id !in old(buckets) ==> verdict == None && buckets == old(buckets)
      ensures id in old(buckets) ==>
                && buckets == old(buckets)[id := Checked(old(buckets)[id], now)]
                && verdict == Some(Judge(buckets[id], now))
    {
      if id !in buckets {
        return None;
      }
      var b := Refill(buckets[id], now);
      if now - b.minuteStart > MINUTE {
        b := b.(minuteCount := 0, minuteStart := now);
      }
      if now - b.hourStart > HOUR {
        b := b.(hourCount := 0, hourStart := now);
      }
      buckets := buckets[id := b];
      if b.minuteCount >= b.maxPerMinute {
        return Some(Refused(MINUTE - (now - b.minuteStart), PerMinute));
      }
      if b.hourCount >= b.maxPerHour {
        return Some(Refused(HOUR - (now - b.hourStart), PerHour));
      }
      if b.tokens < 1.0 {
        return Some(Refused(Ceiling((1.0 - b.tokens) / b.RefillRate() * 1000.0), Burst));
      }
      return Some(Allowed(b.tokens.Floor));
    }

    method Consume(id: string)
      modifies this
      ensures buckets == if id in old(buckets) then old(buckets)[id := Consumed(old(buckets)[id])] else old(buckets)
    {
      if id in buckets {
        var b := buckets[id];
        b := b.(tokens := if b.tokens - 1.0 > 0.0 then b.tokens - 1.0 else 0.0);
        b := b.(minuteCount := b.minuteCount + 1);
        b := b.(hourCount := b.hourCount + 1);
        buckets := buckets[id := b];
      }
    }

    /** Reading the statistics refills the bucket. */
    method GetStats(id: string, now: int) returns (used: Option<(int, nat, nat)>)
      modifies this
      ensures id !in old(buckets) ==> used == None && buckets == old(buckets)
      ensures id in old(buckets) ==>
                && buckets == old(buckets)[id := Refill(old(buckets)[id], now)]
                && used == Some((buckets[id].tokens.Floor, buckets[id].minuteCount, buckets[id].hourCount))
    {
      if id !in buckets {
        return None;
      }
      var b := Refill(buckets[id], now);
      buckets := buckets[id := b];
      return Some((b.tokens.Floor, b.minuteCount, b.hourCount));
    }
  }
}
