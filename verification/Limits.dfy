/** The token bucket of each environment (src/limits.ts:64-101), over exact reals; times are milliseconds. */
module Limits {
  import opened Options

  datatype Rates = NoLimit | Limit(perSecond: real, burst: real)
  {
    predicate Valid() { Limit? ==> perSecond > 0.0 && burst > 0.0 }
  }

  datatype Bucket = Bucket(tokens: real, at: real)
  type Buckets = map<string, Bucket>

  datatype Answer = Allowed | Refused(retryAfter: int)

  function Min(a: real, b: real): real { if a < b then a else b }

  /** `Math.ceil`. */
  function Ceil(x: real): int { -((-x).Floor) }

  function Refill(rates: Rates, elapsed: real): real
    requires rates.Limit?
  {
    elapsed / 1000.0 * rates.perSecond
  }

  /** The tokens a bucket has at a time; a key without one has a full bucket. */
  function Level(rates: Rates, bucket: Option<Bucket>, now: real): real
    requires rates.Limit?
  {
    if bucket.None? then rates.burst
    else Min(rates.burst, bucket.value.tokens + Refill(rates, now - bucket.value.at))
  }

  datatype Op = Take(key: string, cost: nat, now: real) | Sweep(now: real) | Forget(key: string)

  predicate Expired(rates: Rates, b: Bucket, now: real)
    requires rates.Valid() && rates.Limit?
  {
    now - b.at >= rates.burst / rates.perSecond * 1000.0
  }

  function Swept(rates: Rates, buckets: Buckets, now: real): Buckets
    requires rates.Valid() && rates.Limit?
  {
    map k | k in buckets && !Expired(rates, buckets[k], now) :: buckets[k]
  }

  function Answered(rates: Rates, buckets: Buckets, op: Op): Answer
    requires rates.Valid() && op.Take?
  {
    if rates.NoLimit? then Allowed
    else
      var refilled := Level(rates, Lookup(buckets, op.key), op.now);
      if refilled < op.cost as real
      then Refused(Ceil((op.cost as real - refilled) / rates.perSecond * 1000.0))
      else Allowed
  }

  function Next(rates: Rates, buckets: Buckets, op: Op): Buckets
    requires rates.Valid()
  {
    match op
    case Forget(key) => buckets - {key}
    case Sweep(now) => if rates.NoLimit? then buckets else Swept(rates, buckets, now)
    case Take(key, cost, now) =>
      if rates.NoLimit? then buckets
      else
        var refilled := Level(rates, Lookup(buckets, key), now);
        buckets[key := Bucket(if refilled < cost as real then refilled else refilled - cost as real, now)]
  }

  class RateLimiter {
    const rates: Rates
    var buckets: Buckets

    ghost predicate Valid()
      reads this
    {
      rates.Valid()
    }

    constructor (rates: Rates)
      requires rates.Valid()
      ensures Valid() && this.rates == rates && buckets == map[]
    {
      this.rates, buckets := rates, map[];
    }

    method Take(key: string, cost: nat, now: real) returns (answer: Answer)
      requires Valid()
      modifies this
      ensures Valid() && answer == Answered(rates, old(buckets), Op.Take(key, cost, now))
      ensures buckets == Next(rates, old(buckets), Op.Take(key, cost, now))
    {
      if rates.NoLimit? {
        return Allowed;
      }
      var bucket := if key in buckets then buckets[key] else Bucket(rates.burst, now);
      var refilled := Min(rates.burst, bucket.tokens + Refill(rates, now - bucket.at));
      if refilled < cost as real {
        buckets := buckets[key := Bucket(refilled, now)];
        return Refused(Ceil((cost as real - refilled) / rates.perSecond * 1000.0));
      }
      buckets := buckets[key := Bucket(refilled - cost as real, now)];
      return Allowed;
    }

    method Forget(key: string)
      requires Valid()
      modifies this
      ensures Valid() && buckets == Next(rates, old(buckets), Op.Forget(key))
    {
      buckets := buckets - {key};
    }

    method Sweep(now: real)
      requires Valid()
      modifies this
      ensures Valid() && buckets == Next(rates, old(buckets), Op.Sweep(now))
    {
      if rates.NoLimit? {
        return;
      }
      var full := rates.burst / rates.perSecond * 1000.0;
      var left, was := buckets.Keys, buckets;
      while left != {}
        invariant left <= was.Keys
        invariant buckets == map k | k in was && (k in left || !Expired(rates, was[k], now)) :: was[k]
        decreases |left|
      {
        var key :| key in left;
        if now - was[key].at >= full {
          buckets := buckets - {key};
        }
        left := left - {key};
      }
    }
  }

  // ---- what a bucket holds ------------------------------------------------------------------------

  lemma RefillAdds(rates: Rates, a: real, b: real)
    requires rates.Valid() && rates.Limit?
    ensures Refill(rates, a + b) == Refill(rates, a) + Refill(rates, b)
    ensures b >= 0.0 ==> Refill(rates, b) >= 0.0
  {}

  /** A bucket as `take` leaves one: between empty and full, and not of the future. */
  ghost predicate Sound(rates: Rates, bucket: Option<Bucket>, now: real)
    requires rates.Limit?
  {
    bucket.Some? ==> 0.0 <= bucket.value.tokens <= rates.burst && bucket.value.at <= now
  }

  /** The level rises with the rate up to the burst, and no faster. */
  lemma LevelRises(rates: Rates, bucket: Option<Bucket>, now: real, later: real)
    requires rates.Valid() && rates.Limit? && Sound(rates, bucket, now) && now <= later
    ensures 0.0 <= Level(rates, bucket, now) <= Level(rates, bucket, later) <= rates.burst
    ensures Level(rates, bucket, later) == Min(rates.burst, Level(rates, bucket, now) + Refill(rates, later - now))
  {
    if bucket.Some? {
      RefillAdds(rates, now - bucket.value.at, later - now);
      assert later - bucket.value.at == (now - bucket.value.at) + (later - now);
    }
  }

  /** A bucket old enough to sweep is full. */
  lemma ExpiredIsFull(rates: Rates, b: Bucket, now: real, later: real)
    requires rates.Valid() && rates.Limit? && Sound(rates, Some(b), now) && Expired(rates, b, now) && now <= later
    ensures Level(rates, Some(b), later) == rates.burst
  {
    var full := rates.burst / rates.perSecond * 1000.0;
    assert Refill(rates, full) == rates.burst;
    RefillAdds(rates, full, later - b.at - full);
  }

  /** A bucket is old enough to sweep exactly when refilling alone would by now have filled it from empty. */
  lemma ExpiredIff(rates: Rates, b: Bucket, now: real)
    requires rates.Valid() && rates.Limit?
    ensures Expired(rates, b, now) <==> Level(rates, Some(Bucket(0.0, b.at)), now) == rates.burst
  {
    var full, elapsed := rates.burst / rates.perSecond * 1000.0, now - b.at;
    assert Refill(rates, full) == rates.burst;
    RefillAdds(rates, full, elapsed - full);
    RefillAdds(rates, elapsed, full - elapsed);
    RefillRises(rates, elapsed - full);
    RefillRises(rates, full - elapsed);
  }

  /** A take is granted exactly when nothing is limited or the refilled bucket covers its cost. */
  lemma GrantedIff(rates: Rates, buckets: Buckets, key: string, cost: nat, now: real)
    requires rates.Valid()
    ensures Answered(rates, buckets, Take(key, cost, now)) == Allowed <==>
            rates.Limit? ==>
              && cost as real <= rates.burst
              && (key in buckets ==>
                    cost as real <= buckets[key].tokens + rates.perSecond * ((now - buckets[key].at) / 1000.0))
  {
    var bucket := Lookup(buckets, key);
    if rates.Limit? && bucket.Some? {
      RefillIs(rates, now - bucket.value.at);
    }
  }

  /** So many tokens a second, times being milliseconds. */
  lemma RefillIs(rates: Rates, elapsed: real)
    requires rates.Limit?
    ensures Refill(rates, elapsed) == rates.perSecond * (elapsed / 1000.0)
  {
  }

  lemma RefillRises(rates: Rates, elapsed: real)
    requires rates.Valid() && rates.Limit?
    ensures elapsed > 0.0 ==> Refill(rates, elapsed) > 0.0
  {
  }

  /** What a sweep drops: every bucket that would be full by now even from empty, and no other. */
  lemma SweepDropsIff(rates: Rates, buckets: Buckets, now: real, key: string)
    requires rates.Valid() && rates.Limit?
    ensures Lookup(Next(rates, buckets, Sweep(now)), key) ==
            var bucket := Lookup(buckets, key);
            if bucket.Some? && Level(rates, Some(Bucket(0.0, bucket.value.at)), now) == rates.burst then None else bucket
  {
    if key in buckets {
      ExpiredIff(rates, buckets[key], now);
    }
  }

  ghost predicate AllSound(rates: Rates, buckets: Buckets, now: real)
    requires rates.Limit?
  {
    forall key :: Sound(rates, Lookup(buckets, key), now)
  }

  /** The operations happen in order between two times. */
  predicate Timed(ops: seq<Op>, from: real, until: real)
    decreases ops
  {
    if ops == [] then from <= until
    else if ops[0].Forget? then Timed(ops[1..], from, until)
    else from <= ops[0].now && Timed(ops[1..], ops[0].now, until)
  }

  lemma {:induction false} TimedForward(ops: seq<Op>, from: real, until: real)
    requires Timed(ops, from, until)
    ensures from <= until
    decreases ops
  {
    if ops != [] {
      TimedForward(ops[1..], if ops[0].Forget? then from else ops[0].now, until);
    }
  }

  function End(rates: Rates, buckets: Buckets, ops: seq<Op>): Buckets
    requires rates.Valid()
    decreases ops
  {
    if ops == [] then buckets else End(rates, Next(rates, buckets, ops[0]), ops[1..])
  }

  lemma SoundKept(rates: Rates, buckets: Buckets, op: Op, from: real, now: real)
    requires rates.Valid() && rates.Limit? && AllSound(rates, buckets, from) && from <= now
    requires !op.Forget? ==> op.now == now
    ensures AllSound(rates, Next(rates, buckets, op), now)
  {
    forall key ensures Sound(rates, Lookup(Next(rates, buckets, op), key), now) {
      assert Sound(rates, Lookup(buckets, key), from);
      if op.Take? && op.key == key {
        LevelRises(rates, Lookup(buckets, key), from, now);
      }
    }
  }

  /** Tokens stay between nothing and the burst over every run. */
  lemma {:induction false} SoundHolds(rates: Rates, buckets: Buckets, ops: seq<Op>, from: real, until: real)
    requires rates.Valid() && rates.Limit? && AllSound(rates, buckets, from) && Timed(ops, from, until)
    ensures AllSound(rates, End(rates, buckets, ops), until)
    decreases ops
  {
    if ops != [] {
      var now := if ops[0].Forget? then from else ops[0].now;
      SoundKept(rates, buckets, ops[0], from, now);
      SoundHolds(rates, Next(rates, buckets, ops[0]), ops[1..], now, until);
    } else {
      forall key ensures Sound(rates, Lookup(buckets, key), until) {
        assert Sound(rates, Lookup(buckets, key), from);
      }
    }
  }

  // ---- the bound ----------------------------------------------------------------------------------

  predicate Grants(rates: Rates, buckets: Buckets, op: Op, key: string)
    requires rates.Valid()
  {
    op.Take? && op.key == key && Answered(rates, buckets, op) == Allowed
  }

  /** The cost granted to a key over a run. */
  function Granted(rates: Rates, buckets: Buckets, ops: seq<Op>, key: string): nat
    requires rates.Valid()
    decreases ops
  {
    if ops == [] then 0
    else (if Grants(rates, buckets, ops[0], key) then ops[0].cost else 0)
         + Granted(rates, Next(rates, buckets, ops[0]), ops[1..], key)
  }

  /** One operation's effect on a key's level at any later time: a grant takes its cost, and nothing else shows. */
  lemma LevelAfter(rates: Rates, buckets: Buckets, op: Op, from: real, now: real, key: string, later: real)
    requires rates.Valid() && rates.Limit? && AllSound(rates, buckets, from) && from <= now <= later
    requires !op.Forget? ==> op.now == now
    requires op != Forget(key)
    ensures !Grants(rates, buckets, op, key) ==>
              Level(rates, Lookup(Next(rates, buckets, op), key), later) == Level(rates, Lookup(buckets, key), later)
    ensures Grants(rates, buckets, op, key) ==>
              Level(rates, Lookup(Next(rates, buckets, op), key), now) == Level(rates, Lookup(buckets, key), now) - op.cost as real
  {
    var bucket := Lookup(buckets, key);
    assert Sound(rates, bucket, from);
    if op.Take? && op.key == key {
      LevelRises(rates, bucket, now, later);
    } else if op.Sweep? && bucket.Some? && Expired(rates, bucket.value, now) {
      ExpiredIsFull(rates, bucket.value, now, later);
    }
  }

  lemma {:induction false} GrantedIsPaidFor(rates: Rates, buckets: Buckets, ops: seq<Op>, key: string, from: real, until: real)
    requires rates.Valid() && rates.Limit? && AllSound(rates, buckets, from) && Timed(ops, from, until)
    requires Forget(key) !in ops
    ensures from <= until
    ensures Granted(rates, buckets, ops, key) as real + Level(rates, Lookup(End(rates, buckets, ops), key), until)
            <= Level(rates, Lookup(buckets, key), from) + Refill(rates, until - from)
    decreases ops
  {
    TimedForward(ops, from, until);
    assert Sound(rates, Lookup(buckets, key), from);
    if ops == [] {
      LevelRises(rates, Lookup(buckets, key), from, until);
    } else {
      var op := ops[0];
      var now := if op.Forget? then from else op.now;
      var next := Next(rates, buckets, op);
      SoundKept(rates, buckets, op, from, now);
      GrantedIsPaidFor(rates, next, ops[1..], key, now, until);
      LevelAfter(rates, buckets, op, from, now, key, now);
      LevelRises(rates, Lookup(buckets, key), from, now);
      assert until - from == (now - from) + (until - now);
      RefillAdds(rates, now - from, until - now);
    }
  }

  lemma WindowRefills(rates: Rates, before: seq<Op>, window: seq<Op>, key: string, start: real, from: real, until: real)
    requires rates.Valid() && rates.Limit? && Timed(before, start, from) && Timed(window, from, until)
    requires Forget(key) !in window
    ensures Granted(rates, End(rates, map[], before), window, key) as real
            <= rates.burst + Refill(rates, until - from)
  {
    SoundHolds(rates, map[], before, start, from);
    var buckets := End(rates, map[], before);
    SoundHolds(rates, buckets, window, from, until);
    GrantedIsPaidFor(rates, buckets, window, key, from, until);
    assert Sound(rates, Lookup(buckets, key), from) && Sound(rates, Lookup(End(rates, buckets, window), key), until);
    LevelRises(rates, Lookup(buckets, key), from, from);
    LevelRises(rates, Lookup(End(rates, buckets, window), key), until, until);
  }

  /** In any window of any run a key is granted at most the burst and so many tokens for each second of it. */
  lemma WindowBound(rates: Rates, before: seq<Op>, window: seq<Op>, key: string, start: real, from: real, until: real)
    requires rates.Valid() && rates.Limit? && Timed(before, start, from) && Timed(window, from, until)
    requires Forget(key) !in window
    ensures Granted(rates, End(rates, map[], before), window, key) as real
            <= rates.burst + rates.perSecond * ((until - from) / 1000.0)
  {
    WindowRefills(rates, before, window, key, start, from, until);
    RefillIs(rates, until - from);
  }

  // ---- refusals and sweeps are invisible ------------------------------------------------------------

  /** No later operation can tell the two apart. */
  ghost predicate Same(rates: Rates, a: Buckets, b: Buckets, now: real)
    requires rates.Limit?
  {
    forall key, later | later >= now :: Level(rates, Lookup(a, key), later) == Level(rates, Lookup(b, key), later)
  }

  function Answers(rates: Rates, buckets: Buckets, ops: seq<Op>): seq<Answer>
    requires rates.Valid()
    decreases ops
  {
    if ops == [] then []
    else (if ops[0].Take? then [Answered(rates, buckets, ops[0])] else [])
         + Answers(rates, Next(rates, buckets, ops[0]), ops[1..])
  }

  function Kept(ops: seq<Op>, keep: seq<bool>): seq<Op>
    requires |ops| == |keep|
  {
    if ops == [] then [] else (if keep[0] then [ops[0]] else []) + Kept(ops[1..], keep[1..])
  }

  /** The answers of the whole run that go to the operations kept. */
  function AnswersToKept(rates: Rates, buckets: Buckets, ops: seq<Op>, keep: seq<bool>): seq<Answer>
    requires rates.Valid() && |ops| == |keep|
    decreases ops
  {
    if ops == [] then []
    else (if keep[0] && ops[0].Take? then [Answered(rates, buckets, ops[0])] else [])
         + AnswersToKept(rates, Next(rates, buckets, ops[0]), ops[1..], keep[1..])
  }

  /** Only sweeps and refused takes are left out. */
  predicate OnlyIdleLeftOut(rates: Rates, buckets: Buckets, ops: seq<Op>, keep: seq<bool>)
    requires rates.Valid() && |ops| == |keep|
    decreases ops
  {
    ops == []
    || ((keep[0] || ops[0].Sweep? || (ops[0].Take? && Answered(rates, buckets, ops[0]) != Allowed))
        && OnlyIdleLeftOut(rates, Next(rates, buckets, ops[0]), ops[1..], keep[1..]))
  }

  lemma SameAfter(rates: Rates, a: Buckets, b: Buckets, op: Op, from: real, now: real)
    requires rates.Valid() && rates.Limit? && Same(rates, a, b, from) && from <= now
    requires AllSound(rates, a, from) && AllSound(rates, b, from)
    requires !op.Forget? ==> op.now == now
    ensures op.Take? ==> Answered(rates, a, op) == Answered(rates, b, op)
    ensures Same(rates, Next(rates, a, op), Next(rates, b, op), now)
  {
    forall key, later | later >= now
      ensures Level(rates, Lookup(Next(rates, a, op), key), later) == Level(rates, Lookup(Next(rates, b, op), key), later)
    {
      assert Level(rates, Lookup(a, key), later) == Level(rates, Lookup(b, key), later);
      assert Level(rates, Lookup(a, key), now) == Level(rates, Lookup(b, key), now);
      if op != Forget(key) && !(op.Take? && op.key == key) {
        LevelAfter(rates, a, op, from, now, key, later);
        LevelAfter(rates, b, op, from, now, key, later);
      }
    }
    assert op.Take? ==> Level(rates, Lookup(a, op.key), now) == Level(rates, Lookup(b, op.key), now);
  }

  lemma SameAfterIdle(rates: Rates, a: Buckets, b: Buckets, op: Op, from: real, now: real)
    requires rates.Valid() && rates.Limit? && Same(rates, a, b, from) && from <= now && AllSound(rates, a, from)
    requires op.Sweep? || (op.Take? && Answered(rates, a, op) != Allowed)
    requires op.now == now
    ensures Same(rates, Next(rates, a, op), b, now)
  {
    forall key, later | later >= now
      ensures Level(rates, Lookup(Next(rates, a, op), key), later) == Level(rates, Lookup(b, key), later)
    {
      LevelAfter(rates, a, op, from, now, key, later);
      assert Level(rates, Lookup(a, key), later) == Level(rates, Lookup(b, key), later);
    }
  }

  lemma {:induction false} IdleIsInvisible(rates: Rates, a: Buckets, b: Buckets, ops: seq<Op>, keep: seq<bool>, from: real, until: real)
    requires rates.Valid() && rates.Limit? && |ops| == |keep| && Timed(ops, from, until)
    requires Same(rates, a, b, from) && AllSound(rates, a, from) && AllSound(rates, b, from)
    requires OnlyIdleLeftOut(rates, a, ops, keep)
    ensures AnswersToKept(rates, a, ops, keep) == Answers(rates, b, Kept(ops, keep))
    decreases ops
  {
    if ops != [] {
      var op := ops[0];
      var now := if op.Forget? then from else op.now;
      SoundKept(rates, a, op, from, now);
      if keep[0] {
        SoundKept(rates, b, op, from, now);
        SameAfter(rates, a, b, op, from, now);
        IdleIsInvisible(rates, Next(rates, a, op), Next(rates, b, op), ops[1..], keep[1..], now, until);
        var rest := Kept(ops[1..], keep[1..]);
        assert Kept(ops, keep) == [op] + rest && ([op] + rest)[1..] == rest;
      } else {
        SameAfterIdle(rates, a, b, op, from, now);
        forall key ensures Sound(rates, Lookup(b, key), now) {
          assert Sound(rates, Lookup(b, key), from);
        }
        IdleIsInvisible(rates, Next(rates, a, op), b, ops[1..], keep[1..], now, until);
        assert Kept(ops, keep) == Kept(ops[1..], keep[1..]);
      }
    }
  }

  /** Leaving any refused takes and sweeps out of a run changes no answer that remains. */
  lemma RefusalsAndSweepsAreInvisible(rates: Rates, ops: seq<Op>, keep: seq<bool>, from: real, until: real)
    requires rates.Valid() && rates.Limit? && |ops| == |keep| && Timed(ops, from, until)
    requires OnlyIdleLeftOut(rates, map[], ops, keep)
    ensures AnswersToKept(rates, map[], ops, keep) == Answers(rates, map[], Kept(ops, keep))
  {
    IdleIsInvisible(rates, map[], map[], ops, keep, from, until);
  }

  // ---- a key is on its own -----------------------------------------------------------------------------

  /** What the takes of one key are told. */
  function AnswersTo(rates: Rates, buckets: Buckets, ops: seq<Op>, key: string): seq<Answer>
    requires rates.Valid()
    decreases ops
  {
    if ops == [] then []
    else (if ops[0].Take? && ops[0].key == key then [Answered(rates, buckets, ops[0])] else [])
         + AnswersTo(rates, Next(rates, buckets, ops[0]), ops[1..], key)
  }

  /** The operations without those of other keys. */
  function OnlyOf(ops: seq<Op>, key: string): seq<Op> {
    if ops == [] then [] else (if ops[0].Sweep? || ops[0].key == key then [ops[0]] else []) + OnlyOf(ops[1..], key)
  }

  lemma OwnBucket(rates: Rates, a: Buckets, b: Buckets, op: Op, key: string)
    requires rates.Valid() && Lookup(a, key) == Lookup(b, key)
    ensures op.Sweep? || op.key == key ==> Lookup(Next(rates, a, op), key) == Lookup(Next(rates, b, op), key)
    ensures !op.Sweep? && op.key != key ==> Lookup(Next(rates, a, op), key) == Lookup(b, key)
    ensures op.Take? && op.key == key ==> Answered(rates, a, op) == Answered(rates, b, op)
  {
  }

  lemma {:induction false} OthersAreInvisible(rates: Rates, a: Buckets, b: Buckets, ops: seq<Op>, key: string)
    requires rates.Valid() && Lookup(a, key) == Lookup(b, key)
    ensures AnswersTo(rates, a, ops, key) == AnswersTo(rates, b, OnlyOf(ops, key), key)
    decreases ops
  {
    if ops != [] {
      var op, rest := ops[0], OnlyOf(ops[1..], key);
      OwnBucket(rates, a, b, op, key);
      if op.Sweep? || op.key == key {
        OthersAreInvisible(rates, Next(rates, a, op), Next(rates, b, op), ops[1..], key);
        assert OnlyOf(ops, key) == [op] + rest && ([op] + rest)[1..] == rest;
      } else {
        OthersAreInvisible(rates, Next(rates, a, op), b, ops[1..], key);
        assert OnlyOf(ops, key) == rest;
      }
    }
  }

  /** What a key is told once it was forgotten is what a new key is told, whatever was done before or for others. */
  lemma ForgottenStartsOver(rates: Rates, before: seq<Op>, ops: seq<Op>, key: string)
    requires rates.Valid()
    ensures AnswersTo(rates, Next(rates, End(rates, map[], before), Forget(key)), ops, key)
            == AnswersTo(rates, map[], OnlyOf(ops, key), key)
  {
    OthersAreInvisible(rates, Next(rates, End(rates, map[], before), Forget(key)), map[], ops, key);
  }

  // ---- waiting as long as one is told -----------------------------------------------------------------

  ghost predicate NoGrant(rates: Rates, buckets: Buckets, ops: seq<Op>, key: string)
    requires rates.Valid()
    decreases ops
  {
    ops == [] || (!Grants(rates, buckets, ops[0], key) && NoGrant(rates, Next(rates, buckets, ops[0]), ops[1..], key))
  }

  lemma {:induction false} LevelKept(rates: Rates, buckets: Buckets, ops: seq<Op>, key: string, from: real, until: real)
    requires rates.Valid() && rates.Limit? && AllSound(rates, buckets, from) && Timed(ops, from, until)
    requires Forget(key) !in ops && NoGrant(rates, buckets, ops, key)
    ensures Level(rates, Lookup(End(rates, buckets, ops), key), until) == Level(rates, Lookup(buckets, key), until)
    decreases ops
  {
    if ops != [] {
      var now := if ops[0].Forget? then from else ops[0].now;
      TimedForward(ops[1..], now, until);
      SoundKept(rates, buckets, ops[0], from, now);
      LevelAfter(rates, buckets, ops[0], from, now, key, until);
      LevelKept(rates, Next(rates, buckets, ops[0]), ops[1..], key, now, until);
    }
  }

  lemma WaitRefills(rates: Rates, level: real, cost: real, wait: real)
    requires rates.Valid() && rates.Limit? && level < cost && 0.0 <= wait
    ensures var told := Ceil((cost - level) / rates.perSecond * 1000.0) as real;
            (wait >= told ==> level + Refill(rates, wait) >= cost)
            && (wait <= told - 1.0 ==> level + Refill(rates, wait) < cost)
  {
    var need := (cost - level) / rates.perSecond * 1000.0;
    assert Refill(rates, need) == cost - level;
    RefillAdds(rates, need, wait - need);
    RefillAdds(rates, wait, need - wait);
    assert wait < need ==> Refill(rates, need - wait) > 0.0;
  }

  /** `retryAfter` is the time to wait at so many tokens a second: enough, and no earlier whole millisecond is. */
  lemma WaitIsExact(rates: Rates, level: real, cost: real, wait: real)
    requires rates.Valid() && rates.Limit? && level < cost && 0.0 <= wait
    ensures var told := Ceil((cost - level) / rates.perSecond * 1000.0) as real;
            (wait >= told ==> level + rates.perSecond * (wait / 1000.0) >= cost)
            && (wait <= told - 1.0 ==> level + rates.perSecond * (wait / 1000.0) < cost)
  {
    WaitRefills(rates, level, cost, wait);
    RefillIs(rates, wait);
  }

  /**
   * A take that was refused is accepted once its own `retryAfter` has passed, if its cost fits the
   * burst and nothing was granted to the key meanwhile; and a millisecond less is not enough.
   */
  lemma RetryAfterIsExact(rates: Rates, buckets: Buckets, key: string, cost: nat, now: real, told: int,
                          ops: seq<Op>, later: real)
    requires rates.Valid() && rates.Limit? && cost as real <= rates.burst && AllSound(rates, buckets, now)
    requires Answered(rates, buckets, Take(key, cost, now)) == Refused(told)
    requires var after := Next(rates, buckets, Take(key, cost, now));
             Timed(ops, now, later) && Forget(key) !in ops && NoGrant(rates, after, ops, key)
    ensures var end := End(rates, Next(rates, buckets, Take(key, cost, now)), ops);
            && (later >= now + told as real ==> Answered(rates, end, Take(key, cost, later)) == Allowed)
            && (later <= now + told as real - 1.0 ==> Answered(rates, end, Take(key, cost, later)) != Allowed)
  {
    var first := Take(key, cost, now);
    var after := Next(rates, buckets, first);
    TimedForward(ops, now, later);
    SoundKept(rates, buckets, first, now, now);
    LevelKept(rates, after, ops, key, now, later);
    LevelAfter(rates, buckets, first, now, now, key, later);
    assert Sound(rates, Lookup(buckets, key), now);
    LevelRises(rates, Lookup(buckets, key), now, later);
    WaitRefills(rates, Level(rates, Lookup(buckets, key), now), cost as real, later - now);
  }
}
