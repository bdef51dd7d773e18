/** The token bucket of src/rate_limiter.py, with time as a real-valued clock reading.

    Every critical section guarded by a bucket's lock is one `Region`, so a sequence of regions
    is what any number of threads sharing the bucket can do, in whatever order they get the lock.
 */
module TokenBuckets {
  import opened Util

  /** A bucket's fields. */
  datatype Level = Level(capacity: real, rate: real, tokens: real, last: real) {
    /** What every lock region keeps: never negative, never above capacity. */
    predicate Valid() {
      0.0 <= tokens <= capacity && 0.0 <= rate
    }
  }

  datatype Region =
    | Take(at: real)   // refill, then take a token if one is there
    | Peek(at: real)   // refill and report
    | Refund(at: real) // give one token back, without refilling
    | Reset(at: real)  // fill up and restart the refill clock

  function Min(a: real, b: real): real {
    if a <= b then a else b
  }

  /** Tokens that flow in over `span` seconds. */
  function Flow(rate: real, span: real): real {
    span * rate
  }

  lemma FlowAdds(rate: real, x: real, y: real)
    ensures Flow(rate, x + y) == Flow(rate, x) + Flow(rate, y)
    ensures Flow(rate, 0.0) == 0.0
  {
  }

  lemma FlowGrows(rate: real, x: real, y: real)
    requires 0.0 <= rate && x <= y
    ensures Flow(rate, x) <= Flow(rate, y)
    ensures 0.0 < rate && x < y ==> Flow(rate, x) < Flow(rate, y)
    ensures 0.0 <= x ==> 0.0 <= Flow(rate, x)
  {
    Products(y - x, rate);
    Products(x, rate);
    assert y * rate == x * rate + (y - x) * rate;
  }

  lemma Products(x: real, r: real)
    requires 0.0 <= r
    ensures 0.0 <= x ==> 0.0 <= x * r
    ensures 0.0 < x && 0.0 < r ==> 0.0 < x * r
  {
  }

  /** The span in which `amount` flows in. */
  lemma FlowOfQuotient(rate: real, amount: real)
    requires 0.0 < rate && 0.0 <= amount
    ensures 0.0 <= amount / rate && Flow(rate, amount / rate) == amount
  {
  }

  function Refilled(b: Level, now: real): Level {
    b.(tokens := Min(b.capacity, b.tokens + Flow(b.rate, now - b.last)), last := now)
  }

  predicate CanTake(b: Level, now: real) {
    Refilled(b, now).tokens >= 1.0
  }

  function Taken(b: Level, now: real): Level {
    var r := Refilled(b, now);
    if r.tokens >= 1.0 then r.(tokens := r.tokens - 1.0) else r
  }

  function Refunded(b: Level): Level {
    b.(tokens := Min(b.capacity, b.tokens + 1.0))
  }

  function Full(b: Level, now: real): Level {
    b.(tokens := b.capacity, last := now)
  }

  function Apply(b: Level, op: Region): Level {
    match op
    case Take(at) => Taken(b, at)
    case Peek(at) => Refilled(b, at)
    case Refund(_) => Refunded(b)
    case Reset(at) => Full(b, at)
  }

  /** Tokens the region takes out, net of what it puts back. */
  function Gain(b: Level, op: Region): int {
    match op
    case Take(at) => if CanTake(b, at) then 1 else 0
    case Refund(_) => -1
    case _ => 0
  }

  function ResetCount(op: Region): nat {
    if op.Reset? then 1 else 0
  }

  function After(b: Level, ops: seq<Region>): Level
    decreases |ops|
  {
    if ops == [] then b else After(Apply(b, ops[0]), ops[1..])
  }

  function NetTaken(b: Level, ops: seq<Region>): int
    decreases |ops|
  {
    if ops == [] then 0 else Gain(b, ops[0]) + NetTaken(Apply(b, ops[0]), ops[1..])
  }

  function Resets(ops: seq<Region>): nat {
    if ops == [] then 0 else ResetCount(ops[0]) + Resets(ops[1..])
  }

  /** The clock never runs backwards from `start` on. */
  ghost predicate Chronological(start: real, ops: seq<Region>) {
    && (forall i :: 0 <= i < |ops| ==> start <= ops[i].at)
    && (forall i, j :: 0 <= i < j < |ops| ==> ops[i].at <= ops[j].at)
  }

  /** Tokens on hand at time t, counting the refill not yet credited. */
  function Avail(b: Level, t: real): real {
    if t <= b.last then b.tokens else Refilled(b, t).tokens
  }

  lemma AvailGrowth(b: Level, s: real, t: real)
    requires b.Valid() && s <= t
    ensures 0.0 <= Avail(b, s) <= Avail(b, t) <= b.capacity
    ensures Avail(b, t) <= Avail(b, s) + Flow(b.rate, t - s)
  {
    hide Flow;
    var ds := if s <= b.last then 0.0 else s - b.last;
    var dt := if t <= b.last then 0.0 else t - b.last;
    FlowGrows(b.rate, 0.0, ds);
    FlowGrows(b.rate, ds, dt);
    FlowGrows(b.rate, dt - ds, t - s);
    FlowAdds(b.rate, ds, dt - ds);
  }

  /** Tokens that `resets` resets can grant. */
  function ResetTokens(capacity: real, resets: nat): real {
    resets as real * capacity
  }

  lemma ResetTokensAdd(capacity: real, m: nat, n: nat)
    ensures ResetTokens(capacity, m + n) == ResetTokens(capacity, m) + ResetTokens(capacity, n)
    ensures ResetTokens(capacity, 0) == 0.0
    ensures ResetTokens(capacity, 1) == capacity
    ensures 0.0 <= capacity ==> 0.0 <= ResetTokens(capacity, n)
  {
    var x, y := m as real, n as real;
    assert (m + n) as real == x + y;
    assert (x + y) * capacity == x * capacity + y * capacity;
    if 0.0 <= capacity {
      Products(y, capacity);
    }
  }

  /** What a bucket can hand out beyond its tokens: the inflow of `span` seconds and the resets. */
  function Allowance(b: Level, resets: nat, span: real): real {
    Flow(b.rate, span) + ResetTokens(b.capacity, resets)
  }

  lemma AllowanceAdds(b: Level, b': Level, m: nat, x: real, n: nat, y: real)
    requires b'.capacity == b.capacity && b'.rate == b.rate
    ensures Allowance(b, m + n, x + y) == Allowance(b, m, x) + Allowance(b', n, y)
  {
    hide Flow, ResetTokens;
    FlowAdds(b.rate, x, y);
    ResetTokensAdd(b.capacity, m, n);
  }

  lemma AllowanceNonneg(b: Level, n: nat, span: real)
    requires 0.0 <= b.capacity && 0.0 <= b.rate && 0.0 <= span
    ensures 0.0 <= Allowance(b, n, span)
    ensures Allowance(b, 0, span) == Flow(b.rate, span)
    ensures Allowance(b, 1, span) == Flow(b.rate, span) + b.capacity
  {
    hide Flow, ResetTokens;
    FlowGrows(b.rate, 0.0, span);
    FlowAdds(b.rate, 0.0, 0.0);
    ResetTokensAdd(b.capacity, 0, n);
  }

  lemma RefillStaysInRange(b: Level, at: real)
    requires b.Valid() && b.last <= at
    ensures b.tokens <= Refilled(b, at).tokens <= b.capacity
    ensures Avail(b, at) == Refilled(b, at).tokens
  {
    hide Flow;
    FlowGrows(b.rate, 0.0, at - b.last);
    FlowAdds(b.rate, 0.0, 0.0);
  }

  lemma TakeCharge(b: Level, at: real, s: real)
    requires b.Valid() && s <= at && b.last <= at
    ensures var b' := Taken(b, at);
      && b'.Valid() && b'.capacity == b.capacity && b'.rate == b.rate && b'.last <= at
      && Gain(b, Take(at)) as real + Avail(b', at) <= Avail(b, s) + Allowance(b, 0, at - s)
  {
    hide Flow, Allowance;
    AvailGrowth(b, s, at);
    AllowanceNonneg(b, 0, at - s);
    RefillStaysInRange(b, at);
  }

  lemma RefundCharge(b: Level, at: real, s: real)
    requires b.Valid() && s <= at && b.last <= at
    ensures var b' := Refunded(b);
      && b'.Valid() && b'.capacity == b.capacity && b'.rate == b.rate && b'.last <= at
      && Gain(b, Refund(at)) as real + Avail(b', at) <= Avail(b, s) + Allowance(b, 0, at - s)
  {
    hide Flow, Allowance;
    AvailGrowth(b, s, at);
    AllowanceNonneg(b, 0, at - s);
    RefillStaysInRange(b, at);
  }

  lemma ResetCharge(b: Level, at: real, s: real)
    requires b.Valid() && s <= at && b.last <= at
    ensures var b' := Full(b, at);
      && b'.Valid() && b'.capacity == b.capacity && b'.rate == b.rate && b'.last <= at
      && Avail(b', at) <= Avail(b, s) + Allowance(b, 1, at - s)
  {
    hide Flow, Allowance;
    AvailGrowth(b, s, at);
    AllowanceNonneg(b, 1, at - s);
    FlowGrows(b.rate, 0.0, at - s);
    FlowAdds(b.rate, 0.0, 0.0);
  }

  lemma PeekCharge(b: Level, at: real, s: real)
    requires b.Valid() && s <= at && b.last <= at
    ensures var b' := Refilled(b, at);
      && b'.Valid() && b'.capacity == b.capacity && b'.rate == b.rate && b'.last <= at
      && Avail(b', at) <= Avail(b, s) + Allowance(b, 0, at - s)
  {
    hide Flow, Allowance;
    AvailGrowth(b, s, at);
    AllowanceNonneg(b, 0, at - s);
    RefillStaysInRange(b, at);
  }

  /** The accounting of one region: what it takes out was either on hand, or flowed in, or was
      granted by a reset. */
  lemma Charge(b: Level, op: Region, s: real)
    requires b.Valid() && s <= op.at && b.last <= op.at
    ensures var b' := Apply(b, op);
      && b'.Valid() && b'.capacity == b.capacity && b'.rate == b.rate && b'.last <= op.at
      && Gain(b, op) as real + Avail(b', op.at)
         <= Avail(b, s) + Allowance(b, ResetCount(op), op.at - s)
  {
    hide Flow, Allowance, Avail, Refilled, Taken, Refunded, Full, CanTake;
    match op {
      case Take(at) => TakeCharge(b, at, s);
      case Peek(at) => PeekCharge(b, at, s);
      case Refund(at) => RefundCharge(b, at, s);
      case Reset(at) => ResetCharge(b, at, s);
    }
  }

  /** tokens stays in [0, capacity] over every run, whatever the interleaving of lock regions. */
  lemma {:induction false} StaysInRange(b: Level, ops: seq<Region>)
    requires b.Valid() && Chronological(b.last, ops)
    ensures var b' := After(b, ops);
      && b'.Valid() && b'.capacity == b.capacity && b'.rate == b.rate
      && b'.last <= if ops == [] then b.last else ops[|ops| - 1].at
    decreases |ops|
  {
    if ops != [] {
      Charge(b, ops[0], b.last);
      StaysInRange(Apply(b, ops[0]), ops[1..]);
    }
  }

  ghost predicate Within(s: real, ops: seq<Region>, e: real) {
    forall i :: 0 <= i < |ops| ==> s <= ops[i].at <= e
  }

  lemma {:induction false} RunBound(b: Level, ops: seq<Region>, s: real, e: real)
    requires b.Valid() && Chronological(b.last, ops) && s <= e && Within(s, ops, e)
    ensures NetTaken(b, ops) as real <= Avail(b, s) + Allowance(b, Resets(ops), e - s)
    decreases |ops|
  {
    if ops == [] {
      AvailGrowth(b, s, e);
      AllowanceNonneg(b, 0, e - s);
    } else {
      hide Allowance, Avail, Apply, Gain;
      var op, b' := ops[0], Apply(b, ops[0]);
      Charge(b, op, s);
      RunBound(b', ops[1..], op.at, e);
      AllowanceAdds(b, b', ResetCount(op), op.at - s, Resets(ops[1..]), e - op.at);
    }
  }

  lemma {:induction false} AfterConcat(b: Level, xs: seq<Region>, ys: seq<Region>)
    ensures After(b, xs + ys) == After(After(b, xs), ys)
    ensures NetTaken(b, xs + ys) == NetTaken(b, xs) + NetTaken(After(b, xs), ys)
    decreases |xs|
  {
    if xs == [] {
      assert xs + ys == ys;
    } else {
      assert (xs + ys)[1..] == xs[1..] + ys;
      AfterConcat(Apply(b, xs[0]), xs[1..], ys);
    }
  }

  /** The rate limit: in the part `window` of any run that lies in [s, e], tokens taken minus
      tokens refunded are at most capacity + rate * (e - s), plus one capacity per reset in the window. */
  lemma WindowBound(b: Level, before: seq<Region>, window: seq<Region>, s: real, e: real)
    requires b.Valid() && Chronological(b.last, before + window) && s <= e && Within(s, window, e)
    ensures NetTaken(b, before + window) - NetTaken(b, before) == NetTaken(After(b, before), window)
    ensures NetTaken(After(b, before), window) as real
         <= b.capacity + b.rate * (e - s) + Resets(window) as real * b.capacity
  {
    hide *;
    AllowanceIs(b, Resets(window), e - s);
    var mid := After(b, before);
    AfterConcat(b, before, window);
    SplitRun(b, before, window);
    RunBound(mid, window, s, e);
    AvailAtMostCapacity(mid, s);
    AllowanceAdds(b, mid, 0, 0.0, Resets(window), e - s);
    NoAllowance(b);
  }

  lemma AllowanceIs(b: Level, resets: nat, span: real)
    ensures Allowance(b, resets, span) == b.rate * span + resets as real * b.capacity
  {
  }

  lemma AvailAtMostCapacity(b: Level, at: real)
    requires b.Valid()
    ensures Avail(b, at) <= b.capacity
  {
    AvailGrowth(b, at, at);
  }

  lemma NoAllowance(b: Level)
    ensures Allowance(b, 0, 0.0) == 0.0
  {
    hide Flow, ResetTokens;
    FlowAdds(b.rate, 0.0, 0.0);
    ResetTokensAdd(b.capacity, 0, 0);
  }

  lemma SplitRun(b: Level, before: seq<Region>, window: seq<Region>)
    requires b.Valid() && Chronological(b.last, before + window)
    ensures var mid := After(b, before);
      && mid.Valid() && mid.capacity == b.capacity && mid.rate == b.rate
      && Chronological(mid.last, window)
  {
    hide After, Level.Valid;
    var all := before + window;
    assert forall i :: 0 <= i < |before| ==> before[i] == all[i];
    assert forall i :: 0 <= i < |window| ==> window[i] == all[|before| + i];
    StaysInRange(b, before);
  }

  /** The k-th request of the greedy schedule: as soon as the k-th token exists. */
  function GreedyTime(capacity: real, rate: real, s: real, k: nat): real
    requires rate > 0.0
  {
    if k as real <= capacity then s else s + (k as real - capacity) / rate
  }

  function Greedy(capacity: real, rate: real, s: real, k: nat): seq<Region>
    requires rate > 0.0
  {
    if k == 0 then [] else Greedy(capacity, rate, s, k - 1) + [Take(GreedyTime(capacity, rate, s, k))]
  }

  /** The bucket after its k-th greedy take. */
  function GreedyLevel(capacity: real, rate: real, s: real, k: nat, t: real): Level {
    Level(capacity, rate, capacity + Flow(rate, t - s) - k as real, t)
  }

  lemma {:induction false} GreedyTakesAll(capacity: real, rate: real, s: real, k: nat)
    requires rate > 0.0 && capacity >= 1.0
    ensures var ops, t := Greedy(capacity, rate, s, k), GreedyTime(capacity, rate, s, k);
      var b := Level(capacity, rate, capacity, s);
      && |ops| == k && Chronological(s, ops) && Within(s, ops, t) && s <= t
      && NetTaken(b, ops) == k
      && After(b, ops) == GreedyLevel(capacity, rate, s, k, t)
  {
    var b := Level(capacity, rate, capacity, s);
    if k == 0 {
      NoTimePassed(capacity, rate, s);
    } else {
      hide Apply, Gain, GreedyTime, GreedyLevel, CanTake, Taken;
      var ops := Greedy(capacity, rate, s, k - 1);
      var t, t' := GreedyTime(capacity, rate, s, k - 1), GreedyTime(capacity, rate, s, k);
      GreedyTakesAll(capacity, rate, s, k - 1);
      GreedyStep(capacity, rate, s, k);
      AfterConcat(b, ops, [Take(t')]);
      GreedyTake(capacity, rate, s, t, k, t');
      TakeOnce(After(b, ops), t');
    }
  }

  lemma NoTimePassed(capacity: real, rate: real, s: real)
    requires rate > 0.0 && capacity >= 1.0
    ensures GreedyTime(capacity, rate, s, 0) == s
    ensures GreedyLevel(capacity, rate, s, 0, s) == Level(capacity, rate, capacity, s)
  {
    FlowAdds(rate, 0.0, 0.0);
  }

  /** Enough for the k-th token, and not so late that the capacity cuts the refill off. */
  predicate TokenReady(capacity: real, rate: real, s: real, k: nat, t: real) {
    k as real - capacity <= Flow(rate, t - s) <= k as real - 1.0
  }

  lemma TakeOnce(b: Level, at: real)
    ensures After(b, [Take(at)]) == Taken(b, at)
    ensures NetTaken(b, [Take(at)]) == if CanTake(b, at) then 1 else 0
  {
    assert After(b, [Take(at)]) == After(Taken(b, at), []);
    assert NetTaken(b, [Take(at)]) == Gain(b, Take(at)) + NetTaken(Taken(b, at), []);
  }

  lemma GreedyTake(capacity: real, rate: real, s: real, t: real, k: nat, t': real)
    requires rate > 0.0 && k > 0 && t <= t' && TokenReady(capacity, rate, s, k, t')
    ensures var b := GreedyLevel(capacity, rate, s, k - 1, t);
      CanTake(b, t') && Taken(b, t') == GreedyLevel(capacity, rate, s, k, t')
  {
    hide Flow;
    FlowAdds(rate, t - s, t' - t);
  }

  lemma GreedyStep(capacity: real, rate: real, s: real, k: nat)
    requires rate > 0.0 && capacity >= 1.0 && k > 0
    ensures s <= GreedyTime(capacity, rate, s, k - 1) <= GreedyTime(capacity, rate, s, k)
    ensures TokenReady(capacity, rate, s, k, GreedyTime(capacity, rate, s, k))
  {
    hide Flow;
    FlowAdds(rate, 0.0, 0.0);
    if k as real > capacity {
      FlowOfQuotient(rate, k as real - capacity);
      if (k - 1) as real > capacity {
        Quotients((k - 1) as real - capacity, k as real - capacity, rate);
        FlowOfQuotient(rate, (k - 1) as real - capacity);
      }
    }
  }

  lemma Quotients(x: real, y: real, r: real)
    requires 0.0 < r && x <= y
    ensures x / r <= y / r
  {
    FlowOfQuotient(r, y - x);
    assert y / r == x / r + (y - x) / r;
  }

  /** The window bound cannot be improved: from a full bucket, every whole number of tokens up to
      capacity + rate * (e - s) really is taken by some run inside [s, e]. */
  lemma WindowBoundIsTight(capacity: real, rate: real, s: real, e: real, k: nat) returns (ops: seq<Region>)
    requires rate > 0.0 && capacity >= 1.0 && s <= e
    requires k as real <= capacity + Flow(rate, e - s)
    ensures Chronological(s, ops) && Resets(ops) == 0
    ensures Within(s, ops, e)
    ensures NetTaken(Level(capacity, rate, capacity, s), ops) == k
  {
    hide *;
    ops := Greedy(capacity, rate, s, k);
    GreedyTakesAll(capacity, rate, s, k);
    GreedyNoResets(capacity, rate, s, k);
    GreedyInTime(capacity, rate, s, e, k);
    WithinLonger(s, ops, GreedyTime(capacity, rate, s, k), e);
  }

  /** What a reset is for: at that very moment a whole bucket of requests can be served at once. */
  lemma ResetGrantsBurst(b: Level, at: real, k: nat) returns (ops: seq<Region>)
    requires b.rate > 0.0 && b.capacity >= 1.0 && k as real <= b.capacity
    ensures Resets(ops) == 0 && Within(at, ops, at)
    ensures NetTaken(Apply(b, Reset(at)), ops) == k
  {
    hide Greedy, NetTaken, Flow;
    FlowAdds(b.rate, 0.0, 0.0);
    ops := WindowBoundIsTight(b.capacity, b.rate, at, at, k);
  }

  lemma WithinLonger(s: real, ops: seq<Region>, e: real, e': real)
    requires Within(s, ops, e) && e <= e'
    ensures Within(s, ops, e')
  {
  }

  lemma GreedyInTime(capacity: real, rate: real, s: real, e: real, k: nat)
    requires rate > 0.0 && s <= e && k as real <= capacity + Flow(rate, e - s)
    ensures GreedyTime(capacity, rate, s, k) <= e
  {
    hide Flow;
    if k as real > capacity {
      FlowOfQuotient(rate, k as real - capacity);
      if (k as real - capacity) / rate > e - s {
        FlowGrows(rate, e - s, (k as real - capacity) / rate);
        assert false;
      }
    }
  }

  lemma {:induction false} GreedyNoResets(capacity: real, rate: real, s: real, k: nat)
    requires rate > 0.0
    ensures forall op :: op in Greedy(capacity, rate, s, k) ==> op.Take?
    ensures Resets(Greedy(capacity, rate, s, k)) == 0
  {
    if k > 0 {
      GreedyNoResets(capacity, rate, s, k - 1);
    }
    TakesNeverReset(Greedy(capacity, rate, s, k));
  }

  lemma {:induction false} TakesNeverReset(ops: seq<Region>)
    requires forall op :: op in ops ==> op.Take?
    ensures Resets(ops) == 0
  {
    if ops != [] {
      assert ops[0] in ops;
      TakesNeverReset(ops[1..]);
    }
  }

  /** Giving the token back right after taking it leaves exactly the refilled bucket: the same
      tokens now and at every later reading. */
  lemma RefundUndoesTake(b: Level, now: real)
    requires b.Valid() && b.last <= now && CanTake(b, now)
    ensures Refunded(Taken(b, now)) == Refilled(b, now)
    ensures forall later :: now <= later ==> Avail(Refunded(Taken(b, now)), later) == Avail(b, later)
  {
    hide Flow;
    forall later | now <= later
      ensures Avail(Refilled(b, now), later) == Avail(b, later)
    {
      RefillTwice(b, now, later);
    }
  }

  /** Lazy refilling is invisible: refilling at `now` on the way to `later` changes nothing. */
  lemma RefillTwice(b: Level, now: real, later: real)
    requires b.Valid() && b.last <= now <= later
    ensures Refilled(Refilled(b, now), later) == Refilled(b, later)
    ensures Avail(Refilled(b, now), later) == Avail(b, later)
  {
    hide Flow;
    FlowGrows(b.rate, 0.0, now - b.last);
    FlowGrows(b.rate, 0.0, later - now);
    FlowAdds(b.rate, now - b.last, later - now);
    FlowAdds(b.rate, 0.0, 0.0);
  }

  /** The process clock; `Sleep` is exact. */
  class Clock {
    var now: real

    constructor (start: real)
      ensures now == start
    {
      now := start;
    }

    method Sleep(seconds: real)
      requires 0.0 <= seconds
      modifies this
      ensures now == old(now) + seconds
    {
      now := now + seconds;
    }
  }

  /** How a blocking acquire ends.  With a refill rate of 0 it divides by 0 as soon as it has to wait. */
  datatype Answer = Acquired | TimedOut | DividedByZero

  /** How it ends for a caller that finds `first` tokens.  A bucket of capacity below 1 never holds a
      token, so without a timeout that caller would wait for ever. */
  function WaitAnswer(first: real, b: Level, timeout: Option<real>): Answer {
    if first >= 1.0 then Acquired
    else if b.rate == 0.0 then DividedByZero
    else if b.capacity >= 1.0 && (timeout.None? || (timeout.value > 0.0 && first + Flow(b.rate, timeout.value) >= 1.0))
      then Acquired
    else TimedOut
  }

  /** Whether it ends at all. */
  predicate Answers(b: Level, timeout: Option<real>) {
    b.capacity >= 1.0 || b.rate == 0.0 || timeout.Some?
  }

  /** How long that caller is kept. */
  function WaitTime(first: real, b: Level, timeout: Option<real>): real {
    if first >= 1.0 || b.rate == 0.0 || (timeout.Some? && timeout.value <= 0.0) then 0.0
    else if WaitAnswer(first, b, timeout).Acquired? || timeout.None? then (1.0 - first) / b.rate
    else timeout.value
  }

  lemma WaitTimeInRange(first: real, b: Level, timeout: Option<real>)
    requires b.rate >= 0.0
    ensures 0.0 <= WaitTime(first, b, timeout)
    ensures timeout.None? && Answers(b, timeout) ==> !WaitAnswer(first, b, timeout).TimedOut?
    ensures timeout.Some? ==> WaitTime(first, b, timeout) <= if timeout.value <= 0.0 then 0.0 else timeout.value
  {
    hide Flow;
    if first < 1.0 && b.rate > 0.0 {
      FlowOfQuotient(b.rate, 1.0 - first);
      if timeout.Some? && timeout.value < (1.0 - first) / b.rate {
        FlowGrows(b.rate, timeout.value, (1.0 - first) / b.rate);
      }
    }
  }

  /** How a blocking acquire ends, case by case.  It asks nothing of the clock when a token is there.  A rate of
      0 divides by 0.  A bucket that can hold a token serves the caller when the token exists, if that is
      within the timeout; otherwise the caller leaves when the timeout is over. */
  lemma WaitCases(first: real, b: Level, timeout: Option<real>)
    requires b.rate >= 0.0
    ensures var answer, time := WaitAnswer(first, b, timeout), WaitTime(first, b, timeout);
      && (first >= 1.0 ==> answer == Acquired && time == 0.0)
      && (first < 1.0 && b.rate == 0.0 ==> answer == DividedByZero && time == 0.0)
      && (first < 1.0 && b.rate > 0.0 ==>
            var wait := (1.0 - first) / b.rate;
            && (timeout.None? && b.capacity >= 1.0 ==> answer == Acquired && time == wait)
            && (timeout.Some? && timeout.value <= 0.0 ==> answer == TimedOut && time == 0.0)
            && (timeout.Some? && timeout.value > 0.0 && b.capacity >= 1.0 && wait <= timeout.value ==>
                  answer == Acquired && time == wait)
            && (timeout.Some? && timeout.value > 0.0 && (b.capacity < 1.0 || wait > timeout.value) ==>
                  answer == TimedOut && time == timeout.value))
  {
    hide Flow;
    if first < 1.0 && b.rate > 0.0 && timeout.Some? {
      var wait := (1.0 - first) / b.rate;
      FlowOfQuotient(b.rate, 1.0 - first);
      FlowGrows(b.rate, Min(timeout.value, wait), wait);
      FlowGrows(b.rate, Min(timeout.value, wait), timeout.value);
    }
  }

  function UntilNextToken(b: Level): real
    requires b.rate != 0.0
  {
    (1.0 - b.tokens) / b.rate
  }

  /** k naps of at least `nap` seconds each. */
  function Naps(nap: real, k: nat): real {
    if k == 0 then 0.0 else Naps(nap, k - 1) + nap
  }

  lemma {:induction false} NapsPassAll(nap: real, span: real) returns (n: nat)
    requires nap > 0.0
    ensures Naps(nap, n) > span
    decreases if span < 0.0 then 0 else 1 + (span / nap).Floor
  {
    if span < 0.0 {
      return 0;
    }
    NapsLeft(nap, span);
    var m := NapsPassAll(nap, span - nap);
    n := m + 1;
  }

  lemma FloorLess(x: real)
    ensures (x + 1.0).Floor == x.Floor + 1
  {
  }

  lemma NapsLeft(nap: real, span: real)
    requires nap > 0.0 && span >= 0.0
    ensures (span / nap).Floor >= 0
    ensures span - nap >= 0.0 ==> ((span - nap) / nap).Floor < (span / nap).Floor
  {
    Quotients(0.0, span, nap);
    var rest := span - nap;
    assert span / nap == rest / nap + (span - rest) / nap;
    assert (span - rest) / nap == 1.0 by {
      assert span - rest == nap;
    }
    FloorLess(rest / nap);
  }

  /** Looks at a bucket, at these times and each in a lock region of its own, that found no token. */
  ghost predicate InVain(b: Level, looks: seq<Region>, start: real, until: real) {
    && start <= until && Chronological(start, looks) && Within(start, looks, until)
    && (forall i :: 0 <= i < |looks| ==> looks[i].Take?)
    && NetTaken(b, looks) == 0
  }

  /** Such looks and a last one, which found a token if `got`. */
  ghost predicate IsWait(b: Level, looks: seq<Region>, got: bool, start: real, until: real) {
    && looks != [] && InVain(b, looks[..|looks| - 1], start, until)
    && Chronological(start, looks) && Within(start, looks, until)
    && looks[|looks| - 1].Take?
    && NetTaken(b, looks) == if got then 1 else 0
  }

  lemma InVainLonger(b: Level, looks: seq<Region>, start: real, until: real, later: real)
    requires InVain(b, looks, start, until) && until <= later
    ensures InVain(b, looks, start, later)
  {
  }

  /** How many looks a caller takes that finds `first` tokens: one when it need not or cannot wait, else
      two in a bucket that can hold a token.  In a smaller one it naps for at least as long as the full
      bucket would take to a whole token, each time but the last, so its time allows only so many. */
  ghost predicate LooksFit(b: Level, first: real, timeout: Option<real>, n: nat) {
    if first >= 1.0 || b.rate == 0.0 || (timeout.Some? && timeout.value <= 0.0) then n == 1
    else if b.capacity >= 1.0 then n == 2
    else n >= 2 && timeout.Some? && Naps((1.0 - b.capacity) / b.rate, n - 2) < timeout.value
  }

  /** What a blocking acquire on `b`, begun at `start`, has done by its end: it gave this answer, at this
      time, and took a token exactly if it says so, at the last of its looks. */
  ghost predicate Waited(b: Level, start: real, timeout: Option<real>, answer: Answer, looks: seq<Region>,
                         view: Level, now: real)
  {
    var first := Refilled(b, start).tokens;
    && view.Valid() && view.last == now
    && answer == WaitAnswer(first, b, timeout)
    && now == start + WaitTime(first, b, timeout)
    && view.tokens == Refilled(b, now).tokens - (if answer.Acquired? then 1.0 else 0.0)
    && view == After(b, looks) && IsWait(b, looks, answer.Acquired?, start, now)
    && LooksFit(b, first, timeout, |looks|)
  }

  lemma LookOnce(b: Level, looks: seq<Region>, start: real, now: real)
    requires InVain(b, looks, start, now)
    ensures var last, looks' := After(b, looks), looks + [Take(now)];
      && After(b, looks') == Taken(last, now)
      && IsWait(b, looks', CanTake(last, now), start, now)
      && (!CanTake(last, now) ==> InVain(b, looks', start, now))
  {
    hide CanTake, Taken, After, NetTaken;
    AfterConcat(b, looks, [Take(now)]);
    TakeOnce(After(b, looks), now);
    assert (looks + [Take(now)])[..|looks|] == looks;
  }

  class TokenBucket {
    const capacity: real
    const refillRate: real
    var tokens: real
    var lastRefill: real

    function View(): Level
      reads this
    {
      Level(capacity, refillRate, tokens, lastRefill)
    }

    constructor (capacity: real, refillRate: real, now: real)
      ensures View() == Level(capacity, refillRate, capacity, now)
    {
      this.capacity := capacity;
      this.refillRate := refillRate;
      this.tokens := capacity;
      this.lastRefill := now;
    }

    method Refill(now: real)
      modifies this
      ensures View() == Refilled(old(View()), now) && lastRefill == now
      ensures var more := old(tokens) + (now - old(lastRefill)) * refillRate;
        tokens == if more < capacity then more else capacity
    {
      var elapsed := now - lastRefill;
      var tokensToAdd := elapsed * refillRate;
      tokens := if capacity <= tokens + tokensToAdd then capacity else tokens + tokensToAdd;
      lastRefill := now;
    }

    method TryAcquire(now: real) returns (ok: bool)
      modifies this
      ensures View() == Apply(old(View()), Take(now))
      ensures ok == (Gain(old(View()), Take(now)) == 1)
      ensures var more := old(tokens) + (now - old(lastRefill)) * refillRate;
        var ready := if more < capacity then more else capacity;
        ok == (ready >= 1.0) && tokens == (if ready >= 1.0 then ready - 1.0 else ready) && lastRefill == now
    {
      Refill(now);
      if tokens >= 1.0 {
        tokens := tokens - 1.0;
        return true;
      }
      return false;
    }

    method AvailableTokens(now: real) returns (available: real)
      modifies this
      ensures View() == Apply(old(View()), Peek(now))
      ensures var more := old(tokens) + (now - old(lastRefill)) * refillRate;
        available == tokens == (if more < capacity then more else capacity) && lastRefill == now
    {
      Refill(now);
      return tokens;
    }

    method GiveBack()
      modifies this
      ensures View() == Refunded(old(View()))
      ensures tokens == (if old(tokens) + 1.0 < capacity then old(tokens) + 1.0 else capacity)
      ensures lastRefill == old(lastRefill)
    {
      tokens := if capacity <= tokens + 1.0 then capacity else tokens + 1.0;
    }

    method FillUp(now: real)
      modifies this
      ensures View() == Full(old(View()), now)
      ensures tokens == capacity && lastRefill == now
    {
      tokens := capacity;
      lastRefill := now;
    }

    /** The blocking acquire, alone on the bucket and with exact sleeps.  What the first look finds
        decides the outcome: it succeeds at once when a token is there, and otherwise exactly when the
        token will exist by the deadline.  In a bucket of capacity 1 or more it looks twice at most. */
    method Acquire(clock: Clock, timeout: Option<real>) returns (answer: Answer, ghost looks: seq<Region>)
      requires View().Valid() && lastRefill <= clock.now && Answers(View(), timeout)
      modifies this, clock
      ensures Waited(old(View()), old(clock.now), timeout, answer, looks, View(), clock.now)
      ensures 1 <= |looks| && (capacity >= 1.0 ==> |looks| <= 2)
    {
      hide *;
      ghost var b, start := View(), clock.now;
      ghost var n := EnoughNaps(b, timeout);
      ViewIs();
      LookingStarts(b, start, timeout);
      var deadline := if timeout.None? then None else Some(clock.now + timeout.value);
      looks := [];
      while true
        invariant deadline == if timeout.None? then None else Some(start + timeout.value)
        invariant Looking(b, start, timeout, View(), clock.now, looks)
        decreases LooksLeft(b, start, timeout, clock.now, |looks|, n)
      {
        ghost var view, now := View(), clock.now;
        LookEnds(b, start, timeout, view, now, looks, n);
        Refill(clock.now);
        looks := looks + [Take(now)];
        ViewIs();
        if tokens >= 1.0 {
          tokens := tokens - 1.0;
          ViewIs();
          return Acquired, looks;
        }
        if refillRate == 0.0 {
          return DividedByZero, looks;
        }
        var waitTime := UntilNextToken(View());
        if deadline.Some? {
          var remaining := deadline.value - clock.now;
          if remaining <= 0.0 {
            return TimedOut, looks;
          }
          waitTime := Min(waitTime, remaining);
        }
        NapAfterIs(View(), start, timeout, now);
        clock.Sleep(waitTime);
      }
    }

    lemma ViewIs()
      ensures View() == Level(capacity, refillRate, tokens, lastRefill)
    {
    }
  }

  /** The one sleep, in a bucket of capacity 1 or more, of a caller that found `first` < 1 tokens. */
  function Nap(first: real, rate: real, timeout: Option<real>): real
    requires rate > 0.0
  {
    var wait := (1.0 - first) / rate;
    if timeout.None? || wait <= timeout.value then wait else timeout.value
  }

  /** Before every look but the first: where the last nap has led. */
  ghost predicate Waiting(b: Level, first: real, start: real, timeout: Option<real>, view: Level, now: real, k: nat) {
    && b.rate > 0.0 && first < 1.0 && !(timeout.Some? && timeout.value <= 0.0)
    && b.last <= start <= view.last <= now && view == Refilled(b, view.last)
    && (b.capacity >= 1.0 ==> k == 1 && view.last == start && now == start + Nap(first, b.rate, timeout))
    && (b.capacity < 1.0 ==>
          && k > 0 && timeout.Some? && now <= start + timeout.value
          && Naps((1.0 - b.capacity) / b.rate, k - 1) < timeout.value
          && (now < start + timeout.value ==> now - start >= Naps((1.0 - b.capacity) / b.rate, k)))
  }

  /** A caller that has looked k times, and looks again now. */
  ghost predicate AtLook(b: Level, first: real, start: real, timeout: Option<real>, view: Level, now: real, k: nat) {
    && b.Valid() && b.last <= start && first == Refilled(b, start).tokens && Answers(b, timeout)
    && (if k == 0 then view == b && now == start else Waiting(b, first, start, timeout, view, now, k))
  }

  /** In a small bucket: `n` naps are more than the time allowed. */
  ghost predicate Enough(b: Level, timeout: Option<real>, n: nat) {
    b.capacity < 1.0 && b.rate > 0.0 && timeout.Some? ==> Naps((1.0 - b.capacity) / b.rate, n) > timeout.value
  }

  lemma EnoughNaps(b: Level, timeout: Option<real>) returns (n: nat)
    ensures Enough(b, timeout, n)
  {
    n := 0;
    if b.capacity < 1.0 && b.rate > 0.0 && timeout.Some? {
      ProperQuotient(1.0 - b.capacity, b.rate);
      n := NapsPassAll((1.0 - b.capacity) / b.rate, timeout.value);
    }
  }

  lemma ProperQuotient(x: real, r: real)
    requires 0.0 < r && 0.0 < x
    ensures 0.0 < x / r
  {
    FlowOfQuotient(r, x);
  }

  /** How many more looks there can be. */
  function LooksLeft(b: Level, start: real, timeout: Option<real>, now: real, k: nat, n: nat): int {
    if b.capacity >= 1.0 then 2 - k
    else if timeout.Some? && now < start + timeout.value then n - k
    else 0
  }

  lemma LookIsLazy(b: Level, first: real, start: real, timeout: Option<real>, view: Level, now: real, k: nat)
    requires AtLook(b, first, start, timeout, view, now, k)
    ensures start <= now && view.last <= now && Refilled(view, now) == Refilled(b, now)
    ensures 0.0 <= Refilled(b, now).tokens <= b.capacity
  {
    hide Flow, Nap, Naps;
    FlowAdds(b.rate, 0.0, 0.0);
    if k > 0 {
      RefillTwice(b, view.last, now);
    }
    RefillStaysInRange(b, now);
  }

  lemma SecondLook(b: Level, timeout: Option<real>)
    requires 0.0 <= b.tokens < 1.0 <= b.capacity && b.rate > 0.0
    requires !(timeout.Some? && timeout.value <= 0.0)
    ensures var nap := Nap(b.tokens, b.rate, timeout);
      var left := Refilled(b, b.last + nap).tokens;
      && nap == WaitTime(b.tokens, b, timeout) && nap >= 0.0
      && (left >= 1.0 <==> WaitAnswer(b.tokens, b, timeout).Acquired?)
      && (left < 1.0 ==> timeout == Some(nap) && WaitAnswer(b.tokens, b, timeout).TimedOut?)
  {
    hide Flow;
    var nap, wait := Nap(b.tokens, b.rate, timeout), (1.0 - b.tokens) / b.rate;
    FlowOfQuotient(b.rate, 1.0 - b.tokens);
    FlowGrows(b.rate, 0.0, nap);
    FlowGrows(b.rate, nap, wait);
    FlowAdds(b.rate, 0.0, 0.0);
    if nap == wait && timeout.Some? {
      FlowGrows(b.rate, wait, timeout.value);
    }
  }

  lemma SecondLookAt(b: Level, first: real, start: real, timeout: Option<real>, view: Level, now: real, k: nat)
    requires AtLook(b, first, start, timeout, view, now, k) && k > 0 && b.capacity >= 1.0
    ensures k == 1 && now == start + WaitTime(first, b, timeout)
    ensures var left := Refilled(b, now).tokens;
      && (left >= 1.0 <==> WaitAnswer(first, b, timeout).Acquired?)
      && (left < 1.0 ==> timeout == Some(now - start) && WaitAnswer(first, b, timeout).TimedOut?)
  {
    hide Flow, Nap, Naps, WaitAnswer;
    LookIsLazy(b, first, start, timeout, view, now, k);
    FirstLook(b, start);
    SecondLook(view, timeout);
    SameWait(first, b, view, timeout);
  }

  lemma SameWait(first: real, b: Level, b': Level, timeout: Option<real>)
    requires b'.capacity == b.capacity && b'.rate == b.rate
    ensures WaitAnswer(first, b', timeout) == WaitAnswer(first, b, timeout)
    ensures WaitTime(first, b', timeout) == WaitTime(first, b, timeout)
  {
  }

  lemma FirstLook(b: Level, now: real)
    requires b.Valid() && b.last <= now
    ensures Refilled(b, now) == Level(b.capacity, b.rate, Refilled(b, now).tokens, now)
    ensures 0.0 <= Refilled(b, now).tokens <= b.capacity
  {
    RefillStaysInRange(b, now);
  }

  /** Whether the time is up. */
  predicate IsLate(start: real, timeout: Option<real>, now: real) {
    timeout.Some? && start + timeout.value - now <= 0.0
  }

  /** How a look ends the wait, if it does. */
  lemma LookSettles(b: Level, first: real, start: real, timeout: Option<real>, view: Level, now: real, k: nat)
    requires AtLook(b, first, start, timeout, view, now, k)
    ensures var left := Refilled(b, now).tokens;
      && (left >= 1.0 ==> WaitAnswer(first, b, timeout).Acquired?)
      && (left < 1.0 && b.rate == 0.0 ==> WaitAnswer(first, b, timeout).DividedByZero?)
      && (left < 1.0 && b.rate != 0.0 && IsLate(start, timeout, now) ==> WaitAnswer(first, b, timeout).TimedOut?)
      && (left >= 1.0 || b.rate == 0.0 || IsLate(start, timeout, now) ==>
            now == start + WaitTime(first, b, timeout))
  {
    hide Flow, Nap, Naps;
    LookIsLazy(b, first, start, timeout, view, now, k);
    if k > 0 && b.capacity >= 1.0 {
      hide WaitAnswer, WaitTime;
      SecondLookAt(b, first, start, timeout, view, now, k);
    }
  }

  lemma LastLookFits(b: Level, first: real, start: real, timeout: Option<real>, view: Level, now: real, k: nat)
    requires AtLook(b, first, start, timeout, view, now, k)
    requires Refilled(b, now).tokens >= 1.0 || b.rate == 0.0 || IsLate(start, timeout, now)
    ensures LooksFit(b, first, timeout, k + 1)
  {
    hide Flow, Nap, Naps;
  }

  /** The state before a look, with the looks made so far. */
  ghost predicate Looking(b: Level, start: real, timeout: Option<real>, view: Level, now: real, looks: seq<Region>) {
    && InVain(b, looks, start, now) && view == After(b, looks)
    && AtLook(b, Refilled(b, start).tokens, start, timeout, view, now, |looks|)
  }

  lemma LookingStarts(b: Level, start: real, timeout: Option<real>)
    requires b.Valid() && b.last <= start && Answers(b, timeout)
    ensures Looking(b, start, timeout, b, start, [])
  {
  }

  /** The nap after a look that left the bucket like this. */
  function NapAfter(r: Level, start: real, timeout: Option<real>, now: real): real
    requires r.rate != 0.0
  {
    var wait := UntilNextToken(r);
    if timeout.None? then wait else Min(wait, start + timeout.value - now)
  }

  lemma NapAfterIs(r: Level, start: real, timeout: Option<real>, now: real)
    requires r.rate != 0.0
    ensures timeout.None? ==> NapAfter(r, start, timeout, now) == UntilNextToken(r)
    ensures timeout.Some? ==>
      NapAfter(r, start, timeout, now) == Min(UntilNextToken(r), start + timeout.value - now)
  {
  }

  /** What a look leads to: one of the three answers, or a nap and another look. */
  lemma LookEnds(b: Level, start: real, timeout: Option<real>, view: Level, now: real, looks: seq<Region>, n: nat)
    requires Looking(b, start, timeout, view, now, looks) && Enough(b, timeout, n)
    ensures var r, looks' := Refilled(view, now), looks + [Take(now)];
      && r == Level(view.capacity, view.rate, r.tokens, now)
      && (b.capacity >= 1.0 ==> |looks| <= 1)
      && (if r.tokens >= 1.0 then
            Waited(b, start, timeout, Acquired, looks', Level(r.capacity, r.rate, r.tokens - 1.0, now), now)
          else if r.rate == 0.0 then Waited(b, start, timeout, DividedByZero, looks', r, now)
          else if timeout.Some? && start + timeout.value - now <= 0.0 then
            Waited(b, start, timeout, TimedOut, looks', r, now)
          else
            var later := now + NapAfter(r, start, timeout, now);
            && later >= now && Looking(b, start, timeout, r, later, looks')
            && LooksLeft(b, start, timeout, later, |looks| + 1, n) < LooksLeft(b, start, timeout, now, |looks|, n)
            && LooksLeft(b, start, timeout, now, |looks|, n) > 0)
  {
    hide After, NetTaken, InVain, IsWait, AtLook, WaitAnswer, WaitTime, Flow, UntilNextToken, LooksLeft, Min, Enough;
    hide LooksFit;
    var first, k := Refilled(b, start).tokens, |looks|;
    LookOnce(b, looks, start, now);
    LookIsLazy(b, first, start, timeout, view, now, k);
    LookSettles(b, first, start, timeout, view, now, k);
    AtLookIsValid(b, first, start, timeout, view, now, k);
    var r := Refilled(view, now);
    if r.tokens >= 1.0 || r.rate == 0.0 || IsLate(start, timeout, now) {
      LastLookFits(b, first, start, timeout, view, now, k);
    } else {
      LookNaps(b, first, start, timeout, view, now, k, n);
      InVainLonger(b, looks + [Take(now)], start, now, now + NapAfter(r, start, timeout, now));
    }
  }

  lemma AtLookIsValid(b: Level, first: real, start: real, timeout: Option<real>, view: Level, now: real, k: nat)
    requires AtLook(b, first, start, timeout, view, now, k)
    ensures b.Valid() && view.capacity == b.capacity && view.rate == b.rate && first == Refilled(b, start).tokens
    ensures b.capacity >= 1.0 ==> k <= 1
  {
  }

  /** Otherwise the caller naps, and gets nearer to its last look. */
  lemma LookNaps(b: Level, first: real, start: real, timeout: Option<real>, view: Level, now: real, k: nat, n: nat)
    requires AtLook(b, first, start, timeout, view, now, k) && Enough(b, timeout, n)
    requires Refilled(b, now).tokens < 1.0 && b.rate != 0.0 && !IsLate(start, timeout, now)
    ensures var wait := UntilNextToken(Refilled(b, now));
      var nap := if timeout.None? then wait else Min(wait, start + timeout.value - now);
      && nap >= 0.0
      && AtLook(b, first, start, timeout, Refilled(b, now), now + nap, k + 1)
      && LooksLeft(b, start, timeout, now + nap, k + 1, n) < LooksLeft(b, start, timeout, now, k, n)
      && LooksLeft(b, start, timeout, now, k, n) > 0
  {
    hide Flow, WaitAnswer, WaitTime, UntilNextToken, Nap;
    LookIsLazy(b, first, start, timeout, view, now, k);
    FirstLook(b, start);
    FirstLook(b, now);
    NapLength(Refilled(b, now), timeout);
    if b.capacity >= 1.0 {
      if k > 0 {
        SecondLookAt(b, first, start, timeout, view, now, k);
        assert false;
      }
    } else {
      var step := (1.0 - b.capacity) / b.rate;
      assert Naps(step, 0) == 0.0 && Naps(step, k + 1) == Naps(step, k) + step;
      if n <= k {
        NapsGrow(step, n, k);
      }
    }
  }

  /** The nap of a caller that found fewer than one token. */
  lemma NapLength(r: Level, timeout: Option<real>)
    requires r.rate > 0.0 && r.tokens < 1.0 && r.tokens <= r.capacity
    ensures var wait := UntilNextToken(r);
      && wait > 0.0
      && Nap(r.tokens, r.rate, timeout) == (if timeout.None? then wait else Min(wait, timeout.value))
      && (r.capacity < 1.0 ==> 0.0 < (1.0 - r.capacity) / r.rate <= wait)
  {
    ProperQuotient(1.0 - r.tokens, r.rate);
    if r.capacity < 1.0 {
      ProperQuotient(1.0 - r.capacity, r.rate);
      Quotients(1.0 - r.capacity, 1.0 - r.tokens, r.rate);
    }
  }

  lemma {:induction false} NapsGrow(nap: real, m: nat, n: nat)
    requires nap >= 0.0 && m <= n
    ensures Naps(nap, m) <= Naps(nap, n)
  {
    if m < n {
      NapsGrow(nap, m, n - 1);
    }
  }
}
