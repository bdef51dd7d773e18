/** The domain-aware limiter of src/rate_limiter.py: one bucket per domain, made on first use, and
    an optional global bucket that every granted request also pays into.

    A request goes through several lock regions (look the bucket up, take a domain token, take a
    global token, perhaps give the domain token back).  Each region is one `Event`, and a run is
    any interleaving of the regions of any number of callers.
 */
module RateLimiting {
  import opened Util
  import opened TokenBuckets

  /** Where a caller stands.  `waits` tells wait() from try_acquire(). */
  datatype Caller =
    | Idle
    | AtDomain(domain: string, waits: bool)
    | AtGlobal(domain: string, waits: bool)
    | MustReturn(domain: string)

  /** A waiting caller retries with further TryDomain and TryGlobal events.  GiveUp stands for its
      timeout, or for its division by zero, and may come at any moment, which allows more runs than
      there really are. */
  datatype Event =
    | Enter(caller: nat, domain: string, waits: bool, at: real)
    | TryDomain(caller: nat, at: real)
    | TryGlobal(caller: nat, at: real)
    | GiveUp(caller: nat, at: real)
    | ReturnToken(caller: nat, at: real)
    | ResetDomain(domain: string, at: real)
    | ResetGlobal(at: real)

  datatype Limiter =
    Limiter(size: real, rate: real, buckets: map<string, Level>, global: Option<Level>, callers: seq<Caller>)
  {
    function FreshBucket(now: real): Level {
      Level(size, rate, size, now)
    }

    function CallerOf(i: nat): Caller {
      if i < |callers| then callers[i] else Idle
    }

    function Moved(i: nat, c: Caller): Limiter
      requires i < |callers|
    {
      this.(callers := callers[i := c])
    }

    /** One lock region; an event that does not fit where its caller stands does nothing. */
    function Step(e: Event): Limiter {
      match e
      case Enter(i, d, w, at) =>
        if i < |callers| && callers[i].Idle? then
          this.(buckets := if d in buckets then buckets else buckets[d := FreshBucket(at)]).Moved(i, AtDomain(d, w))
        else this
      case TryDomain(i, at) =>
        if i < |callers| && callers[i].AtDomain? && callers[i].domain in buckets then
          var d, w := callers[i].domain, callers[i].waits;
          var next := if !CanTake(buckets[d], at) then (if w then callers[i] else Idle)
                      else if global.Some? then AtGlobal(d, w) else Idle;
          this.(buckets := buckets[d := Taken(buckets[d], at)]).Moved(i, next)
        else this
      case TryGlobal(i, at) =>
        if i < |callers| && callers[i].AtGlobal? && global.Some? then
          var d, w := callers[i].domain, callers[i].waits;
          var next := if CanTake(global.value, at) then Idle else if w then callers[i] else MustReturn(d);
          this.(global := Some(Taken(global.value, at))).Moved(i, next)
        else this
      case GiveUp(i, _) =>
        if i < |callers| && (callers[i].AtDomain? || callers[i].AtGlobal?) && callers[i].waits then Moved(i, Idle)
        else this
      case ReturnToken(i, _) =>
        if i < |callers| && callers[i].MustReturn? && callers[i].domain in buckets then
          var d := callers[i].domain;
          this.(buckets := buckets[d := Refunded(buckets[d])]).Moved(i, Idle)
        else this
      case ResetDomain(d, at) =>
        if d in buckets then this.(buckets := buckets[d := Full(buckets[d], at)]) else this
      case ResetGlobal(at) =>
        if global.Some? then this.(global := Some(Full(global.value, at))) else this
    }

    /** The domain whose request this event answers with True, if it does. */
    function Granted(e: Event): Option<string> {
      match e
      case TryDomain(i, at) =>
        var c := CallerOf(i);
        if c.AtDomain? && c.domain in buckets && CanTake(buckets[c.domain], at) && global.None? then Some(c.domain)
        else None
      case TryGlobal(i, at) =>
        var c := CallerOf(i);
        if c.AtGlobal? && global.Some? && CanTake(global.value, at) then Some(c.domain) else None
      case _ => None
    }

    /** The domain whose token a caller keeps although it gives up waiting for the global one. */
    function Abandoned(e: Event): Option<string> {
      if e.GiveUp? && CallerOf(e.caller).AtGlobal? && CallerOf(e.caller).waits then Some(CallerOf(e.caller).domain)
      else None
    }

    /** Tokens this event takes out of the bucket of `d`, net of refunds. */
    function DomainGain(e: Event, d: string): int {
      match e
      case TryDomain(i, at) =>
        var c := CallerOf(i);
        if c.AtDomain? && c.domain == d && d in buckets then Gain(buckets[d], Take(at)) else 0
      case ReturnToken(i, at) =>
        var c := CallerOf(i);
        if c.MustReturn? && c.domain == d && d in buckets then Gain(buckets[d], Refund(at)) else 0
      case _ => 0
    }

    function GlobalGain(e: Event): int {
      match e
      case TryGlobal(i, at) => if CallerOf(i).AtGlobal? && global.Some? then Gain(global.value, Take(at)) else 0
      case _ => 0
    }

    ghost predicate Valid(now: real) {
      && 0.0 <= size && 0.0 <= rate
      && (forall d :: d in buckets ==>
            buckets[d].Valid() && buckets[d].capacity == size && buckets[d].rate == rate && buckets[d].last <= now)
      && (global.Some? ==> global.value.Valid() && global.value.capacity == size && global.value.last <= now)
    }
  }

  function RunAll(s: Limiter, es: seq<Event>): Limiter
    decreases |es|
  {
    if es == [] then s else RunAll(s.Step(es[0]), es[1..])
  }

  /** True results given for `d` during the run. */
  function Grants(s: Limiter, es: seq<Event>, d: string): nat
    decreases |es|
  {
    if es == [] then 0 else (if s.Granted(es[0]) == Some(d) then 1 else 0) + Grants(s.Step(es[0]), es[1..], d)
  }

  /** True results given for all domains together. */
  function AllGrants(s: Limiter, es: seq<Event>): nat
    decreases |es|
  {
    if es == [] then 0 else (if s.Granted(es[0]).Some? then 1 else 0) + AllGrants(s.Step(es[0]), es[1..])
  }

  /** Domain tokens lost to callers that gave up on the global bucket. */
  function Losses(s: Limiter, es: seq<Event>, d: string): nat
    decreases |es|
  {
    if es == [] then 0 else (if s.Abandoned(es[0]) == Some(d) then 1 else 0) + Losses(s.Step(es[0]), es[1..], d)
  }

  function DomainNet(s: Limiter, es: seq<Event>, d: string): int
    decreases |es|
  {
    if es == [] then 0 else s.DomainGain(es[0], d) + DomainNet(s.Step(es[0]), es[1..], d)
  }

  function GlobalNet(s: Limiter, es: seq<Event>): int
    decreases |es|
  {
    if es == [] then 0 else s.GlobalGain(es[0]) + GlobalNet(s.Step(es[0]), es[1..])
  }

  function DomainResets(es: seq<Event>, d: string): nat {
    if es == [] then 0 else (if es[0].ResetDomain? && es[0].domain == d then 1 else 0) + DomainResets(es[1..], d)
  }

  function GlobalResets(es: seq<Event>): nat {
    if es == [] then 0 else (if es[0].ResetGlobal? then 1 else 0) + GlobalResets(es[1..])
  }

  ghost predicate InOrder(start: real, es: seq<Event>) {
    && (forall i :: 0 <= i < |es| ==> start <= es[i].at)
    && (forall i, j :: 0 <= i < j < |es| ==> es[i].at <= es[j].at)
  }

  ghost predicate During(s: real, es: seq<Event>, e: real) {
    forall i :: 0 <= i < |es| ==> s <= es[i].at <= e
  }

  // ---- the bounds, one event at a time ----

  /** What `d` could be granted on the spot; a bucket not made yet will be made full. */
  function Reserve(s: Limiter, d: string, t: real): real {
    if d in s.buckets then Avail(s.buckets[d], t) else s.size
  }

  function GlobalReserve(s: Limiter, t: real): real {
    if s.global.Some? then Avail(s.global.value, t) else 0.0
  }

  lemma StepKeepsValid(s: Limiter, e: Event, now: real)
    requires s.Valid(now) && now <= e.at
    ensures s.Step(e).Valid(e.at) && s.Step(e).size == s.size && s.Step(e).rate == s.rate
    ensures s.Step(e).global.Some? == s.global.Some?
    ensures s.global.Some? ==> s.Step(e).global.value.rate == s.global.value.rate
  {
    hide Flow, Refilled, Avail, Gain, CanTake, Taken, Refunded, Full, Allowance;
    match e {
      case TryDomain(i, at) =>
        if i < |s.callers| && s.callers[i].AtDomain? && s.callers[i].domain in s.buckets {
          TakeCharge(s.buckets[s.callers[i].domain], at, at);
        }
      case TryGlobal(i, at) =>
        if s.global.Some? { TakeCharge(s.global.value, at, at); }
      case ReturnToken(i, at) =>
        if i < |s.callers| && s.callers[i].MustReturn? && s.callers[i].domain in s.buckets {
          RefundCharge(s.buckets[s.callers[i].domain], at, at);
        }
      case ResetDomain(d, at) =>
        if d in s.buckets { ResetCharge(s.buckets[d], at, at); }
      case ResetGlobal(at) =>
        if s.global.Some? { ResetCharge(s.global.value, at, at); }
      case _ =>
    }
  }

  lemma IdleCharge(b: Level, at: real, s: real)
    requires b.Valid() && s <= at
    ensures Avail(b, at) <= Avail(b, s) + Allowance(b, 0, at - s)
  {
    hide Flow, Allowance;
    AvailGrowth(b, s, at);
    AllowanceNonneg(b, 0, at - s);
  }

  lemma DomainCharge(s: Limiter, e: Event, d: string, now: real, t: real)
    requires s.Valid(now) && now <= e.at && t <= e.at
    ensures s.DomainGain(e, d) as real + Reserve(s.Step(e), d, e.at)
         <= Reserve(s, d, t) + Allowance(s.FreshBucket(0.0), if e.ResetDomain? && e.domain == d then 1 else 0, e.at - t)
  {
    hide Flow, Refilled, Avail, Gain, CanTake, Taken, Refunded, Full, Allowance;
    if d in s.buckets {
      var b := s.buckets[d];
      IdleCharge(b, e.at, t);
      TakeCharge(b, e.at, t);
      RefundCharge(b, e.at, t);
      ResetCharge(b, e.at, t);
      AllowanceSame(b, s.FreshBucket(0.0), 0, e.at - t);
      AllowanceSame(b, s.FreshBucket(0.0), 1, e.at - t);
    } else {
      NewBucketCharge(s, e, d, t, if e.ResetDomain? && e.domain == d then 1 else 0);
    }
  }

  lemma AllowanceSame(b: Level, b': Level, n: nat, span: real)
    requires b.capacity == b'.capacity && b.rate == b'.rate
    ensures Allowance(b, n, span) == Allowance(b', n, span)
  {
  }

  lemma NewBucketCharge(s: Limiter, e: Event, d: string, t: real, n: nat)
    requires 0.0 <= s.size && 0.0 <= s.rate && d !in s.buckets && t <= e.at
    ensures s.DomainGain(e, d) == 0
    ensures Reserve(s.Step(e), d, e.at) == s.size
    ensures Allowance(s.FreshBucket(0.0), n, e.at - t) >= 0.0
  {
    hide Flow, Allowance;
    AllowanceNonneg(s.FreshBucket(0.0), n, e.at - t);
    FlowAdds(s.rate, 0.0, 0.0);
  }

  lemma GlobalCharge(s: Limiter, e: Event, now: real, t: real)
    requires s.Valid(now) && now <= e.at && t <= e.at && s.global.Some?
    ensures s.GlobalGain(e) as real + GlobalReserve(s.Step(e), e.at)
         <= GlobalReserve(s, t) + Allowance(s.global.value, if e.ResetGlobal? then 1 else 0, e.at - t)
  {
    hide Flow, Refilled, Avail, Gain, CanTake, Taken, Refunded, Full, Allowance;
    var b := s.global.value;
    IdleCharge(b, e.at, t);
    TakeCharge(b, e.at, t);
    ResetCharge(b, e.at, t);
  }

  // ---- whole runs ----

  lemma {:induction false} RunKeepsValid(s: Limiter, es: seq<Event>, now: real, until: real)
    requires s.Valid(now) && InOrder(now, es) && now <= until && During(now, es, until)
    ensures var s' := RunAll(s, es);
      && s'.Valid(until) && s'.size == s.size && s'.rate == s.rate
      && s'.global.Some? == s.global.Some?
      && (s.global.Some? ==> s'.global.value.rate == s.global.value.rate)
    decreases |es|
  {
    hide Limiter.Step;
    if es != [] {
      StepKeepsValid(s, es[0], now);
      RunKeepsValid(s.Step(es[0]), es[1..], es[0].at, until);
    }
  }

  lemma {:induction false} DomainRunBound(s: Limiter, es: seq<Event>, d: string, now: real, t: real, e: real)
    requires s.Valid(now) && InOrder(now, es) && t <= e && During(t, es, e)
    ensures DomainNet(s, es, d) as real <= Reserve(s, d, t) + Allowance(s.FreshBucket(0.0), DomainResets(es, d), e - t)
    decreases |es|
  {
    hide Limiter.Step, Reserve, Allowance, Limiter.DomainGain, Limiter.Valid;
    if es == [] {
      ReserveBounds(s, d, now, t, e);
    } else {
      var s', at := s.Step(es[0]), es[0].at;
      StepKeepsValid(s, es[0], now);
      DomainCharge(s, es[0], d, now, t);
      DomainRunBound(s', es[1..], d, at, at, e);
      AllowanceAdds(s.FreshBucket(0.0), s'.FreshBucket(0.0),
                    if es[0].ResetDomain? && es[0].domain == d then 1 else 0, at - t, DomainResets(es[1..], d), e - at);
    }
  }

  lemma ReserveBounds(s: Limiter, d: string, now: real, t: real, e: real)
    requires s.Valid(now) && t <= e
    ensures 0.0 <= Reserve(s, d, t) <= s.size
    ensures Allowance(s.FreshBucket(0.0), 0, e - t) >= 0.0
  {
    hide Flow, Allowance;
    AllowanceNonneg(s.FreshBucket(0.0), 0, e - t);
    if d in s.buckets {
      AvailGrowth(s.buckets[d], t, t);
    }
  }

  lemma {:induction false} GlobalRunBound(s: Limiter, es: seq<Event>, now: real, t: real, e: real)
    requires s.Valid(now) && InOrder(now, es) && t <= e && During(t, es, e) && s.global.Some?
    ensures GlobalNet(s, es) as real <= GlobalReserve(s, t) + Allowance(s.global.value, GlobalResets(es), e - t)
    decreases |es|
  {
    hide Limiter.Step, GlobalReserve, Allowance, Limiter.GlobalGain;
    if es == [] {
      GlobalReserveBounds(s, now, t, e);
    } else {
      var s', at := s.Step(es[0]), es[0].at;
      StepKeepsValid(s, es[0], now);
      GlobalCharge(s, es[0], now, t);
      GlobalRunBound(s', es[1..], at, at, e);
      AllowanceAdds(s.global.value, s'.global.value,
                    if es[0].ResetGlobal? then 1 else 0, at - t, GlobalResets(es[1..]), e - at);
    }
  }

  lemma GlobalReserveBounds(s: Limiter, now: real, t: real, e: real)
    requires s.Valid(now) && t <= e && s.global.Some?
    ensures 0.0 <= GlobalReserve(s, t) <= s.size
    ensures Allowance(s.global.value, 0, e - t) >= 0.0
  {
    hide Flow, Allowance;
    AllowanceNonneg(s.global.value, 0, e - t);
    AvailGrowth(s.global.value, t, t);
  }

  /** A global token is taken exactly when a request is answered True. */
  lemma {:induction false} GlobalTokensAreGrants(s: Limiter, es: seq<Event>)
    requires s.global.Some?
    ensures GlobalNet(s, es) == AllGrants(s, es)
    decreases |es|
  {
    if es != [] {
      GlobalTokensAreGrants(s.Step(es[0]), es[1..]);
    }
  }

  /** Callers of `d` that hold a domain token and have no answer yet. */
  function Holding(cs: seq<Caller>, d: string): nat {
    if cs == [] then 0
    else (if Holds(cs[0], d) then 1 else 0) + Holding(cs[1..], d)
  }

  predicate Holds(c: Caller, d: string) {
    (c.AtGlobal? || c.MustReturn?) && c.domain == d
  }

  function Holders(cs: seq<Caller>, d: string): set<nat> {
    set i: nat | i < |cs| && (cs[i].AtGlobal? || cs[i].MustReturn?) && cs[i].domain == d
  }

  lemma {:induction false} HoldingAppend(cs: seq<Caller>, c: Caller, d: string)
    ensures Holding(cs + [c], d) == Holding(cs, d) + if Holds(c, d) then 1 else 0
  {
    if cs == [] {
      assert cs + [c] == [c] && [c][1..] == [];
    } else {
      assert (cs + [c])[1..] == cs[1..] + [c];
      HoldingAppend(cs[1..], c, d);
    }
  }

  /** What is counted as under way: the callers that have taken a token of `d` and wait for a global one, or
      have yet to give it back. */
  lemma {:induction false} HoldingCounts(cs: seq<Caller>, d: string)
    ensures Holding(cs, d) == |Holders(cs, d)|
  {
    if cs == [] {
      assert Holders(cs, d) == {};
    } else {
      var n := |cs| - 1;
      HoldingCounts(cs[..n], d);
      HoldingAppend(cs[..n], cs[n], d);
      assert cs == cs[..n] + [cs[n]];
      if Holds(cs[n], d) {
        assert Holders(cs, d) == Holders(cs[..n], d) + {n};
      } else {
        assert Holders(cs, d) == Holders(cs[..n], d);
      }
    }
  }

  lemma {:induction false} HoldingMoved(cs: seq<Caller>, i: nat, c: Caller, d: string)
    requires i < |cs|
    ensures Holding(cs[i := c], d)
         == Holding(cs, d) - (if Holds(cs[i], d) then 1 else 0) + (if Holds(c, d) then 1 else 0)
  {
    if i == 0 {
      assert cs[i := c][1..] == cs[1..];
    } else {
      assert cs[i := c][1..] == cs[1..][i - 1 := c];
      HoldingMoved(cs[1..], i - 1, c, d);
    }
  }

  /** Callers past the lookup have a bucket, and only with a global bucket does anyone wait for it. */
  ghost predicate Placed(s: Limiter) {
    && (forall i :: 0 <= i < |s.callers| && !s.callers[i].Idle? ==> s.callers[i].domain in s.buckets)
    && (forall i :: 0 <= i < |s.callers| && (s.callers[i].AtGlobal? || s.callers[i].MustReturn?) ==> s.global.Some?)
  }

  lemma StepKeepsPlaced(s: Limiter, e: Event)
    requires Placed(s)
    ensures Placed(s.Step(e))
  {
    hide Flow, Refilled, Taken, Refunded, Full, CanTake;
  }

  ghost predicate Accounts(s: Limiter, e: Event, d: string) {
    s.DomainGain(e, d)
    == (if s.Granted(e) == Some(d) then 1 else 0) + (if s.Abandoned(e) == Some(d) then 1 else 0)
       + Holding(s.Step(e).callers, d) - Holding(s.callers, d)
  }

  lemma TryDomainAccounts(s: Limiter, e: Event, d: string)
    requires Placed(s) && e.TryDomain?
    ensures Accounts(s, e, d)
  {
    hide Refilled, Taken, CanTake, Holding, Gain;
    var i := e.caller;
    if i < |s.callers| && s.callers[i].AtDomain? {
      HoldingMoved(s.callers, i, s.Step(e).callers[i], d);
      GainIsTake(s.buckets[s.callers[i].domain], e.at);
    }
  }

  lemma StepAccounts(s: Limiter, e: Event, d: string)
    requires Placed(s)
    ensures Accounts(s, e, d)
  {
    hide Refilled, Taken, Refunded, Full, CanTake, Holding;
    if e.TryDomain? {
      TryDomainAccounts(s, e, d);
    } else if !e.ResetDomain? && !e.ResetGlobal? && e.caller < |s.callers| {
      HoldingMoved(s.callers, e.caller, s.Step(e).callers[e.caller], d);
      assert s.Step(e).callers == s.callers[e.caller := s.Step(e).callers[e.caller]];
    }
  }

  lemma GainIsTake(b: Level, at: real)
    ensures Gain(b, Take(at)) == if CanTake(b, at) then 1 else 0
  {
  }

  /** Where the domain tokens of a run went: into True results, into waits abandoned at the global
      bucket, or into requests that are still under way. */
  lemma {:induction false} DomainTokensAccountedFor(s: Limiter, es: seq<Event>, d: string)
    requires Placed(s)
    ensures DomainNet(s, es, d)
         == Grants(s, es, d) + Losses(s, es, d) + Holding(RunAll(s, es).callers, d) - Holding(s.callers, d)
    decreases |es|
  {
    hide Limiter.Step, Limiter.Granted, Limiter.Abandoned, Limiter.DomainGain, Holding;
    if es != [] {
      StepAccounts(s, es[0], d);
      StepKeepsPlaced(s, es[0]);
      DomainTokensAccountedFor(s.Step(es[0]), es[1..], d);
    }
  }

  lemma {:induction false} RunKeepsPlaced(s: Limiter, es: seq<Event>)
    requires Placed(s)
    ensures Placed(RunAll(s, es))
    decreases |es|
  {
    hide Limiter.Step;
    if es != [] {
      StepKeepsPlaced(s, es[0]);
      RunKeepsPlaced(s.Step(es[0]), es[1..]);
    }
  }

  lemma FrontInOrder(start: real, all: seq<Event>, n: nat)
    requires InOrder(start, all) && n <= |all|
    ensures InOrder(start, all[..n])
    ensures n > 0 ==> start <= all[n - 1].at && During(start, all[..n], all[n - 1].at)
    ensures n == 0 ==> During(start, all[..n], start)
  {
  }

  lemma BackInOrder(start: real, all: seq<Event>, n: nat)
    requires InOrder(start, all) && n <= |all|
    ensures InOrder(if n == 0 then start else all[n - 1].at, all[n..])
  {
  }

  lemma SplitOrder(before: seq<Event>, window: seq<Event>, now: real) returns (clock: real)
    requires InOrder(now, before + window)
    ensures now <= clock && InOrder(now, before) && During(now, before, clock) && InOrder(clock, window)
  {
    hide InOrder, During;
    var all, n := before + window, |before|;
    FrontInOrder(now, all, n);
    BackInOrder(now, all, n);
    clock := if n == 0 then now else all[n - 1].at;
    assert all[..n] == before && all[n..] == window;
  }

  lemma MiddleOfRun(s: Limiter, before: seq<Event>, window: seq<Event>, now: real) returns (clock: real)
    requires s.Valid(now) && Placed(s) && InOrder(now, before + window)
    ensures var mid := RunAll(s, before);
      && mid.Valid(clock) && Placed(mid) && mid.size == s.size && mid.rate == s.rate
      && mid.global.Some? == s.global.Some?
      && (s.global.Some? ==> mid.global.value.rate == s.global.value.rate)
    ensures InOrder(clock, window)
  {
    hide *;
    clock := SplitOrder(before, window, now);
    RunKeepsValid(s, before, now, clock);
    RunKeepsPlaced(s, before);
  }

  /** The global limit: over the part of any run that lies in [t, e], the True results of all domains
      together, from any mix of waiting and trying callers, are at most
      size + globalRate * (e - t), plus one bucket per global reset. */
  lemma GlobalLimitHolds(s: Limiter, before: seq<Event>, window: seq<Event>, now: real, t: real, e: real)
    requires s.Valid(now) && Placed(s) && InOrder(now, before + window) && s.global.Some?
    requires t <= e && During(t, window, e)
    ensures AllGrants(RunAll(s, before), window) as real
         <= s.size + s.global.value.rate * (e - t) + GlobalResets(window) as real * s.size
  {
    hide *;
    AllowanceIs(s.global.value, GlobalResets(window), e - t);
    var mid := RunAll(s, before);
    var clock := MiddleOfRun(s, before, window, now);
    GlobalRunBound(mid, window, clock, t, e);
    GlobalReserveBounds(mid, clock, t, e);
    GlobalTokensAreGrants(mid, window);
    ValidCapacities(s, now);
    ValidCapacities(mid, clock);
    AllowanceSame(mid.global.value, s.global.value, GlobalResets(window), e - t);
  }

  lemma ValidCapacities(s: Limiter, now: real)
    requires s.Valid(now)
    ensures s.global.Some? ==> s.global.value.capacity == s.size && s.global.value.rate >= 0.0
  {
  }

  /** The domain limit, at the same time and in the same window: net tokens of `d` obey its own
      bucket's bound, and so do its True results once those that were under way at the start of the
      window are set aside. */
  lemma DomainLimitHolds(s: Limiter, before: seq<Event>, window: seq<Event>, d: string, now: real, t: real, e: real)
    requires s.Valid(now) && Placed(s) && InOrder(now, before + window)
    requires t <= e && During(t, window, e)
    ensures var mid := RunAll(s, before);
      var bound := s.size + s.rate * (e - t) + DomainResets(window, d) as real * s.size;
      && DomainNet(mid, window, d) as real <= bound
      && (Grants(mid, window, d) + Losses(mid, window, d)) as real <= bound + Holding(mid.callers, d) as real
  {
    hide *;
    var mid := RunAll(s, before);
    var clock := MiddleOfRun(s, before, window, now);
    DomainRunBound(mid, window, d, clock, t, e);
    ReserveBounds(mid, d, clock, t, e);
    SameFresh(s, mid);
    AllowanceIs(s.FreshBucket(0.0), DomainResets(window, d), e - t);
    DomainTokensAccountedFor(mid, window, d);
  }

  lemma SameFresh(s: Limiter, mid: Limiter)
    requires mid.size == s.size && mid.rate == s.rate
    ensures mid.FreshBucket(0.0) == s.FreshBucket(0.0)
    ensures s.FreshBucket(0.0).capacity == s.size && s.FreshBucket(0.0).rate == s.rate
  {
  }

  // ---- several runs one after the other ----

  lemma {:induction false} RunsConcat(s: Limiter, a: seq<Event>, b: seq<Event>, d: string)
    ensures RunAll(s, a + b) == RunAll(RunAll(s, a), b)
    ensures AllGrants(s, a + b) == AllGrants(s, a) + AllGrants(RunAll(s, a), b)
    ensures Grants(s, a + b, d) == Grants(s, a, d) + Grants(RunAll(s, a), b, d)
    ensures Losses(s, a + b, d) == Losses(s, a, d) + Losses(RunAll(s, a), b, d)
    decreases |a|
  {
    hide Limiter.Step, Limiter.Granted, Limiter.Abandoned;
    if a == [] {
      assert a + b == b;
    } else {
      assert (a + b)[1..] == a[1..] + b;
      RunsConcat(s.Step(a[0]), a[1..], b, d);
    }
  }

  lemma RunOne(s: Limiter, e: Event, d: string)
    ensures RunAll(s, [e]) == s.Step(e)
    ensures AllGrants(s, [e]) == if s.Granted(e).Some? then 1 else 0
    ensures Grants(s, [e], d) == if s.Granted(e) == Some(d) then 1 else 0
    ensures Losses(s, [e], d) == if s.Abandoned(e) == Some(d) then 1 else 0
  {
    hide Limiter.Step, Limiter.Granted, Limiter.Abandoned;
    assert [e][1..] == [];
  }

  /** Requests made one after the other keep the clock's order. */
  lemma OrderConcat(start: real, a: seq<Event>, mid: real, b: seq<Event>, end: real)
    requires start <= mid <= end && InOrder(start, a) && During(start, a, mid) && InOrder(mid, b) && During(mid, b, end)
    ensures InOrder(start, a + b) && During(start, a + b, end)
  {
  }

  // ---- one request, uninterrupted ----

  /** The bucket a caller of `d` gets. */
  function BucketFor(s: Limiter, d: string, now: real): Level {
    if d in s.buckets then s.buckets[d] else s.FreshBucket(now)
  }

  predicate TrySucceeds(s: Limiter, d: string, now: real) {
    && CanTake(BucketFor(s, d, now), now)
    && (s.global.Some? ==> CanTake(s.global.value, now))
  }

  /** A request to try_acquire that runs its regions without interruption, at one clock reading.  Those
      that do not apply do nothing. */
  function TryEvents(d: string, now: real): seq<Event> {
    [Enter(0, d, false, now), TryDomain(0, now), TryGlobal(0, now), ReturnToken(0, now)]
  }

  /** The four regions, by what the two buckets hold. */
  function Tried(s: Limiter, d: string, now: real): Limiter {
    var b := BucketFor(s, d, now);
    s.(buckets := s.buckets[d := if TrySucceeds(s, d, now) then Taken(b, now) else Refilled(b, now)],
       global := if s.global.None? || !CanTake(b, now) then s.global else Some(Taken(s.global.value, now)))
  }

  lemma TryRefused(s: Limiter, d: string, now: real)
    requires s.callers == [Idle] && !CanTake(BucketFor(s, d, now), now)
    ensures var es := TryEvents(d, now);
      && RunAll(s, es) == s.(buckets := s.buckets[d := Taken(BucketFor(s, d, now), now)])
      && AllGrants(s, es) == Grants(s, es, d) == 0
  {
    hide CanTake, Taken, Refunded, Limiter.FreshBucket;
    var es := TryEvents(d, now);
    var s1 := s.Step(es[0]);
    var s2 := s1.Step(es[1]);
    assert s1.callers == [AtDomain(d, false)] && s2.callers == [Idle];
    assert s2.Step(es[2]) == s2.Step(es[3]) == s2;
    FourSteps(s, es, d);
  }

  lemma FourSteps(s: Limiter, es: seq<Event>, d: string)
    requires |es| == 4
    ensures var s1 := s.Step(es[0]);
      var s2 := s1.Step(es[1]);
      var s3 := s2.Step(es[2]);
      && RunAll(s, es) == s3.Step(es[3])
      && (s.Granted(es[0]) == s3.Granted(es[3]) == None ==>
            && AllGrants(s, es) == (if s1.Granted(es[1]).Some? then 1 else 0)
                                   + (if s2.Granted(es[2]).Some? then 1 else 0)
            && Grants(s, es, d) == (if s1.Granted(es[1]) == Some(d) then 1 else 0)
                                   + (if s2.Granted(es[2]) == Some(d) then 1 else 0))
  {
    hide *;
    var s1 := s.Step(es[0]);
    var s2 := s1.Step(es[1]);
    assert es == [es[0]] + es[1..] && es[1..] == [es[1]] + es[2..] && es[2..] == [es[2]] + [es[3]];
    RunsConcat(s, [es[0]], es[1..], d);
    RunsConcat(s1, [es[1]], es[2..], d);
    RunsConcat(s2, [es[2]], [es[3]], d);
    RunOne(s, es[0], d);
    RunOne(s1, es[1], d);
    RunOne(s2, es[2], d);
    RunOne(s2.Step(es[2]), es[3], d);
  }

  lemma TryServed(s: Limiter, d: string, now: real)
    requires s.callers == [Idle] && CanTake(BucketFor(s, d, now), now)
    ensures var es, b := TryEvents(d, now), BucketFor(s, d, now);
      && RunAll(s, es) ==
           s.(buckets := s.buckets[d := if TrySucceeds(s, d, now) then Taken(b, now) else Refunded(Taken(b, now))],
              global := if s.global.None? then None else Some(Taken(s.global.value, now)))
      && AllGrants(s, es) == Grants(s, es, d) == (if TrySucceeds(s, d, now) then 1 else 0)
  {
    hide CanTake, Taken, Refunded, Limiter.FreshBucket;
    var es := TryEvents(d, now);
    var s1 := s.Step(es[0]);
    var s2 := s1.Step(es[1]);
    var s3 := s2.Step(es[2]);
    assert s1.callers == [AtDomain(d, false)];
    assert s2.callers == [if s.global.Some? then AtGlobal(d, false) else Idle];
    assert s3.callers == [if TrySucceeds(s, d, now) then Idle else MustReturn(d)];
    FourSteps(s, es, d);
  }

  /** What an uninterrupted try_acquire does: True exactly when both buckets have a token, and then
      it takes one from each; a False answer takes nothing from either (only the lazy refill shows,
      and the global bucket is not even looked at when the domain refuses). */
  lemma TryIsAllOrNothing(s: Limiter, d: string, now: real)
    requires s.Valid(now) && s.callers == [Idle]
    ensures var es := TryEvents(d, now);
      && RunAll(s, es) == Tried(s, d, now)
      && AllGrants(s, es) == Grants(s, es, d) == (if TrySucceeds(s, d, now) then 1 else 0)
  {
    hide RunAll, AllGrants, Grants, CanTake, Taken, Refunded, Refilled;
    var b := BucketFor(s, d, now);
    BucketForIsValid(s, d, now);
    if CanTake(b, now) {
      TryServed(s, d, now);
      RefundUndoesTake(b, now);
    } else {
      TryRefused(s, d, now);
      TakenNothing(b, now);
    }
  }

  /** The same, by the tokens the two buckets hold once refilled; a domain asked for the first time has a
      whole bucket. */
  lemma TryTakesOneOfEach(s: Limiter, d: string, b: Level, now: real)
    requires s.Valid(now) && b == if d in s.buckets then s.buckets[d] else Level(s.size, s.rate, s.size, now)
    ensures var had := Min(b.capacity, b.tokens + (now - b.last) * b.rate);
      && (s.global.None? ==> TriedWith(s, d, now, had, 1.0))
      && (s.global.Some? ==>
            var g := s.global.value; TriedWith(s, d, now, had, Min(g.capacity, g.tokens + (now - g.last) * g.rate)))
  {
    hide TriedWith;
    RefilledIs(b, now);
    if s.global.None? {
      TryTakes(s, d, now, Refilled(b, now).tokens, 1.0);
    } else {
      var g := s.global.value;
      RefilledIs(g, now);
      hide Flow, Min, Refilled;
      TryTakes(s, d, now, Refilled(b, now).tokens, Refilled(g, now).tokens);
    }
  }

  /** What a request at `now` does that finds `had` tokens for its domain and `left` for all domains. */
  ghost predicate TriedWith(s: Limiter, d: string, now: real, had: real, left: real) {
    var ok, s' := TrySucceeds(s, d, now), Tried(s, d, now);
    && (ok <==> had >= 1.0 && left >= 1.0)
    && s'.buckets == s.buckets[d := Level(s.size, s.rate, had - (if ok then 1.0 else 0.0), now)]
    && (s.global.None? || had < 1.0 ==> s'.global == s.global)
    && (s.global.Some? && had >= 1.0 ==>
          s'.global == Some(s.global.value.(tokens := left - (if ok then 1.0 else 0.0), last := now)))
    && s'.size == s.size && s'.rate == s.rate && s'.callers == s.callers
  }

  lemma TryTakes(s: Limiter, d: string, now: real, had: real, left: real)
    requires s.Valid(now) && had == Refilled(BucketFor(s, d, now), now).tokens
    requires left == if s.global.None? then 1.0 else Refilled(s.global.value, now).tokens
    ensures TriedWith(s, d, now, had, left)
  {
    hide Min, Flow;
    BucketForIsValid(s, d, now);
  }

  lemma RefilledIs(b: Level, now: real)
    ensures Refilled(b, now) == b.(tokens := Min(b.capacity, b.tokens + (now - b.last) * b.rate), last := now)
  {
  }

  lemma BucketForIsValid(s: Limiter, d: string, now: real)
    requires s.Valid(now)
    ensures var b := BucketFor(s, d, now); b.Valid() && b.last <= now && b.capacity == s.size && b.rate == s.rate
  {
  }

  lemma TakenNothing(b: Level, now: real)
    requires !CanTake(b, now)
    ensures Taken(b, now) == Refilled(b, now)
  {
  }

  // ---- one waiting request ----

  function DomainLooks(looks: seq<Region>): (es: seq<Event>)
    ensures |es| == |looks| && forall i :: 0 <= i < |es| ==> es[i].at == looks[i].at
  {
    seq(|looks|, i requires 0 <= i < |looks| => TryDomain(0, looks[i].at))
  }

  function GlobalLooks(looks: seq<Region>): (es: seq<Event>)
    ensures |es| == |looks| && forall i :: 0 <= i < |es| ==> es[i].at == looks[i].at
  {
    seq(|looks|, i requires 0 <= i < |looks| => TryGlobal(0, looks[i].at))
  }

  lemma {:induction false} TakesGainNothingBack(b: Level, looks: seq<Region>)
    requires forall i :: 0 <= i < |looks| ==> looks[i].Take?
    ensures NetTaken(b, looks) >= 0
    decreases |looks|
  {
    if looks != [] {
      TakesGainNothingBack(Apply(b, looks[0]), looks[1..]);
    }
  }

  /** In vain means that every single look found nothing. */
  lemma FirstInVain(b: Level, looks: seq<Region>)
    requires looks != [] && (forall i :: 0 <= i < |looks| ==> looks[i].Take?) && NetTaken(b, looks) == 0
    ensures !CanTake(b, looks[0].at)
    ensures NetTaken(Taken(b, looks[0].at), looks[1..]) == 0
    ensures After(b, looks) == After(Taken(b, looks[0].at), looks[1..])
  {
    hide CanTake, Taken;
    TakesGainNothingBack(Apply(b, looks[0]), looks[1..]);
  }

  /** Looking at the domain bucket in vain. */
  lemma {:induction false} DomainInVain(s: Limiter, d: string, looks: seq<Region>)
    requires s.callers == [AtDomain(d, true)] && d in s.buckets
    requires (forall i :: 0 <= i < |looks| ==> looks[i].Take?) && NetTaken(s.buckets[d], looks) == 0
    ensures var es := DomainLooks(looks);
      && RunAll(s, es) == s.(buckets := s.buckets[d := After(s.buckets[d], looks)])
      && AllGrants(s, es) == Grants(s, es, d) == Losses(s, es, d) == 0
    decreases |looks|
  {
    hide CanTake, Taken;
    var es := DomainLooks(looks);
    if looks == [] {
      assert s.buckets[d := s.buckets[d]] == s.buckets;
    } else {
      var s1 := s.Step(es[0]);
      FirstInVain(s.buckets[d], looks);
      DomainInVain(s1, d, looks[1..]);
      assert es[1..] == DomainLooks(looks[1..]);
      assert s1.buckets[d := After(s1.buckets[d], looks[1..])] == s.buckets[d := After(s.buckets[d], looks)];
    }
  }

  lemma {:induction false} GlobalInVain(s: Limiter, d: string, looks: seq<Region>)
    requires s.callers == [AtGlobal(d, true)] && s.global.Some?
    requires (forall i :: 0 <= i < |looks| ==> looks[i].Take?) && NetTaken(s.global.value, looks) == 0
    ensures var es := GlobalLooks(looks);
      && RunAll(s, es) == s.(global := Some(After(s.global.value, looks)))
      && AllGrants(s, es) == Grants(s, es, d) == Losses(s, es, d) == 0
    decreases |looks|
  {
    hide CanTake, Taken;
    var es := GlobalLooks(looks);
    if looks != [] {
      var s1 := s.Step(es[0]);
      FirstInVain(s.global.value, looks);
      GlobalInVain(s1, d, looks[1..]);
      assert es[1..] == GlobalLooks(looks[1..]);
    }
  }

  lemma LastLook(b: Level, looks: seq<Region>, got: bool, start: real, until: real)
    requires IsWait(b, looks, got, start, until)
    ensures looks != []
    ensures var n := |looks| - 1;
      var mid := After(b, looks[..n]);
      && NetTaken(b, looks[..n]) == 0 && (forall i :: 0 <= i < n ==> looks[i].Take?)
      && (CanTake(mid, looks[n].at) <==> got) && After(b, looks) == Taken(mid, looks[n].at)
  {
    hide After, NetTaken, CanTake, Taken;
    var n := |looks| - 1;
    assert looks == looks[..n] + [looks[n]];
    assert forall i :: 0 <= i < n ==> looks[i] == looks[..n][i];
    AfterConcat(b, looks[..n], [looks[n]]);
    TakeOnce(After(b, looks[..n]), looks[n].at);
  }

  /** All the looks of one wait at the domain bucket. */
  lemma DomainWait(s: Limiter, d: string, looks: seq<Region>, got: bool, start: real, until: real)
    requires s.callers == [AtDomain(d, true)] && d in s.buckets && IsWait(s.buckets[d], looks, got, start, until)
    ensures var es := DomainLooks(looks);
      && RunAll(s, es) ==
           s.(buckets := s.buckets[d := After(s.buckets[d], looks)],
              callers := [if !got then AtDomain(d, true) else if s.global.Some? then AtGlobal(d, true) else Idle])
      && AllGrants(s, es) == Grants(s, es, d) == (if got && s.global.None? then 1 else 0)
      && Losses(s, es, d) == 0
  {
    hide After, NetTaken, CanTake, Taken, IsWait, RunAll, AllGrants, Grants, Losses;
    var b, n := s.buckets[d], |looks| - 1;
    LastLook(b, looks, got, start, until);
    var vain, e := looks[..n], TryDomain(0, looks[n].at);
    var s1 := s.(buckets := s.buckets[d := After(b, vain)]);
    DomainInVain(s, d, vain);
    assert DomainLooks(looks) == DomainLooks(vain) + [e];
    RunsConcat(s, DomainLooks(vain), [e], d);
    RunOne(s1, e, d);
  }

  lemma GlobalWait(s: Limiter, d: string, looks: seq<Region>, got: bool, start: real, until: real)
    requires s.callers == [AtGlobal(d, true)] && s.global.Some? && IsWait(s.global.value, looks, got, start, until)
    ensures var es := GlobalLooks(looks);
      && RunAll(s, es) ==
           s.(global := Some(After(s.global.value, looks)), callers := [if got then Idle else AtGlobal(d, true)])
      && AllGrants(s, es) == Grants(s, es, d) == (if got then 1 else 0)
      && Losses(s, es, d) == 0
  {
    hide After, NetTaken, CanTake, Taken, IsWait, RunAll, AllGrants, Grants, Losses;
    var g, n := s.global.value, |looks| - 1;
    LastLook(g, looks, got, start, until);
    var vain, e := looks[..n], TryGlobal(0, looks[n].at);
    var s1 := s.(global := Some(After(g, vain)));
    GlobalInVain(s, d, vain);
    assert GlobalLooks(looks) == GlobalLooks(vain) + [e];
    RunsConcat(s, GlobalLooks(vain), [e], d);
    RunOne(s1, e, d);
  }

  /** A request to wait(): the lookup, its looks at the domain bucket until `mid`, and, once served
      there, its looks at the global bucket until `end`; it leaves unserved at the end of either. */
  function WaitEvents(d: string, start: real, looks: seq<Region>, got: bool, mid: real,
                      global: bool, globalLooks: seq<Region>, gotGlobal: bool, end: real): seq<Event>
  {
    var first := [Enter(0, d, true, start)] + DomainLooks(looks);
    if !got then first + [GiveUp(0, mid)]
    else if !global then first
    else first + (GlobalLooks(globalLooks) + if gotGlobal then [] else [GiveUp(0, end)])
  }

  lemma EnterStep(s: Limiter, d: string, start: real)
    requires s.callers == [Idle]
    ensures var s1 := s.Step(Enter(0, d, true, start));
      s1 == s.(buckets := s.buckets[d := BucketFor(s, d, start)], callers := [AtDomain(d, true)])
  {
    if d in s.buckets {
      assert s.buckets[d := s.buckets[d]] == s.buckets;
    }
  }

  /** The first part: served there, the request goes on; otherwise it leaves. */
  lemma WaitAtDomain(s: Limiter, d: string, start: real, looks: seq<Region>, got: bool, mid: real)
    requires s.callers == [Idle] && IsWait(BucketFor(s, d, start), looks, got, start, mid)
    ensures var es := [Enter(0, d, true, start)] + DomainLooks(looks);
      && RunAll(s, es) ==
           s.(buckets := s.buckets[d := After(BucketFor(s, d, start), looks)],
              callers := [if !got then AtDomain(d, true) else if s.global.Some? then AtGlobal(d, true) else Idle])
      && AllGrants(s, es) == Grants(s, es, d) == (if got && s.global.None? then 1 else 0)
      && Losses(s, es, d) == 0
      && InOrder(start, es) && During(start, es, mid)
  {
    hide After, IsWait, RunAll, AllGrants, Grants, Losses, BucketFor;
    var e, b := Enter(0, d, true, start), BucketFor(s, d, start);
    EnterStep(s, d, start);
    var s1 := s.(buckets := s.buckets[d := b], callers := [AtDomain(d, true)]);
    DomainWait(s1, d, looks, got, start, mid);
    assert s1.buckets[d := After(b, looks)] == s.buckets[d := After(b, looks)];
    RunsConcat(s, [e], DomainLooks(looks), d);
    RunOne(s, e, d);
    LooksInOrder(b, looks, got, start, mid);
  }

  lemma LooksInOrder(b: Level, looks: seq<Region>, got: bool, start: real, until: real)
    requires IsWait(b, looks, got, start, until)
    ensures start <= until
    ensures InOrder(start, DomainLooks(looks)) && During(start, DomainLooks(looks), until)
    ensures InOrder(start, GlobalLooks(looks)) && During(start, GlobalLooks(looks), until)
  {
  }

  lemma LeaveUnserved(s: Limiter, d: string, at: real)
    requires s.callers == [AtDomain(d, true)] || s.callers == [AtGlobal(d, true)]
    ensures var e := GiveUp(0, at);
      && s.Step(e) == s.(callers := [Idle]) && s.Granted(e) == None
      && s.Abandoned(e) == if s.callers[0].AtGlobal? then Some(d) else None
  {
  }

  /** The request as a run: what it leaves behind, and what became of its domain token. */
  lemma WaitRun(s: Limiter, d: string, start: real, looks: seq<Region>, got: bool, mid: real,
                globalLooks: seq<Region>, gotGlobal: bool, end: real)
    requires s.callers == [Idle] && IsWait(BucketFor(s, d, start), looks, got, start, mid) && mid <= end
    requires got && s.global.Some? ==> IsWait(s.global.value, globalLooks, gotGlobal, mid, end)
    ensures var es := WaitEvents(d, start, looks, got, mid, s.global.Some?, globalLooks, gotGlobal, end);
      var asked := got && s.global.Some?;
      && RunAll(s, es) ==
           s.(buckets := s.buckets[d := After(BucketFor(s, d, start), looks)],
              global := if asked then Some(After(s.global.value, globalLooks)) else s.global)
      && AllGrants(s, es) == Grants(s, es, d) == (if got && (asked ==> gotGlobal) then 1 else 0)
      && Losses(s, es, d) == (if asked && !gotGlobal then 1 else 0)
      && InOrder(start, es) && During(start, es, end)
  {
    hide After, IsWait, RunAll, AllGrants, Grants, Losses, BucketFor, InOrder, During, Limiter.Step;
    var first := [Enter(0, d, true, start)] + DomainLooks(looks);
    var s1 := RunAll(s, first);
    WaitAtDomain(s, d, start, looks, got, mid);
    LooksInOrder(BucketFor(s, d, start), looks, got, start, mid);
    if !got {
      var e := GiveUp(0, mid);
      LeaveUnserved(s1, d, mid);
      RunsConcat(s, first, [e], d);
      RunOne(s1, e, d);
      OneInOrder(e, mid, end);
      OrderConcat(start, first, mid, [e], end);
    } else if s.global.None? {
      OrderConcat(start, first, mid, [], end);
      assert first + [] == first;
    } else {
      var second := GlobalLooks(globalLooks);
      var s2 := RunAll(s1, second);
      GlobalWait(s1, d, globalLooks, gotGlobal, mid, end);
      LooksInOrder(s.global.value, globalLooks, gotGlobal, mid, end);
      RunsConcat(s, first, second + (if gotGlobal then [] else [GiveUp(0, end)]), d);
      OrderConcat(start, first, mid, second, end);
      if gotGlobal {
        assert second + [] == second;
      } else {
        var e := GiveUp(0, end);
        LeaveUnserved(s2, d, end);
        RunsConcat(s1, second, [e], d);
        RunOne(s2, e, d);
        OneInOrder(e, end, end);
        OrderConcat(start, first + second, end, [e], end);
        Reassociate(first, second, [e]);
      }
    }
  }

  lemma OneInOrder(e: Event, start: real, end: real)
    requires start <= e.at <= end
    ensures InOrder(start, [e]) && During(start, [e], end) && InOrder(start, []) && During(start, [], end)
  {
  }

  lemma OneLook(b: Level, at: real)
    ensures IsWait(b, [Take(at)], CanTake(b, at), at, at) && After(b, [Take(at)]) == Taken(b, at)
  {
    TakeOnce(b, at);
    assert [Take(at)][..0] == [];
  }

  /** A bucket of one token, with its clock at `at`. */
  function OneToken(tokens: real, rate: real, at: real): Level {
    Level(1.0, rate, tokens, at)
  }

  lemma TakeOneToken(rate: real, at: real)
    ensures CanTake(OneToken(1.0, rate, at), at) && Taken(OneToken(1.0, rate, at), at) == OneToken(0.0, rate, at)
    ensures !CanTake(OneToken(0.0, rate, at), at) && Taken(OneToken(0.0, rate, at), at) == OneToken(0.0, rate, at)
  {
    FlowAdds(rate, 0.0, 0.0);
    hide Flow;
  }

  lemma FirstIsGranted(a: string, rate: real, at: real)
    requires rate >= 0.0
    ensures var s := Limiter(1.0, rate, map[], Some(OneToken(1.0, rate, at)), [Idle]);
      var es := TryEvents(a, at);
      && s.Valid(at)
      && RunAll(s, es)
         == Limiter(1.0, rate, map[a := OneToken(0.0, rate, at)], Some(OneToken(0.0, rate, at)), [Idle])
      && Grants(s, es, a) == 1 && AllGrants(s, es) == 1
  {
    hide RunAll, Grants, AllGrants, CanTake, Taken, Refilled;
    TakeOneToken(rate, at);
    TryIsAllOrNothing(Limiter(1.0, rate, map[], Some(OneToken(1.0, rate, at)), [Idle]), a, at);
  }

  /** A wait with timeout 0 that takes the domain's token and finds no global one. */
  function LosingWait(b: string, at: real): seq<Event> {
    [Enter(0, b, true, at), TryDomain(0, at), TryGlobal(0, at), GiveUp(0, at)]
  }

  lemma SecondIsLost(a: string, b: string, rate: real, at: real)
    requires rate >= 0.0 && a != b
    ensures var s := Limiter(1.0, rate, map[a := OneToken(0.0, rate, at)], Some(OneToken(0.0, rate, at)), [Idle]);
      var es := LosingWait(b, at);
      && b in RunAll(s, es).buckets && RunAll(s, es).buckets[b] == OneToken(0.0, rate, at)
      && AllGrants(s, es) == 0 && Losses(s, es, b) == 1
  {
    hide RunAll, Grants, Losses, AllGrants, After, IsWait, CanTake, Taken;
    var s := Limiter(1.0, rate, map[a := OneToken(0.0, rate, at)], Some(OneToken(0.0, rate, at)), [Idle]);
    var looks := [Take(at)];
    assert BucketFor(s, b, at) == OneToken(1.0, rate, at);
    TakeOneToken(rate, at);
    OneLook(OneToken(1.0, rate, at), at);
    OneLook(OneToken(0.0, rate, at), at);
    WaitRun(s, b, at, looks, true, at, looks, false, at);
    assert WaitEvents(b, at, looks, true, at, true, looks, false, at) == LosingWait(b, at);
  }

  lemma {:induction false} OnlyGivingUpLoses(s: Limiter, es: seq<Event>, d: string)
    requires forall i :: 0 <= i < |es| ==> !es[i].GiveUp?
    ensures Losses(s, es, d) == 0
    decreases |es|
  {
    hide Limiter.Step;
    if es != [] {
      OnlyGivingUpLoses(s.Step(es[0]), es[1..], d);
    }
  }

  /** Such a loss: a limiter with buckets of size 1, whatever its rate, grants a request for one domain; a wait
      for another domain at the same moment then takes that domain's only token, finds the global bucket
      empty and is refused.  Its token is gone. */
  lemma TokenIsLost(a: string, b: string, rate: real, at: real)
    requires rate >= 0.0 && a != b
    ensures var s := Limiter(1.0, rate, map[], Some(OneToken(1.0, rate, at)), [Idle]);
      var es := TryEvents(a, at) + LosingWait(b, at);
      && s.Valid(at) && AllGrants(s, es) == 1 && Losses(s, es, b) == 1
      && b in RunAll(s, es).buckets && RunAll(s, es).buckets[b].tokens == 0.0
  {
    hide RunAll, Grants, Losses, AllGrants;
    var s := Limiter(1.0, rate, map[], Some(OneToken(1.0, rate, at)), [Idle]);
    FirstIsGranted(a, rate, at);
    SecondIsLost(a, b, rate, at);
    RunsConcat(s, TryEvents(a, at), LosingWait(b, at), b);
    OnlyGivingUpLoses(s, TryEvents(a, at), b);
  }

  // ---- the limiter itself ----

  class RateLimiter {
    const tokensPerSecond: real
    const bucketSize: real
    const globalBucket: TokenBucket?
    var buckets: map<string, TokenBucket>

    /** No two domains share a bucket, and none uses the global one. */
    ghost predicate Separate()
      reads this
    {
      && (forall c, d :: c in buckets && d in buckets && c != d ==> buckets[c] != buckets[d])
      && (forall d :: d in buckets ==> buckets[d] != globalBucket)
    }

    ghost function View(callers: seq<Caller>): Limiter
      reads this, buckets.Values, globalBucket
    {
      Limiter(bucketSize, tokensPerSecond, map d | d in buckets :: buckets[d].View(),
              if globalBucket == null then None else Some(globalBucket.View()), callers)
    }

    /** Ready for a request at this clock reading. */
    ghost predicate Valid(now: real)
      reads this, buckets.Values, globalBucket
    {
      Separate() && View([Idle]).Valid(now)
    }

    constructor (tokensPerSecond: real, bucketSize: real, globalLimit: Option<real>, now: real)
      ensures View([Idle]) == Limiter(bucketSize, tokensPerSecond, map[],
                                      if globalLimit.None? then None
                                      else Some(Level(bucketSize, globalLimit.value, bucketSize, now)), [Idle])
      ensures bucketSize >= 0.0 && tokensPerSecond >= 0.0 && (globalLimit.Some? ==> globalLimit.value >= 0.0) ==>
        Valid(now)
      ensures buckets == map[] && (globalBucket != null ==> fresh(globalBucket))
    {
      this.tokensPerSecond := tokensPerSecond;
      this.bucketSize := bucketSize;
      this.buckets := map[];
      if globalLimit.Some? {
        this.globalBucket := new TokenBucket(bucketSize, globalLimit.value, now);
      } else {
        this.globalBucket := null;
      }
    }

    method GetBucket(domain: string, now: real) returns (bucket: TokenBucket)
      requires Separate()
      modifies this
      ensures Separate() && domain in buckets && bucket == buckets[domain]
      ensures old(domain in buckets) ==> buckets == old(buckets)
      ensures !old(domain in buckets) ==> fresh(bucket) && buckets == old(buckets)[domain := bucket]
      ensures buckets.Keys == old(buckets.Keys) + {domain} && fresh(buckets.Values - old(buckets.Values))
      ensures forall c :: c in old(buckets) ==> buckets[c] == old(buckets[c])
      ensures bucket.View() == BucketFor(old(View([Idle])), domain, now)
    {
      if domain !in buckets {
        var b := new TokenBucket(bucketSize, tokensPerSecond, now);
        buckets := buckets[domain := b];
      }
      return buckets[domain];
    }

    lemma Apart()
      requires Separate()
      ensures forall d :: d in buckets ==> buckets[d] != globalBucket
      ensures forall c, d :: c in buckets && d in buckets && c != d ==> buckets[c] != buckets[d]
    {
    }

    lemma ViewParts()
      ensures var v := View([Idle]);
        && v.size == bucketSize && v.rate == tokensPerSecond && v.callers == [Idle]
        && v.buckets.Keys == buckets.Keys && (forall d :: d in buckets ==> v.buckets[d] == buckets[d].View())
        && v.global == if globalBucket == null then None else Some(globalBucket.View())
    {
    }

    lemma Parts(now: real)
      requires Valid(now)
      ensures Separate() && View([Idle]).Valid(now)
    {
    }

    lemma PartsMakeValid(now: real)
      requires Separate() && View([Idle]).Valid(now)
      ensures Valid(now)
    {
    }

    /** The view, when one bucket has changed to `b` and the global one to that of `s`. */
    lemma OneBucketChanged(before: Limiter, domain: string, b: Level, s: Limiter)
      requires buckets.Keys == before.buckets.Keys + {domain} && buckets[domain].View() == b
      requires forall c :: c in before.buckets && c != domain ==> buckets[c].View() == before.buckets[c]
      requires s == Limiter(bucketSize, tokensPerSecond, before.buckets[domain := b],
                            if globalBucket == null then None else Some(globalBucket.View()), [Idle])
      ensures View([Idle]) == s
    {
      assert View([Idle]).buckets == s.buckets;
    }

    method TryAcquire(domain: string, now: real) returns (ok: bool)
      requires Valid(now)
      modifies this, buckets.Values, globalBucket
      ensures Valid(now)
      ensures View([Idle]) == RunAll(old(View([Idle])), TryEvents(domain, now)) == Tried(old(View([Idle])), domain, now)
      ensures ok == TrySucceeds(old(View([Idle])), domain, now)
      ensures Grants(old(View([Idle])), TryEvents(domain, now), domain) == if ok then 1 else 0
      ensures buckets.Keys == old(buckets.Keys) + {domain} && fresh(buckets.Values - old(buckets.Values))
      ensures forall c :: c in old(buckets) ==> buckets[c] == old(buckets[c])
      ensures forall c :: c in old(buckets) && c != domain ==> buckets[c].View() == old(buckets[c].View())
    {
      hide *;
      ghost var s := View([Idle]);
      Parts(now);
      Apart();
      ViewParts();
      TryIsAllOrNothing(s, domain, now);
      TriedParts(s, domain, now);
      TriedIsValid(s, domain, now);
      var bucket := GetBucket(domain, now);
      TakeIsTaken(bucket.View(), now);
      if globalBucket != null {
        TakeIsTaken(globalBucket.View(), now);
      }
      ok := bucket.TryAcquire(now);
      if ok && globalBucket != null {
        ok := globalBucket.TryAcquire(now);
        if !ok {
          bucket.GiveBack();
        }
      }
      OneBucketChanged(s, domain, bucket.View(), Tried(s, domain, now));
      PartsMakeValid(now);
    }

    /** reset(): fills the named bucket, or every bucket, and in either case the global one as well. */
    method Reset(domain: Option<string>, now: real) returns (ghost es: seq<Event>)
      requires Valid(now)
      modifies buckets.Values, globalBucket
      ensures Valid(now) && buckets == old(buckets)
      ensures View([Idle]) == RunAll(old(View([Idle])), es + [ResetGlobal(now)])
      ensures domain.Some? ==> es == [ResetDomain(domain.value, now)]
      ensures domain.None? ==>
        && (forall e :: e in es ==> e.ResetDomain? && e.at == now)
        && (forall d :: d in buckets ==> ResetDomain(d, now) in es)
      ensures globalBucket != null ==>
        globalBucket.tokens == globalBucket.capacity && globalBucket.lastRefill == now
      ensures forall d :: d in buckets && (domain.None? || domain.value == d) ==>
        buckets[d].tokens == buckets[d].capacity && buckets[d].lastRefill == now
      ensures forall d :: d in buckets && domain.Some? && domain.value != d ==>
        buckets[d].View() == old(buckets[d].View())
    {
      hide Full, RunAll, Limiter.Valid, Limiter.Step;
      ghost var s := View([Idle]);
      es := [];
      RunNone(s);
      if domain.Some? {
        ResetSteps(s, domain.value, now);
        if domain.value in buckets {
          buckets[domain.value].FillUp(now);
          OneBucketChanged(s, domain.value, buckets[domain.value].View(), s.Step(ResetDomain(domain.value, now)));
        }
        RunsOneMore(s, es, ResetDomain(domain.value, now));
        es := es + [ResetDomain(domain.value, now)];
      } else {
        es := FillAll(now);
      }
      ghost var mid := View([Idle]);
      ResetSteps(mid, "", now);
      if globalBucket != null {
        globalBucket.FillUp(now);
      }
      assert View([Idle]).buckets == mid.buckets;
      RunsOneMore(s, es, ResetGlobal(now));
      ResetsAreValid(s, es + [ResetGlobal(now)], now);
    }

    /** Every domain's bucket, in no particular order. */
    method FillAll(now: real) returns (ghost es: seq<Event>)
      requires Separate()
      modifies buckets.Values
      ensures buckets == old(buckets) && View([Idle]) == RunAll(old(View([Idle])), es)
      ensures forall e :: e in es ==> e.ResetDomain? && e.at == now
      ensures forall d :: d in buckets ==> ResetDomain(d, now) in es
      ensures forall d :: d in buckets ==>
        buckets[d].tokens == buckets[d].capacity && buckets[d].lastRefill == now
    {
      hide *;
      ghost var s := View([Idle]);
      es := [];
      RunNone(s);
      Apart();
      var left := buckets.Keys;
      while left != {}
        invariant left <= buckets.Keys
        invariant View([Idle]) == RunAll(s, es)
        invariant forall e :: e in es ==> e.ResetDomain? && e.at == now
        invariant forall d :: d in buckets ==> d in left || ResetDomain(d, now) in es
        decreases left
      {
        var d :| d in left;
        ghost var mid := View([Idle]);
        ViewParts();
        ResetSteps(mid, d, now);
        buckets[d].FillUp(now);
        OneBucketChanged(mid, d, buckets[d].View(), mid.Step(ResetDomain(d, now)));
        RunsOneMore(s, es, ResetDomain(d, now));
        es := es + [ResetDomain(d, now)];
        left := left - {d};
      }
      ResetsFill(s, es, now);
      ViewParts();
      BucketsAre();
    }

    lemma BucketsAre()
      ensures forall d :: d in buckets ==>
        var v := buckets[d].View(); v.tokens == buckets[d].tokens && v.last == buckets[d].lastRefill
                                    && v.capacity == buckets[d].capacity
    {
    }

    /** wait(): the domain bucket first, then the global one, each with the whole timeout, so a
        caller may be kept for twice as long as it asked.  Unlike try_acquire, an answer other than True
        that comes from the global bucket leaves the domain bucket one token short. */
    method Wait(domain: string, timeout: Option<real>, clock: Clock) returns (answer: Answer, ghost es: seq<Event>)
      requires Valid(clock.now) && (timeout.None? ==> bucketSize >= 1.0 || tokensPerSecond == 0.0)
      modifies this, buckets.Values, globalBucket, clock
      ensures Valid(clock.now) && old(clock.now) <= clock.now
      ensures View([Idle]) == RunAll(old(View([Idle])), es)
      ensures InOrder(old(clock.now), es) && During(old(clock.now), es, clock.now)
      ensures Requested(old(View([Idle])), domain, old(clock.now), timeout, es, answer, clock.now)
      ensures buckets.Keys == old(buckets.Keys) + {domain} && fresh(buckets.Values - old(buckets.Values))
      ensures forall c :: c in old(buckets) ==> buckets[c] == old(buckets[c])
      ensures forall c :: c in old(buckets) && c != domain ==> buckets[c].View() == old(buckets[c].View())
    {
      hide *;
      ghost var s, start := View([Idle]), clock.now;
      Parts(clock.now);
      Apart();
      ViewParts();
      ghost var looks, globalLooks, first, mid;
      MayWait(s, domain, start, timeout);
      var bucket := GetBucket(domain, clock.now);
      bucket.ViewIs();
      answer, looks := bucket.Acquire(clock, timeout);
      first, mid := answer, clock.now;
      globalLooks := [];
      ghost var b := bucket.View();
      if answer.Acquired? && globalBucket != null {
        GlobalMayWait(s, domain, start, timeout, looks, b, mid);
        globalBucket.ViewIs();
        answer, globalLooks := globalBucket.Acquire(clock, timeout);
      }
      es := WaitEvents(domain, start, looks, first.Acquired?, mid, s.global.Some?, globalLooks,
                       answer.Acquired?, clock.now);
      ghost var global := if globalBucket == null then None else Some(globalBucket.View());
      WaitMeets(s, domain, start, timeout, looks, first, b, mid, globalLooks, answer, global, clock.now);
      OneBucketChanged(s, domain, b, s.(buckets := s.buckets[domain := b], global := global));
      PartsMakeValid(clock.now);
    }
  }

  lemma TakeIsTaken(b: Level, now: real)
    ensures Apply(b, Take(now)) == Taken(b, now)
    ensures Gain(b, Take(now)) == 1 <==> CanTake(b, now)
  {
  }

  lemma TriedParts(s: Limiter, d: string, now: real)
    requires s.Valid(now)
    ensures var b, s' := BucketFor(s, d, now), Tried(s, d, now);
      && s'.size == s.size && s'.rate == s.rate && s'.callers == s.callers
      && s'.buckets == s.buckets[d :=
           if !CanTake(b, now) || TrySucceeds(s, d, now) then Taken(b, now) else Refunded(Taken(b, now))]
      && s'.global == (if s.global.None? || !CanTake(b, now) then s.global else Some(Taken(s.global.value, now)))
      && (TrySucceeds(s, d, now) <==> CanTake(b, now) && (s.global.Some? ==> CanTake(s.global.value, now)))
  {
    hide Taken, Refilled, Refunded, CanTake;
    BucketForIsValid(s, d, now);
    if CanTake(BucketFor(s, d, now), now) {
      RefundUndoesTake(BucketFor(s, d, now), now);
    } else {
      TakenNothing(BucketFor(s, d, now), now);
    }
  }

  lemma TriedIsValid(s: Limiter, d: string, now: real)
    requires s.Valid(now) && s.callers == [Idle]
    ensures Tried(s, d, now).Valid(now)
  {
    hide Tried, Limiter.Valid, RunAll;
    TryIsAllOrNothing(s, d, now);
    RunKeepsValid(s, TryEvents(d, now), now, now);
  }

  lemma RunsOneMore(s: Limiter, es: seq<Event>, e: Event)
    ensures RunAll(s, es + [e]) == RunAll(s, es).Step(e)
  {
    hide Limiter.Step;
    RunsConcat(s, es, [e], "");
    RunOne(RunAll(s, es), e, "");
  }

  lemma ResetSteps(s: Limiter, d: string, now: real)
    ensures s.Step(ResetDomain(d, now))
         == if d in s.buckets then s.(buckets := s.buckets[d := Full(s.buckets[d], now)]) else s
    ensures s.Step(ResetGlobal(now))
         == if s.global.Some? then s.(global := Some(Full(s.global.value, now))) else s
  {
  }

  lemma RunNone(s: Limiter)
    ensures RunAll(s, []) == s
  {
  }

  /** Resets made at one moment: they leave each domain's bucket they name full, the others as they were. */
  lemma {:induction false} ResetsFill(s: Limiter, es: seq<Event>, now: real)
    requires forall e :: e in es ==> e.ResetDomain? && e.at == now
    ensures var s' := RunAll(s, es);
      && s'.buckets.Keys == s.buckets.Keys && s'.global == s.global
      && (forall d :: d in s.buckets ==>
            s'.buckets[d] == if ResetDomain(d, now) in es
                             then s.buckets[d].(tokens := s.buckets[d].capacity, last := now) else s.buckets[d])
    decreases |es|
  {
    if es != [] {
      assert es[0] in es;
      ResetsFill(s.Step(es[0]), es[1..], now);
      assert es == [es[0]] + es[1..];
    }
  }

  lemma ResetsAreValid(s: Limiter, es: seq<Event>, now: real)
    requires s.Valid(now) && forall e :: e in es ==> e.at == now
    ensures RunAll(s, es).Valid(now)
  {
    hide RunAll, Limiter.Valid;
    assert InOrder(now, es);
    RunKeepsValid(s, es, now, now);
  }

  /** How a request to wait() that begins at `start` goes: what its answer is and when, by the tokens each
      bucket holds when the request gets to it; what it leaves in them; that it is granted exactly when it is
      answered True; and that it loses its domain token exactly when the domain serves it and the global
      bucket does not. */
  ghost predicate Requested(s: Limiter, d: string, start: real, timeout: Option<real>, es: seq<Event>,
                            answer: Answer, end: real)
  {
    var b := BucketFor(s, d, start);
    var first := Refilled(b, start).tokens;
    var served, asked := WaitAnswer(first, b, timeout), start + WaitTime(first, b, timeout);
    && AllGrants(s, es) == Grants(s, es, d) == (if answer.Acquired? then 1 else 0)
    && Losses(s, es, d) == (if served.Acquired? && !answer.Acquired? then 1 else 0)
    && (if !served.Acquired? || s.global.None? then answer == served && end == asked
        else
          var g := s.global.value;
          var left := Refilled(g, asked).tokens;
          answer == WaitAnswer(left, g, timeout) && end == asked + WaitTime(left, g, timeout))
    && (timeout.Some? ==> end - start <= if timeout.value <= 0.0 then 0.0 else 2.0 * timeout.value)
    && (timeout.None? ==> !answer.TimedOut?)
    && Paid(s, d, start, timeout, RunAll(s, es), answer, end)
  }

  /** What such a request leaves in the buckets: the domain's is as it was when the domain's wait was over, less
      a token if that was served; the global one is as it was at the end, less a token if the answer is True,
      and untouched when the domain did not serve. */
  ghost predicate Paid(s: Limiter, d: string, start: real, timeout: Option<real>, s': Limiter, answer: Answer,
                       end: real)
  {
    var b := BucketFor(s, d, start);
    var first := Refilled(b, start).tokens;
    var served, asked := WaitAnswer(first, b, timeout), start + WaitTime(first, b, timeout);
    && s'.buckets == s.buckets[d := Level(s.size, s.rate,
                                          Refilled(b, asked).tokens - (if served.Acquired? then 1.0 else 0.0), asked)]
    && (s.global.None? || !served.Acquired? ==> s'.global == s.global)
    && (s.global.Some? && served.Acquired? ==>
          s'.global == Some(s.global.value.(tokens := Refilled(s.global.value, end).tokens
                                                      - (if answer.Acquired? then 1.0 else 0.0), last := end)))
  }

  /** Whether a wait for `d` ends: a bucket that never holds a token makes an untimed one endless. */
  lemma MayWait(s: Limiter, d: string, now: real, timeout: Option<real>)
    requires s.Valid(now) && (timeout.None? ==> s.size >= 1.0 || s.rate == 0.0)
    ensures var b := BucketFor(s, d, now); b.Valid() && b.last <= now && Answers(b, timeout)
  {
    BucketForIsValid(s, d, now);
  }

  /** A served domain wait tells that buckets are large enough for the global wait to end. */
  lemma GlobalMayWait(s: Limiter, d: string, start: real, timeout: Option<real>,
                      looks: seq<Region>, b: Level, mid: real)
    requires s.Valid(start) && s.global.Some?
    requires Waited(BucketFor(s, d, start), start, timeout, Acquired, looks, b, mid)
    ensures s.global.value.Valid() && s.global.value.last <= mid && Answers(s.global.value, timeout)
  {
    hide Flow, After, NetTaken;
    BucketForIsValid(s, d, start);
    RefillStaysInRange(BucketFor(s, d, start), start);
    WaitTimeInRange(Refilled(BucketFor(s, d, start), start).tokens, BucketFor(s, d, start), timeout);
  }

  /** From the two bucket waits to the whole request. */
  lemma WaitMeets(s: Limiter, d: string, start: real, timeout: Option<real>,
                  looks: seq<Region>, first: Answer, b: Level, mid: real,
                  globalLooks: seq<Region>, answer: Answer, global: Option<Level>, end: real)
    requires s.Valid(start) && s.callers == [Idle] && Answers(BucketFor(s, d, start), timeout)
    requires Waited(BucketFor(s, d, start), start, timeout, first, looks, b, mid)
    requires if first.Acquired? && s.global.Some? then
               && global.Some? && Answers(s.global.value, timeout)
               && Waited(s.global.value, mid, timeout, answer, globalLooks, global.value, end)
             else global == s.global && answer == first && end == mid
    ensures var es :=
        WaitEvents(d, start, looks, first.Acquired?, mid, s.global.Some?, globalLooks, answer.Acquired?, end);
      && RunAll(s, es) == s.(buckets := s.buckets[d := b], global := global)
      && RunAll(s, es).Valid(end) && start <= end && InOrder(start, es) && During(start, es, end)
      && Requested(s, d, start, timeout, es, answer, end)
  {
    hide Flow, After, IsWait, RunAll, AllGrants, Grants, Losses, WaitAnswer, WaitTime, WaitEvents, InOrder, During;
    hide Limiter.Valid, Level.Valid, Answers, BucketFor, Refilled, Paid;
    var b0 := BucketFor(s, d, start);
    var left := Refilled(b0, start).tokens;
    BucketForIsValid(s, d, start);
    ValidCapacities(s, start);
    WaitTimeInRange(left, b0, timeout);
    if first.Acquired? && s.global.Some? {
      WaitTimeInRange(Refilled(s.global.value, mid).tokens, s.global.value, timeout);
    }
    WaitRun(s, d, start, looks, first.Acquired?, mid, globalLooks, answer.Acquired?, end);
    var es := WaitEvents(d, start, looks, first.Acquired?, mid, s.global.Some?, globalLooks, answer.Acquired?, end);
    RunKeepsValid(s, es, start, end);
    WaitPays(s, d, start, timeout, looks, first, b, mid, globalLooks, answer, RunAll(s, es), end);
  }

  lemma WaitPays(s: Limiter, d: string, start: real, timeout: Option<real>,
                 looks: seq<Region>, first: Answer, b: Level, mid: real,
                 globalLooks: seq<Region>, answer: Answer, s': Limiter, end: real)
    requires s.Valid(start) && s'.Valid(end) && s' == s.(buckets := s.buckets[d := b], global := s'.global)
    requires Waited(BucketFor(s, d, start), start, timeout, first, looks, b, mid)
    requires s.global.Some? ==> s'.global.Some? && s'.global.value.rate == s.global.value.rate
    requires if first.Acquired? && s.global.Some? then
               Waited(s.global.value, mid, timeout, answer, globalLooks, s'.global.value, end)
             else s'.global == s.global && answer == first
    ensures Paid(s, d, start, timeout, s', answer, end)
  {
    hide Flow, Refilled, After, IsWait, LooksFit, WaitAnswer, WaitTime, BucketFor;
    assert d in s'.buckets && s'.buckets[d] == b;
    assert b.capacity == s.size && b.rate == s.rate;
  }

  /** Each bucket gets the whole timeout, so a wait can outlast it: exactly when the domain serves it and
      the two naps together take longer (or when the timeout is below 0, which counts as 0). */
  lemma WaitOutlastsIff(s: Limiter, d: string, start: real, timeout: real, es: seq<Event>, answer: Answer, end: real)
    requires s.Valid(start) && Requested(s, d, start, Some(timeout), es, answer, end)
    ensures var b := BucketFor(s, d, start);
      var first := Refilled(b, start).tokens;
      var nap := WaitTime(first, b, Some(timeout));
      end - start > timeout
      <==> || timeout < 0.0
           || (WaitAnswer(first, b, Some(timeout)).Acquired? && s.global.Some?
               && var g := s.global.value; nap + WaitTime(Refilled(g, start + nap).tokens, g, Some(timeout)) > timeout)
  {
    hide Flow, WaitAnswer, WaitTime, AllGrants, Grants, Losses, BucketFor, Refilled, Paid, RunAll;
    var b := BucketFor(s, d, start);
    var nap := WaitTime(Refilled(b, start).tokens, b, Some(timeout));
    BucketForIsValid(s, d, start);
    ValidCapacities(s, start);
    WaitTimeInRange(Refilled(b, start).tokens, b, Some(timeout));
    if s.global.Some? {
      WaitTimeInRange(Refilled(s.global.value, start + nap).tokens, s.global.value, Some(timeout));
    }
  }

  lemma TwoLooks(b: Level, start: real, later: real)
    requires start <= later && !CanTake(b, start) && CanTake(Taken(b, start), later)
    ensures var looks := [Take(start), Take(later)];
      IsWait(b, looks, true, start, later) && After(b, looks) == Taken(Taken(b, start), later)
  {
    hide CanTake, Taken;
    TakeOnce(b, start);
    NothingYet(b, start, later);
    LookOnce(b, [Take(start)], start, later);
    assert [Take(start)] + [Take(later)] == [Take(start), Take(later)];
  }

  lemma NothingYet(b: Level, start: real, later: real)
    requires start <= later && !CanTake(b, start)
    ensures InVain(b, [Take(start)], start, later)
  {
    hide CanTake, Taken;
    TakeOnce(b, start);
  }

  /** A bucket of one token, emptied at time 0. */
  function Emptied(rate: real, now: real): Level {
    Level(1.0, rate, 0.0, now)
  }

  /** An emptied bucket, looked at `at` and again after the nap to its next token. */
  lemma NapToToken(rate: real, at: real, timeout: real)
    requires 0.0 < rate && 0.0 <= at && Flow(rate, at) < 1.0
    requires timeout > 0.0 && Flow(rate, at) + Flow(rate, timeout) >= 1.0
    ensures var b, end := Emptied(rate, 0.0), at + (1.0 - Flow(rate, at)) / rate;
      at <= end && Waited(b, at, Some(timeout), Acquired, [Take(at), Take(end)], Emptied(rate, end), end)
  {
    var b, gap := Emptied(rate, 0.0), 1.0 - Flow(rate, at);
    var end := at + gap / rate;
    FlowOfQuotient(rate, gap);
    FlowAdds(rate, at, gap / rate);
    FlowGrows(rate, 0.0, at);
    FlowAdds(rate, 0.0, 0.0);
    hide Flow, After, IsWait;
    assert Taken(b, at) == Level(1.0, rate, 1.0 - gap, at);
    assert Taken(Taken(b, at), end) == Emptied(rate, end);
    TwoLooks(b, at, end);
  }

  lemma NapFigures()
    ensures Flow(1.0, 0.0) == 0.0 && Flow(1.0, 1.5) == 1.5 && 0.0 + (1.0 - 0.0) / 1.0 == 1.0
    ensures Flow(0.5, 1.0) == 0.5 && Flow(0.5, 1.5) == 0.75 && 1.0 + (1.0 - 0.5) / 0.5 == 2.0
  {
  }

  lemma SlowNaps()
    ensures Waited(Emptied(1.0, 0.0), 0.0, Some(1.5), Acquired, [Take(0.0), Take(1.0)], Emptied(1.0, 1.0), 1.0)
    ensures Waited(Emptied(0.5, 0.0), 1.0, Some(1.5), Acquired, [Take(1.0), Take(2.0)], Emptied(0.5, 2.0), 2.0)
  {
    hide Flow, Waited, Emptied;
    NapFigures();
    NapToToken(1.0, 0.0, 1.5);
    NapToToken(0.5, 1.0, 1.5);
  }

  function SlowLimiter(): Limiter {
    Limiter(1.0, 1.0, map["d" := Emptied(1.0, 0.0)], Some(Emptied(0.5, 0.0)), [Idle])
  }

  lemma SlowLimiterIs()
    ensures var s := SlowLimiter();
      && s.Valid(0.0) && s.callers == [Idle] && s.global == Some(Emptied(0.5, 0.0))
      && BucketFor(s, "d", 0.0) == Emptied(1.0, 0.0)
      && Answers(Emptied(1.0, 0.0), Some(1.5)) && Answers(Emptied(0.5, 0.0), Some(1.5))
  {
  }

  function SlowWait(): seq<Event> {
    [Enter(0, "d", true, 0.0), TryDomain(0, 0.0), TryDomain(0, 1.0), TryGlobal(0, 1.0), TryGlobal(0, 2.0)]
  }

  lemma SlowWaitEvents()
    ensures WaitEvents("d", 0.0, [Take(0.0), Take(1.0)], true, 1.0, true, [Take(1.0), Take(2.0)], true, 2.0)
         == SlowWait()
  {
    assert DomainLooks([Take(0.0), Take(1.0)]) == [TryDomain(0, 0.0), TryDomain(0, 1.0)];
    assert GlobalLooks([Take(1.0), Take(2.0)]) == [TryGlobal(0, 1.0), TryGlobal(0, 2.0)];
  }

  /** Such a wait: one token per second for the domain, half a one for all domains, both buckets empty;
      with a timeout of 1.5 seconds it is answered True after 2. */
  lemma WaitOutlasts()
    ensures var s := SlowLimiter();
      && s.Valid(0.0) && s.global == Some(Emptied(0.5, 0.0)) && BucketFor(s, "d", 0.0) == Emptied(1.0, 0.0)
      && Requested(s, "d", 0.0, Some(1.5), SlowWait(), Acquired, 2.0)
  {
    hide *;
    SlowLimiterIs();
    SlowNaps();
    SlowWaitEvents();
    WaitMeets(SlowLimiter(), "d", 0.0, Some(1.5), [Take(0.0), Take(1.0)], Acquired, Emptied(1.0, 1.0), 1.0,
              [Take(1.0), Take(2.0)], Acquired, Some(Emptied(0.5, 2.0)), 2.0);
  }
}
