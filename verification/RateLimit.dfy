/** The connection limiter of internal/ratelimit/ratelimit.go: a cap on open connections and a token bucket.

Times are nanoseconds on a monotone clock; the token count is a real number.
*/
module RateLimit {
  import opened Reals

  datatype State = State(maxConnections: int, count: int, rate: int, burst: int, tokens: real, lastRefill: int)

  function New(maxConnections: int, rate: int, burst: int, now: int): State {
    State(maxConnections, 0, rate, burst, burst as real, now)
  }

  function Minutes(elapsed: int): real { elapsed as real / 60_000_000_000.0 }

  /** The tokens that accrue in `elapsed` nanoseconds. */
  function Refill(rate: int, elapsed: int): real { rate as real * Minutes(elapsed) }

  /** The tokens a refill at time `now` leaves in the bucket. */
  function Available(st: State, now: int): real {
    MinReal(st.tokens + Refill(st.rate, now - st.lastRefill), st.burst as real)
  }

  function Allow(st: State, now: int): (bool, State) {
    if st.count >= st.maxConnections then (false, st)
    else
      var filled := st.(tokens := Available(st, now), lastRefill := now);
      if filled.tokens < 1.0 then (false, filled)
      else (true, filled.(tokens := filled.tokens - 1.0, count := st.count + 1))
  }

  function Release(st: State): State {
    if st.count > 0 then st.(count := st.count - 1) else st
  }

  function Update(st: State, maxConnections: int, rate: int, burst: int): State {
    var max' := if maxConnections > 0 then maxConnections else st.maxConnections;
    var burst' := if burst > 0 then burst else st.burst;
    State(max', if st.count > max' then max' else st.count, if rate > 0 then rate else st.rate, burst',
          MinReal(st.tokens, burst' as real), st.lastRefill)
  }

  // ---------------------------------------------------------------- runs with fixed limits

  datatype Event = Ask(at: int) | Free

  function Step(st: State, e: Event): (bool, State) {
    match e
    case Ask(at) => Allow(st, at)
    case Free => (false, Release(st))
  }

  /** How often Allow returned true, and the state after the events. */
  function Run(st: State, events: seq<Event>): (nat, State)
    decreases |events|
  {
    if events == [] then (0, st) else
    var (granted, st') := Step(st, events[0]);
    var (n, end) := Run(st', events[1..]);
    ((if granted then 1 else 0) + n, end)
  }

  /** The clock does not run backwards: calls happen in order, from `from` to `to`. */
  predicate Ordered(events: seq<Event>, from: int, to: int) {
    if events == [] then from <= to
    else if events[0].Ask? then from <= events[0].at <= to && Ordered(events[1..], events[0].at, to)
    else Ordered(events[1..], from, to)
  }

  predicate InBounds(st: State) {
    0.0 <= st.tokens <= st.burst as real && st.rate >= 0
  }

  lemma RefillLaw(rate: int, from: int, mid: int, to: int)
    requires rate >= 0 && from <= mid <= to
    ensures 0.0 <= Refill(rate, mid - from)
    ensures Refill(rate, to - from) == Refill(rate, mid - from) + Refill(rate, to - mid)
    ensures Refill(rate, 0) == 0.0
  {
    var a, b := Minutes(mid - from), Minutes(to - mid);
    assert Minutes(to - from) == a + b;
    assert rate as real * (a + b) == rate as real * a + rate as real * b;
    assert a >= 0.0;
  }

  /** The end of the call at the earliest possible time. */
  function Next(e: Event, from: int): int { if e.Ask? then e.at else from }

  /** One call spends no more than the bucket could hold by then. */
  lemma StepPotential(st: State, e: Event, from: int)
    requires InBounds(st) && st.lastRefill <= from <= Next(e, from)
    ensures var (granted, st') := Step(st, e);
            && InBounds(st') && st'.burst == st.burst && st'.rate == st.rate && st'.maxConnections == st.maxConnections
            && st'.lastRefill <= Next(e, from)
            && (if granted then 1.0 else 0.0) + Available(st', Next(e, from))
                 <= Available(st, from) + Refill(st.rate, Next(e, from) - from)
  {
    RefillLaw(st.rate, from, Next(e, from), Next(e, from));
    RefillLaw(st.rate, st.lastRefill, from, Next(e, from));
    hide Refill;
  }

  lemma {:induction false} GrantsBelowPotential(st: State, events: seq<Event>, from: int, to: int)
    requires InBounds(st) && st.lastRefill <= from && Ordered(events, from, to)
    ensures Run(st, events).0 as real <= Available(st, from) + Refill(st.rate, to - from)
    ensures InBounds(Run(st, events).1) && Run(st, events).1.lastRefill <= to
    decreases |events|
  {
    hide Refill;
    OrderedEnds(events, from, to);
    RefillLaw(st.rate, from, to, to);
    RefillLaw(st.rate, st.lastRefill, from, to);
    if events != [] {
      var e := events[0];
      OrderedEnds(events[1..], Next(e, from), to);
      hide Step, Available;
      StepPotential(st, e, from);
      var (granted, st') := Step(st, e);
      GrantsBelowPotential(st', events[1..], Next(e, from), to);
      RefillLaw(st.rate, from, Next(e, from), to);
      assert Run(st, events).0 == (if granted then 1 else 0) + Run(st', events[1..]).0;
      assert Run(st, events).0 as real == (if granted then 1.0 else 0.0) + Run(st', events[1..]).0 as real;
    }
  }

  lemma {:induction false} OrderedEnds(events: seq<Event>, from: int, to: int)
    requires Ordered(events, from, to)
    ensures from <= to
  {
    if events != [] { OrderedEnds(events[1..], Next(events[0], from), to); }
  }

  /** A refill in nanoseconds and whole tokens: rate tokens in sixty thousand million nanoseconds. */
  lemma RefillInNanoseconds(rate: int, elapsed: int)
    ensures Refill(rate, elapsed) * 60_000_000_000.0 == (rate * elapsed) as real
  {
    var minutes := Minutes(elapsed);
    assert minutes * 60_000_000_000.0 == elapsed as real;
    assert rate as real * minutes * 60_000_000_000.0 == rate as real * (minutes * 60_000_000_000.0);
    Product(rate, elapsed);
  }

  lemma Product(a: int, b: int)
    ensures a as real * b as real == (a * b) as real
  {}

  /** In any run and any time interval Allow returns true at most burst + rate * minutes times, in nanoseconds and
      without fractions, and the tokens stay between zero and burst. */
  lemma RateBound(maxConnections: int, rate: nat, burst: nat, start: int, before: seq<Event>, window: seq<Event>,
                  from: int, to: int)
    requires Ordered(before, start, from) && Ordered(window, from, to)
    ensures var st := Run(New(maxConnections, rate, burst, start), before).1;
            && Run(st, window).0 * 60_000_000_000 <= burst * 60_000_000_000 + rate * (to - from)
            && 0.0 <= st.tokens <= burst as real
  {
    hide Refill, Run;
    var full := New(maxConnections, rate, burst, start);
    GrantsBelowPotential(full, before, start, from);
    RunKeepsLimits(full, before);
    var st := Run(full, before).1;
    GrantsBelowPotential(st, window, from, to);
    RefillInNanoseconds(rate, to - from);
    InTokens(Run(st, window).0, burst, Refill(rate, to - from), rate * (to - from));
  }

  lemma InTokens(granted: nat, burst: nat, refill: real, nanos: int)
    requires granted as real <= burst as real + refill && refill * 60_000_000_000.0 == nanos as real
    ensures granted * 60_000_000_000 <= burst * 60_000_000_000 + nanos
  {
    assert granted as real * 60_000_000_000.0 <= (burst as real + refill) * 60_000_000_000.0;
    assert (granted * 60_000_000_000) as real <= (burst * 60_000_000_000 + nanos) as real;
  }

  lemma {:induction false} RunKeepsLimits(st: State, events: seq<Event>)
    ensures var st' := Run(st, events).1;
            st'.burst == st.burst && st'.rate == st.rate && st'.maxConnections == st.maxConnections
    decreases |events|
  {
    if events != [] { RunKeepsLimits(Step(st, events[0]).1, events[1..]); }
  }

  function Asks(at: int, n: nat): seq<Event> { seq(n, _ => Ask(at)) }

  function Least(a: int, b: int, d: int): int {
    var m := if a < b then a else b; if m < d then m else d
  }

  /** Of n calls at one instant exactly the least of n, the whole tokens and the free connections are granted. */
  lemma {:induction false} GrantedAtOnce(st: State, n: nat, at: int)
    requires InBounds(st) && st.burst >= 0 && st.lastRefill <= at && st.count <= st.maxConnections
    ensures Run(st, Asks(at, n)).0 == Least(n, Available(st, at).Floor, st.maxConnections - st.count)
    decreases n
  {
    hide Refill;
    RefillLaw(st.rate, at, at, at);
    RefillLaw(st.rate, st.lastRefill, at, at);
    if n > 0 {
      var (granted, st') := Allow(st, at);
      assert Asks(at, n)[0] == Ask(at) && Asks(at, n)[1..] == Asks(at, n - 1);
      GrantedAtOnce(st', n - 1, at);
      if granted {
        assert Available(st', at) == Available(st, at) - 1.0;
      }
    }
  }

  /** The bound is met: after any run, as many calls as there are free connections, burst and tokens due since the last
      refill are all granted. */
  lemma DueTokensGranted(maxConnections: int, rate: nat, burst: nat, start: int, before: seq<Event>, n: nat, now: int)
    requires Ordered(before, start, now)
    requires var st := Run(New(maxConnections, rate, burst, start), before).1;
             n <= burst && n <= st.maxConnections - st.count && rate * (now - st.lastRefill) >= n * 60_000_000_000
    ensures Run(Run(New(maxConnections, rate, burst, start), before).1, Asks(now, n)).0 == n
  {
    var full := New(maxConnections, rate, burst, start);
    GrantsBelowPotential(full, before, start, now);
    RunKeepsLimits(full, before);
    var st := Run(full, before).1;
    RefillInNanoseconds(rate, now - st.lastRefill);
    hide Refill, Run;
    GrantedAtOnce(st, n, now);
  }

  /** A new limiter grants its whole burst at once, as far as there are connections. */
  lemma BurstIsGranted(maxConnections: nat, rate: nat, burst: nat, start: int, n: nat)
    ensures Run(New(maxConnections, rate, burst, start), Asks(start, n)).0 == Least(n, burst, maxConnections)
  {
    var st := New(maxConnections, rate, burst, start);
    RefillLaw(rate, start, start, start);
    hide Refill;
    GrantedAtOnce(st, n, start);
  }

  /** From an empty bucket the next call is granted exactly when a whole token has come in, burst and connections
      permitting. */
  lemma NextToken(st: State, now: int)
    requires InBounds(st) && st.tokens == 0.0 && st.lastRefill <= now
    ensures Allow(st, now).0 <==>
            st.count < st.maxConnections && st.burst >= 1 && st.rate * (now - st.lastRefill) >= 60_000_000_000
  {
    RefillInNanoseconds(st.rate, now - st.lastRefill);
    hide Refill;
  }

  /** A reload replaces the limits that are given, and only takes away: tokens above the burst, a count above the
      connections. */
  lemma UpdateCaps(st: State, maxConnections: int, rate: int, burst: int)
    ensures var st' := Update(st, maxConnections, rate, burst);
            && st'.maxConnections == (if maxConnections > 0 then maxConnections else st.maxConnections)
            && st'.rate == (if rate > 0 then rate else st.rate) && st'.burst == (if burst > 0 then burst else st.burst)
            && st'.count <= st.count && st'.count <= st'.maxConnections
            && (st.count <= st'.maxConnections ==> st'.count == st.count)
            && st'.tokens <= st.tokens && st'.tokens <= st'.burst as real
            && (st.tokens <= st'.burst as real ==> st'.tokens == st.tokens)
            && (st.count > st'.maxConnections ==> st'.count == st'.maxConnections)
            && (st.tokens > st'.burst as real ==> st'.tokens == st'.burst as real) && st'.lastRefill == st.lastRefill
  {}

  // ---------------------------------------------------------------- the object

  class ConnectionLimiter {
    var maxConnections: int
    var currentCount: int
    var rate: int
    var burst: int
    var tokens: real
    var lastRefill: int

    ghost function Abstract(): State
      reads this
    {
      State(maxConnections, currentCount, rate, burst, tokens, lastRefill)
    }

    constructor (max: int, ratePerMinute: int, b: int, now: int)
      ensures Abstract() == New(max, ratePerMinute, b, now)
    {
      maxConnections, currentCount, rate, burst, tokens, lastRefill := max, 0, ratePerMinute, b, b as real, now;
    }

    method AllowAt(now: int) returns (ok: bool)
      modifies this
      ensures (ok, Abstract()) == Allow(old(Abstract()), now)
    {
      if currentCount >= maxConnections { return false; }
      var elapsed := now - lastRefill;
      tokens := tokens + Refill(rate, elapsed);
      if tokens > burst as real { tokens := burst as real; }
      lastRefill := now;
      if tokens < 1.0 { return false; }
      tokens := tokens - 1.0;
      currentCount := currentCount + 1;
      return true;
    }

    method ReleaseOne()
      modifies this
      ensures Abstract() == Release(old(Abstract()))
    {
      if currentCount > 0 { currentCount := currentCount - 1; }
    }

    method UpdateLimits(max: int, ratePerMinute: int, b: int)
      modifies this
      ensures Abstract() == Update(old(Abstract()), max, ratePerMinute, b)
    {
      if max > 0 { maxConnections := max; }
      if ratePerMinute > 0 { rate := ratePerMinute; }
      if b > 0 { burst := b; }
      if tokens > burst as real { tokens := burst as real; }
      if currentCount > maxConnections { currentCount := maxConnections; }
    }
  }
}
