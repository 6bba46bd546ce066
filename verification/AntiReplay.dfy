/** The sliding replay window of crypto/antireplay.go in window mode.

`State` is the abstract value of an `AntiReplay` object; the class updates it in place.
The theorems compare the shifted 64-bit bitmap with the plain set of accepted numbers.
*/
module AntiReplay {
  import opened Bits
  import opened Wrappers

  type Time = int  // nanoseconds

  datatype Config = Config(windowSize: uint64, maxAge: int)

  datatype State = State(base: uint64, bits: uint64, timestamps: map<uint64, Time>, lastCleanup: Time)

  datatype Verdict = Pass | PacketTooOld | DuplicateNumber | NumberTooOld | DuplicateInWindow

  const EMPTY: State := State(0, 0, map[], 0)

  /** Config defaults of NewAntiReplay. */
  function Effective(c: Config): Config {
    Config(if c.windowSize == 0 then 64 else c.windowSize,
           if c.maxAge == 0 then 60_000_000_000 else c.maxAge)
  }

  function Cleaned(timestamps: map<uint64, Time>, maxAge: int, now: Time): map<uint64, Time> {
    map s | s in timestamps && now - timestamps[s] <= maxAge :: timestamps[s]
  }

  /** The periodic cleanup at the head of Check. */
  function Tick(c: Config, st: State, now: Time): State {
    if c.maxAge > 0 && now - st.lastCleanup > c.maxAge
    then st.(timestamps := Cleaned(st.timestamps, c.maxAge, now), lastCleanup := now)
    else st
  }

  function CheckWindow(c: Config, st: State, number: uint64, now: Time): Verdict {
    if c.maxAge > 0 && number in st.timestamps then
      if now - st.timestamps[number] > c.maxAge then PacketTooOld else DuplicateNumber
    else if (number + c.windowSize) % TWO64 < st.base then NumberTooOld
    else if number > st.base then Pass
    else
      var diff := st.base - number;
      if diff < c.windowSize && And(st.bits, Shl64(1, diff)) != 0 then DuplicateInWindow else Pass
  }

  function AcceptWindow(c: Config, st: State, number: uint64, now: Time): (st': State) {
    var stamped := st.(timestamps := st.timestamps[number := now]);
    if number > st.base then
      var diff := number - st.base;
      var shifted := if diff < c.windowSize then Shl64(st.bits, diff) else 0;
      BitwiseBound64(shifted, 1);
      stamped.(base := number, bits := Or(shifted, 1))
    else
      var diff := st.base - number;
      if diff < c.windowSize then
        BitwiseBound64(st.bits, Shl64(1, diff));
        stamped.(bits := Or(st.bits, Shl64(1, diff)))
      else stamped
  }

  /** A mask shifted by 64 or more selects nothing. */
  lemma ShiftedOut(b: uint64, k: nat)
    requires k >= 64
    ensures And(b, Shl64(1, k)) == 0
  {
    forall d: nat ensures Bit(And(b, Shl64(1, k)), d) == Bit(0, d) {
      BitwiseBit(BoolAnd, b, Shl64(1, k), d);
      Shl64Bit(1, k, d);
      BitOfZero(d);
    }
    SameBits(And(b, Shl64(1, k)), 0);
  }

  lemma BitwiseBound64(a: uint64, b: uint64)
    ensures Or(a, b) < TWO64
  {
    Pow2Values();
    BitwiseBound(BoolOr, a, b, 64);
  }

  // ---------------------------------------------------------------- the bitmap is the set

  /** The distances the 64-bit bitmap can record. */
  function Tracked(c: Config): nat { if c.windowSize < 64 then c.windowSize else 64 }

  /** `accepted` is the set of all numbers ever given to Accept. */
  ghost predicate Represents(c: Config, st: State, accepted: set<uint64>) {
    && 1 <= c.windowSize
    && (forall s | s in accepted :: s <= st.base)
    && (st.base != 0 ==> st.base in accepted)
    && (forall d: nat | d < Tracked(c) :: Bit(st.bits, d) <==> st.base >= d && st.base - d in accepted)
    && st.timestamps.Keys <= accepted
  }

  lemma EmptyRepresents(c: Config)
    requires 1 <= c.windowSize
    ensures Represents(c, EMPTY, {})
  {
    forall d: nat ensures !Bit(0, d) { BitOfZero(d); }
  }

  lemma AcceptKeepsBitmap(c: Config, st: State, accepted: set<uint64>, number: uint64, now: Time)
    requires Represents(c, st, accepted)
    ensures Represents(c, AcceptWindow(c, st, number, now), accepted + {number})
  {
    var st' := AcceptWindow(c, st, number, now);
    forall d: nat | d < Tracked(c)
      ensures Bit(st'.bits, d) <==> st'.base >= d && st'.base - d in accepted + {number}
    {
      if number > st.base {
        var k := number - st.base;
        var shifted := if k < c.windowSize then Shl64(st.bits, k) else 0;
        BitwiseBit(BoolOr, shifted, 1, d);
        BitOfOne(d);
        BitOfZero(d);
        Shl64Bit(st.bits, k, d);
        if d >= k { assert number - d == st.base - (d - k); }
      } else if st.base - number < c.windowSize {
        var k := st.base - number;
        BitwiseBit(BoolOr, st.bits, Shl64(1, k), d);
        Shl64Bit(1, k, d);
        if k <= d { BitOfOne(d - k); }
      }
    }
  }

  // ---------------------------------------------------------------- whole runs

  datatype Event = Accept(number: uint64, at: Time) | Check(number: uint64, at: Time)

  function Step(c: Config, st: State, e: Event): State {
    match e
    case Accept(number, at) => AcceptWindow(c, st, number, at)
    case Check(_, at) => Tick(c, st, at)
  }

  function Run(c: Config, events: seq<Event>): State {
    if events == [] then EMPTY else Step(c, Run(c, events[..|events| - 1]), events[|events| - 1])
  }

  ghost function Accepted(events: seq<Event>): set<uint64> {
    set e | e in events && e.Accept? :: e.number
  }

  /** After any run of Accept and Check calls the base is the greatest accepted number and bit d of the
      bitmap is set exactly when base-d was accepted. */
  lemma {:induction false} RunRepresents(c: Config, events: seq<Event>)
    requires 1 <= c.windowSize
    ensures Represents(c, Run(c, events), Accepted(events))
  {
    if events == [] {
      EmptyRepresents(c);
    } else {
      var before, e := events[..|events| - 1], events[|events| - 1];
      RunRepresents(c, before);
      assert events == before + [e];
      if e.Accept? {
        AcceptKeepsBitmap(c, Run(c, before), Accepted(before), e.number, e.at);
        assert Accepted(events) == Accepted(before) + {e.number};
      } else {
        assert Accepted(events) == Accepted(before);
      }
    }
  }

  /** What Check decides, in terms of the set of accepted numbers: newer numbers and unaccepted numbers at
      distance at most the window size pass. An accepted number passes only once its timestamp is gone, and
      only at a distance the bitmap does not record: exactly the window size, for windows of up to 64.
      Everything else is refused. */
  lemma CheckDecides(c: Config, st: State, accepted: set<uint64>, number: uint64, now: Time)
    requires Represents(c, st, accepted)
    requires number + c.windowSize < TWO64
    ensures CheckWindow(c, st, number, now) == Pass <==>
            || number > st.base
            || (st.base - number <= c.windowSize && number !in accepted)
            || (Tracked(c) <= st.base - number <= c.windowSize && number in accepted
                && !(c.maxAge > 0 && number in st.timestamps))
  {
    assert (number + c.windowSize) % TWO64 == number + c.windowSize;
    if number <= st.base && st.base - number < c.windowSize {
      var d := st.base - number;
      if d < 64 {
        ShiftedOne(d);
        TestFlag(st.bits, d);
        assert Bit(st.bits, d) <==> st.base - d in accepted;
      } else {
        ShiftedOut(st.bits, d);
      }
    }
  }

  /** Which verdict refuses a number: its timestamp, young or old, decides first, then the distance, then the set. */
  lemma WhyRefused(c: Config, st: State, accepted: set<uint64>, number: uint64, now: Time)
    requires Represents(c, st, accepted)
    requires number + c.windowSize < TWO64
    ensures var v, stamped := CheckWindow(c, st, number, now), c.maxAge > 0 && number in st.timestamps;
            && (v == DuplicateNumber <==> stamped && now - st.timestamps[number] <= c.maxAge)
            && (v == PacketTooOld <==> stamped && now - st.timestamps[number] > c.maxAge)
            && (v == NumberTooOld <==> !stamped && st.base - number > c.windowSize)
            && (v == DuplicateInWindow <==> !stamped && 0 <= st.base - number < Tracked(c) && number in accepted)
  {
    CheckDecides(c, st, accepted, number, now);
    assert (number + c.windowSize) % TWO64 == number + c.windowSize;
    hide Represents, And, Shl64, Bit;
  }

  /** Where `number + windowSize` wraps around, a new number is let through exactly when the base lies
      below the wrapped sum: the top of the number space is refused otherwise. */
  lemma CheckAtWrapAround(c: Config, st: State, accepted: set<uint64>, number: uint64, now: Time)
    requires Represents(c, st, accepted)
    requires number + c.windowSize >= TWO64
    ensures CheckWindow(c, st, number, now) == Pass <==> st.base <= number + c.windowSize - TWO64
  {
    assert (number + c.windowSize) % TWO64 == number + c.windowSize - TWO64 by {
      ModOfMultiple(1, TWO64, number + c.windowSize - TWO64);
    }
  }

  lemma TickKeepsBitmap(c: Config, st: State, accepted: set<uint64>, now: Time)
    requires Represents(c, st, accepted)
    ensures Represents(c, Tick(c, st, now), accepted)
  {
    var st' := Tick(c, st, now);
    forall d: nat | d < Tracked(c)
      ensures Bit(st'.bits, d) <==> st'.base >= d && st'.base - d in accepted
    {}
  }

  // ---------------------------------------------------------------- receivers that check, then accept

  datatype Arrival = Arrival(number: uint64, at: Time)

  function Passes(c: Config, st: State, a: Arrival): bool {
    CheckWindow(c, Tick(c, st, a.at), a.number, a.at) == Pass
  }

  /** The state of a receiver that accepts what Check passes. */
  function Guarded(c: Config, arrivals: seq<Arrival>): State {
    if arrivals == [] then EMPTY else
    var st, a := Guarded(c, arrivals[..|arrivals| - 1]), arrivals[|arrivals| - 1];
    if Passes(c, st, a) then AcceptWindow(c, Tick(c, st, a.at), a.number, a.at) else Tick(c, st, a.at)
  }

  /** The numbers such a receiver lets through, in order. */
  function Delivered(c: Config, arrivals: seq<Arrival>): seq<uint64> {
    if arrivals == [] then [] else
    var before, a := arrivals[..|arrivals| - 1], arrivals[|arrivals| - 1];
    Delivered(c, before) + (if Passes(c, Guarded(c, before), a) then [a.number] else [])
  }

  ghost function DeliveredSet(c: Config, arrivals: seq<Arrival>): set<uint64> {
    set s | s in Delivered(c, arrivals)
  }

  lemma {:induction false} GuardedRepresents(c: Config, arrivals: seq<Arrival>)
    requires 1 <= c.windowSize
    ensures Represents(c, Guarded(c, arrivals), DeliveredSet(c, arrivals))
  {
    if arrivals == [] {
      EmptyRepresents(c);
    } else {
      var before, a := arrivals[..|arrivals| - 1], arrivals[|arrivals| - 1];
      GuardedRepresents(c, before);
      var st := Guarded(c, before);
      var earlier := DeliveredSet(c, before);
      TickKeepsBitmap(c, st, earlier, a.at);
      if Passes(c, st, a) {
        AcceptKeepsBitmap(c, Tick(c, st, a.at), earlier, a.number, a.at);
        assert DeliveredSet(c, arrivals) == earlier + {a.number};
      } else {
        assert DeliveredSet(c, arrivals) == earlier;
      }
    }
  }

  // ---------------------------------------------------------------- what the clock decides

  /** The clock does not run backwards. */
  predicate Ordered(arrivals: seq<Arrival>) {
    && (forall k | 0 <= k < |arrivals| :: arrivals[k].at >= 0)
    && (forall j, k | 0 <= j < k < |arrivals| :: arrivals[j].at <= arrivals[k].at)
  }

  /** When the last clean-up ran: at every arrival more than the maximum age after the one before. */
  function LastCleanup(maxAge: int, arrivals: seq<Arrival>): Time {
    if arrivals == [] then 0 else
    var before, at := LastCleanup(maxAge, arrivals[..|arrivals| - 1]), arrivals[|arrivals| - 1].at;
    if at - before > maxAge then at else before
  }

  /** When a number was last let through. */
  function LastPassed(c: Config, arrivals: seq<Arrival>, number: uint64): Option<Time> {
    if arrivals == [] then None else
    var before, a := arrivals[..|arrivals| - 1], arrivals[|arrivals| - 1];
    if a.number == number && Passes(c, Guarded(c, before), a) then Some(a.at) else LastPassed(c, before, number)
  }

  lemma {:induction false} PassedIsDelivered(c: Config, arrivals: seq<Arrival>, number: uint64)
    ensures number in Delivered(c, arrivals) <==> LastPassed(c, arrivals, number).Some?
  {
    if arrivals != [] { PassedIsDelivered(c, arrivals[..|arrivals| - 1], number); }
  }

  lemma {:induction false} ClockBounds(c: Config, arrivals: seq<Arrival>, number: uint64, now: Time)
    requires c.maxAge > 0 && now >= 0 && Ordered(arrivals) && forall k | 0 <= k < |arrivals| :: arrivals[k].at <= now
    ensures LastCleanup(c.maxAge, arrivals) <= now
    ensures LastPassed(c, arrivals, number).Some? ==> 0 <= LastPassed(c, arrivals, number).value <= now
  {
    if arrivals != [] {
      hide Guarded, Passes;
      ClockBounds(c, arrivals[..|arrivals| - 1], number, now);
    }
  }

  /** What a timestamp map must hold: the last passage of every number that is younger than the last clean-up, or not
      older than it by more than the maximum age. */
  ghost predicate Stamped(st: State, maxAge: int, cleanup: Time, number: uint64, passed: Option<Time>) {
    && st.lastCleanup == cleanup
    && (number in st.timestamps <==> passed.Some? && cleanup - passed.value <= maxAge)
    && (number in st.timestamps ==> st.timestamps[number] == passed.value)
  }

  lemma TickStamped(c: Config, st: State, number: uint64, passed: Option<Time>, now: Time)
    requires c.maxAge > 0 && Stamped(st, c.maxAge, st.lastCleanup, number, passed)
    ensures var cleanup := if now - st.lastCleanup > c.maxAge then now else st.lastCleanup;
            Stamped(Tick(c, st, now), c.maxAge, cleanup, number, passed)
  {}

  lemma AcceptStamped(c: Config, st: State, number: uint64, passed: Option<Time>, other: uint64, now: Time)
    requires c.maxAge > 0 && Stamped(st, c.maxAge, st.lastCleanup, number, passed) && st.lastCleanup <= now
    ensures Stamped(AcceptWindow(c, st, other, now), c.maxAge, st.lastCleanup, number,
                    if other == number then Some(now) else passed)
  {
    hide Or, Shl64;
  }

  /** Which timestamps there are after any run of a receiver that accepts what passes. */
  lemma {:induction false} RunStamped(c: Config, arrivals: seq<Arrival>, number: uint64)
    requires c.maxAge > 0 && Ordered(arrivals)
    ensures Stamped(Guarded(c, arrivals), c.maxAge, LastCleanup(c.maxAge, arrivals), number,
                    LastPassed(c, arrivals, number))
  {
    if arrivals != [] {
      var before, a := arrivals[..|arrivals| - 1], arrivals[|arrivals| - 1];
      RunStamped(c, before, number);
      ClockBounds(c, before, number, a.at);
      var st := Guarded(c, before);
      TickStamped(c, st, number, LastPassed(c, before, number), a.at);
      AcceptStamped(c, Tick(c, st, a.at), number, LastPassed(c, before, number), a.number, a.at);
      hide Passes, AcceptWindow, Tick, Stamped;
    }
  }

  /** Within the maximum age no number is let through twice. */
  lemma NoReplayWithinAge(c: Config, arrivals: seq<Arrival>, a: Arrival)
    requires c.maxAge > 0 && Ordered(arrivals + [a])
    requires var passed := LastPassed(c, arrivals, a.number); passed.Some? && a.at - passed.value <= c.maxAge
    ensures !Passes(c, Guarded(c, arrivals), a)
  {
    PrefixOrdered(arrivals, a);
    RunStamped(c, arrivals, a.number);
    ClockBounds(c, arrivals, a.number, a.at);
    var st := Guarded(c, arrivals);
    TickStamped(c, st, a.number, LastPassed(c, arrivals, a.number), a.at);
    hide Guarded, LastPassed, LastCleanup, Tick;
  }

  lemma PrefixOrdered(arrivals: seq<Arrival>, a: Arrival)
    requires Ordered(arrivals + [a])
    ensures Ordered(arrivals) && a.at >= 0 && forall k | 0 <= k < |arrivals| :: arrivals[k].at <= a.at
  {
    var all := arrivals + [a];
    assert forall k | 0 <= k < |arrivals| :: all[k] == arrivals[k];
    assert all[|arrivals|] == a;
  }

  function Greatest(numbers: seq<uint64>): uint64 {
    if numbers == [] then 0 else
    var before, last := Greatest(numbers[..|numbers| - 1]), numbers[|numbers| - 1];
    if last > before then last else before
  }

  lemma {:induction false} GreatestOf(numbers: seq<uint64>, top: uint64)
    requires (forall n | n in numbers :: n <= top) && (top != 0 ==> top in numbers)
    ensures Greatest(numbers) == top
  {
    if numbers != [] {
      var n := |numbers| - 1;
      var before := numbers[..n];
      assert numbers == before + [numbers[n]] && numbers[n] in numbers;
      assert forall x | x in before :: x in numbers;
      if top in before || top == 0 {
        GreatestOf(before, top);
      } else {
        GreatestAtMost(before, top);
      }
    }
  }

  lemma {:induction false} GreatestAtMost(numbers: seq<uint64>, top: uint64)
    requires forall n | n in numbers :: n <= top
    ensures Greatest(numbers) <= top
  {
    if numbers != [] {
      var n := |numbers| - 1;
      assert numbers[n] in numbers;
      assert forall x | x in numbers[..n] :: x in numbers;
      GreatestAtMost(numbers[..n], top);
    }
  }

  /** A number that was already let through is let through again exactly at a distance from the greatest one that the
      bitmap does not record (exactly the window size, for windows of up to 64), and after a clean-up more than
      the maximum age behind its last passage. */
  lemma SecondDelivery(c: Config, arrivals: seq<Arrival>, a: Arrival)
    requires 1 <= c.windowSize && Ordered(arrivals + [a])
    requires a.number + c.windowSize < TWO64
    requires a.number in Delivered(c, arrivals)
    ensures LastPassed(c, arrivals, a.number).Some?
    ensures Passes(c, Guarded(c, arrivals), a) <==>
              && Tracked(c) <= Greatest(Delivered(c, arrivals)) - a.number <= c.windowSize
              && (c.maxAge > 0 ==>
                    LastCleanup(c.maxAge, arrivals + [a]) - LastPassed(c, arrivals, a.number).value > c.maxAge)
  {
    PassedIsDelivered(c, arrivals, a.number);
    BaseIsGreatest(c, arrivals);
    PrefixOrdered(arrivals, a);
    var st := Guarded(c, arrivals);
    PassesAgain(c, arrivals, a);
    assert (arrivals + [a])[..|arrivals|] == arrivals;
    if c.maxAge > 0 {
      RunStamped(c, arrivals, a.number);
      TickStamped(c, st, a.number, LastPassed(c, arrivals, a.number), a.at);
    }
    hide Guarded, Delivered, LastPassed, Greatest, Passes;
  }

  lemma BaseIsGreatest(c: Config, arrivals: seq<Arrival>)
    requires 1 <= c.windowSize
    ensures Greatest(Delivered(c, arrivals)) == Guarded(c, arrivals).base
  {
    GuardedRepresents(c, arrivals);
    var numbers, top := Delivered(c, arrivals), Guarded(c, arrivals).base;
    assert forall n | n in numbers :: n in DeliveredSet(c, arrivals);
    hide Guarded, Delivered;
    GreatestOf(numbers, top);
  }

  /** The same in terms of the timestamps that are left. */
  lemma PassesAgain(c: Config, arrivals: seq<Arrival>, a: Arrival)
    requires 1 <= c.windowSize && a.number + c.windowSize < TWO64 && a.number in Delivered(c, arrivals)
    ensures var st := Tick(c, Guarded(c, arrivals), a.at);
            Passes(c, Guarded(c, arrivals), a) <==>
              Tracked(c) <= st.base - a.number <= c.windowSize && !(c.maxAge > 0 && a.number in st.timestamps)
  {
    GuardedRepresents(c, arrivals);
    var st, accepted := Guarded(c, arrivals), DeliveredSet(c, arrivals);
    assert a.number in accepted;
    TickKeepsBitmap(c, st, accepted, a.at);
    CheckDecides(c, Tick(c, st, a.at), accepted, a.number, a.at);
    hide Guarded, Delivered, CheckWindow;
  }

  /** Defaults replace exactly what is missing. */
  lemma WindowDefaults(c: Config)
    ensures var e := Effective(c);
            && (c.windowSize != 0 ==> e.windowSize == c.windowSize) && (c.windowSize == 0 ==> e.windowSize == 64)
            && (c.maxAge != 0 ==> e.maxAge == c.maxAge) && (c.maxAge == 0 ==> e.maxAge == 60_000_000_000)
            && e.windowSize >= 1 && Effective(e) == e
  {}

  const DEFAULTS: Config := Config(64, 60_000_000_000)

  /** It happens, with the default window and age and at any time: 1, then 65, then 1 again just after its
      timestamp expired. */
  lemma ReplayPasses(at: Time)
    requires at >= 0
    ensures Delivered(DEFAULTS, [Arrival(1, at), Arrival(65, at)]) == [1, 65]
    ensures Passes(DEFAULTS, Guarded(DEFAULTS, [Arrival(1, at), Arrival(65, at)]), Arrival(1, at + 60_000_000_001))
  {
    OneThenSixtyFive(at);
    var st := Guarded(DEFAULTS, [Arrival(1, at), Arrival(65, at)]);
    hide Guarded, Or, Shl64;
    assert Tick(DEFAULTS, st, at + 60_000_000_001).timestamps == map[];
  }

  lemma OneThenSixtyFive(at: Time)
    requires at >= 0
    ensures var both := [Arrival(1, at), Arrival(65, at)];
            && Delivered(DEFAULTS, both) == [1, 65]
            && Guarded(DEFAULTS, both).base == 65 && Guarded(DEFAULTS, both).lastCleanup <= at
            && Guarded(DEFAULTS, both).timestamps == map[1 := at, 65 := at]
  {
    var c, one, both := DEFAULTS, [Arrival(1, at)], [Arrival(1, at), Arrival(65, at)];
    hide Or, Shl64, And;
    assert one[..0] == [] && both[..1] == one;
    assert Tick(c, EMPTY, at) == EMPTY.(lastCleanup := Tick(c, EMPTY, at).lastCleanup);
    var first := Guarded(c, one);
    assert Delivered(c, one) == [1] && first.base == 1 && first.timestamps == map[1 := at];
    assert first.lastCleanup <= at && Tick(c, first, at) == first;
    assert Passes(c, first, both[1]);
  }

  /** It happens: once 64 is accepted, the greatest number of all, though newer, is refused at any time. */
  lemma NewestIsRefused(at: Time, now: Time)
    ensures Accepted([Accept(64, at)]) == {64}
    ensures CheckWindow(DEFAULTS, Tick(DEFAULTS, Run(DEFAULTS, [Accept(64, at)]), now), TWO64 - 1, now) == NumberTooOld
  {
    var events := [Accept(64, at)];
    hide Or, Shl64;
    assert events[..0] == [];
    assert Run(DEFAULTS, events).base == 64 && Run(DEFAULTS, events).timestamps == map[64 := at];
    assert events[0] == Accept(64, at);
  }

  // ---------------------------------------------------------------- the object

  class AntiReplay {
    const config: Config
    var windowBase: uint64
    var windowBits: uint64
    var timestamps: map<uint64, Time>
    var lastCleanup: Time

    ghost function Abstract(): State
      reads this
    {
      State(windowBase, windowBits, timestamps, lastCleanup)
    }

    constructor (c: Config)
      ensures config == Effective(c)
      ensures Abstract() == EMPTY
    {
      config := Effective(c);
      windowBase, windowBits, timestamps, lastCleanup := 0, 0, map[], 0;
    }

    method Accept(number: uint64, now: Time)
      modifies this
      ensures Abstract() == AcceptWindow(config, old(Abstract()), number, now)
    {
      timestamps := timestamps[number := now];
      if number > windowBase {
        var diff := number - windowBase;
        if diff < config.windowSize {
          windowBits := Shl64(windowBits, diff);
        } else {
          windowBits := 0;
        }
        windowBase := number;
        BitwiseBound64(windowBits, 1);
        windowBits := Or(windowBits, 1);
      } else {
        var diff := windowBase - number;
        if diff < config.windowSize {
          BitwiseBound64(windowBits, Shl64(1, diff));
          windowBits := Or(windowBits, Shl64(1, diff));
        }
      }
    }

    method Check(number: uint64, now: Time) returns (v: Verdict)
      modifies this
      ensures Abstract() == Tick(config, old(Abstract()), now)
      ensures v == CheckWindow(config, Abstract(), number, now)
    {
      if config.maxAge > 0 && now - lastCleanup > config.maxAge {
        Cleanup(now);
        lastCleanup := now;
      }
      if config.maxAge > 0 && number in timestamps {
        if now - timestamps[number] > config.maxAge { return PacketTooOld; }
        return DuplicateNumber;
      }
      if (number + config.windowSize) % TWO64 < windowBase { return NumberTooOld; }
      if number > windowBase { return Pass; }
      var diff := windowBase - number;
      if diff < config.windowSize {
        if And(windowBits, Shl64(1, diff)) != 0 { return DuplicateInWindow; }
      }
      return Pass;
    }

    method Cleanup(now: Time)
      modifies this`timestamps
      ensures timestamps == Cleaned(old(timestamps), config.maxAge, now)
    {
      var todo := timestamps.Keys;
      while todo != {}
        invariant todo <= timestamps.Keys <= old(timestamps).Keys
        invariant forall s | s in timestamps :: timestamps[s] == old(timestamps)[s]
        invariant forall s | s in old(timestamps) && s !in todo ::
                    s in timestamps <==> now - old(timestamps)[s] <= config.maxAge
        decreases |todo|
      {
        var s :| s in todo;
        todo := todo - {s};
        if now - timestamps[s] > config.maxAge {
          timestamps := timestamps - {s};
        }
      }
    }

    method Reset()
      modifies this
      ensures Abstract() == EMPTY.(lastCleanup := old(lastCleanup))
    {
      windowBase, windowBits, timestamps := 0, 0, map[];
    }
  }
}
