/** Congestion control of transport/congestion.go: the congestion window and the RTT estimator.

Windows are real numbers; durations and times are integer nanoseconds, and the conversions from floating
point back to durations truncate.
*/
module Congestion {
  import opened Bits
  import opened Wrappers
  import opened Reals

  datatype Phase = SlowStart | Avoidance | Recovery

  datatype Rtt = Rtt(minRTT: int, srtt: int, rttVar: int)

  /** `ssthresh` is None for the initial threshold, the greatest float64. */
  datatype State = State(
    cwnd: real, ssthresh: Option<real>, maxCwnd: real, phase: Phase, bytesInFlight: uint64, rtt: Rtt, lastLoss: int)

  const MIN_CWND: real := 2.0
  const BETA: real := 0.7
  const ALPHA: real := 1.0
  const INITIAL: State := State(10.0, None, 1000.0, SlowStart, 0, Rtt(0, 0, 0), 0)

  // ---------------------------------------------------------------- the RTT estimator

  function UpdateRTT(r: Rtt, rtt: int): Rtt {
    if rtt <= 0 then r
    else
      var least := if r.minRTT == 0 || rtt < r.minRTT then rtt else r.minRTT;
      if r.srtt == 0 then Rtt(least, rtt, rtt / 2)
      else
        var diff := if r.srtt < rtt then rtt - r.srtt else r.srtt - rtt;
        Rtt(least, (0.875 * r.srtt as real + 0.125 * rtt as real).Floor,
            (0.75 * r.rttVar as real + 0.25 * diff as real).Floor)
  }

  function GetRTO(r: Rtt): int {
    if r.srtt == 0 then 1_000_000_000
    else
      var rto := r.srtt + 4 * r.rttVar;
      if rto < 200_000_000 then 200_000_000 else if rto > 60_000_000_000 then 60_000_000_000 else rto
  }

  function Estimate(samples: seq<int>): Rtt {
    if samples == [] then Rtt(0, 0, 0)
    else UpdateRTT(Estimate(samples[..|samples| - 1]), samples[|samples| - 1])
  }

  /** `lo` and `hi` bound the positive samples, and both occur among them. */
  ghost predicate Extremes(samples: seq<int>, lo: int, hi: int) {
    lo in samples && hi in samples && lo > 0 && forall s | s in samples && s > 0 :: lo <= s <= hi
  }

  lemma UpdateStaysBetween(r: Rtt, rtt: int, lo: int, hi: int)
    requires 0 < lo <= r.srtt <= hi && lo <= rtt <= hi && 0 <= r.rttVar <= hi
    ensures lo <= UpdateRTT(r, rtt).srtt <= hi && 0 <= UpdateRTT(r, rtt).rttVar <= hi
  {}

  /** One update in integers: seven eighths of the mean and three quarters of the variance stay, rounded down; the
      variance is updated from the old mean. */
  lemma UpdateInIntegers(r: Rtt, rtt: int)
    requires rtt > 0
    ensures var r' := UpdateRTT(r, rtt);
            && (r.srtt == 0 ==> r'.srtt == rtt && r'.rttVar == rtt / 2)
            && (r.srtt != 0 ==>
                  var diff := if r.srtt < rtt then rtt - r.srtt else r.srtt - rtt;
                  r'.srtt == (7 * r.srtt + rtt) / 8 && r'.rttVar == (3 * r.rttVar + diff) / 4)
  {
    var diff := if r.srtt < rtt then rtt - r.srtt else r.srtt - rtt;
    Eighth(7 * r.srtt + rtt, 0.875 * r.srtt as real + 0.125 * rtt as real);
    Quarter(3 * r.rttVar + diff, 0.75 * r.rttVar as real + 0.25 * diff as real);
  }

  lemma Eighth(n: int, x: real)
    requires 8.0 * x == n as real
    ensures x.Floor == n / 8
  {
    assert x.Floor as real <= x < x.Floor as real + 1.0;
    assert 8 * x.Floor <= n < 8 * x.Floor + 8;
  }

  lemma Quarter(n: int, x: real)
    requires 4.0 * x == n as real
    ensures x.Floor == n / 4
  {
    assert x.Floor as real <= x < x.Floor as real + 1.0;
    assert 4 * x.Floor <= n < 4 * x.Floor + 4;
  }

  /** Over any samples of which at least one is positive, the smoothed RTT lies between the smallest and the
      largest positive sample, minRTT is the smallest, and the variance is at most the largest. */
  lemma {:induction false} EstimateBounds(samples: seq<int>, lo: int, hi: int)
    requires Extremes(samples, lo, hi)
    ensures var r := Estimate(samples);
            r.minRTT == lo && lo <= r.srtt <= hi && 0 <= r.rttVar <= hi
  {
    var n := |samples| - 1;
    var before, last := samples[..n], samples[n];
    assert samples == before + [last];
    if exists s :: s in before && s > 0 {
      var lo', hi' := FindExtremes(before);
      EstimateBounds(before, lo', hi');
      assert lo' in samples && hi' in samples && last in samples;
      assert lo in before || lo == last;
      assert hi in before || hi == last;
      assert last <= 0 ==> lo == lo' && hi == hi';
      assert last > 0 ==> lo == (if last < lo' then last else lo');
      var r := Estimate(before);
      if last > 0 { UpdateStaysBetween(r, last, lo, hi); }
      hide Estimate;
      assert Estimate(samples) == UpdateRTT(r, last) by { EstimateStep(samples); }
    } else {
      NoPositiveSample(before);
    }
  }

  lemma EstimateStep(samples: seq<int>)
    requires samples != []
    ensures Estimate(samples) == UpdateRTT(Estimate(samples[..|samples| - 1]), samples[|samples| - 1])
  {}

  lemma {:induction false} FindExtremes(samples: seq<int>) returns (lo: int, hi: int)
    requires exists s :: s in samples && s > 0
    ensures Extremes(samples, lo, hi)
  {
    var n := |samples| - 1;
    var before, last := samples[..n], samples[n];
    assert samples == before + [last];
    if exists s :: s in before && s > 0 {
      lo, hi := FindExtremes(before);
      if 0 < last < lo { lo := last; }
      if last > hi { hi := last; }
    } else {
      lo, hi := last, last;
    }
  }

  lemma {:induction false} NoPositiveSample(samples: seq<int>)
    requires forall s | s in samples :: s <= 0
    ensures Estimate(samples) == Rtt(0, 0, 0)
  {
    if samples != [] {
      var n := |samples| - 1;
      var before := samples[..n];
      assert samples[n] in samples;
      forall s | s in before ensures s in samples {}
      NoPositiveSample(before);
    }
  }

  /** The retransmission timeout is one second before the first sample; afterwards it covers the smoothed RTT
      and four variances as far as the range from 200 milliseconds to 60 seconds allows. */
  lemma TimeoutBounds(samples: seq<int>)
    ensures 200_000_000 <= GetRTO(Estimate(samples)) <= 60_000_000_000
    ensures (forall s | s in samples :: s <= 0) ==> GetRTO(Estimate(samples)) == 1_000_000_000
    ensures forall lo, hi | Extremes(samples, lo, hi) ::
              GetRTO(Estimate(samples)) >= lo || GetRTO(Estimate(samples)) == 60_000_000_000
  {
    if forall s | s in samples :: s <= 0 { NoPositiveSample(samples); }
    forall lo, hi | Extremes(samples, lo, hi)
      ensures GetRTO(Estimate(samples)) >= lo || GetRTO(Estimate(samples)) == 60_000_000_000
    {
      EstimateBounds(samples, lo, hi);
    }
  }

  /** After the first sample the timeout is the smoothed RTT and four variances, kept within its range. */
  lemma TimeoutFormula(r: Rtt)
    requires r.srtt != 0
    ensures var due := r.srtt + 4 * r.rttVar;
            && (200_000_000 <= due <= 60_000_000_000 ==> GetRTO(r) == due)
            && (due < 200_000_000 ==> GetRTO(r) == 200_000_000)
            && (due > 60_000_000_000 ==> GetRTO(r) == 60_000_000_000)
  {}

  // ---------------------------------------------------------------- the window

  function Sent(st: State, size: uint64): State {
    st.(bytesInFlight := (st.bytesInFlight + size) % TWO64)
  }

  /** In recovery the window is never below two packets; elsewhere a maximum of zero can empty it. */
  predicate Divisible(st: State) {
    st.phase.Recovery? ==> st.cwnd >= MIN_CWND
  }

  /** `w + ALPHA / w`, up to the maximum: for an empty window the quotient is infinite. */
  function AvoidanceWindow(w: real, max: real): real {
    if w == 0.0 then max else MinReal(w + ALPHA / w, max)
  }

  /** slowStart, congestionAvoidance or recovery, after the RTT update. */
  function GrowWindow(st: State, now: int): State
    requires Divisible(st)
  {
    match st.phase
    case SlowStart =>
      var w := st.cwnd + 1.0;
      st.(cwnd := MinReal(w, st.maxCwnd),
          phase := if st.ssthresh.Some? && w >= st.ssthresh.value then Avoidance else SlowStart)
    case Avoidance => st.(cwnd := AvoidanceWindow(st.cwnd, st.maxCwnd))
    case Recovery =>
      st.(cwnd := st.cwnd + 0.5 / st.cwnd,
          phase := if now - st.lastLoss > st.rtt.srtt * 2 then Avoidance else Recovery)
  }

  function Acked(st: State, size: uint64, rtt: int, now: int): State
    requires Divisible(st)
  {
    GrowWindow(st.(bytesInFlight := if st.bytesInFlight >= size then st.bytesInFlight - size else 0,
                   rtt := UpdateRTT(st.rtt, rtt)), now)
  }

  /** A lost packet larger than the bytes in flight leaves their number alone. */
  function Lost(st: State, size: uint64, now: int): State {
    var w := MaxReal(st.cwnd * BETA, MIN_CWND);
    st.(bytesInFlight := if st.bytesInFlight >= size then st.bytesInFlight - size else st.bytesInFlight,
        ssthresh := Some(w), cwnd := w, lastLoss := now,
        phase := if st.phase.SlowStart? then Avoidance else Recovery)
  }

  function Restarted(st: State): State {
    st.(cwnd := 10.0, ssthresh := None, bytesInFlight := 0, phase := SlowStart)
  }

  datatype Event = Send(size: uint64) | Ack(size: uint64, rtt: int, now: int) | Loss(size: uint64, now: int) | Reset

  function Step(st: State, e: Event): State
    requires Divisible(st)
  {
    match e
    case Send(size) => Sent(st, size)
    case Ack(size, rtt, now) => Acked(st, size, rtt, now)
    case Loss(size, now) => Lost(st, size, now)
    case Reset => Restarted(st)
  }

  /** An acknowledgement from a window of at least two packets keeps it there exactly when the window is in
      recovery, which does not look at the maximum, or the maximum is itself at least two packets. */
  lemma AckKeepsFloor(st: State, size: uint64, rtt: int, now: int)
    requires st.cwnd >= MIN_CWND
    ensures Acked(st, size, rtt, now).cwnd >= MIN_CWND <==> st.phase.Recovery? || st.maxCwnd >= MIN_CWND
  {
    assert ALPHA / st.cwnd > 0.0 && 0.5 / st.cwnd > 0.0;
  }

  /** The maximum is not kept in recovery: an acknowledgement keeps the window below it exactly when the phase
      is another one or half a packet per window still fits. */
  lemma AckKeepsCap(st: State, size: uint64, rtt: int, now: int)
    requires 0.0 < st.cwnd <= st.maxCwnd && Divisible(st)
    ensures Acked(st, size, rtt, now).cwnd <= st.maxCwnd <==>
            !st.phase.Recovery? || st.cwnd * (st.maxCwnd - st.cwnd) >= 0.5
  {
    var gap := st.maxCwnd - st.cwnd;
    DivideByWindow(0.5, st.cwnd, gap);
  }

  /** It happens: with a maximum of five packets, the first acknowledgement after two losses exceeds it. */
  lemma RecoveryExceedsCap()
    ensures var events := [Loss(0, 0), Loss(0, 0), Ack(0, 0, 0)];
            var start := INITIAL.(maxCwnd := 5.0);
            Run(start, events[..2]).cwnd <= 5.0 < Run(start, events).cwnd
  {
    var start, losses := INITIAL.(maxCwnd := 5.0), [Loss(0, 0), Loss(0, 0)];
    var events := losses + [Ack(0, 0, 0)];
    assert events[..2] == losses && losses[..1] == [Loss(0, 0)] && [Loss(0, 0)][..0] == [];
    assert events == [Loss(0, 0), Loss(0, 0), Ack(0, 0, 0)];
    assert Run(start, losses).cwnd == 4.9 && Run(start, losses).phase.Recovery?;
  }

  lemma DivideByWindow(a: real, w: real, gap: real)
    requires w > 0.0
    ensures a / w <= gap <==> a <= w * gap
  {
    var q := a / w;
    assert q * w == a;
    if q <= gap { assert (gap - q) * w >= 0.0; }
    if q > gap { assert (q - gap) * w > 0.0; }
  }

  function Run(st: State, events: seq<Event>): (r: State)
    requires st.cwnd >= MIN_CWND && st.maxCwnd >= MIN_CWND
    ensures r.cwnd >= MIN_CWND && r.maxCwnd == st.maxCwnd
  {
    if events == [] then st
    else
      var before := Run(st, events[..|events| - 1]);
      var e := events[|events| - 1];
      StepKeepsFloor(before, e);
      Step(before, e)
  }

  /** No event takes the window below two packets. */
  lemma StepKeepsFloor(st: State, e: Event)
    requires st.cwnd >= 2.0 && st.maxCwnd >= 2.0
    ensures Step(st, e).cwnd >= 2.0 && Step(st, e).maxCwnd == st.maxCwnd
  {
    if e.Ack? { AckKeepsFloor(st, e.size, e.rtt, e.now); }
  }

  // ---------------------------------------------------------------- slow start, recovery and the flight

  /** k acknowledgements in slow start, with no threshold yet, open the window by k packets, up to the maximum. */
  lemma {:induction false} SlowStartOpens(st: State, acks: seq<(uint64, int)>, now: int)
    requires st.phase == SlowStart && st.ssthresh == None && 0.0 < st.cwnd <= st.maxCwnd
    ensures var st' := Acks(st, acks, now);
            && st'.cwnd == MinReal(st.cwnd + |acks| as real, st.maxCwnd)
            && st'.phase == SlowStart && st'.ssthresh == None
  {
    if acks != [] {
      SlowStartOpens(st, acks[..|acks| - 1], now);
    }
  }

  /** In particular, from the initial window of 10 packets to at most 1000. */
  lemma InitialWindowOpens(acks: seq<(uint64, int)>, now: int)
    ensures Acks(INITIAL, acks, now).cwnd == if |acks| <= 990 then (10 + |acks|) as real else 1000.0
  {
    SlowStartOpens(INITIAL, acks, now);
    hide Acks;
  }

  /** Slow start ends exactly when the window, one packet larger and before it is capped, reaches the threshold. */
  lemma SlowStartEnds(st: State, size: uint64, rtt: int, now: int)
    requires st.phase == SlowStart
    ensures var st' := Acked(st, size, rtt, now);
            && st'.cwnd == MinReal(st.cwnd + 1.0, st.maxCwnd) && st'.ssthresh == st.ssthresh
            && (st'.phase == Avoidance <==> st.ssthresh.Some? && st.cwnd + 1.0 >= st.ssthresh.value)
            && (st'.phase == Avoidance || st'.phase == SlowStart)
  {}

  /** Recovery ends exactly when more than twice the smoothed RTT has passed since the last loss; each
      acknowledgement opens the window by half a packet per window. */
  lemma RecoveryEnds(st: State, size: uint64, rtt: int, now: int)
    requires st.phase == Recovery && st.cwnd >= 2.0
    ensures var st' := Acked(st, size, rtt, now);
            && (st'.cwnd - st.cwnd) * st.cwnd == 0.5
            && (st'.phase == Avoidance <==> now - st.lastLoss > 2 * UpdateRTT(st.rtt, rtt).srtt)
            && (st'.phase == Avoidance || st'.phase == Recovery)
  {}

  /** An empty window in avoidance, which a maximum of zero leaves behind, is filled up to the maximum at once. */
  lemma EmptyWindowFills(st: State, size: uint64, rtt: int, now: int)
    requires st.phase == Avoidance && st.cwnd == 0.0
    ensures Acked(st, size, rtt, now).cwnd == st.maxCwnd && Acked(st, size, rtt, now).phase == Avoidance
  {}

  /** A restart is the initial state, but for the maximum, the estimates and the time of the last loss. */
  lemma RestartIsInitial(st: State)
    ensures Restarted(st) == INITIAL.(maxCwnd := st.maxCwnd, rtt := st.rtt, lastLoss := st.lastLoss)
  {}

  /** The bytes sent and neither acknowledged nor lost, as long as nothing is reported back that is not out. */
  function Outstanding(events: seq<Event>): Option<int> {
    if events == [] then Some(0)
    else
      match Outstanding(events[..|events| - 1])
      case None => None
      case Some(out) =>
        match events[|events| - 1]
        case Send(size) => if out + size < TWO64 then Some(out + size) else None
        case Ack(size, _, _) => if size <= out then Some(out - size) else None
        case Loss(size, _) => if size <= out then Some(out - size) else None
        case Reset => Some(0)
  }

  /** The flight is just these bytes. */
  lemma {:induction false} FlightBalances(st: State, events: seq<Event>)
    requires st.cwnd >= 2.0 && st.maxCwnd >= 2.0 && st.bytesInFlight == 0 && Outstanding(events).Some?
    ensures Run(st, events).bytesInFlight == Outstanding(events).value
  {
    hide UpdateRTT, MaxReal, MinReal, AvoidanceWindow;
    if events != [] {
      var before, e := events[..|events| - 1], events[|events| - 1];
      FlightBalances(st, before);
      var st1, out := Run(st, before), Outstanding(before).value;
      hide Run;
      assert Run(st, events) == Step(st1, e) by { RunStep(st, events); }
    }
  }

  lemma RunStep(st: State, events: seq<Event>)
    requires st.cwnd >= 2.0 && st.maxCwnd >= 2.0 && events != []
    ensures var before := Run(st, events[..|events| - 1]);
            before.cwnd >= 2.0 && Run(st, events) == Step(before, events[|events| - 1])
  {
    hide Step;
  }

  /** What an acknowledgement or a loss of more bytes than are in flight does to them. */
  lemma FlightUnderflow(st: State, size: uint64, rtt: int, now: int)
    requires Divisible(st) && st.bytesInFlight < size
    ensures Acked(st, size, rtt, now).bytesInFlight == 0 && Lost(st, size, now).bytesInFlight == st.bytesInFlight
  {}

  // ---------------------------------------------------------------- multiplicative decrease

  function Power(b: real, k: nat): real {
    if k == 0 then 1.0 else b * Power(b, k - 1)
  }

  /** w cut by three tenths k times. */
  function Shrunk(w: real, k: nat): real {
    if k == 0 then w else BETA * Shrunk(w, k - 1)
  }

  /** 0.7^k * w */
  function Scaled(w: real, k: nat): real { Power(0.7, k) * w }

  lemma {:induction false} ShrunkIsPower(w: real, k: nat)
    ensures Shrunk(w, k) == Scaled(w, k)
  {
    if k > 0 {
      ShrunkIsPower(w, k - 1);
      var p := Power(0.7, k - 1);
      assert 0.7 * (p * w) == 0.7 * p * w;
    }
  }

  function Losses(st: State, sizes: seq<uint64>, now: int): State {
    if sizes == [] then st else Lost(Losses(st, sizes[..|sizes| - 1], now), sizes[|sizes| - 1], now)
  }

  lemma {:induction false} LossesShrink(st: State, sizes: seq<uint64>, now: int)
    requires sizes != []
    ensures var st' := Losses(st, sizes, now);
            && st'.cwnd == MaxReal(Shrunk(st.cwnd, |sizes|), MIN_CWND) && st'.ssthresh == Some(st'.cwnd)
            && st'.phase == (if st.phase.SlowStart? && |sizes| == 1 then Avoidance else Recovery) && st'.lastLoss == now
  {
    var k := |sizes|;
    if k > 1 {
      LossesShrink(st, sizes[..k - 1], now);
    } else {
      assert Losses(st, sizes[..0], now) == st;
      assert Shrunk(st.cwnd, 0) == st.cwnd;
    }
  }

  /** k losses in a row take the window w to the greater of 0.7^k w and two packets. */
  lemma LossesInARow(st: State, sizes: seq<uint64>, now: int)
    requires sizes != []
    ensures var st' := Losses(st, sizes, now);
            && st'.cwnd == MaxReal(Scaled(st.cwnd, |sizes|), 2.0) && st'.ssthresh == Some(st'.cwnd)
            && st'.phase == (if st.phase.SlowStart? && |sizes| == 1 then Avoidance else Recovery) && st'.lastLoss == now
  {
    hide Losses, Shrunk, Scaled;
    LossesShrink(st, sizes, now);
    ShrunkIsPower(st.cwnd, |sizes|);
  }

  // ---------------------------------------------------------------- additive increase

  /** The window after k uncapped acknowledgements in congestion avoidance. */
  function Climb(w: real, k: nat): (r: real)
    requires w > 0.0
    ensures r >= w
  {
    if k == 0 then w
    else
      var v := Climb(w, k - 1);
      assert ALPHA / v > 0.0;
      v + ALPHA / v
  }

  function Square(x: real): real { x * x }

  lemma SquareOfSum(v: real, q: real)
    requires q * v == 1.0
    ensures Square(v + q) == Square(v) + 2.0 + Square(q)
    ensures Square(q) >= 0.0
  {
    assert (v + q) * (v + q) == v * v + 2.0 * (q * v) + q * q;
  }

  lemma SquareGrows(q: real, p: real)
    requires 0.0 <= q <= p
    ensures Square(q) <= Square(p)
  {
    assert q * q <= p * q && p * q <= p * p;
  }

  lemma ReciprocalShrinks(v: real, w: real)
    requires v >= w > 0.0
    ensures 0.0 < 1.0 / v <= 1.0 / w
  {
    var p, q := 1.0 / w, 1.0 / v;
    assert p * w == 1.0 && q * v == 1.0;
    assert (p - q) * w == q * (v - w);
    QuotientSign(q * (v - w), w, p - q);
  }

  lemma QuotientSign(a: real, w: real, x: real)
    requires w > 0.0 && x * w == a && a >= 0.0
    ensures x >= 0.0
  {
    assert x == a / w;
  }

  lemma ClimbOnce(v: real, w: real)
    requires v >= w > 0.0
    ensures Square(v) + 2.0 <= Square(v + ALPHA / v) <= Square(v) + 2.0 + Square(1.0 / w)
  {
    var q := ALPHA / v;
    assert q * v == 1.0;
    ReciprocalShrinks(v, w);
    hide Square;
    SquareOfSum(v, q);
    SquareGrows(q, 1.0 / w);
  }

  function Times(k: nat, x: real): real { k as real * x }

  lemma OneMore(k: nat, x: real)
    requires k > 0
    ensures Times(k, x) == Times(k - 1, x) + x
    ensures Times(0, x) == 0.0
  {}

  /** Additive increase: k acknowledgements from w leave w^2 + 2k <= cwnd^2 <= w^2 + 2k + k / w^2. */
  lemma {:induction false} ClimbBounds(w: real, k: nat)
    requires w > 0.0
    ensures var square := Square(Climb(w, k));
            Square(w) + 2.0 * k as real <= square <= Square(w) + 2.0 * k as real + Times(k, Square(1.0 / w))
  {
    OneMore(k + 1, Square(1.0 / w));
    if k > 0 {
      hide Square, Times;
      var v := Climb(w, k - 1);
      assert Climb(w, k) == v + ALPHA / v;
      ClimbBounds(w, k - 1);
      ClimbOnce(v, w);
      OneMore(k, Square(1.0 / w));
    }
  }

  function Acks(st: State, acks: seq<(uint64, int)>, now: int): (r: State)
    requires st.cwnd > 0.0 && st.maxCwnd > 0.0 && Divisible(st)
    ensures r.cwnd > 0.0 && r.maxCwnd == st.maxCwnd && Divisible(r)
  {
    if acks == [] then st
    else
      var before, a := Acks(st, acks[..|acks| - 1], now), acks[|acks| - 1];
      assert ALPHA / before.cwnd > 0.0 && 0.5 / before.cwnd > 0.0;
      Acked(before, a.0, a.1, now)
  }

  /** Acknowledgements in congestion avoidance follow the climb as long as it stays below the maximum. */
  lemma {:induction false} AvoidanceClimbs(st: State, acks: seq<(uint64, int)>, now: int)
    requires st.cwnd > 0.0 && st.maxCwnd > 0.0 && st.phase.Avoidance?
    requires Climb(st.cwnd, |acks|) <= st.maxCwnd
    ensures Acks(st, acks, now).cwnd == Climb(st.cwnd, |acks|) && Acks(st, acks, now).phase.Avoidance?
  {
    if acks != [] {
      var k := |acks| - 1;
      assert ALPHA / Climb(st.cwnd, k) > 0.0;
      AvoidanceClimbs(st, acks[..k], now);
    }
  }

  // ---------------------------------------------------------------- the object

  class CongestionControl {
    var cwnd: real
    var ssthresh: Option<real>
    var maxCwnd: real
    var state: Phase
    var bytesInFlight: uint64
    var minRTT: int
    var srtt: int
    var rttVar: int
    var lastLoss: int

    ghost function Abstract(): State
      reads this
    {
      State(cwnd, ssthresh, maxCwnd, state, bytesInFlight, Rtt(minRTT, srtt, rttVar), lastLoss)
    }

    ghost predicate Valid()
      reads this
    {
      Divisible(Abstract())
    }

    constructor ()
      ensures Valid() && Abstract() == INITIAL
    {
      cwnd, ssthresh, maxCwnd, state, bytesInFlight := 10.0, None, 1000.0, SlowStart, 0;
      minRTT, srtt, rttVar, lastLoss := 0, 0, 0, 0;
    }

    method OnPacketSent(size: uint64)
      requires Valid()
      modifies this`bytesInFlight
      ensures Valid()
      ensures Abstract() == Sent(old(Abstract()), size)
    {
      bytesInFlight := (bytesInFlight + size) % TWO64;
    }

    method OnPacketAcked(size: uint64, rtt: int, now: int)
      requires Valid()
      modifies this
      ensures Valid()
      ensures Abstract() == Acked(old(Abstract()), size, rtt, now)
    {
      if bytesInFlight >= size { bytesInFlight := bytesInFlight - size; } else { bytesInFlight := 0; }
      UpdateEstimates(rtt);
      match state {
        case SlowStart =>
          cwnd := cwnd + 1.0;
          if ssthresh.Some? && cwnd >= ssthresh.value { state := Avoidance; }
          if cwnd > maxCwnd { cwnd := maxCwnd; }
        case Avoidance =>
          cwnd := AvoidanceWindow(cwnd, maxCwnd);
        case Recovery =>
          assert 0.5 / cwnd > 0.0;
          cwnd := cwnd + 0.5 / cwnd;
          if now - lastLoss > srtt * 2 { state := Avoidance; }
      }
    }

    method OnPacketLost(size: uint64, now: int)
      modifies this
      ensures Valid()
      ensures Abstract() == Lost(old(Abstract()), size, now)
    {
      lastLoss := now;
      if bytesInFlight >= size { bytesInFlight := bytesInFlight - size; }
      ssthresh := Some(MaxReal(cwnd * BETA, MIN_CWND));
      cwnd := ssthresh.value;
      if state == SlowStart { state := Avoidance; } else { state := Recovery; }
    }

    method UpdateEstimates(rtt: int)
      modifies this`minRTT, this`srtt, this`rttVar
      ensures Rtt(minRTT, srtt, rttVar) == UpdateRTT(Rtt(old(minRTT), old(srtt), old(rttVar)), rtt)
    {
      if rtt <= 0 { return; }
      if minRTT == 0 || rtt < minRTT { minRTT := rtt; }
      if srtt == 0 {
        srtt := rtt;
        rttVar := rtt / 2;
      } else {
        var diff := srtt - rtt;
        if diff < 0 { diff := -diff; }
        rttVar := (0.75 * rttVar as real + 0.25 * diff as real).Floor;
        srtt := (0.875 * srtt as real + 0.125 * rtt as real).Floor;
      }
    }

    method Timeout() returns (rto: int)
      ensures rto == GetRTO(Abstract().rtt)
    {
      if srtt == 0 { return 1_000_000_000; }
      rto := srtt + 4 * rttVar;
      if rto < 200_000_000 {
        rto := 200_000_000;
      } else if rto > 60_000_000_000 {
        rto := 60_000_000_000;
      }
    }

    method ResetWindow()
      modifies this
      ensures Valid()
      ensures Abstract() == Restarted(old(Abstract()))
    {
      cwnd, ssthresh, bytesInFlight, state := 10.0, None, 0, SlowStart;
    }

    method SetMaxWindow(max: real)
      requires Valid()
      modifies this`maxCwnd
      ensures Valid()
      ensures Abstract() == old(Abstract()).(maxCwnd := max)
    {
      maxCwnd := max;
    }
  }
}
