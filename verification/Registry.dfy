/** The server's session registry and its connection accounting (runServer and sessionRegistry of main.go).

Class `SessionRegistry` is the object. `Server` with `After` is the whole server as a machine whose steps are
the atomic actions of the accept loop, the session goroutines and the forced shutdown, in any interleaving.
*/
module Registry {
  import opened Wrappers
  import opened RateLimit

  datatype Entry = Entry(device: nat, conn: nat)

  function ReleaseTimes(st: RateLimit.State, n: nat): RateLimit.State {
    if n == 0 then st else Release(ReleaseTimes(st, n - 1))
  }

  // ---------------------------------------------------------------- the server as a machine

  /** `accepting`: admitted by Allow, not registered yet. `sessions`: in the registry. `running`: goroutines
      before their clean-up. `removing`: taken out by their own goroutine, release still to come. `closing`:
      swapped out by the forced shutdown, release still to come. `released` counts the releases by session. */
  datatype Server = Server(
    limiter: RateLimit.State, last: nat, accepting: Option<nat>, sessions: set<nat>, running: set<nat>,
    removing: set<nat>, closing: set<nat>, released: multiset<nat>)

  datatype Action =
    | Connect(at: int)
    | DeviceFails
    | Register
    | EndSession(id: nat)
    | ReleaseRemoved(id: nat)
    | SwapOut
    | ReleaseClosed(id: nat)

  function Start(maxConnections: int, rate: int, burst: int, now: int): Server {
    Server(New(maxConnections, rate, burst, now), 0, None, {}, {}, {}, {}, multiset{})
  }

  /** One Release on behalf of session `id`. */
  function ReleaseFor(s: Server, id: nat): Server {
    s.(limiter := Release(s.limiter), released := s.released + multiset{id})
  }

  /** One atomic action; an action that is not possible changes nothing. */
  function After(s: Server, a: Action): Server {
    match a
    case Connect(at) =>
      if s.accepting.Some? then s else
      var (ok, limiter) := Allow(s.limiter, at);
      if ok then s.(limiter := limiter, last := s.last + 1, accepting := Some(s.last + 1)) else s.(limiter := limiter)
    case DeviceFails =>
      (match s.accepting
       case None => s
       case Some(id) => ReleaseFor(s, id).(accepting := None))
    case Register =>
      (match s.accepting
       case None => s
       case Some(id) => s.(accepting := None, sessions := s.sessions + {id}, running := s.running + {id}))
    case EndSession(id) =>
      if id !in s.running then s
      else if id in s.sessions then
        s.(running := s.running - {id}, sessions := s.sessions - {id}, removing := s.removing + {id})
      else s.(running := s.running - {id})
    case ReleaseRemoved(id) =>
      if id in s.removing then ReleaseFor(s, id).(removing := s.removing - {id}) else s
    case SwapOut => s.(sessions := {}, closing := s.closing + s.sessions)
    case ReleaseClosed(id) =>
      if id in s.closing then ReleaseFor(s, id).(closing := s.closing - {id}) else s
  }

  function Run(start: Server, actions: seq<Action>): Server {
    if actions == [] then start else After(Run(start, actions[..|actions| - 1]), actions[|actions| - 1])
  }

  function Accepting(s: Server): set<nat> {
    match s.accepting case None => {} case Some(id) => {id}
  }

  /** The admitted sessions whose connection is not released yet. */
  function Live(s: Server): set<nat> {
    Accepting(s) + s.sessions + s.removing + s.closing
  }

  ghost predicate Apart(a: set<nat>, b: set<nat>, c: set<nat>, d: set<nat>) {
    a !! b && a !! c && a !! d && b !! c && b !! d && c !! d
  }

  /** `live` are the unreleased ones of the admitted sessions 1..last: each of the others was released exactly
      once, and `count` is their number. */
  ghost predicate Counted(live: set<nat>, count: int, last: nat, released: multiset<nat>) {
    && count == |live|
    && (forall id | id in live :: 1 <= id <= last && released[id] == 0)
    && (forall id | 1 <= id <= last && id !in live :: released[id] == 1)
    && (forall id | id in released :: 1 <= id <= last)
  }

  /** Every admitted session is in exactly one place, or released, exactly once; `currentCount` counts the
      admitted and unreleased ones. */
  ghost predicate Inv(s: Server) {
    && Apart(Accepting(s), s.sessions, s.removing, s.closing)
    && Counted(Live(s), s.limiter.count, s.last, s.released)
    && s.sessions <= s.running
    && s.running !! Accepting(s)
    && (forall id | id in s.running :: id <= s.last)
  }

  /** The steps that call Release. */
  predicate Releases(s: Server, a: Action) {
    match a
    case DeviceFails => s.accepting.Some?
    case ReleaseRemoved(id) => id in s.removing
    case ReleaseClosed(id) => id in s.closing
    case _ => false
  }

  lemma ReleaseCounted(live: set<nat>, count: int, last: nat, released: multiset<nat>, id: nat)
    requires Counted(live, count, last, released) && id in live
    ensures count > 0 && Counted(live - {id}, count - 1, last, released + multiset{id})
  {
    assert |live - {id}| == |live| - 1;
  }

  lemma AdmitCounted(live: set<nat>, count: int, last: nat, released: multiset<nat>)
    requires Counted(live, count, last, released)
    ensures Counted(live + {last + 1}, count + 1, last + 1, released)
  {
    assert last + 1 !in live && released[last + 1] == 0;
  }

  /** `s'` is `s` after one Release for the unreleased session `id`. */
  lemma ReleaseKeepsInv(s: Server, s': Server, id: nat)
    requires Inv(s) && id in Live(s)
    requires s'.limiter == Release(s.limiter) && s'.released == s.released + multiset{id} && s'.last == s.last
    requires Live(s') == Live(s) - {id} && s'.sessions == s.sessions && s'.running == s.running
    requires Accepting(s') <= Accepting(s) && s'.removing <= s.removing && s'.closing <= s.closing
    ensures Inv(s') && s.limiter.count > 0
  {
    hide Counted, Live;
    ReleaseCounted(Live(s), s.limiter.count, s.last, s.released, id);
    ApartShrinks(Accepting(s), s.sessions, s.removing, s.closing, Accepting(s'), s'.removing, s'.closing);
    hide Apart, Accepting;
  }

  lemma ApartShrinks(a: set<nat>, b: set<nat>, c: set<nat>, d: set<nat>, a': set<nat>, c': set<nat>, d': set<nat>)
    requires Apart(a, b, c, d) && a' <= a && c' <= c && d' <= d
    ensures Apart(a', b, c', d')
  {}

  /** `s'` is `s` with a session moved from one place to another. */
  lemma MoveKeepsInv(s: Server, s': Server)
    requires Inv(s)
    requires s'.limiter.count == s.limiter.count && s'.released == s.released && s'.last == s.last
             && Live(s') == Live(s)
    requires Apart(Accepting(s'), s'.sessions, s'.removing, s'.closing)
    requires s'.sessions <= s'.running && s'.running !! Accepting(s') && s'.running <= s.running + Accepting(s)
    ensures Inv(s')
  {
    PartsOfLive(s);
    assert forall id | id in Live(s) :: id <= s.last;
    hide Counted, Live;
  }

  lemma PartsOfLive(s: Server)
    ensures s.sessions <= Live(s) && s.removing <= Live(s) && s.closing <= Live(s) && Accepting(s) <= Live(s)
  {}

  lemma AdmitElement(b: set<nat>, c: set<nat>, d: set<nat>, id: nat)
    requires Apart({}, b, c, d) && id !in b && id !in c && id !in d
    ensures Apart({id}, b, c, d)
    ensures {id} + b + c + d == {} + b + c + d + {id}
  {}

  /** `s'` is `s` after one more admission. */
  lemma AdmitKeepsInv(s: Server, s': Server)
    requires Inv(s) && s.accepting == None
    requires s' == s.(limiter := s'.limiter, last := s.last + 1, accepting := Some(s.last + 1))
    requires s'.limiter.count == s.limiter.count + 1
    ensures Inv(s')
  {
    assert Accepting(s) == {} && Accepting(s') == {s.last + 1};
    var id := s.last + 1;
    var b, c, d := s.sessions, s.removing, s.closing;
    NewIsNotLive(s);
    LiveParts(s, {});
    LiveParts(s', {id});
    hide Counted, Accepting, Live, Apart;
    AdmitCounted(Live(s), s.limiter.count, s.last, s.released);
    AdmitElement(b, c, d, id);
  }

  lemma NewIsNotLive(s: Server)
    requires Inv(s)
    ensures var id := s.last + 1; id !in s.sessions && id !in s.removing && id !in s.closing && id !in s.running
  {
    PartsOfLive(s);
    assert s.last + 1 !in Live(s);
    hide Live, Apart;
  }

  lemma LiveParts(s: Server, accepting: set<nat>)
    requires accepting == Accepting(s)
    ensures Live(s) == accepting + s.sessions + s.removing + s.closing
  {}

  lemma ConnectKeepsInv(s: Server, at: int)
    requires Inv(s)
    ensures Inv(After(s, Connect(at)))
  {
    var s', l := After(s, Connect(at)), Allow(s.limiter, at).1;
    AllowCounts(s.limiter, at);
    hide Allow;
    if s.accepting == None {
      if Allow(s.limiter, at).0 {
        hide Inv;
        AdmitKeepsInv(s, s');
      } else {
        assert s' == s.(limiter := l);
        SameLive(s, s');
        MoveKeepsInv(s, s');
      }
    }
  }

  lemma SameLive(s: Server, s': Server)
    requires s' == s.(limiter := s'.limiter)
    ensures Live(s') == Live(s) && Accepting(s') == Accepting(s)
  {}

  lemma AllowCounts(l: RateLimit.State, at: int)
    ensures var (ok, l') := Allow(l, at); l'.count == l.count + (if ok then 1 else 0)
  {
    hide Available;
  }

  lemma RemoveElement(a: set<nat>, b: set<nat>, c: set<nat>, d: set<nat>, id: nat)
    requires Apart(a, b, c, d)
    ensures id in a ==> (a - {id}) + b + c + d == a + b + c + d - {id}
    ensures id in c ==> a + b + (c - {id}) + d == a + b + c + d - {id}
    ensures id in d ==> a + b + c + (d - {id}) == a + b + c + d - {id}
  {}

  lemma InvApart(s: Server)
    requires Inv(s)
    ensures Apart(Accepting(s), s.sessions, s.removing, s.closing)
  {}

  lemma DeviceFailureKeepsInv(s: Server)
    requires Inv(s)
    ensures Inv(After(s, DeviceFails)) && (s.accepting.Some? ==> s.limiter.count > 0)
  {
    if s.accepting.Some? {
      var s', id := After(s, DeviceFails), s.accepting.value;
      InvApart(s);
      hide Inv, Apart;
      RemoveElement(Accepting(s), s.sessions, s.removing, s.closing, id);
      assert Accepting(s) == {id} && Accepting(s') == Accepting(s) - {id};
      hide Accepting;
      assert id in Live(s) && Live(s') == Live(s) - {id};
      hide Live;
      ReleaseKeepsInv(s, s', id);
    }
  }

  lemma RegisterElement(b: set<nat>, c: set<nat>, d: set<nat>, id: nat)
    requires Apart({id}, b, c, d)
    ensures Apart({}, b + {id}, c, d)
    ensures {} + (b + {id}) + c + d == {id} + b + c + d
  {}

  lemma RegisterKeepsInv(s: Server)
    requires Inv(s)
    ensures Inv(After(s, Register))
  {
    if s.accepting.Some? {
      var s', id := After(s, Register), s.accepting.value;
      hide Counted, Apart;
      assert Accepting(s) == {id} && Accepting(s') == {};
      assert Apart({id}, s.sessions, s.removing, s.closing) && s.sessions <= s.running;
      hide Inv;
      RegisterElement(s.sessions, s.removing, s.closing, id);
      hide Accepting;
      assert Live(s') == Live(s);
      assert s'.sessions == s.sessions + {id} && s'.running == s.running + {id};
      hide Live;
      MoveKeepsInv(s, s');
    }
  }

  lemma MoveElement(a: set<nat>, b: set<nat>, c: set<nat>, d: set<nat>, id: nat)
    requires id in b && Apart(a, b, c, d)
    ensures a + (b - {id}) + (c + {id}) + d == a + b + c + d
    ensures Apart(a, b - {id}, c + {id}, d)
  {}

  lemma EndKeepsInv(s: Server, id: nat)
    requires Inv(s)
    ensures Inv(After(s, EndSession(id)))
  {
    var s' := After(s, EndSession(id));
    if id in s.running {
      assert Apart(Accepting(s), s.sessions, s.removing, s.closing) && s.sessions <= s.running
          && s.running !! Accepting(s);
      hide Inv, Apart;
      assert Accepting(s') == Accepting(s) && s'.running <= s.running;
      if id in s.sessions { MoveElement(Accepting(s), s.sessions, s.removing, s.closing, id); }
      assert Live(s') == Live(s);
      hide Live, Accepting;
      MoveKeepsInv(s, s');
    }
  }

  lemma SwapKeepsInv(s: Server)
    requires Inv(s)
    ensures Inv(After(s, SwapOut))
  {
    var s' := After(s, SwapOut);
    hide Counted;
    assert Apart(Accepting(s), s.sessions, s.removing, s.closing) && s.running !! Accepting(s);
    assert Accepting(s') == Accepting(s);
    hide Inv;
    assert Live(s') == Live(s);
    hide Live, Accepting;
    MoveKeepsInv(s, s');
  }

  lemma RemovedReleaseKeepsInv(s: Server, id: nat)
    requires Inv(s)
    ensures Inv(After(s, ReleaseRemoved(id))) && (id in s.removing ==> s.limiter.count > 0)
  {
    if id in s.removing {
      var s' := ReleaseFor(s, id).(removing := s.removing - {id});
      assert After(s, ReleaseRemoved(id)) == s';
      hide After;
      InvApart(s);
      hide Inv, Apart;
      RemoveElement(Accepting(s), s.sessions, s.removing, s.closing, id);
      assert id in Live(s) && Live(s') == Live(s) - {id};
      hide Live;
      ReleaseKeepsInv(s, s', id);
    }
  }

  lemma ClosedReleaseKeepsInv(s: Server, id: nat)
    requires Inv(s)
    ensures Inv(After(s, ReleaseClosed(id))) && (id in s.closing ==> s.limiter.count > 0)
  {
    if id in s.closing {
      var s' := ReleaseFor(s, id).(closing := s.closing - {id});
      assert After(s, ReleaseClosed(id)) == s';
      hide After;
      InvApart(s);
      hide Inv, Apart;
      RemoveElement(Accepting(s), s.sessions, s.removing, s.closing, id);
      assert id in Live(s) && Live(s') == Live(s) - {id};
      hide Live;
      ReleaseKeepsInv(s, s', id);
    }
  }

  lemma StepKeepsInv(s: Server, a: Action)
    requires Inv(s)
    ensures Inv(After(s, a))
    ensures Releases(s, a) ==> s.limiter.count > 0
  {
    hide Inv, After;
    match a {
      case Connect(at) => ConnectKeepsInv(s, at);
      case DeviceFails => DeviceFailureKeepsInv(s);
      case Register => RegisterKeepsInv(s);
      case EndSession(id) => EndKeepsInv(s, id);
      case ReleaseRemoved(id) => RemovedReleaseKeepsInv(s, id);
      case SwapOut => SwapKeepsInv(s);
      case ReleaseClosed(id) => ClosedReleaseKeepsInv(s, id);
    }
  }

  /** Over all interleavings, with no limit reload: the count is exact and the zero guard of Release never
      fires. */
  lemma {:induction false} AccountingHolds(maxConnections: int, rate: int, burst: int, now: int, actions: seq<Action>)
    ensures var s := Run(Start(maxConnections, rate, burst, now), actions);
            Inv(s) && forall a | Releases(s, a) :: s.limiter.count > 0
  {
    var s := Run(Start(maxConnections, rate, burst, now), actions);
    if actions != [] {
      AccountingHolds(maxConnections, rate, burst, now, actions[..|actions| - 1]);
      StepKeepsInv(Run(Start(maxConnections, rate, burst, now), actions[..|actions| - 1]), actions[|actions| - 1]);
    }
    forall a | Releases(s, a) ensures s.limiter.count > 0 { StepKeepsInv(s, a); }
  }

  /** Nothing is under way: no connection being accepted, no goroutine left, no release outstanding. */
  predicate Quiet(s: Server) {
    s.accepting == None && s.running == {} && s.removing == {} && s.closing == {}
  }

  /** Once everything has wound down each admitted connection was released exactly once and the count is zero. */
  lemma EachReleasedOnce(maxConnections: int, rate: int, burst: int, now: int, actions: seq<Action>)
    requires Quiet(Run(Start(maxConnections, rate, burst, now), actions))
    ensures var s := Run(Start(maxConnections, rate, burst, now), actions);
            && s.limiter.count == 0 && s.sessions == {}
            && forall id: nat :: s.released[id] == (if 1 <= id <= s.last then 1 else 0)
  {
    AccountingHolds(maxConnections, rate, burst, now, actions);
    var s := Run(Start(maxConnections, rate, burst, now), actions);
    assert Live(s) == {};
  }

  lemma StepWithinLimit(s: Server, a: Action)
    requires s.limiter.count <= s.limiter.maxConnections
    ensures var l := After(s, a).limiter;
            l.maxConnections == s.limiter.maxConnections && l.count <= l.maxConnections
  {}

  /** The number of open connections stays within the limit. */
  lemma {:induction false} WithinLimit(maxConnections: nat, rate: int, burst: int, now: int, actions: seq<Action>)
    ensures var s := Run(Start(maxConnections, rate, burst, now), actions);
            s.limiter.maxConnections == maxConnections && s.limiter.count == |Live(s)| <= maxConnections
  {
    AccountingHolds(maxConnections, rate, burst, now, actions);
    if actions != [] {
      var before := actions[..|actions| - 1];
      WithinLimit(maxConnections, rate, burst, now, before);
      StepWithinLimit(Run(Start(maxConnections, rate, burst, now), before), actions[|actions| - 1]);
      hide After, Live, Start;
    }
  }

  /** A reload of the limits keeps the count exact exactly when the new limit is not below it: otherwise the
      count is cut down although the sessions stay open. */
  lemma ReloadBreaksCount(s: Server, maxConnections: int, rate: int, burst: int)
    requires Inv(s) && s.limiter.count <= s.limiter.maxConnections
    ensures Inv(s.(limiter := Update(s.limiter, maxConnections, rate, burst))) <==>
            maxConnections <= 0 || s.limiter.count <= maxConnections
  {
    var s' := s.(limiter := Update(s.limiter, maxConnections, rate, burst));
    assert Live(s') == Live(s) && Accepting(s') == Accepting(s);
  }

  const TWO_CONNECTS: seq<Action> := [Connect(0), Register, Connect(0), Register]

  function TwoOpen(): Server {
    Server(RateLimit.State(2, 2, 60, 2, 0.0, 0), 2, None, {1, 2}, {1, 2}, {}, {}, multiset{})
  }

  /** Two connections admitted at once use up a limit of two. */
  lemma TwoSessions()
    ensures Run(Start(2, 60, 2, 0), TWO_CONNECTS) == TwoOpen()
  {
    var start := Start(2, 60, 2, 0);
    var none := TWO_CONNECTS[..0];
    var one, two, three := TWO_CONNECTS[..1], TWO_CONNECTS[..2], TWO_CONNECTS[..3];
    assert one[..0] == none && two[..1] == one && three[..2] == two && TWO_CONNECTS[..3] == three;
    assert Refill(60, 0) == 0.0;
    hide Refill;
    var first := RateLimit.State(2, 1, 60, 2, 1.0, 0);
    assert Run(start, one) == start.(limiter := first, last := 1, accepting := Some(1));
    assert Run(start, two) == Server(first, 1, None, {1}, {1}, {}, {}, multiset{});
    assert Run(start, three) == Run(start, two).(limiter := TwoOpen().limiter, last := 2, accepting := Some(2));
  }

  /** It happens: two sessions, a reload to one connection, one session ended; the count is zero and the other
      session is still open, so its release will find nothing to count down. */
  lemma ReloadLosesCount()
    ensures var s := Run(Start(2, 60, 2, 0), TWO_CONNECTS);
            var reloaded := s.(limiter := Update(s.limiter, 1, 60, 2));
            var end := After(After(reloaded, EndSession(1)), ReleaseRemoved(1));
            Live(end) == {2} && end.limiter.count == 0
  {
    TwoSessions();
    hide Run, Start;
    var s := TwoOpen();
    var reloaded := s.(limiter := Update(s.limiter, 1, 60, 2));
    assert reloaded.limiter.count == 1;
    var ended := After(reloaded, EndSession(1));
    assert ended == reloaded.(running := {2}, sessions := {2}, removing := {1});
  }

  /** The forced shutdown without interruption: the swap, then a release for each session in some order. */
  function ShutDown(s: Server, order: seq<nat>): Server {
    if order == [] then After(s, SwapOut)
    else After(ShutDown(s, order[..|order| - 1]), ReleaseClosed(order[|order| - 1]))
  }

  lemma {:induction false} ShutDownKeepsInv(s: Server, order: seq<nat>)
    requires Inv(s)
    ensures Inv(ShutDown(s, order))
  {
    hide Inv, After;
    if order == [] {
      StepKeepsInv(s, SwapOut);
    } else {
      ShutDownKeepsInv(s, order[..|order| - 1]);
      StepKeepsInv(ShutDown(s, order[..|order| - 1]), ReleaseClosed(order[|order| - 1]));
    }
  }

  lemma NoRelease(st: RateLimit.State)
    ensures ReleaseTimes(st, 0) == st
  {}

  lemma OneMoreRelease(st: RateLimit.State, n: nat)
    ensures ReleaseTimes(st, n + 1) == Release(ReleaseTimes(st, n))
  {}

  lemma CloseOne(s: Server, id: nat)
    requires id in s.closing
    ensures After(s, ReleaseClosed(id)) ==
            s.(limiter := Release(s.limiter), released := s.released + multiset{id}, closing := s.closing - {id})
  {}

  // ---------------------------------------------------------------- the object

  /** The registry with its limiter. The ghost parameters are the machine before an action; `Reflects` says that
      the object shows the machine's sessions and limiter, and every method keeps that. */
  class SessionRegistry {
    var sessions: map<nat, Entry>
    const limiter: ConnectionLimiter

    ghost predicate Reflects(s: Server)
      reads this, limiter
    {
      sessions.Keys == s.sessions && limiter.Abstract() == s.limiter
    }

    constructor (l: ConnectionLimiter)
      ensures sessions == map[] && limiter == l
    {
      sessions, limiter := map[], l;
    }

    method Add(id: nat, e: Entry)
      modifies this
      ensures sessions == old(sessions)[id := e]
    {
      sessions := sessions[id := e];
    }

    /** Takes the entry out: of several callers only the first gets it. */
    method Remove(id: nat) returns (e: Option<Entry>)
      modifies this
      ensures e == if id in old(sessions) then Some(old(sessions)[id]) else None
      ensures sessions == old(sessions) - {id}
    {
      if id !in sessions { return None; }
      e := Some(sessions[id]);
      sessions := sessions - {id};
    }

    /** The accept path of runServer from Allow to the registration or the failure of the device; `id` is the
        next value of the session counter. */
    method Admit(at: int, id: nat, deviceFails: bool, e: Entry, ghost s: Server)
        returns (admitted: bool, ghost s': Server)
      requires Reflects(s) && s.accepting == None && id == s.last + 1
      modifies this, limiter
      ensures admitted == Allow(s.limiter, at).0
      ensures s' == if !admitted then After(s, Connect(at))
                    else After(After(s, Connect(at)), if deviceFails then DeviceFails else Register)
      ensures Reflects(s')
      ensures sessions == if admitted && !deviceFails then old(sessions)[id := e] else old(sessions)
    {
      hide Allow;
      admitted := limiter.AllowAt(at);
      s' := After(s, Connect(at));
      if !admitted { return; }
      if deviceFails {
        limiter.ReleaseOne();
        s' := After(s', DeviceFails);
        return;
      }
      Add(id, e);
      s' := After(s', Register);
    }

    /** The deferred clean-up of a session goroutine: releases only if it got the entry. */
    method Finish(id: nat, ghost s: Server) returns (ghost s': Server)
      requires Reflects(s) && id in s.running && id !in s.removing
      modifies this, limiter
      ensures s' == After(After(s, EndSession(id)), ReleaseRemoved(id)) && Reflects(s')
    {
      s' := After(s, EndSession(id));
      var e := Remove(id);
      if e.Some? { limiter.ReleaseOne(); }
      s' := After(s', ReleaseRemoved(id));
    }

    /** Swaps the map out, then releases one connection for every entry that was in it. */
    method ForceShutdown(ghost s: Server) returns (closed: nat, ghost order: seq<nat>, ghost s': Server)
      requires Reflects(s) && s.closing == {}
      modifies this, limiter
      ensures sessions == map[] && closed == |old(sessions)|
      ensures limiter.Abstract() == ReleaseTimes(old(limiter.Abstract()), |old(sessions)|)
      ensures Reflects(s') && s'.sessions == {} && s'.closing == {}
      ensures s' == ShutDown(s, order)
    {
      var todo := sessions.Keys;
      s' := After(s, SwapOut);
      assert s'.closing == todo && s'.sessions == {} && s'.limiter == s.limiter && |todo| == |sessions|;
      sessions := map[];
      closed, order := 0, [];
      hide After, Release, ReleaseTimes;
      assert ReleaseTimes(s.limiter, 0) == s.limiter by { NoRelease(s.limiter); }
      while todo != {}
        invariant closed + |todo| == |old(sessions)|
        invariant limiter.Abstract() == s'.limiter == ReleaseTimes(s.limiter, closed)
        invariant s'.closing == todo && s'.sessions == {}
        invariant s' == ShutDown(s, order)
        decreases |todo|
        modifies limiter
      {
        var id :| id in todo;
        CloseOne(s', id);
        OneMoreRelease(s.limiter, closed);
        assert (order + [id])[..|order|] == order;
        order := order + [id];
        todo := todo - {id};
        limiter.ReleaseOne();
        s' := After(s', ReleaseClosed(id));
        closed := closed + 1;
      }
    }
  }
}
