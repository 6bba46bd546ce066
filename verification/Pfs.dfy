/** PFSManager of crypto/pfs.go: rekeying with a grace period for the previous epoch.

`State` is the abstract value of a manager. A run joins two managers by a reliable channel in which at most
one rekey is under way; the initiator may ask for another meanwhile, and is refused. The clean-up of exactly those
secrets that the initiator still uses does not overtake the response that replaces them.
*/
module Pfs {
  import opened Bits
  import opened Bytes
  import opened Wrappers
  import opened Primitives
  import opened SessionSecrets
  import opened Rekey

  datatype State = State(current: Secrets, previous: Option<Secrets>, pending: Option<RekeyContext>, role: Role)

  function SecretsForEpoch(st: State, epoch: uint32): Option<Secrets> {
    if st.current.epoch == epoch then Some(st.current)
    else if st.previous.Some? && st.previous.value.epoch == epoch then st.previous
    else None
  }

  /** None when a rekey is already in progress. */
  function Initiate(c: Crypto, st: State, d: Draw): Option<State> {
    if st.pending.Some? then None else Some(st.(pending := Some(NewRekeyRequest(c, st.role, d))))
  }

  function Process(c: Crypto, st: State, payload: bytes, d: Draw): (Result<Renewal, Error>, State) {
    match ProcessRekey(c, st.current, payload, st.pending, st.role, d)
    case Err(e) => (Err(e), st)
    case Ok(r) => (Ok(r), st.(current := r.secrets, previous := Some(st.current), pending := None))
  }

  /** The delayed task of commitRekey for the secrets of epoch `old`. */
  function Expire(st: State, old_: uint32): State {
    if st.previous.Some? && st.previous.value.epoch == old_ then st.(previous := None) else st
  }

  class PFSManager {
    const crypto: Crypto
    const role: Role
    var current: Secrets
    var previous: Option<Secrets>
    var pendingRekey: Option<RekeyContext>

    ghost function Abstract(): State
      reads this
    {
      State(current, previous, pendingRekey, role)
    }

    constructor (c: Crypto, secrets: Secrets, r: Role)
      ensures crypto == c && Abstract() == State(secrets, None, None, r)
    {
      crypto, role, current, previous, pendingRekey := c, r, secrets, None, None;
    }

    method InitiateRekey(d: Draw) returns (r: Option<RekeyContext>)
      modifies this
      ensures match Initiate(crypto, old(Abstract()), d)
              case None => r == None && Abstract() == old(Abstract())
              case Some(st) => Abstract() == st && r == st.pending
    {
      if pendingRekey.Some? { return None; }
      pendingRekey := Some(NewRekeyRequest(crypto, role, d));
      r := pendingRekey;
    }

    method ProcessRekeyMessage(payload: bytes, d: Draw) returns (r: Result<Renewal, Error>)
      modifies this
      ensures (r, Abstract()) == Process(crypto, old(Abstract()), payload, d)
    {
      r := ProcessRekey(crypto, current, payload, pendingRekey, role, d);
      if r.Err? { return; }
      CommitRekey(r.value.secrets);
      pendingRekey := None;
    }

    method CommitRekey(secrets: Secrets)
      modifies this`current, this`previous
      ensures current == secrets && previous == Some(old(current))
    {
      previous := Some(current);
      current := secrets;
    }

    method ExpirePrevious(epoch: uint32)
      modifies this
      ensures Abstract() == Expire(old(Abstract()), epoch)
    {
      if previous.Some? && previous.value.epoch == epoch { previous := None; }
    }

    method GetSecretsForEpoch(epoch: uint32) returns (r: Option<Secrets>)
      ensures r == SecretsForEpoch(Abstract(), epoch)
    {
      if current.epoch == epoch { return Some(current); }
      if previous.Some? && previous.value.epoch == epoch { return previous; }
      return None;
    }
  }

  // ---------------------------------------------------------------- two managers

  /** What is under way between the two managers; `toB` says in which direction it travels. */
  datatype Flight = Idle | Request(toB: bool, payload: bytes) | Response(toB: bool, payload: bytes)

  datatype Pair = Pair(a: State, b: State, flight: Flight)

  datatype Event =
    | Starts(byA: bool, draw: Draw)
    | Delivers(draw: Draw)
    | Receives(byA: bool, junk: bytes, draw: Draw)
    | Expires(atA: bool, epoch: uint32)

  /** The clean-up at a responder of the epoch its initiator still uses, before the response has arrived. */
  predicate Overtakes(p: Pair, atA: bool, epoch: uint32) {
    p.flight.Response? && p.flight.toB == atA && epoch == (if atA then p.b else p.a).current.epoch
  }

  /** A start while the other manager's rekey is under way. */
  predicate Crosses(p: Pair, byA: bool) {
    p.flight != Idle && (if byA then p.a else p.b).pending == None
  }

  /** One step of the run. A step that the run's assumptions rule out changes nothing. */
  function Step(c: Crypto, p: Pair, e: Event): Pair {
    match e
    case Starts(byA, d) =>
      if Crosses(p, byA) then p else
      (match Initiate(c, if byA then p.a else p.b, d)
       case None => p
       case Some(st) =>
         var flight := Request(byA, st.pending.value.payload);
         if byA then Pair(st, p.b, flight) else Pair(p.a, st, flight))
    case Delivers(d) =>
      if p.flight == Idle then p else
      (match Process(c, if p.flight.toB then p.b else p.a, p.flight.payload, d)
       case (Err(_), _) => p.(flight := Idle)
       case (Ok(r), st) =>
         var flight := if r.response.Some? then Response(!p.flight.toB, r.response.value) else Idle;
         if p.flight.toB then Pair(p.a, st, flight) else Pair(st, p.b, flight))
    case Receives(byA, junk, d) =>
      if Decode(junk).Ok? then p
      else if byA then p.(a := Process(c, p.a, junk, d).1)
      else p.(b := Process(c, p.b, junk, d).1)
    case Expires(atA, epoch) =>
      if Overtakes(p, atA, epoch) then p
      else if atA then p.(a := Expire(p.a, epoch))
      else p.(b := Expire(p.b, epoch))
  }

  function Run(c: Crypto, start: Pair, events: seq<Event>): Pair {
    if events == [] then start
    else Step(c, Run(c, start, events[..|events| - 1]), events[|events| - 1])
  }

  /** The two managers as a run starts: crossed secrets, opposite roles, nothing under way. */
  ghost predicate Paired(p: Pair) {
    p.flight == Idle && p.a.role != p.b.role && Crossed(p.a.current, p.b.current)
    && p.a.pending == None && p.b.pending == None
  }

  /** `i` has asked for a rekey that `r` has not seen yet. */
  ghost predicate Asked(c: Crypto, i: State, r: State, payload: bytes) {
    exists d: Draw ::
      && i.pending == Some(NewRekeyRequest(c, i.role, d)) && payload == i.pending.value.payload
      && r.pending == None && i.role != r.role && Crossed(i.current, r.current)
  }

  /** `r` has answered `i` and moved on to the next epoch; its previous secrets are those `i` still uses. */
  ghost predicate Answered(c: Crypto, i: State, r: State, payload: bytes) {
    exists d: Draw, dr: Draw ::
      && i.pending == Some(NewRekeyRequest(c, i.role, d))
      && r.pending == None && i.role != r.role
      && r.previous.Some? && Crossed(i.current, r.previous.value)
      && ProcessRekey(c, r.previous.value, i.pending.value.payload, None, r.role, dr)
           == Ok(Renewal(r.current, Some(payload)))
  }

  ghost predicate Inv(c: Crypto, p: Pair) {
    match p.flight
    case Idle => Paired(p)
    case Request(toB, payload) => if toB then Asked(c, p.a, p.b, payload) else Asked(c, p.b, p.a, payload)
    case Response(toB, payload) => if toB then Answered(c, p.b, p.a, payload) else Answered(c, p.a, p.b, payload)
  }

  lemma CrossedSymmetric(a: Secrets, b: Secrets)
    requires Crossed(a, b)
    ensures Crossed(b, a)
  {}

  lemma RequestDelivered(c: Crypto, i: State, r: State, payload: bytes, dr: Draw)
    requires Lawful(c) && Asked(c, i, r, payload)
    ensures var (result, r') := Process(c, r, payload, dr);
            && result.Ok? && result.value.response.Some?
            && Answered(c, i, r', result.value.response.value)
            && r'.current.epoch == (i.current.epoch + 1) % TWO32
  {
    var d: Draw :|
      && i.pending == Some(NewRekeyRequest(c, i.role, d)) && payload == i.pending.value.payload
      && r.pending == None && i.role != r.role && Crossed(i.current, r.current);
    RekeyCrosses(c, i.current, r.current, i.role, r.role, d, dr, d);
    hide ProcessRekey, NewRekeyRequest, Lawful;
  }

  lemma ResponseDelivered(c: Crypto, i: State, r: State, payload: bytes, di: Draw)
    requires Lawful(c) && Answered(c, i, r, payload)
    ensures var (result, i') := Process(c, i, payload, di);
            && result.Ok? && result.value.response == None
            && i'.pending == None && i'.role != r.role && Crossed(i'.current, r.current)
  {
    var d: Draw, dr: Draw :|
      && i.pending == Some(NewRekeyRequest(c, i.role, d))
      && r.pending == None && i.role != r.role
      && r.previous.Some? && Crossed(i.current, r.previous.value)
      && ProcessRekey(c, r.previous.value, i.pending.value.payload, None, r.role, dr)
           == Ok(Renewal(r.current, Some(payload)));
    RekeyCrosses(c, i.current, r.previous.value, i.role, r.role, d, dr, di);
    hide ProcessRekey, NewRekeyRequest, Lawful;
  }

  lemma StepKeepsInv(c: Crypto, p: Pair, e: Event)
    requires Lawful(c) && Inv(c, p)
    ensures Inv(c, Step(c, p, e))
  {
    hide ProcessRekey, NewRekeyRequest, Lawful, Decode;
    match e {
      case Starts(byA, d) =>
        if p.flight == Idle {
          var i, r := if byA then p.a else p.b, if byA then p.b else p.a;
          CrossedSymmetric(p.a.current, p.b.current);
          var st := Initiate(c, i, d).value;
          assert Asked(c, st, r, st.pending.value.payload);
        }
      case Delivers(d) => DeliveryKeepsInv(c, p, d);
      case Receives(byA, junk, d) =>
        if Decode(junk).Err? {
          JunkIgnored(c, p.a, junk, d);
          JunkIgnored(c, p.b, junk, d);
        }
      case Expires(atA, epoch) =>
    }
  }

  lemma JunkIgnored(c: Crypto, st: State, junk: bytes, d: Draw)
    requires Decode(junk).Err?
    ensures Process(c, st, junk, d).1 == st
  {}

  lemma DeliveryKeepsInv(c: Crypto, p: Pair, d: Draw)
    requires Lawful(c) && Inv(c, p)
    ensures Inv(c, Step(c, p, Delivers(d)))
  {
    hide Process, Lawful;
    match p.flight {
      case Idle =>
      case Request(toB, payload) =>
        if toB { RequestDelivered(c, p.a, p.b, payload, d); } else { RequestDelivered(c, p.b, p.a, payload, d); }
      case Response(toB, payload) =>
        if toB {
          ResponseDelivered(c, p.b, p.a, payload, d);
          CrossedSymmetric(Process(c, p.b, payload, d).1.current, p.a.current);
        } else {
          ResponseDelivered(c, p.a, p.b, payload, d);
        }
    }
  }

  lemma {:induction false} RunInv(c: Crypto, start: Pair, events: seq<Event>)
    requires Lawful(c) && Paired(start)
    ensures Inv(c, Run(c, start, events))
  {
    if events != [] {
      RunInv(c, start, events[..|events| - 1]);
      StepKeepsInv(c, Run(c, start, events[..|events| - 1]), events[|events| - 1]);
    }
  }

  /** In every run either both managers are at the same epoch with crossed secrets, or the responder is
      exactly one epoch ahead and still gives out the crossed partner of the initiator's secrets. */
  lemma RunStaysPaired(c: Crypto, start: Pair, events: seq<Event>)
    requires Lawful(c) && Paired(start)
    ensures var p := Run(c, start, events);
            if !p.flight.Response? then Crossed(p.a.current, p.b.current)
            else
              var i, r := if p.flight.toB then p.b else p.a, if p.flight.toB then p.a else p.b;
              && r.current.epoch == (i.current.epoch + 1) % TWO32
              && SecretsForEpoch(r, i.current.epoch).Some?
              && Crossed(i.current, SecretsForEpoch(r, i.current.epoch).value)
  {
    hide Run, ProcessRekey, NewRekeyRequest, Lawful;
    RunInv(c, start, events);
    var p := Run(c, start, events);
    match p.flight {
      case Idle =>
      case Request(toB, payload) =>
        if !toB { CrossedSymmetric(p.b.current, p.a.current); }
      case Response(toB, payload) =>
        var i, r := if toB then p.b else p.a, if toB then p.a else p.b;
        AnsweredEpoch(c, i, r, payload);
    }
  }

  lemma AnsweredEpoch(c: Crypto, i: State, r: State, payload: bytes)
    requires Answered(c, i, r, payload)
    ensures r.current.epoch == (i.current.epoch + 1) % TWO32
  {
    var d: Draw, dr: Draw :|
      && i.pending == Some(NewRekeyRequest(c, i.role, d))
      && r.previous.Some? && Crossed(i.current, r.previous.value)
      && ProcessRekey(c, r.previous.value, i.pending.value.payload, None, r.role, dr)
           == Ok(Renewal(r.current, Some(payload)));
  }

  /** Which clean-ups must wait for the response: in every run, with a response under way, a clean-up at the
      responder leaves it secrets for the epoch in which the initiator still sends exactly when it is of
      another epoch. */
  lemma ExpiryKeepsEpoch(c: Crypto, start: Pair, events: seq<Event>, epoch: uint32)
    requires Lawful(c) && Paired(start)
    requires Run(c, start, events).flight.Response?
    ensures var p := Run(c, start, events);
            var i, r := if p.flight.toB then p.b else p.a, if p.flight.toB then p.a else p.b;
            SecretsForEpoch(Expire(r, epoch), i.current.epoch).Some? <==> epoch != i.current.epoch
  {
    RunStaysPaired(c, start, events);
    hide Run, Lawful, ProcessRekey, NewRekeyRequest;
  }

  /** Delivering the outstanding response brings both managers to the same epoch with crossed secrets, one
      epoch after the initiator's old one. */
  lemma ResponseClosesTheGap(c: Crypto, start: Pair, events: seq<Event>, d: Draw)
    requires Lawful(c) && Paired(start)
    requires Run(c, start, events).flight.Response?
    ensures var p, p' := Run(c, start, events), Run(c, start, events + [Delivers(d)]);
            var i := if p.flight.toB then p.b else p.a;
            Paired(p') && p'.a.current.epoch == (i.current.epoch + 1) % TWO32
  {
    var p := Run(c, start, events);
    RunInv(c, start, events);
    RunStaysPaired(c, start, events);
    assert (events + [Delivers(d)])[..|events|] == events;
    if p.flight.toB {
      ResponseDelivered(c, p.b, p.a, p.flight.payload, d);
      CrossedSymmetric(Process(c, p.b, p.flight.payload, d).1.current, p.a.current);
    } else {
      ResponseDelivered(c, p.a, p.b, p.flight.payload, d);
    }
  }
}
