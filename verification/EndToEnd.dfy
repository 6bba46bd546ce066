/** The pieces joined: an honest handshake of either kind, or a rekey, and the record channel on top of it. */
module EndToEnd {
  import opened Bits
  import opened Bytes
  import opened Primitives
  import opened SessionSecrets
  import H = Handshake
  import N = Noise
  import P = Pfs
  import R = RecordChannel
  import U = UdpSession

  /** The records that the sender `s` writes for `frames` reach `r`: whole records arrive as the record channel
      promises, and out of any connection that forges nothing come frames of the sender, in order. */
  ghost predicate Delivers(c: Crypto, s: R.Session, r: R.Session, frames: seq<R.Frame>, picks: seq<nat>, wire: bytes)
    requires Lawful(c) && |frames| < TWO64
  {
    var log := R.SendRun(c, s, frames).1;
    && |log| < TWO64
    && (R.Below(picks, |log|) ==>
          && R.Below(R.Highs(picks, 0), |log|)
          && R.Received(c, r, R.Deliver(log, picks)) == R.Pick(log, R.Highs(picks, 0)))
    && (R.Unforged(c, s, log, wire) ==> exists indices :: R.SelectsFrom(log, 0, indices, R.Received(c, r, wire)))
  }

  /** Whatever the end with secrets `a` sends, the end with secrets `b` receives. */
  ghost predicate Carries(c: Crypto, a: Secrets, paramsA: TransportParameters, b: Secrets, paramsB: TransportParameters)
    requires Lawful(c)
  {
    && R.Installed(a, paramsA).Some? && R.Installed(b, paramsB).Some?
    && forall frames, picks, wire | |frames| < TWO64 ::
         Delivers(c, R.Installed(a, paramsA).value, R.Installed(b, paramsB).value, frames, picks, wire)
  }

  ghost predicate BothWays(c: Crypto, a: Secrets, paramsA: TransportParameters, b: Secrets,
                           paramsB: TransportParameters)
    requires Lawful(c)
  {
    Carries(c, a, paramsA, b, paramsB) && Carries(c, b, paramsB, a, paramsA)
  }

  /** Crossed secrets make a working channel in both directions. */
  lemma FramesArrive(c: Crypto, a: Secrets, b: Secrets, paramsA: TransportParameters, paramsB: TransportParameters)
    requires Lawful(c) && Crossed(a, b) && R.Installed(a, paramsA).Some?
    ensures BothWays(c, a, paramsA, b, paramsB)
  {
    P.CrossedSymmetric(a, b);
    R.CrossedSecretsMatch(a, b, paramsA, paramsB);
    hide R.Installed, Lawful, R.Matching;
    var s, r := R.Installed(a, paramsA).value, R.Installed(b, paramsB).value;
    forall frames, picks, wire | |frames| < TWO64
      ensures Delivers(c, s, r, frames, picks, wire) && Delivers(c, r, s, frames, picks, wire)
    {
      FramesOver(c, s, r, frames, picks, wire);
      FramesOver(c, r, s, frames, picks, wire);
    }
  }

  lemma FramesOver(c: Crypto, s: R.Session, r: R.Session, frames: seq<R.Frame>, picks: seq<nat>, wire: bytes)
    requires Lawful(c) && R.Matching(s, r) && s.sendCounter == r.recvCounter == 0 && |frames| < TWO64
    ensures Delivers(c, s, r, frames, picks, wire)
  {
    var log := R.SendRun(c, s, frames).1;
    R.SendRunWritten(c, s, frames);
    hide R.SendRun, R.Received, R.Unforged, R.SelectsFrom, Lawful, R.Matching, R.Highs;
    if R.Below(picks, |log|) { R.HonestNetwork(c, s, r, log, picks); }
    if R.Unforged(c, s, log, wire) { R.InOrderSubsequence(c, s, r, log, wire); }
  }

  /** An honest client and server of the cookie handshake, one of whose first three cookies returns in time, can
      talk in both directions. */
  lemma HandshakeThenFrames(
    c: Crypto, options: H.Options, remote: bytes, sessionID: Block16, privateKey: Block32,
    paddings: nat -> bytes, draws: nat -> H.Draw)
    requires Lawful(c)
    requires forall i: nat :: |paddings(i)| <= 255
    requires forall i: nat :: |draws(i).padding| <= 255
    requires H.FirstFresh(H.Effective(options).cookieTTL, draws, 0).Some?
    ensures var x := H.Exchange(c, H.Effective(options), remote,
                                H.ClientStart(c, sessionID, privateKey, options.psk, paddings(0)), 0, paddings, draws);
            x.Agreed? && BothWays(c, x.client.secrets, x.client.parameters, x.server.secrets, x.server.parameters)
  {
    hide H.Exchange, Lawful, Carries, H.FirstFresh, R.Installed;
    var o, cl := H.Effective(options), H.ClientStart(c, sessionID, privateKey, options.psk, paddings(0));
    assert H.Honest(c, o, remote, cl, 0, paddings, draws) by { hide H.HelloBytes; }
    H.HonestExchange(c, o, remote, cl, 0, paddings, draws);
    var x := H.Exchange(c, o, remote, cl, 0, paddings, draws);
    LongKeys(x.client.secrets, x.client.parameters);
    hide BothWays;
    FramesArrive(c, x.client.secrets, x.server.secrets, x.client.parameters, x.server.parameters);
  }

  lemma LongKeys(k: Secrets, params: TransportParameters)
    ensures R.Installed(k, params).Some? <==> |k.sendKey| >= 32 && |k.receiveKey| >= 32
  {}

  /** So can an honest initiator and responder of the Noise handshake that accept version 2 and meet no degenerate
      shared secret. */
  lemma NoiseThenFrames(c: Crypto, i: N.Options, r: N.Options, d: N.InitiatorDraw, ephemeral: Block32)
    requires Lawful(c) && N.HonestPair(c, i, r)
    requires i.minVersion <= N.NOISE_VERSION && N.UsableKeys(c, i, r, d, ephemeral)
    ensures var j := N.Join(c, i, r, d, ephemeral);
            && j.Ok?
            && var a, b := j.value.end.outcome, j.value.reply.outcome;
               BothWays(c, a.secrets, a.parameters, b.secrets, b.parameters)
  {
    hide Lawful, N.Join, N.UsableKeys, BothWays, R.Installed;
    N.LockStep(c, i, r, d, ephemeral);
    N.JoinKeys(c, i, r, d, ephemeral);
    var j := N.Join(c, i, r, d, ephemeral).value;
    var a, b := j.end.outcome, j.reply.outcome;
    LongKeys(a.secrets, a.parameters);
    FramesArrive(c, a.secrets, b.secrets, a.parameters, b.parameters);
  }

  /** In every run of two managers the initiator's current secrets and those that the responder holds for their
      epoch make a working channel in both directions, also while the responder is one epoch ahead. */
  lemma RekeyThenFrames(c: Crypto, start: P.Pair, events: seq<P.Event>, params: TransportParameters)
    requires Lawful(c) && P.Paired(start)
    requires R.Installed(Initiator(P.Run(c, start, events)).current, params).Some?
    ensures var p := P.Run(c, start, events);
            var i, r := Initiator(p), Responder(p);
            && P.SecretsForEpoch(r, i.current.epoch).Some?
            && BothWays(c, i.current, params, P.SecretsForEpoch(r, i.current.epoch).value, params)
  {
    hide P.Run, R.Installed, Lawful, BothWays;
    P.RunStaysPaired(c, start, events);
    var p := P.Run(c, start, events);
    var i, r := Initiator(p), Responder(p);
    FramesArrive(c, i.current, P.SecretsForEpoch(r, i.current.epoch).value, params, params);
  }

  /** The manager that a response is travelling to; either one when there is none. */
  function Initiator(p: P.Pair): P.State {
    if p.flight.Response? && p.flight.toB then p.b else p.a
  }

  function Responder(p: P.Pair): P.State {
    if p.flight.Response? && p.flight.toB then p.a else p.b
  }

  /** Over a datagram session: if the datagrams that its queue accepts add up to whole records, then once it is read
      to the end, in reads of any sizes mixed in any way with the arrivals, the receiver has returned exactly the
      frames that those records promise. */
  lemma FramesOverDatagrams(
    c: Crypto, s: R.Session, r: R.Session, log: seq<R.Entry>, picks: seq<nat>, events: seq<U.Event>)
    requires Lawful(c) && R.Matching(s, r) && R.Written(c, s, log) && R.Below(picks, |log|)
    requires U.Accepted(events) == R.Deliver(log, picks)
    requires U.Run(events).pending == [] && U.Run(events).queue == []
    ensures R.Below(R.Highs(picks, r.recvCounter), |log|)
    ensures R.Received(c, r, U.Returned(events)) == R.Pick(log, R.Highs(picks, r.recvCounter))
  {
    hide Lawful, R.Written, R.Received, U.Run, U.Returned, U.Accepted;
    R.HonestNetwork(c, s, r, log, picks);
    U.Drained(events);
  }
}
