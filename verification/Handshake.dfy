/** The cookie handshake of crypto/keyexchange.go: a client and a server state machine.

`ClientStep` and `ServerStep` handle one received record. `ClientRun` and `ServerRun` are whole runs
against any peer; `Exchange` joins the two machines by a network that delivers every record.
Random draws and clock readings are parameters.
*/
module Handshake {
  import opened Bits
  import opened Bytes
  import opened Wrappers
  import opened Primitives
  import opened SessionSecrets
  import opened HelloCodec

  datatype Options = Options(psk: bytes, keepAlive: int, maxPadding: byte, cookieTTL: int)

  datatype Error =
    | BadPrivateKey | PskRequired | Closed | EmptyRecord | Malformed(reason: CodecError) | UnexpectedType
    | CookieSessionMismatch | TooManyCookies
    | SessionMismatch | BadServerMac | BadClientMac | CookieRefused

  /** What a completed handshake yields, with the transcript its keys are bound to. */
  datatype Agreement = Agreement(secrets: Secrets, parameters: TransportParameters, transcript: bytes)

  const MAX_COOKIES: nat := 3

  function ComputeMAC(c: Crypto, psk: bytes, message: bytes): Block16 {
    c.hmac(psk, message)[..16]
  }

  function DeriveSessionSecrets(
    c: Crypto, shared: bytes, transcript: bytes, psk: bytes, role: Role, sessionID: Block16, peer: Block32): Secrets
  {
    var salt := ComputeMAC(c, psk, transcript);
    var (send, recv) := if role.Server? then ("stp/recv", "stp/send") else ("stp/send", "stp/recv");
    Secrets(sessionID, ExpandKey(c, shared, salt, Ascii(send)), ExpandKey(c, shared, salt, Ascii(recv)),
            ExpandKey(c, shared, salt, Ascii("stp/obf")), peer, 1)
  }

  // ---------------------------------------------------------------- cookies

  /** `uint32(at.Unix())` for a time in nanoseconds. */
  function Stamp(at: int): uint32 {
    at / SECOND % TWO32
  }

  function StampedCookie(c: Crypto, psk: bytes, remote: bytes, sessionID: Block16, publicKey: Block32, stamp: uint32)
    : bytes
  {
    U32(stamp) + c.hmac(psk, remote + sessionID + publicKey + U32(stamp))[..16]
  }

  function VerifyCookie(
    c: Crypto, psk: bytes, remote: bytes, sessionID: Block16, publicKey: Block32, cookie: bytes, ttl: int,
    now: int): bool
  {
    |cookie| >= 20 &&
    var stamp := GetU32(cookie[..4]);
    now - stamp * SECOND <= ttl && cookie == StampedCookie(c, psk, remote, sessionID, publicKey, stamp)
  }

  /** A cookie issued at one time is still good at another. */
  predicate Fresh(ttl: int, issuedAt: int, now: int) {
    now - Stamp(issuedAt) * SECOND <= ttl
  }

  lemma OwnCookieVerifies(
    c: Crypto, psk: bytes, remote: bytes, sessionID: Block16, publicKey: Block32, ttl: int, issuedAt: int, now: int)
    ensures VerifyCookie(c, psk, remote, sessionID, publicKey,
                         StampedCookie(c, psk, remote, sessionID, publicKey, Stamp(issuedAt)), ttl, now)
            <==> Fresh(ttl, issuedAt, now)
  {
    var cookie := StampedCookie(c, psk, remote, sessionID, publicKey, Stamp(issuedAt));
    assert cookie[..4] == U32(Stamp(issuedAt)) + [];
    U32RoundTrip(Stamp(issuedAt), []);
  }

  // ---------------------------------------------------------------- the client

  datatype ClientState = ClientState(
    sessionID: Block16, privateKey: Block32, psk: bytes, cookie: bytes, attempts: nat, hello: bytes)

  datatype ClientNext = Resend(state: ClientState) | ClientDone(agreement: Agreement) | ClientFailed(error: Error)

  function HelloBytes(c: Crypto, sessionID: Block16, privateKey: Block32, psk: bytes, cookie: bytes, padding: bytes)
    : bytes
  {
    var publicKey := c.publicKey(privateKey);
    EncodeClientHello(sessionID, publicKey, cookie, padding, ComputeMAC(c, psk, sessionID + publicKey))
  }

  function ClientStart(c: Crypto, sessionID: Block16, privateKey: Block32, psk: bytes, padding: bytes): ClientState {
    ClientState(sessionID, privateKey, psk, [], 0, HelloBytes(c, sessionID, privateKey, psk, [], padding))
  }

  /** The part of clientHandshake after the cookie loop. */
  function FinishClient(c: Crypto, sessionID: Block16, privateKey: Block32, psk: bytes, hello: bytes, payload: bytes)
    : Result<Agreement, Error>
    requires payload != []
  {
    if payload[0] != SERVER_HELLO then Err(UnexpectedType) else
    var decoded := DecodeServerHello(payload);
    if decoded.Err? then Err(Malformed(decoded.error)) else
    var m := decoded.value;
    if m.sessionID != sessionID then Err(SessionMismatch)
    else if m.mac != ComputeMAC(c, psk, sessionID + c.publicKey(privateKey) + m.publicKey) then Err(BadServerMac)
    else
      var transcript := hello + payload;
      Ok(Agreement(
        DeriveSessionSecrets(c, c.dh(privateKey, m.publicKey), transcript, psk, Client, sessionID, m.publicKey),
        TransportParameters(m.keepAlive, m.maxPadding), transcript))
  }

  /** The client's reaction to a record; the hello it last sent opens the transcript. An empty record makes
      the source index out of range. */
  function ClientStep(c: Crypto, st: ClientState, payload: bytes, padding: bytes): ClientNext {
    if payload == [] then ClientFailed(EmptyRecord)
    else if payload[0] == COOKIE then
      match DecodeCookie(payload)
      case Err(e) => ClientFailed(Malformed(e))
      case Ok(m) =>
        if m.sessionID != st.sessionID then ClientFailed(CookieSessionMismatch)
        else if st.attempts + 1 > MAX_COOKIES then ClientFailed(TooManyCookies)
        else Resend(st.(cookie := m.cookie, attempts := st.attempts + 1,
                        hello := HelloBytes(c, st.sessionID, st.privateKey, st.psk, m.cookie, padding)))
    else
      match FinishClient(c, st.sessionID, st.privateKey, st.psk, st.hello, payload)
      case Err(e) => ClientFailed(e)
      case Ok(a) => ClientDone(a)
  }

  /** Exactly when the client indexes an empty record. */
  lemma EmptyRecordExactly(c: Crypto, st: ClientState, payload: bytes, padding: bytes)
    ensures ClientStep(c, st, payload, padding) == ClientFailed(EmptyRecord) <==> payload == []
  {
    hide DecodeCookie, DecodeServerHello, DeriveSessionSecrets, ComputeMAC, HelloBytes;
  }

  // ---------------------------------------------------------------- the server

  /** Defaults of serverHandshake. */
  function Effective(o: Options): Options {
    o.(keepAlive := if o.keepAlive == 0 then 15 * SECOND else o.keepAlive,
       maxPadding := if o.maxPadding == 0 then 96 else o.maxPadding,
       cookieTTL := if o.cookieTTL <= 0 then 60 * SECOND else o.cookieTTL)
  }

  /** The server's clock when it checks and when it issues a cookie, and its random draws. */
  datatype Draw = Draw(verifyAt: int, issueAt: int, privateKey: Block32, padding: bytes)

  datatype ServerNext =
    | SendCookie(message: bytes) | LastCookie(message: bytes)
    | ServerDone(reply: bytes, agreement: Agreement) | ServerFailed(error: Error)

  /** The server's reaction to a record, `attempts` cookies after its start. The fourth cookie is still sent,
      but then the server gives up. */
  function ServerStep(c: Crypto, o: Options, remote: bytes, attempts: nat, payload: bytes, d: Draw): ServerNext {
    match DecodeClientHello(payload)
    case Err(e) => ServerFailed(Malformed(e))
    case Ok(m) =>
      if m.mac != ComputeMAC(c, o.psk, m.sessionID + m.publicKey) then ServerFailed(BadClientMac)
      else if |m.cookie| == 0
           || !VerifyCookie(c, o.psk, remote, m.sessionID, m.publicKey, m.cookie, o.cookieTTL, d.verifyAt) then
        var message := EncodeCookie(m.sessionID,
                                    StampedCookie(c, o.psk, remote, m.sessionID, m.publicKey, Stamp(d.issueAt)));
        if attempts + 1 > MAX_COOKIES then LastCookie(message) else SendCookie(message)
      else ServerAccept(c, o, m, d)
  }

  function ServerAccept(c: Crypto, o: Options, m: ClientHello, d: Draw): ServerNext {
    var publicKey := c.publicKey(d.privateKey);
    var reply := EncodeServerHello(m.sessionID, publicKey, KeepAliveField(o.keepAlive), o.maxPadding, d.padding,
                                   ComputeMAC(c, o.psk, m.sessionID + m.publicKey + publicKey));
    var transcript := EncodeClientHello(m.sessionID, m.publicKey, m.cookie, m.padding, m.mac) + reply;
    ServerDone(reply, Agreement(
      DeriveSessionSecrets(c, c.dh(d.privateKey, m.publicKey), transcript, o.psk, Server, m.sessionID, m.publicKey),
      TransportParameters(o.keepAlive, o.maxPadding), transcript))
  }

  // ---------------------------------------------------------------- runs against any peer

  /** A client that has just sent `st.hello`: its result, and all hellos it sends from there on. */
  function ClientRun(c: Crypto, st: ClientState, paddings: nat -> bytes, incoming: seq<bytes>)
    : (Result<Agreement, Error>, seq<bytes>)
    decreases |incoming|
  {
    if incoming == [] then (Err(Closed), [st.hello]) else
    match ClientStep(c, st, incoming[0], paddings(st.attempts + 1))
    case ClientFailed(e) => (Err(e), [st.hello])
    case ClientDone(a) => (Ok(a), [st.hello])
    case Resend(st') =>
      var (r, sent) := ClientRun(c, st', paddings, incoming[1..]);
      (r, [st.hello] + sent)
  }

  /** A server's result and everything it sends. */
  function ServerRun(c: Crypto, o: Options, remote: bytes, attempts: nat, draws: nat -> Draw, incoming: seq<bytes>)
    : (Result<Agreement, Error>, seq<bytes>)
    decreases |incoming|
  {
    if incoming == [] then (Err(Closed), []) else
    match ServerStep(c, o, remote, attempts, incoming[0], draws(attempts))
    case ServerFailed(e) => (Err(e), [])
    case LastCookie(message) => (Err(CookieRefused), [message])
    case ServerDone(reply, a) => (Ok(a), [reply])
    case SendCookie(message) =>
      var (r, sent) := ServerRun(c, o, remote, attempts + 1, draws, incoming[1..]);
      (r, [message] + sent)
  }

  /** A run behind what was sent before it. */
  function Behind(before: seq<bytes>, run: (Result<Agreement, Error>, seq<bytes>))
    : (Result<Agreement, Error>, seq<bytes>)
  {
    (run.0, before + run.1)
  }

  lemma ClientRunOn(c: Crypto, st: ClientState, paddings: nat -> bytes, incoming: seq<bytes>, before: seq<bytes>)
    requires incoming != []
    ensures var next := ClientStep(c, st, incoming[0], paddings(st.attempts + 1));
            Behind(before, ClientRun(c, st, paddings, incoming)) ==
            if next.ClientFailed? then (Err(next.error), before + [st.hello])
            else if next.ClientDone? then (Ok(next.agreement), before + [st.hello])
            else Behind(before + [st.hello], ClientRun(c, next.state, paddings, incoming[1..]))
  {
    hide ClientStep;
    var next := ClientStep(c, st, incoming[0], paddings(st.attempts + 1));
    if next.Resend? {
      Associative(before, [st.hello], ClientRun(c, next.state, paddings, incoming[1..]).1);
    }
  }

  /** clientHandshake over a connection that delivers `incoming`. */
  method ClientHandshake(
    c: Crypto, psk: bytes, sessionID: Block16, privateKey: Block32, paddings: nat -> bytes, incoming: seq<bytes>)
    returns (r: Result<Agreement, Error>, sent: seq<bytes>)
    ensures (r, sent) == ClientRun(c, ClientStart(c, sessionID, privateKey, psk, paddings(0)), paddings, incoming)
    ensures 1 <= |sent| <= 1 + MAX_COOKIES
  {
    hide FinishClient, HelloBytes, DecodeCookie;
    var cookie: bytes := [];
    var attempts, next := 0, 0;
    var hello := HelloBytes(c, sessionID, privateKey, psk, cookie, paddings(0));
    sent := [hello];
    ghost var before: seq<bytes> := [];
    ghost var st := ClientState(sessionID, privateKey, psk, cookie, attempts, hello);
    ghost var run := ClientRun(c, st, paddings, incoming);
    assert incoming[0..] == incoming && before + run.1 == run.1;
    while next < |incoming|
      invariant 0 <= next <= |incoming| && attempts <= MAX_COOKIES && |before| == attempts
      invariant sent == before + [hello]
      invariant st == ClientState(sessionID, privateKey, psk, cookie, attempts, hello)
      invariant run == Behind(before, ClientRun(c, st, paddings, incoming[next..]))
    {
      var payload := incoming[next];
      assert incoming[next..][1..] == incoming[next + 1..];
      ClientRunOn(c, st, paddings, incoming[next..], before);
      hide ClientRun, Behind;
      next := next + 1;
      if payload == [] { return Err(EmptyRecord), sent; }
      if payload[0] == COOKIE {
        var decoded := ReadCookie(payload);
        if decoded.Err? { return Err(Malformed(decoded.error)), sent; }
        if decoded.value.sessionID != sessionID { return Err(CookieSessionMismatch), sent; }
        attempts := attempts + 1;
        if attempts > MAX_COOKIES { return Err(TooManyCookies), sent; }
        cookie := decoded.value.cookie;
        hello := HelloBytes(c, sessionID, privateKey, psk, cookie, paddings(attempts));
        before, st := sent, ClientState(sessionID, privateKey, psk, cookie, attempts, hello);
        sent := sent + [hello];
      } else {
        match FinishClient(c, sessionID, privateKey, psk, hello, payload)
        case Err(e) => return Err(e), sent;
        case Ok(a) => return Ok(a), sent;
      }
    }
    return Err(Closed), sent;
  }

  lemma Associative<T>(a: seq<T>, b: seq<T>, d: seq<T>)
    ensures a + (b + d) == a + b + d
  {}

  /** serverHandshake over a connection that delivers `incoming`; `handled` counts the hellos it looked at. */
  method ServerHandshake(c: Crypto, options: Options, remote: bytes, draws: nat -> Draw, incoming: seq<bytes>)
    returns (r: Result<Agreement, Error>, sent: seq<bytes>, handled: nat)
    ensures (r, sent) == ServerRun(c, Effective(options), remote, 0, draws, incoming)
    ensures handled <= 1 + MAX_COOKIES && |sent| <= handled
  {
    var o := Effective(options);
    hide Effective, VerifyCookie, ServerAccept, DecodeClientHello, ComputeMAC, StampedCookie;
    ghost var run := ServerRun(c, o, remote, 0, draws, incoming);
    handled, sent := 0, [];
    var attempts := 0;
    assert incoming[0..] == incoming && sent + run.1 == run.1;
    while handled < |incoming|
      invariant 0 <= handled <= |incoming| && attempts <= MAX_COOKIES && |sent| == attempts == handled
      invariant var rest := ServerRun(c, o, remote, attempts, draws, incoming[handled..]);
                run.0 == rest.0 && run.1 == sent + rest.1
    {
      var payload, d := incoming[handled], draws(attempts);
      assert incoming[handled..][1..] == incoming[handled + 1..];
      assert sent + [] == sent;
      handled := handled + 1;
      var decoded := ReadClientHello(payload);
      if decoded.Err? { return Err(Malformed(decoded.error)), sent, handled; }
      var m := decoded.value;
      if m.mac != ComputeMAC(c, o.psk, m.sessionID + m.publicKey) { return Err(BadClientMac), sent, handled; }
      if |m.cookie| == 0 || !VerifyCookie(c, o.psk, remote, m.sessionID, m.publicKey, m.cookie, o.cookieTTL,
                                          d.verifyAt)
      {
        var message := WriteCookie(m.sessionID,
                                   StampedCookie(c, o.psk, remote, m.sessionID, m.publicKey, Stamp(d.issueAt)));
        attempts := attempts + 1;
        if attempts > MAX_COOKIES { return Err(CookieRefused), sent + [message], handled; }
        Associative(sent, [message], ServerRun(c, o, remote, attempts, draws, incoming[handled..]).1);
        sent := sent + [message];
        continue;
      }
      ServerAcceptIsDone(c, o, m, d);
      var finish := ServerAccept(c, o, m, d);
      return Ok(finish.agreement), sent + [finish.reply], handled;
    }
    assert sent + [] == sent;
    return Err(Closed), sent, handled;
  }

  /** PerformHandshake checks the static key and the pre-shared key before it picks a role; the static key is not
      used after that. */
  function Refusal(staticKey: bytes, psk: bytes): Option<Error> {
    if |staticKey| != 32 then Some(BadPrivateKey) else if |psk| == 0 then Some(PskRequired) else None
  }

  method PerformClient(
    c: Crypto, staticKey: bytes, psk: bytes, sessionID: Block16, privateKey: Block32, paddings: nat -> bytes,
    incoming: seq<bytes>)
    returns (r: Result<Agreement, Error>, sent: seq<bytes>)
    ensures match Refusal(staticKey, psk)
            case Some(e) => r == Err(e) && sent == []
            case None =>
              (r, sent) == ClientRun(c, ClientStart(c, sessionID, privateKey, psk, paddings(0)), paddings, incoming)
  {
    if |staticKey| != 32 { return Err(BadPrivateKey), []; }
    if |psk| == 0 { return Err(PskRequired), []; }
    r, sent := ClientHandshake(c, psk, sessionID, privateKey, paddings, incoming);
  }

  method PerformServer(
    c: Crypto, staticKey: bytes, options: Options, remote: bytes, draws: nat -> Draw, incoming: seq<bytes>)
    returns (r: Result<Agreement, Error>, sent: seq<bytes>)
    ensures match Refusal(staticKey, options.psk)
            case Some(e) => r == Err(e) && sent == []
            case None => (r, sent) == ServerRun(c, Effective(options), remote, 0, draws, incoming)
  {
    if |staticKey| != 32 { return Err(BadPrivateKey), []; }
    if |options.psk| == 0 { return Err(PskRequired), []; }
    var handled: nat;
    r, sent, handled := ServerHandshake(c, options, remote, draws, incoming);
  }

  lemma ServerAcceptIsDone(c: Crypto, o: Options, m: ClientHello, d: Draw)
    ensures ServerAccept(c, o, m, d).ServerDone?
  {}

  // ---------------------------------------------------------------- any network

  /** Whatever the network does: a client and a server with the same pre-shared key that complete with the same
      transcript hold crossed keys, bound to each other's ephemeral keys. */
  lemma TranscriptBindsKeys(
    c: Crypto, st: ClientState, payload: bytes, padding: bytes, earlier: bytes,
    o: Options, remote: bytes, attempts: nat, hello: bytes, d: Draw)
    requires Lawful(c) && st.psk == o.psk
    requires st.hello == HelloBytes(c, st.sessionID, st.privateKey, st.psk, st.cookie, earlier)
    requires |st.cookie| <= 255 && |earlier| <= 255
    requires ClientStep(c, st, payload, padding).ClientDone?
    requires ServerStep(c, o, remote, attempts, hello, d).ServerDone?
    requires ClientStep(c, st, payload, padding).agreement.transcript
               == ServerStep(c, o, remote, attempts, hello, d).agreement.transcript
    ensures var a, b := ClientStep(c, st, payload, padding).agreement,
            ServerStep(c, o, remote, attempts, hello, d).agreement;
            && Crossed(a.secrets, b.secrets)
            && a.secrets.peerPublicKey == c.publicKey(d.privateKey)
            && b.secrets.peerPublicKey == c.publicKey(st.privateKey)
  {
    var publicKey := c.publicKey(st.privateKey);
    var m := DecodeClientHello(hello).value;
    var reply := ServerStep(c, o, remote, attempts, hello, d).reply;
    var again := EncodeClientHello(m.sessionID, m.publicKey, m.cookie, m.padding, m.mac);
    ServerDoneTranscript(c, o, remote, attempts, hello, d);
    ClientDoneTranscript(c, st, payload, padding);
    assert st.hello + payload == again + reply;
    ClientHelloRoundTrip(st.sessionID, publicKey, st.cookie, earlier, ComputeMAC(c, st.psk, st.sessionID + publicKey));
    ClientHelloRoundTrip(m.sessionID, m.publicKey, m.cookie, m.padding, m.mac);
    DecodedLengths(hello);
    TrailingIgnored(st.hello, payload);
    TrailingIgnored(again, reply);
    assert again == st.hello by {
      hide DecodeClientHello, EncodeClientHello, ComputeMAC;
    }
    assert payload == reply by { assert payload == (st.hello + payload)[|st.hello|..]; }
    ReplyKey(c, o, m, d);
    assert c.dh(st.privateKey, c.publicKey(d.privateKey)) == c.dh(d.privateKey, publicKey);
    hide DecodeClientHello, EncodeClientHello, ComputeMAC, ServerStep, ClientStep, HelloBytes, Lawful, ServerAccept;
  }

  lemma DecodedLengths(hello: bytes)
    requires DecodeClientHello(hello).Ok?
    ensures var m := DecodeClientHello(hello).value; |m.cookie| <= 255 && |m.padding| <= 255
  {}

  lemma ServerDoneTranscript(c: Crypto, o: Options, remote: bytes, attempts: nat, hello: bytes, d: Draw)
    requires ServerStep(c, o, remote, attempts, hello, d).ServerDone?
    ensures DecodeClientHello(hello).Ok?
    ensures ServerStep(c, o, remote, attempts, hello, d) == ServerAccept(c, o, DecodeClientHello(hello).value, d)
    ensures var m, s := DecodeClientHello(hello).value, ServerStep(c, o, remote, attempts, hello, d);
            && s.agreement.transcript
               == EncodeClientHello(m.sessionID, m.publicKey, m.cookie, m.padding, m.mac) + s.reply
            && s.agreement.secrets
               == DeriveSessionSecrets(c, c.dh(d.privateKey, m.publicKey), s.agreement.transcript, o.psk,
                                                           Server, m.sessionID, m.publicKey)
  {
    hide DecodeClientHello, VerifyCookie, ComputeMAC, EncodeClientHello, DeriveSessionSecrets, EncodeServerHello;
  }

  lemma ClientDoneTranscript(c: Crypto, st: ClientState, payload: bytes, padding: bytes)
    requires ClientStep(c, st, payload, padding).ClientDone?
    ensures DecodeServerHello(payload).Ok?
    ensures var m, a := DecodeServerHello(payload).value, ClientStep(c, st, payload, padding).agreement;
            && a.transcript == st.hello + payload
            && a.secrets == DeriveSessionSecrets(c, c.dh(st.privateKey, m.publicKey), a.transcript, st.psk, Client,
                                                 st.sessionID, m.publicKey)
  {
    hide DecodeServerHello, DecodeCookie, ComputeMAC, DeriveSessionSecrets, HelloBytes;
  }

  /** The server's key as the client reads it out of the reply. */
  lemma ReplyKey(c: Crypto, o: Options, m: ClientHello, d: Draw)
    ensures ServerAccept(c, o, m, d).ServerDone?
    ensures DecodeServerHello(ServerAccept(c, o, m, d).reply).Ok? ==>
              DecodeServerHello(ServerAccept(c, o, m, d).reply).value.publicKey == c.publicKey(d.privateKey)
  {
    var reply := ServerAccept(c, o, m, d).reply;
    assert reply[19..51] == c.publicKey(d.privateKey);
    hide ComputeMAC, DeriveSessionSecrets, KeepAliveField;
  }

  // ---------------------------------------------------------------- both machines, joined

  datatype Ending =
    | Agreed(client: Agreement, server: Agreement, cookies: nat)
    | Refused

  /** The two machines joined by a network that delivers every record, from the moment the client has sent
      `cl.hello` and the server has issued `attempts` cookies. */
  function Exchange(
    c: Crypto, o: Options, remote: bytes, cl: ClientState, attempts: nat, paddings: nat -> bytes, draws: nat -> Draw)
    : Ending
    decreases MAX_COOKIES - attempts
  {
    match ServerStep(c, o, remote, attempts, cl.hello, draws(attempts))
    case ServerFailed(_) => Refused
    case LastCookie(_) => Refused
    case ServerDone(reply, b) =>
      (match ClientStep(c, cl, reply, paddings(cl.attempts + 1))
       case ClientDone(a) => Agreed(a, b, attempts)
       case Resend(_) => Refused
       case ClientFailed(_) => Refused)
    case SendCookie(message) =>
      if attempts >= MAX_COOKIES then Refused else
      match ClientStep(c, cl, message, paddings(cl.attempts + 1))
      case Resend(cl') => Exchange(c, o, remote, cl', attempts + 1, paddings, draws)
      case ClientDone(_) => Refused
      case ClientFailed(_) => Refused
  }

  /** The first of the cookies k..3 that comes back within its lifetime. */
  function FirstFresh(ttl: int, draws: nat -> Draw, k: nat): Option<nat>
    decreases MAX_COOKIES + 1 - k
  {
    if k > MAX_COOKIES then None
    else if k > 0 && Fresh(ttl, draws(k - 1).issueAt, draws(k).verifyAt) then Some(k)
    else FirstFresh(ttl, draws, k + 1)
  }

  /** The cookie an honest client carries after `k` cookie exchanges. */
  function CarriedCookie(c: Crypto, o: Options, remote: bytes, cl: ClientState, k: nat, draws: nat -> Draw): bytes {
    if k == 0 then []
    else StampedCookie(c, o.psk, remote, cl.sessionID, c.publicKey(cl.privateKey), Stamp(draws(k - 1).issueAt))
  }

  /** An honest client after `k` cookie exchanges. */
  ghost predicate Honest(
    c: Crypto, o: Options, remote: bytes, cl: ClientState, k: nat, paddings: nat -> bytes, draws: nat -> Draw)
  {
    && cl.psk == o.psk
    && cl.attempts == k
    && cl.cookie == CarriedCookie(c, o, remote, cl, k, draws)
    && cl.hello == HelloBytes(c, cl.sessionID, cl.privateKey, cl.psk, cl.cookie, paddings(k))
    && (forall i: nat :: |paddings(i)| <= 255)
    && (forall i: nat :: |draws(i).padding| <= 255)
  }

  /** Both sides hold the same transcript, session id and obfuscation key, crossed keys, and each other's
      ephemeral public key; the parameters are the server's, the keep-alive cut to its 16-bit field. */
  ghost predicate Agree(
    c: Crypto, o: Options, sessionID: Block16, privateKey: Block32, d: Draw, a: Agreement, b: Agreement)
  {
    && Crossed(a.secrets, b.secrets)
    && |a.secrets.sendKey| == 32 && |a.secrets.receiveKey| == 32
    && a.transcript == b.transcript
    && a.secrets.sessionID == sessionID
    && a.secrets.peerPublicKey == c.publicKey(d.privateKey)
    && b.secrets.peerPublicKey == c.publicKey(privateKey)
    && b.parameters == TransportParameters(o.keepAlive, o.maxPadding)
    && a.parameters == TransportParameters(KeepAliveField(o.keepAlive) * MILLISECOND, o.maxPadding)
  }

  lemma ServerReadsHello(
    c: Crypto, o: Options, remote: bytes, cl: ClientState, k: nat, paddings: nat -> bytes, draws: nat -> Draw)
    requires Honest(c, o, remote, cl, k, paddings, draws)
    ensures var publicKey := c.publicKey(cl.privateKey);
            DecodeClientHello(cl.hello) == Ok(ClientHello(CookieFlag(cl.cookie), cl.sessionID, publicKey, cl.cookie,
              paddings(k), ComputeMAC(c, o.psk, cl.sessionID + publicKey)))
  {
    var publicKey := c.publicKey(cl.privateKey);
    ClientHelloRoundTrip(cl.sessionID, publicKey, cl.cookie, paddings(k),
                         ComputeMAC(c, o.psk, cl.sessionID + publicKey));
  }

  function CookieFor(c: Crypto, o: Options, remote: bytes, cl: ClientState, k: nat, draws: nat -> Draw): bytes {
    EncodeCookie(cl.sessionID, CarriedCookie(c, o, remote, cl, k + 1, draws))
  }

  lemma ServerSendsCookie(
    c: Crypto, o: Options, remote: bytes, cl: ClientState, k: nat, paddings: nat -> bytes, draws: nat -> Draw)
    requires Honest(c, o, remote, cl, k, paddings, draws)
    requires !(k > 0 && Fresh(o.cookieTTL, draws(k - 1).issueAt, draws(k).verifyAt))
    ensures var message := CookieFor(c, o, remote, cl, k, draws);
            ServerStep(c, o, remote, k, cl.hello, draws(k)) ==
            if k + 1 > MAX_COOKIES then LastCookie(message) else SendCookie(message)
  {
    ServerReadsHello(c, o, remote, cl, k, paddings, draws);
    if k > 0 {
      OwnCookieVerifies(c, o.psk, remote, cl.sessionID, c.publicKey(cl.privateKey), o.cookieTTL,
                        draws(k - 1).issueAt, draws(k).verifyAt);
    }
    hide DecodeClientHello, HelloBytes, VerifyCookie, StampedCookie, ComputeMAC, ServerAccept, EncodeCookie;
  }

  /** The honest client after one more cookie exchange. */
  function NextClient(
    c: Crypto, o: Options, remote: bytes, cl: ClientState, k: nat, paddings: nat -> bytes,
    draws: nat -> Draw): ClientState
  {
    var cookie := CarriedCookie(c, o, remote, cl, k + 1, draws);
    cl.(cookie := cookie, attempts := k + 1,
        hello := HelloBytes(c, cl.sessionID, cl.privateKey, cl.psk, cookie, paddings(k + 1)))
  }

  lemma ClientCarriesCookie(
    c: Crypto, o: Options, remote: bytes, cl: ClientState, k: nat, paddings: nat -> bytes, draws: nat -> Draw)
    requires Honest(c, o, remote, cl, k, paddings, draws) && k < MAX_COOKIES
    ensures cl.attempts == k
    ensures Honest(c, o, remote, NextClient(c, o, remote, cl, k, paddings, draws), k + 1, paddings, draws)
    ensures ClientStep(c, cl, CookieFor(c, o, remote, cl, k, draws), paddings(k + 1))
              == Resend(NextClient(c, o, remote, cl, k, paddings, draws))
  {
    var cookie := CarriedCookie(c, o, remote, cl, k + 1, draws);
    CookieRoundTrip(cl.sessionID, cookie);
    assert EncodeCookie(cl.sessionID, cookie)[0] == COOKIE;
    hide DecodeCookie, HelloBytes, StampedCookie, EncodeCookie;
  }

  lemma ExchangeStep(
    c: Crypto, o: Options, remote: bytes, cl: ClientState, k: nat, paddings: nat -> bytes, draws: nat -> Draw)
    requires Honest(c, o, remote, cl, k, paddings, draws) && k <= MAX_COOKIES
    requires !(k > 0 && Fresh(o.cookieTTL, draws(k - 1).issueAt, draws(k).verifyAt))
    ensures Exchange(c, o, remote, cl, k, paddings, draws) ==
            if k == MAX_COOKIES then Refused
            else Exchange(c, o, remote, NextClient(c, o, remote, cl, k, paddings, draws), k + 1, paddings, draws)
  {
    hide ServerStep, ClientStep, Honest, NextClient, CookieFor, Fresh;
    ServerSendsCookie(c, o, remote, cl, k, paddings, draws);
    if k < MAX_COOKIES { ClientCarriesCookie(c, o, remote, cl, k, paddings, draws); }
  }

  lemma ServerAcceptsHello(
    c: Crypto, o: Options, remote: bytes, cl: ClientState, k: nat, paddings: nat -> bytes, draws: nat -> Draw)
    requires Lawful(c) && Honest(c, o, remote, cl, k, paddings, draws) && k > 0
    requires Fresh(o.cookieTTL, draws(k - 1).issueAt, draws(k).verifyAt)
    ensures var r := Exchange(c, o, remote, cl, k, paddings, draws);
            r.Agreed? && r.cookies == k && Agree(c, o, cl.sessionID, cl.privateKey, draws(k), r.client, r.server)
  {
    var d, publicKey := draws(k), c.publicKey(cl.privateKey);
    ServerReadsHello(c, o, remote, cl, k, paddings, draws);
    OwnCookieVerifies(c, o.psk, remote, cl.sessionID, publicKey, o.cookieTTL, draws(k - 1).issueAt, d.verifyAt);
    var serverKey := c.publicKey(d.privateKey);
    var mac := ComputeMAC(c, o.psk, cl.sessionID + publicKey + serverKey);
    ServerHelloRoundTrip(cl.sessionID, serverKey, KeepAliveField(o.keepAlive), o.maxPadding, d.padding, mac);
    assert |cl.cookie| == 20;
    var m := DecodeClientHello(cl.hello).value;
    hide DecodeClientHello, DecodeServerHello, VerifyCookie, StampedCookie, ComputeMAC, EncodeClientHello,
      KeepAliveField;
    var next := ServerAccept(c, o, m, d);
    assert ServerStep(c, o, remote, k, cl.hello, d) == next;
    assert next.reply[0] == SERVER_HELLO;
    assert c.dh(cl.privateKey, serverKey) == c.dh(d.privateKey, publicKey);
    assert next.agreement.transcript == cl.hello + next.reply;
    assert ClientStep(c, cl, next.reply, paddings(k + 1)).ClientDone?;
  }

  /** For an honest client and server with the same key the handshake completes exactly when one of the first
      three cookies returns within its lifetime, right after the first that does; otherwise it is refused. */
  lemma {:induction false} HonestExchange(
    c: Crypto, o: Options, remote: bytes, cl: ClientState, k: nat, paddings: nat -> bytes, draws: nat -> Draw)
    requires Lawful(c) && Honest(c, o, remote, cl, k, paddings, draws) && k <= MAX_COOKIES
    ensures var r := Exchange(c, o, remote, cl, k, paddings, draws);
            match FirstFresh(o.cookieTTL, draws, k)
            case None => r == Refused
            case Some(j) =>
              r.Agreed? && r.cookies == j && Agree(c, o, cl.sessionID, cl.privateKey, draws(j), r.client, r.server)
    decreases MAX_COOKIES - k
  {
    hide Fresh, Exchange, Agree, Honest, Lawful, CarriedCookie, HelloBytes;
    if k > 0 && Fresh(o.cookieTTL, draws(k - 1).issueAt, draws(k).verifyAt) {
      ServerAcceptsHello(c, o, remote, cl, k, paddings, draws);
    } else {
      ExchangeStep(c, o, remote, cl, k, paddings, draws);
      if k < MAX_COOKIES {
        ClientCarriesCookie(c, o, remote, cl, k, paddings, draws);
        HonestExchange(c, o, remote, NextClient(c, o, remote, cl, k, paddings, draws), k + 1, paddings, draws);
      }
    }
  }

  /** From the start: a first cookie that returns in time is the only one. */
  lemma OneCookieExchange(
    c: Crypto, options: Options, remote: bytes, sessionID: Block16, privateKey: Block32,
    paddings: nat -> bytes, draws: nat -> Draw)
    requires Lawful(c)
    requires forall i: nat :: |paddings(i)| <= 255
    requires forall i: nat :: |draws(i).padding| <= 255
    requires Fresh(Effective(options).cookieTTL, draws(0).issueAt, draws(1).verifyAt)
    ensures var o, cl := Effective(options), ClientStart(c, sessionID, privateKey, options.psk, paddings(0));
            var r := Exchange(c, o, remote, cl, 0, paddings, draws);
            r.Agreed? && r.cookies == 1 && Agree(c, o, cl.sessionID, cl.privateKey, draws(1), r.client, r.server)
  {
    var o, cl := Effective(options), ClientStart(c, sessionID, privateKey, options.psk, paddings(0));
    hide Fresh, Agree, Exchange, Lawful;
    assert Honest(c, o, remote, cl, 0, paddings, draws) by { hide HelloBytes; }
    HonestExchange(c, o, remote, cl, 0, paddings, draws);
    assert FirstFresh(o.cookieTTL, draws, 1) == Some(1);
  }

  /** The joined machines are two runs over one connection: what each sends is what the other receives. */
  lemma {:induction false} ExchangeIsTwoRuns(
    c: Crypto, o: Options, remote: bytes, cl: ClientState, k: nat, paddings: nat -> bytes, draws: nat -> Draw)
    requires Exchange(c, o, remote, cl, k, paddings, draws).Agreed?
    ensures exists hellos, replies ::
              var r := Exchange(c, o, remote, cl, k, paddings, draws);
              && ClientRun(c, cl, paddings, replies) == (Ok(r.client), hellos)
              && ServerRun(c, o, remote, k, draws, hellos) == (Ok(r.server), replies)
    decreases MAX_COOKIES - k
  {
    hide ServerStep, ClientStep;
    var r := Exchange(c, o, remote, cl, k, paddings, draws);
    match ServerStep(c, o, remote, k, cl.hello, draws(k)) {
      case ServerDone(reply, b) =>
        assert ClientRun(c, cl, paddings, [reply]) == (Ok(r.client), [cl.hello]);
        assert ServerRun(c, o, remote, k, draws, [cl.hello]) == (Ok(r.server), [reply]);
      case SendCookie(message) =>
        var cl' := ClientStep(c, cl, message, paddings(cl.attempts + 1)).state;
        ExchangeIsTwoRuns(c, o, remote, cl', k + 1, paddings, draws);
        var hellos, replies :|
          && ClientRun(c, cl', paddings, replies) == (Ok(r.client), hellos)
          && ServerRun(c, o, remote, k + 1, draws, hellos) == (Ok(r.server), replies);
        assert ([message] + replies)[1..] == replies && ([cl.hello] + hellos)[1..] == hellos;
        assert ClientRun(c, cl, paddings, [message] + replies) == (Ok(r.client), [cl.hello] + hellos);
        assert ServerRun(c, o, remote, k, draws, [cl.hello] + hellos) == (Ok(r.server), [message] + replies);
    }
  }
}
