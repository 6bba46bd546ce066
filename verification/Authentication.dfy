/** What a completed handshake of crypto/keyexchange.go has checked, against any peer and any network, and what its
keys depend on. Everything is said with the primitives themselves. */
module Authentication {
  import opened Bits
  import opened Bytes
  import opened Wrappers
  import opened Primitives
  import opened SessionSecrets
  import opened HelloCodec
  import opened Handshake

  // ---------------------------------------------------------------- one record at the client

  /** A client completes on exactly those records that are a server hello for its session with the right MAC. */
  lemma ClientCompletes(c: Crypto, st: ClientState, payload: bytes, padding: bytes)
    ensures ClientStep(c, st, payload, padding).ClientDone? <==>
            && payload != [] && payload[0] == 2 && DecodeServerHello(payload).Ok?
            && var m := DecodeServerHello(payload).value;
               && m.sessionID == st.sessionID
               && m.mac == c.hmac(st.psk, st.sessionID + c.publicKey(st.privateKey) + m.publicKey)[..16]
  {
    hide DecodeServerHello, DecodeCookie, DeriveSessionSecrets, HelloBytes;
  }

  /** Why it refuses a record. */
  lemma ClientRefuses(c: Crypto, st: ClientState, payload: bytes, padding: bytes)
    requires ClientStep(c, st, payload, padding).ClientFailed?
    ensures var e := ClientStep(c, st, payload, padding).error;
            if payload == [] then e == EmptyRecord
            else if payload[0] == 3 then
              if DecodeCookie(payload).Err? then e == Malformed(DecodeCookie(payload).error)
              else if DecodeCookie(payload).value.sessionID != st.sessionID then e == CookieSessionMismatch
              else e == TooManyCookies
            else if payload[0] != 2 then e == UnexpectedType
            else if DecodeServerHello(payload).Err? then e == Malformed(DecodeServerHello(payload).error)
            else if DecodeServerHello(payload).value.sessionID != st.sessionID then e == SessionMismatch
            else e == BadServerMac
  {
    hide DecodeServerHello, DecodeCookie, DeriveSessionSecrets, HelloBytes, ComputeMAC;
  }

  /** What it then holds. */
  lemma ClientHolds(c: Crypto, st: ClientState, payload: bytes, padding: bytes)
    requires ClientStep(c, st, payload, padding).ClientDone?
    ensures DecodeServerHello(payload).Ok?
    ensures var m, a := DecodeServerHello(payload).value, ClientStep(c, st, payload, padding).agreement;
            && a.transcript == st.hello + payload
            && a.parameters == TransportParameters(m.keepAlive, m.maxPadding)
            && a.secrets.sessionID == st.sessionID && a.secrets.peerPublicKey == m.publicKey && a.secrets.epoch == 1
            && KeysFrom(c, a.secrets.sendKey, a.secrets.receiveKey, a.secrets.obfuscationKey,
                        c.dh(st.privateKey, m.publicKey), c.hmac(st.psk, st.hello + payload)[..16])
  {
    hide DecodeServerHello, DecodeCookie, HelloBytes;
    var m := DecodeServerHello(payload).value;
    DerivedKeys(c, c.dh(st.privateKey, m.publicKey), st.hello + payload, st.psk, Client, st.sessionID, m.publicKey);
    hide DeriveSessionSecrets, KeysFrom;
  }

  /** The three keys, byte by byte, from the shared secret and the salt; `up` is the client's sending key. */
  ghost predicate KeysFrom(c: Crypto, up: bytes, down: bytes, mask: bytes, shared: bytes, salt: bytes) {
    && |up| == 32 && |down| == 32 && |mask| == 32
    && forall j: nat | j < 32 ::
         && up[j] == c.hkdf(shared, salt, Ascii("stp/send"), j)
         && down[j] == c.hkdf(shared, salt, Ascii("stp/recv"), j)
         && mask[j] == c.hkdf(shared, salt, Ascii("stp/obf"), j)
  }

  lemma DerivedKeys(
    c: Crypto, shared: bytes, transcript: bytes, psk: bytes, role: Role, sessionID: Block16, peer: Block32)
    ensures var s := DeriveSessionSecrets(c, shared, transcript, psk, role, sessionID, peer);
            && KeysFrom(c, if role.Client? then s.sendKey else s.receiveKey,
                        if role.Client? then s.receiveKey else s.sendKey, s.obfuscationKey, shared,
                        c.hmac(psk, transcript)[..16])
            && s.sessionID == sessionID && s.peerPublicKey == peer && s.epoch == 1
  {
    hide Ascii;
  }

  /** The client resends exactly on a cookie for its session, three times at most, and the new hello carries it. */
  lemma ClientResends(c: Crypto, st: ClientState, payload: bytes, padding: bytes)
    ensures var next := ClientStep(c, st, payload, padding);
            && (next.Resend? <==>
                  && payload != [] && payload[0] == 3 && DecodeCookie(payload).Ok?
                  && DecodeCookie(payload).value.sessionID == st.sessionID && st.attempts < 3)
            && (next.Resend? ==>
                  var cookie, key := DecodeCookie(payload).value.cookie, c.publicKey(st.privateKey);
                  && next.state.attempts == st.attempts + 1 && next.state.cookie == cookie
                  && next.state.hello == EncodeClientHello(st.sessionID, key, cookie, padding,
                                                           c.hmac(st.psk, st.sessionID + key)[..16])
                  && next.state == st.(attempts := next.state.attempts, cookie := cookie, hello := next.state.hello))
  {
    hide DecodeServerHello, DecodeCookie, DeriveSessionSecrets, EncodeClientHello;
  }

  // ---------------------------------------------------------------- one record at the server

  /** A hello that shows the pre-shared key. */
  ghost predicate GoodHello(c: Crypto, psk: bytes, payload: bytes) {
    DecodeClientHello(payload).Ok? &&
    var m := DecodeClientHello(payload).value;
    m.mac == c.hmac(psk, m.sessionID + m.publicKey)[..16]
  }

  /** It also carries a cookie of this server for this address, session and key, within the lifetime. */
  ghost predicate GoodCookie(c: Crypto, psk: bytes, remote: bytes, payload: bytes, ttl: int, now: int) {
    DecodeClientHello(payload).Ok? &&
    var m := DecodeClientHello(payload).value;
    && |m.cookie| == 20
    && m.cookie[4..] == c.hmac(psk, remote + m.sessionID + m.publicKey + m.cookie[..4])[..16]
    && now - GetU32(m.cookie[..4]) * 1_000_000_000 <= ttl
  }

  /** The server's reaction to any record at all. */
  lemma ServerDecides(c: Crypto, o: Options, remote: bytes, attempts: nat, payload: bytes, d: Draw)
    ensures var next := ServerStep(c, o, remote, attempts, payload, d);
            var good := GoodCookie(c, o.psk, remote, payload, o.cookieTTL, d.verifyAt);
            && (next.ServerFailed? <==> !GoodHello(c, o.psk, payload))
            && (next.ServerFailed? ==>
                  next.error == match DecodeClientHello(payload) case Err(e) => Malformed(e) case Ok(_) => BadClientMac)
            && (next.ServerDone? <==> GoodHello(c, o.psk, payload) && good)
            && (next.SendCookie? <==> GoodHello(c, o.psk, payload) && !good && attempts < 3)
            && (next.LastCookie? <==> GoodHello(c, o.psk, payload) && !good && attempts >= 3)
  {
    if DecodeClientHello(payload).Ok? {
      var m := DecodeClientHello(payload).value;
      if |m.cookie| >= 20 { CookieHalves(c, o.psk, remote, m); }
    }
    hide DecodeClientHello, EncodeServerHello, EncodeClientHello, DeriveSessionSecrets, EncodeCookie, U32, GetU32,
      StampedCookie;
  }

  /** A cookie is stamp and MAC. */
  lemma CookieHalves(c: Crypto, psk: bytes, remote: bytes, m: ClientHello)
    requires |m.cookie| >= 20
    ensures m.cookie == StampedCookie(c, psk, remote, m.sessionID, m.publicKey, GetU32(m.cookie[..4])) <==>
            && |m.cookie| == 20
            && m.cookie[4..] == c.hmac(psk, remote + m.sessionID + m.publicKey + m.cookie[..4])[..16]
  {
    U32Reencodes(m.cookie[..4]);
    assert m.cookie[..4][..4] == m.cookie[..4];
    hide U32, GetU32;
    assert m.cookie == m.cookie[..4] + m.cookie[4..];
  }

  /** The cookie it issues, byte by byte. */
  lemma CookieIssued(c: Crypto, o: Options, remote: bytes, attempts: nat, payload: bytes, d: Draw)
    requires ServerStep(c, o, remote, attempts, payload, d).SendCookie?
             || ServerStep(c, o, remote, attempts, payload, d).LastCookie?
    ensures DecodeClientHello(payload).Ok?
    ensures var m, next := DecodeClientHello(payload).value, ServerStep(c, o, remote, attempts, payload, d);
            var stamp := U32(d.issueAt / 1_000_000_000 % 0x1_0000_0000);
            next.message == [3, 1, 0] + m.sessionID + [20]
                            + (stamp + c.hmac(o.psk, remote + m.sessionID + m.publicKey + stamp)[..16])
  {
    hide DecodeClientHello, EncodeServerHello, EncodeClientHello, DeriveSessionSecrets, U32, VerifyCookie;
  }

  /** What the server holds when it completes, and what it answers. */
  lemma ServerHolds(c: Crypto, o: Options, remote: bytes, attempts: nat, payload: bytes, d: Draw)
    requires ServerStep(c, o, remote, attempts, payload, d).ServerDone?
    ensures DecodeClientHello(payload).Ok?
    ensures var m, next := DecodeClientHello(payload).value, ServerStep(c, o, remote, attempts, payload, d);
            var key, a := c.publicKey(d.privateKey), next.agreement;
            && next.reply == EncodeServerHello(m.sessionID, key, KeepAliveField(o.keepAlive), o.maxPadding, d.padding,
                                               c.hmac(o.psk, m.sessionID + m.publicKey + key)[..16])
            && a.transcript == EncodeClientHello(m.sessionID, m.publicKey, m.cookie, m.padding, m.mac) + next.reply
            && a.parameters == TransportParameters(o.keepAlive, o.maxPadding)
            && a.secrets.sessionID == m.sessionID && a.secrets.peerPublicKey == m.publicKey && a.secrets.epoch == 1
            && KeysFrom(c, a.secrets.receiveKey, a.secrets.sendKey, a.secrets.obfuscationKey,
                        c.dh(d.privateKey, m.publicKey), c.hmac(o.psk, a.transcript)[..16])
  {
    hide DecodeClientHello, EncodeServerHello, EncodeClientHello, EncodeCookie, VerifyCookie, KeepAliveField;
    var m, a := DecodeClientHello(payload).value, ServerStep(c, o, remote, attempts, payload, d).agreement;
    DerivedKeys(c, c.dh(d.privateKey, m.publicKey), a.transcript, o.psk, Server, m.sessionID, m.publicKey);
    hide DeriveSessionSecrets, KeysFrom;
  }

  // ---------------------------------------------------------------- whole runs against any peer

  /** A MAC that verifies under the key was made by a holder of it: `made` are the messages that holders have MACed. */
  ghost predicate Vouched(c: Crypto, psk: bytes, made: iset<bytes>, message: bytes, mac: bytes) {
    mac == c.hmac(psk, message)[..16] ==> message in made
  }

  ghost predicate RepliesVouched(c: Crypto, st: ClientState, incoming: seq<bytes>, made: iset<bytes>) {
    forall payload | payload in incoming && DecodeServerHello(payload).Ok? ::
      var m := DecodeServerHello(payload).value;
      Vouched(c, st.psk, made, st.sessionID + c.publicKey(st.privateKey) + m.publicKey, m.mac)
  }

  /** A client that completes met a holder of the pre-shared key, who vouched for the client's own session and key
      together with the key that the client then takes for its peer's. */
  lemma {:induction false} ClientMetHolder(
    c: Crypto, st: ClientState, paddings: nat -> bytes, incoming: seq<bytes>, made: iset<bytes>)
    requires RepliesVouched(c, st, incoming, made)
    requires ClientRun(c, st, paddings, incoming).0.Ok?
    ensures var s := ClientRun(c, st, paddings, incoming).0.value.secrets;
            s.sessionID == st.sessionID && st.sessionID + c.publicKey(st.privateKey) + s.peerPublicKey in made
    decreases |incoming|
  {
    hide ClientStep, KeysFrom, DecodeServerHello, DecodeCookie, EncodeClientHello;
    var padding := paddings(st.attempts + 1);
    ClientResends(c, st, incoming[0], padding);
    var next := ClientStep(c, st, incoming[0], padding);
    if next.ClientDone? {
      ClientCompletes(c, st, incoming[0], padding);
      ClientHolds(c, st, incoming[0], padding);
    } else {
      ClientMetHolder(c, next.state, paddings, incoming[1..], made);
    }
  }

  ghost predicate HellosVouched(c: Crypto, psk: bytes, remote: bytes, incoming: seq<bytes>, made: iset<bytes>) {
    forall payload | payload in incoming && DecodeClientHello(payload).Ok? ::
      var m := DecodeClientHello(payload).value;
      && Vouched(c, psk, made, m.sessionID + m.publicKey, m.mac)
      && (|m.cookie| == 20 ==>
            Vouched(c, psk, made, remote + m.sessionID + m.publicKey + m.cookie[..4], m.cookie[4..]))
  }

  /** A server that completes met a holder of the pre-shared key who vouched for the session and the peer's key, and
      got back a cookie that a holder made for that address, session and key no longer ago than the lifetime. */
  lemma {:induction false} ServerMetHolder(
    c: Crypto, o: Options, remote: bytes, attempts: nat, draws: nat -> Draw, incoming: seq<bytes>, made: iset<bytes>)
    requires HellosVouched(c, o.psk, remote, incoming, made)
    requires ServerRun(c, o, remote, attempts, draws, incoming).0.Ok?
    ensures var s := ServerRun(c, o, remote, attempts, draws, incoming).0.value.secrets;
            && s.sessionID + s.peerPublicKey in made
            && exists k: nat, stamp: bytes ::
                 && |stamp| == 4 && remote + s.sessionID + s.peerPublicKey + stamp in made
                 && draws(k).verifyAt - GetU32(stamp) * 1_000_000_000 <= o.cookieTTL
    decreases |incoming|
  {
    hide ServerStep, KeysFrom, DecodeClientHello, EncodeServerHello, EncodeClientHello, GetU32;
    ServerDecides(c, o, remote, attempts, incoming[0], draws(attempts));
    var next := ServerStep(c, o, remote, attempts, incoming[0], draws(attempts));
    if next.ServerDone? {
      ServerHolds(c, o, remote, attempts, incoming[0], draws(attempts));
      var m := DecodeClientHello(incoming[0]).value;
      var stamp := m.cookie[..4];
      assert incoming[0] in incoming;
      assert remote + m.sessionID + m.publicKey + stamp in made;
    } else {
      ServerMetHolder(c, o, remote, attempts + 1, draws, incoming[1..], made);
    }
  }

  // ---------------------------------------------------------------- what the keys depend on

  /** Two ends that share one key in one direction have the same shared secret, pre-shared key and transcript, as far
      as HKDF and HMAC tell theirs apart. */
  lemma KeyBindsInputs(
    c: Crypto, shared1: bytes, transcript1: bytes, psk1: bytes, shared2: bytes, transcript2: bytes, psk2: bytes,
    sessionID1: Block16, sessionID2: Block16, peer1: Block32, peer2: Block32)
    requires ShortMacApart(c, psk1, transcript1, psk2, transcript2)
    requires HkdfApart(c, shared1, c.hmac(psk1, transcript1)[..16], shared2, c.hmac(psk2, transcript2)[..16],
                       Ascii("stp/send"))
    ensures var a := DeriveSessionSecrets(c, shared1, transcript1, psk1, Client, sessionID1, peer1);
            var b := DeriveSessionSecrets(c, shared2, transcript2, psk2, Server, sessionID2, peer2);
            a.sendKey == b.receiveKey ==> shared1 == shared2 && transcript1 == transcript2 && psk1 == psk2
  {
    DerivedKeys(c, shared1, transcript1, psk1, Client, sessionID1, peer1);
    DerivedKeys(c, shared2, transcript2, psk2, Server, sessionID2, peer2);
    hide DeriveSessionSecrets, Ascii;
  }

  /** Defaults replace exactly what is missing. */
  lemma ServerDefaults(o: Options)
    ensures var e := Effective(o);
            && (o.keepAlive != 0 ==> e.keepAlive == o.keepAlive) && (o.keepAlive == 0 ==> e.keepAlive == 15_000_000_000)
            && (o.maxPadding != 0 ==> e.maxPadding == o.maxPadding) && (o.maxPadding == 0 ==> e.maxPadding == 96)
            && (o.cookieTTL > 0 ==> e.cookieTTL == o.cookieTTL) && (o.cookieTTL <= 0 ==> e.cookieTTL == 60_000_000_000)
            && e.psk == o.psk && Effective(e) == e
  {}
}
