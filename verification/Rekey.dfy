/** The rekey messages and key derivation of crypto/rekey.go. Random draws are parameters. */
module Rekey {
  import opened Bits
  import opened Bytes
  import opened Wrappers
  import opened Primitives
  import opened SessionSecrets

  const VERSION: byte := 1
  const RESPONSE: byte := 1

  datatype RekeyMessage = RekeyMessage(version: byte, flags: byte, nonce: Block16, publicKey: Block32)

  datatype RekeyContext = RekeyContext(payload: bytes, role: Role, privateKey: Block32, initiatorNonce: Block16)

  datatype Error = BadLength | BadVersion | UnexpectedResponse

  /** New secrets, with the response to send when the message was a request. */
  datatype Renewal = Renewal(secrets: Secrets, response: Option<bytes>)

  /** A responder's random draws. */
  datatype Draw = Draw(nonce: Block16, privateKey: Block32)

  function Encode(m: RekeyMessage): bytes {
    [m.version, m.flags] + m.nonce + m.publicKey
  }

  function Decode(payload: bytes): Result<RekeyMessage, Error> {
    if |payload| != 50 then Err(BadLength)
    else if payload[0] != VERSION then Err(BadVersion)
    else Ok(RekeyMessage(payload[0], payload[1], payload[2..18], payload[18..50]))
  }

  function NewRekeyRequest(c: Crypto, role: Role, d: Draw): RekeyContext {
    RekeyContext(Encode(RekeyMessage(VERSION, 0, d.nonce, c.publicKey(d.privateKey))), role, d.privateKey, d.nonce)
  }

  function DeriveRekeySecrets(
    c: Crypto, current: Secrets, shared: bytes, role: Role, initiatorNonce: Block16, responderNonce: Block16,
    peer: Block32)
    : Secrets
  {
    var nonces := initiatorNonce + responderNonce;
    var salt := c.hmac(current.obfuscationKey, current.sessionID + nonces);
    var send, recv := Ascii("stp/rekey/send") + nonces, Ascii("stp/rekey/recv") + nonces;
    var (sendInfo, recvInfo) := if role.Server? then (recv, send) else (send, recv);
    Secrets(c.hmac(current.sessionID, nonces)[..16], ExpandKey(c, shared, salt, sendInfo),
            ExpandKey(c, shared, salt, recvInfo),
            ExpandKey(c, shared, salt, Ascii("stp/rekey/obf")), peer, (current.epoch + 1) % TWO32)
  }

  function ProcessRekey(
    c: Crypto, current: Secrets, payload: bytes, pending: Option<RekeyContext>, role: Role, d: Draw)
    : Result<Renewal, Error>
  {
    match Decode(payload)
    case Err(e) => Err(e)
    case Ok(m) =>
      if m.flags % 2 == RESPONSE then
        match pending
        case None => Err(UnexpectedResponse)
        case Some(ctx) =>
          Ok(Renewal(
            DeriveRekeySecrets(c, current, c.dh(ctx.privateKey, m.publicKey), role, ctx.initiatorNonce, m.nonce,
                               m.publicKey),
            None))
      else
        Ok(Renewal(
          DeriveRekeySecrets(c, current, c.dh(d.privateKey, m.publicKey), role, m.nonce, d.nonce, m.publicKey),
          Some(Encode(RekeyMessage(VERSION, RESPONSE, d.nonce, c.publicKey(d.privateKey))))))
  }

  /** Decoding inverts encoding for messages of this version, and only the encoding of a message decodes. */
  lemma RekeyRoundTrip(m: RekeyMessage, payload: bytes)
    ensures Decode(Encode(m)) == Ok(m) <==> m.version == VERSION
    ensures Decode(payload) == Ok(m) ==> payload == Encode(m)
  {
    var e := Encode(m);
    assert e[2..18] == m.nonce && e[18..50] == m.publicKey;
    if Decode(payload) == Ok(m) {
      assert payload == [payload[0], payload[1]] + payload[2..18] + payload[18..50];
    }
  }

  lemma DerivedSecretsCross(
    c: Crypto, a: Secrets, b: Secrets, shared: bytes, role: Role, n1: Block16, n2: Block16, peerA: Block32,
    peerB: Block32)
    requires Crossed(a, b)
    ensures var other := if role.Server? then Client else Server;
            Crossed(DeriveRekeySecrets(c, a, shared, role, n1, n2, peerA),
                    DeriveRekeySecrets(c, b, shared, other, n1, n2, peerB))
  {}

  /** The keys of a rekey, byte by byte; `up` is the sending key of the client. */
  ghost predicate RekeyedFrom(
    c: Crypto, up: bytes, down: bytes, mask: bytes, shared: bytes, salt: bytes, nonces: bytes)
  {
    && |up| == 32 && |down| == 32 && |mask| == 32
    && forall j: nat | j < 32 ::
         && up[j] == c.hkdf(shared, salt, Ascii("stp/rekey/send") + nonces, j)
         && down[j] == c.hkdf(shared, salt, Ascii("stp/rekey/recv") + nonces, j)
         && mask[j] == c.hkdf(shared, salt, Ascii("stp/rekey/obf"), j)
  }

  /** What the new secrets are made from. */
  lemma RekeyedKeys(
    c: Crypto, current: Secrets, shared: bytes, role: Role, n1: Block16, n2: Block16, peer: Block32)
    ensures var s := DeriveRekeySecrets(c, current, shared, role, n1, n2, peer);
            && RekeyedFrom(c, if role.Client? then s.sendKey else s.receiveKey,
                           if role.Client? then s.receiveKey else s.sendKey, s.obfuscationKey, shared,
                           c.hmac(current.obfuscationKey, current.sessionID + (n1 + n2)), n1 + n2)
            && s.sessionID == c.hmac(current.sessionID, n1 + n2)[..16]
            && s.peerPublicKey == peer && s.epoch == (current.epoch + 1) % 0x1_0000_0000
  {
    hide Ascii;
  }

  /** Two ends that come to one key in one direction had the same shared secret, session identifier, obfuscation key and
      nonces, as far as HKDF and HMAC tell theirs apart. */
  lemma RekeyBinds(
    c: Crypto, a: Secrets, b: Secrets, shared1: bytes, shared2: bytes, n1: Block16, n2: Block16, m1: Block16,
    m2: Block16, peer1: Block32, peer2: Block32)
    requires var salt1, salt2 := c.hmac(a.obfuscationKey, a.sessionID + (n1 + n2)),
                                 c.hmac(b.obfuscationKey, b.sessionID + (m1 + m2));
             && MacApart(c, a.obfuscationKey, a.sessionID + (n1 + n2), b.obfuscationKey, b.sessionID + (m1 + m2))
             && HkdfApart(c, shared1, salt1, shared2, salt2, Ascii("stp/rekey/obf"))
    ensures var s, t := DeriveRekeySecrets(c, a, shared1, Client, n1, n2, peer1),
                        DeriveRekeySecrets(c, b, shared2, Server, m1, m2, peer2);
            s.obfuscationKey == t.obfuscationKey ==>
              && shared1 == shared2 && a.obfuscationKey == b.obfuscationKey && a.sessionID == b.sessionID
              && n1 == m1 && n2 == m2
  {
    RekeyedKeys(c, a, shared1, Client, n1, n2, peer1);
    RekeyedKeys(c, b, shared2, Server, m1, m2, peer2);
    NoncesSplit(a.sessionID, n1, n2, b.sessionID, m1, m2);
    hide DeriveRekeySecrets, Ascii;
  }

  lemma NoncesSplit(a: Block16, n1: Block16, n2: Block16, b: Block16, m1: Block16, m2: Block16)
    ensures a + (n1 + n2) == b + (m1 + m2) ==> a == b && n1 == m1 && n2 == m2
  {
    var x, y := a + (n1 + n2), b + (m1 + m2);
    assert a == x[..16] && n1 == x[16..32] && n2 == x[32..];
    assert b == y[..16] && m1 == y[16..32] && m2 == y[32..];
  }

  /** What a message does: a response needs a pending request and its nonce comes second; anything else is a request
      and is answered. */
  lemma ProcessDecides(
    c: Crypto, current: Secrets, payload: bytes, pending: Option<RekeyContext>, role: Role, d: Draw)
    ensures var r := ProcessRekey(c, current, payload, pending, role, d);
            && (r.Ok? <==> |payload| == 50 && payload[0] == 1 && (payload[1] % 2 == 1 ==> pending.Some?))
            && (r == Err(BadLength) <==> |payload| != 50)
            && (r == Err(BadVersion) <==> |payload| == 50 && payload[0] != 1)
            && (r.Ok? ==>
                  var nonce: Block16, key: Block32 := payload[2..18], payload[18..50];
                  if payload[1] % 2 == 1 then
                    r.value == Renewal(DeriveRekeySecrets(c, current, c.dh(pending.value.privateKey, key), role,
                                                          pending.value.initiatorNonce, nonce, key), None)
                  else
                    r.value == Renewal(DeriveRekeySecrets(c, current, c.dh(d.privateKey, key), role, nonce, d.nonce,
                                                          key),
                                       Some([1, 1] + d.nonce + c.publicKey(d.privateKey))))
  {
    hide DeriveRekeySecrets;
  }

  /** Two holders of crossed secrets with opposite roles derive crossed secrets of the next epoch. */
  lemma RekeyCrosses(c: Crypto, a: Secrets, b: Secrets, roleA: Role, roleB: Role, da: Draw, db: Draw, other: Draw)
    requires Lawful(c) && Crossed(a, b) && roleA != roleB
    ensures var ctx := NewRekeyRequest(c, roleA, da);
            var atB := ProcessRekey(c, b, ctx.payload, None, roleB, db);
            && atB.Ok? && atB.value.response.Some?
            && var atA := ProcessRekey(c, a, atB.value.response.value, Some(ctx), roleA, other);
               && atA.Ok? && atA.value.response.None?
               && Crossed(atA.value.secrets, atB.value.secrets)
               && atA.value.secrets.epoch == (a.epoch + 1) % TWO32
               && atA.value.secrets.peerPublicKey == c.publicKey(db.privateKey)
               && atB.value.secrets.peerPublicKey == c.publicKey(da.privateKey)
  {
    RekeyRoundTrip(RekeyMessage(VERSION, 0, da.nonce, c.publicKey(da.privateKey)), []);
    RekeyRoundTrip(RekeyMessage(VERSION, RESPONSE, db.nonce, c.publicKey(db.privateKey)), []);
    var shared := c.dh(da.privateKey, c.publicKey(db.privateKey));
    assert shared == c.dh(db.privateKey, c.publicKey(da.privateKey));
    DerivedSecretsCross(c, a, b, shared, roleA, da.nonce, db.nonce, c.publicKey(db.privateKey),
                        c.publicKey(da.privateKey));
    hide Encode, Decode, DeriveRekeySecrets, Lawful;
    assert DeriveRekeySecrets(c, a, shared, roleA, da.nonce, db.nonce, c.publicKey(db.privateKey)).epoch
        == (a.epoch + 1) % TWO32 by {
      DerivedEpoch(c, a, shared, roleA, da.nonce, db.nonce, c.publicKey(db.privateKey));
    }
    DerivedEpoch(c, b, shared, roleB, da.nonce, db.nonce, c.publicKey(da.privateKey));
  }

  lemma DerivedEpoch(c: Crypto, a: Secrets, shared: bytes, role: Role, n1: Block16, n2: Block16, peer: Block32)
    ensures var s := DeriveRekeySecrets(c, a, shared, role, n1, n2, peer);
            s.epoch == (a.epoch + 1) % TWO32 && s.peerPublicKey == peer
  {}
}
