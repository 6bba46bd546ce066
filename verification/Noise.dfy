/** The Noise_IKpsk2 handshake of crypto/noise.go.

`InitiatorStart`, `Respond` and `InitiatorFinish` specify what each side computes, token by token, in the
order of the source; the class below does the same by overwriting its hash and chaining key. Every
specification also returns the symmetric states after each token, so that the two sides can be compared.
*/
module Noise {
  import opened Bits
  import opened Bytes
  import opened Wrappers
  import opened Primitives
  import opened SessionSecrets
  import opened CipherSuites

  const NOISE_VERSION: byte := 2
  const CHACHA20_POLY1305: uint16 := 1
  const PROTOCOL_NAME: string := "Noise_IKpsk2_25519_ChaChaPoly_SHA256"

  /** `OutOfRange` stands for a slice index out of range, which the source does not check. */
  datatype Error =
    | PskRequired | NoRemoteStatic | LowOrderPoint | TooShort | Truncated | VersionTooOld | UnsupportedVersion
    | NoSuites | BadStatic | BadParameters | OutOfRange

  datatype Options = Options(
    psk: bytes, staticKey: Block32, remoteStatic: bytes, keepAlive: int, maxPadding: byte,
    suites: seq<uint16>, minVersion: byte)

  /** Defaults of PerformNoiseHandshake. */
  function Effective(o: Options): Options {
    o.(minVersion := if o.minVersion == 0 then 1 else o.minVersion,
       suites := if o.suites == [] then [CHACHA20_POLY1305] else o.suites)
  }

  datatype Symmetric = Symmetric(hash: Block32, chainingKey: Block32)

  datatype Outcome = Outcome(
    secrets: Secrets, parameters: TransportParameters, remoteStatic: Block32, suite: uint16, version: byte)

  // ---------------------------------------------------------------- the symmetric state

  function Initialize(c: Crypto, name: string): Symmetric {
    var hash: Block32 :=
      if |name| <= 32 then Ascii(name) + seq(32 - |name|, _ => 0) else c.sha256(Ascii(name));
    Symmetric(hash, hash)
  }

  function MixHash(c: Crypto, s: Symmetric, data: bytes): Symmetric {
    s.(hash := c.sha256(s.hash + data))
  }

  /** HKDF-Extract with the chaining key as salt, which is HMAC keyed with it. */
  function MixKey(c: Crypto, s: Symmetric, material: bytes): Symmetric {
    s.(chainingKey := c.hmac(s.chainingKey, material))
  }

  function MixKeyAndHash(c: Crypto, s: Symmetric, material: bytes): Symmetric {
    MixHash(c, s, material).(chainingKey := ExpandBlock(c, material, s.chainingKey, 0))
  }

  function MessageKey(c: Crypto, s: Symmetric): Block32 {
    ExpandBlock(c, s.chainingKey, Ascii("encryption"), 0)
  }

  function EncryptAndHash(c: Crypto, s: Symmetric, text: bytes): (bytes, Symmetric) {
    var box := c.seal(MessageKey(c, s), GetU64(s.hash[24..]), s.hash, text);
    (box, MixHash(c, s, box))
  }

  function DecryptAndHash(c: Crypto, s: Symmetric, box: bytes, error: Error): Result<(bytes, Symmetric), Error> {
    match c.open(MessageKey(c, s), GetU64(s.hash[24..]), s.hash, box)
    case None => Err(error)
    case Some(text) => Ok((text, MixHash(c, s, box)))
  }

  lemma DecryptInvertsEncrypt(c: Crypto, s: Symmetric, text: bytes, error: Error)
    requires Lawful(c)
    ensures var (box, s') := EncryptAndHash(c, s, text);
            DecryptAndHash(c, s, box, error) == Ok((text, s')) && |box| == |text| + 16
  {
    var key, n := MessageKey(c, s), GetU64(s.hash[24..]);
    hide MessageKey, GetU64;
    assert c.open(key, n, s.hash, c.seal(key, n, s.hash, text)) == Some(text);
  }

  /** curve25519.X25519 refuses an all-zero result. */
  function X25519(c: Crypto, privateKey: Block32, publicKey: Block32): Result<Block32, Error> {
    var shared := c.dh(privateKey, publicKey);
    if AllZero(shared) then Err(LowOrderPoint) else Ok(shared)
  }

  lemma SharedBothWays(c: Crypto, a: Block32, b: Block32)
    requires Lawful(c)
    ensures X25519(c, a, c.publicKey(b)) == X25519(c, b, c.publicKey(a))
  {
    assert c.dh(a, c.publicKey(b)) == c.dh(b, c.publicKey(a));
  }

  function SplitKeys(c: Crypto, s: Symmetric, role: Role): (Block32, Block32) {
    var key1, key2 := ExpandBlock(c, s.chainingKey, s.hash, 0), ExpandBlock(c, s.chainingKey, s.hash, 32);
    if role.Client? then (key1, key2) else (key2, key1)
  }

  function SecretsOf(c: Crypto, s: Symmetric, role: Role, sessionID: Block16, peer: Block32): Secrets {
    var (send, recv) := SplitKeys(c, s, role);
    Secrets(sessionID, send, recv, ExpandBlock(c, s.chainingKey, Ascii("obfuscation"), 0), peer, 1)
  }

  // ---------------------------------------------------------------- fields

  /** ChaCha20-Poly1305 when no suite is common. */
  function SuiteOr(found: Option<uint16>): uint16 {
    match found case None => CHACHA20_POLY1305 case Some(s) => s
  }

  function EncodeParameters(p: TransportParameters): bytes {
    U16(KeepAliveField(p.keepAlive)) + [p.maxPadding]
  }

  function DecodeParameters(data: bytes): Result<TransportParameters, Error> {
    if |data| < 3 then Err(BadParameters)
    else Ok(TransportParameters(GetU16(data[0..2]) * MILLISECOND, data[2]))
  }

  lemma ParametersRoundTrip(p: TransportParameters)
    ensures DecodeParameters(EncodeParameters(p)) == Ok(p.(keepAlive := KeepAliveField(p.keepAlive) * MILLISECOND))
  {
    assert EncodeParameters(p)[0..2] == U16(KeepAliveField(p.keepAlive)) + [];
    U16RoundTrip(KeepAliveField(p.keepAlive), []);
  }

  // ---------------------------------------------------------------- the initiator's first message

  datatype InitiatorDraw = InitiatorDraw(ephemeral: Block32, sessionID: Block16, padding: bytes)

  /** The fields of message 1 that travel in the clear, and that nothing is mixed from. */
  datatype ClearFields = ClearFields(
    version: byte, minVersion: byte, suites: seq<uint16>, sessionID: Block16, padding: bytes)

  function FieldsOf(o: Options, d: InitiatorDraw): ClearFields {
    ClearFields(NOISE_VERSION, o.minVersion, o.suites, d.sessionID, d.padding)
  }

  /** An initiator that waits for message 2. */
  datatype Started = Started(message: bytes, box: bytes, trace: seq<Symmetric>, last: Symmetric)

  function InitiatorStart(c: Crypto, o: Options, d: InitiatorDraw): Result<Started, Error> {
    if |o.remoteStatic| != 32 then Err(NoRemoteStatic) else
    var rs: Block32 := o.remoteStatic;
    var e := c.publicKey(d.ephemeral);
    var s0 := Initialize(c, PROTOCOL_NAME);
    var s1 := MixHash(c, s0, rs);
    var s2 := MixHash(c, s1, e);
    var es :- X25519(c, d.ephemeral, rs);
    var s3 := MixKey(c, s2, es);
    var s4 := MixKeyAndHash(c, s3, o.psk);
    var (box, s5) := EncryptAndHash(c, s4, c.publicKey(o.staticKey));
    var ss :- X25519(c, o.staticKey, rs);
    var s6 := MixKey(c, s5, ss);
    Ok(Started(FirstMessage(FieldsOf(o, d), e, box), box, [s0, s1, s2, s3, s4, s5, s6], s6))
  }

  function FirstMessage(f: ClearFields, e: Block32, box: bytes): bytes {
    [f.version, f.minVersion, |f.suites| % 0x100] + SuiteBytes(f.suites) + f.sessionID + e + box
    + [|f.padding| % 0x100] + f.padding
  }

  // ---------------------------------------------------------------- the responder

  datatype First = First(version: byte, suites: seq<uint16>, sessionID: Block16, e: Block32, box: bytes)

  function ParseFirst(message: bytes): Result<First, Error> {
    if |message| < 51 then Err(TooShort) else
    var minVersion := message[1];
    if NOISE_VERSION < minVersion then Err(VersionTooOld) else
    var count: int := message[2];
    var offset := 3 + 2 * count;
    if |message| < offset + 48 then Err(OutOfRange)
    else if |message| < offset + 96 then
      Ok(First(message[0], ParseSuites(message[3..offset], count), message[offset..offset + 16],
               message[offset + 16..offset + 48], []))
    else
      Ok(First(message[0], ParseSuites(message[3..offset], count), message[offset..offset + 16],
               message[offset + 16..offset + 48], message[offset + 48..offset + 96]))
  }

  datatype Responded = Responded(message: bytes, box: bytes, trace: seq<Symmetric>, outcome: Outcome)

  function ServerParameters(o: Options): TransportParameters {
    TransportParameters(if o.keepAlive == 0 then 15 * SECOND else o.keepAlive,
                        if o.maxPadding == 0 then 96 else o.maxPadding)
  }

  /** A responder that has read message 1. */
  datatype Heard = Heard(first: First, remoteStatic: Block32, trace: seq<Symmetric>, last: Symmetric)

  function Hear(c: Crypto, o: Options, message: bytes): Result<Heard, Error> {
    var m :- ParseFirst(message);
    var s0 := Initialize(c, PROTOCOL_NAME);
    var s1 := MixHash(c, s0, c.publicKey(o.staticKey));
    var s2 := MixHash(c, s1, m.e);
    var es :- X25519(c, o.staticKey, m.e);
    var s3 := MixKey(c, s2, es);
    var s4 := MixKeyAndHash(c, s3, o.psk);
    if m.box == [] then Err(Truncated) else
    var unsealed :- DecryptAndHash(c, s4, m.box, BadStatic);
    var s5 := unsealed.1;
    var rs := CopyKey(unsealed.0);
    var ss :- X25519(c, o.staticKey, rs);
    var s6 := MixKey(c, s5, ss);
    Ok(Heard(m, rs, [s0, s1, s2, s3, s4, s5, s6], s6))
  }

  /** Message 2; `ephemeral` is the responder's fresh private key. */
  function Answer(c: Crypto, o: Options, ephemeral: Block32, h: Heard): Result<Responded, Error> {
    var version := MinByte(NOISE_VERSION, h.first.version);
    var suite := SuiteOr(FirstCommon(h.first.suites, o.suites));
    var e := c.publicKey(ephemeral);
    var s7 := MixHash(c, h.last, e);
    var ee :- X25519(c, ephemeral, h.first.e);
    var s8 := MixKey(c, s7, ee);
    var se :- X25519(c, ephemeral, h.remoteStatic);
    var s9 := MixKey(c, s8, se);
    var s10 := MixKeyAndHash(c, s9, o.psk);
    var (box, s11) := EncryptAndHash(c, s10, EncodeParameters(ServerParameters(o)));
    Ok(Responded(
      SecondMessage(version, [suite], e, box), box, h.trace + [s7, s8, s9, s10, s11],
      Outcome(SecretsOf(c, s11, Server, h.first.sessionID, h.remoteStatic), ServerParameters(o), h.remoteStatic, suite,
              version)))
  }

  function Respond(c: Crypto, o: Options, ephemeral: Block32, message: bytes): Result<Responded, Error> {
    var h :- Hear(c, o, message);
    Answer(c, o, ephemeral, h)
  }

  function SecondMessage(version: byte, suites: seq<uint16>, e: Block32, box: bytes): bytes {
    [version, |suites| % 0x100] + SuiteBytes(suites) + e + U16(|box| % 0x1_0000) + box
  }

  // ---------------------------------------------------------------- the initiator's end

  /** Scans the suites of message 2 and stops behind the first one that the initiator offered. */
  function ScanSuites(message: bytes, offset: nat, count: nat, offered: seq<uint16>)
    : Result<(Option<uint16>, nat), Error>
    decreases count
  {
    if count == 0 then Ok((None, offset))
    else if |message| < offset + 2 then Err(OutOfRange)
    else
      var suite := GetU16(message[offset..offset + 2]);
      if suite in offered then Ok((Some(suite), offset + 2))
      else ScanSuites(message, offset + 2, count - 1, offered)
  }

  datatype Second = Second(version: byte, suite: uint16, e: Block32, rest: bytes)

  function ParseSecond(message: bytes, minVersion: byte, offered: seq<uint16>): Result<Second, Error> {
    if |message| < 37 then Err(TooShort) else
    var version := message[0];
    if version < minVersion || version > NOISE_VERSION then Err(UnsupportedVersion)
    else if message[1] == 0 then Err(NoSuites)
    else
      var scan :- ScanSuites(message, 2, message[1], offered);
      var offset := scan.1;
      if |message| < offset + 32 then Err(OutOfRange)
      else Ok(Second(version, SuiteOr(scan.0), message[offset..offset + 32], message[offset + 32..]))
  }

  /** The length-prefixed parameters at the end of message 2. */
  function ParseBox(rest: bytes): Result<bytes, Error> {
    if |rest| < 2 then Err(OutOfRange)
    else if |rest| < 2 + GetU16(rest) as int then Err(OutOfRange)
    else Ok(rest[2..2 + GetU16(rest) as int])
  }

  datatype Finished = Finished(trace: seq<Symmetric>, outcome: Outcome)

  function InitiatorFinish(c: Crypto, o: Options, d: InitiatorDraw, s6: Symmetric, message: bytes)
    : Result<Finished, Error>
    requires |o.remoteStatic| == 32
  {
    var m :- ParseSecond(message, o.minVersion, o.suites);
    var s7 := MixHash(c, s6, m.e);
    var ee :- X25519(c, d.ephemeral, m.e);
    var s8 := MixKey(c, s7, ee);
    var se :- X25519(c, o.staticKey, m.e);
    var s9 := MixKey(c, s8, se);
    var s10 := MixKeyAndHash(c, s9, o.psk);
    var box :- ParseBox(m.rest);
    var unsealed :- DecryptAndHash(c, s10, box, BadParameters);
    var s11 := unsealed.1;
    var parameters :- DecodeParameters(unsealed.0);
    Ok(Finished([s7, s8, s9, s10, s11],
                Outcome(SecretsOf(c, s11, Client, d.sessionID, o.remoteStatic), parameters, o.remoteStatic, m.suite,
                        m.version)))
  }

  // ---------------------------------------------------------------- lock step

  /** Where each field of message 1 lies. */
  lemma FirstMessageLayout(
    m: bytes, head: bytes, suites: bytes, sessionID: Block16, e: Block32, box: bytes, tail: bytes)
    requires |head| == 3 && |box| == 48 && m == head + suites + sessionID + e + box + tail
    ensures var offset := 3 + |suites|;
            && |m| == offset + 96 + |tail| && m[..3] == head && m[3..offset] == suites
            && m[offset..offset + 16] == sessionID && m[offset + 16..offset + 48] == e
            && m[offset + 48..offset + 96] == box
  {}

  lemma FirstMessageParses(f: ClearFields, e: Block32, box: bytes)
    requires |f.suites| <= 255 && |box| == 48
    ensures ParseFirst(FirstMessage(f, e, box)) ==
            if NOISE_VERSION < f.minVersion then Err(VersionTooOld)
            else Ok(First(f.version, f.suites, f.sessionID, e, box))
  {
    var m, suites := FirstMessage(f, e, box), SuiteBytes(f.suites);
    var head, tail := [f.version, f.minVersion, |f.suites|], [|f.padding| % 0x100] + f.padding;
    hide SuiteBytes, ParseSuites;
    assert m == head + suites + f.sessionID + e + box + tail;
    hide FirstMessage;
    FirstMessageLayout(m, head, suites, f.sessionID, e, box, tail);
    SuitesRoundTrip(f.suites);
    assert m[0] == m[..3][0] && m[1] == m[..3][1] && m[2] == m[..3][2];
  }

  /** A list of suites that the initiator reads to its end: none but the last may be one it offered. */
  ghost predicate Scannable(suites: seq<uint16>, offered: seq<uint16>) {
    1 <= |suites| <= 255 && forall k | 0 <= k < |suites| - 1 :: suites[k] !in offered
  }

  lemma {:induction false} ScanReadsAll(message: bytes, offset: nat, suites: seq<uint16>, offered: seq<uint16>)
    requires |message| >= offset + 2 * |suites|
    requires message[offset..offset + 2 * |suites|] == SuiteBytes(suites)
    requires forall k | 0 <= k < |suites| - 1 :: suites[k] !in offered
    ensures ScanSuites(message, offset, |suites|, offered) == Ok((FirstCommon(suites, offered), offset + 2 * |suites|))
    decreases |suites|
  {
    if suites != [] {
      var field, rest := SuiteBytes(suites), suites[1..];
      assert field[..2] == U16(suites[0]) + [] && field[2..] == SuiteBytes(rest);
      assert message[offset..offset + 2] == field[..2];
      assert message[offset + 2..offset + 2 + 2 * |rest|] == field[2..];
      U16RoundTrip(suites[0], []);
      assert forall k | 0 <= k < |rest| - 1 :: rest[k] == suites[k + 1];
      ScanReadsAll(message, offset + 2, rest, offered);
      assert |suites| > 1 ==> suites[0] !in offered;
    }
  }

  /** Where each field of message 2 lies. */
  lemma SecondMessageLayout(m: bytes, head: bytes, suites: bytes, e: Block32, rest: bytes)
    requires |head| == 2 && m == head + suites + e + rest
    ensures var offset := 2 + |suites|;
            && |m| == offset + 32 + |rest| && m[..2] == head && m[2..offset] == suites
            && m[offset..offset + 32] == e && m[offset + 32..] == rest
  {}

  lemma SecondMessageParses(
    version: byte, suites: seq<uint16>, e: Block32, box: bytes, minVersion: byte, offered: seq<uint16>)
    requires |box| < 0x1_0000 && Scannable(suites, offered)
    ensures var m := ParseSecond(SecondMessage(version, suites, e, box), minVersion, offered);
            if version < minVersion || version > NOISE_VERSION then m == Err(UnsupportedVersion)
            else
              && m.Ok? && m.value.version == version && m.value.suite == SuiteOr(FirstCommon(suites, offered))
              && m.value.e == e && ParseBox(m.value.rest) == Ok(box)
  {
    var m, head, rest := SecondMessage(version, suites, e, box), [version, |suites|], U16(|box|) + box;
    hide SuiteBytes, U16, GetU16, ScanSuites, FirstCommon, SuiteOr;
    assert m == head + SuiteBytes(suites) + e + rest;
    hide SecondMessage;
    SecondMessageLayout(m, head, SuiteBytes(suites), e, rest);
    assert m[0] == m[..2][0] && m[1] == m[..2][1];
    ScanReadsAll(m, 2, suites, offered);
    BoxRoundTrip(box);
    hide ParseBox, Scannable;
  }

  lemma BoxRoundTrip(box: bytes)
    requires |box| < 0x1_0000
    ensures ParseBox(U16(|box|) + box) == Ok(box)
  {
    var rest := U16(|box|) + box;
    U16RoundTrip(|box|, box);
    assert rest[2..2 + |box|] == box;
  }

  /** An initiator that holds the responder's real static key and the same pre-shared key, over a network that
      delivers both messages. */
  ghost predicate HonestPair(c: Crypto, i: Options, r: Options) {
    && i.psk == r.psk
    && i.remoteStatic == c.publicKey(r.staticKey)
    && 1 <= |i.suites| <= 255
  }

  lemma CopyOfKey(k: Block32)
    ensures CopyKey(k) == k
  {}

  /** The responder follows the initiator's first message token by token, whatever the network makes of its clear
      fields: it reaches the same hash and chaining key after each, and learns the initiator's static key. */
  lemma FirstMessageLockStep(c: Crypto, i: Options, r: Options, d: InitiatorDraw, f: ClearFields)
    requires Lawful(c) && HonestPair(c, i, r) && |f.suites| <= 255
    requires InitiatorStart(c, i, d).Ok?
    ensures var start, e := InitiatorStart(c, i, d).value, c.publicKey(d.ephemeral);
            Hear(c, r, FirstMessage(f, e, start.box)) ==
            if f.minVersion > NOISE_VERSION then Err(VersionTooOld)
            else Ok(Heard(First(f.version, f.suites, f.sessionID, e, start.box), c.publicKey(i.staticKey),
                          start.trace, start.last))
  {
    SharedBothWays(c, d.ephemeral, r.staticKey);
    SharedBothWays(c, i.staticKey, r.staticKey);
    CopyOfKey(c.publicKey(i.staticKey));
    hide X25519, MixHash, MixKey, MixKeyAndHash, Initialize, FirstMessage, ParseFirst, EncryptAndHash, DecryptAndHash,
      CopyKey, Lawful;
    var start := InitiatorStart(c, i, d).value;
    DecryptInvertsEncrypt(c, start.trace[4], c.publicKey(i.staticKey), BadStatic);
    FirstMessageParses(f, c.publicKey(d.ephemeral), start.box);
  }

  /** The initiator follows the second message, whatever the network makes of its clear fields: it reaches the
      responder's hash and chaining key after each token, and both end with crossed keys. */
  lemma SecondMessageLockStep(
    c: Crypto, i: Options, r: Options, d: InitiatorDraw, ephemeral: Block32, h: Heard, version: byte,
    suites: seq<uint16>)
    requires Lawful(c) && HonestPair(c, i, r) && Scannable(suites, i.suites)
    requires h.first.e == c.publicKey(d.ephemeral) && h.remoteStatic == c.publicKey(i.staticKey)
    requires Answer(c, r, ephemeral, h).Ok?
    ensures var reply := Answer(c, r, ephemeral, h).value;
            var end := InitiatorFinish(c, i, d, h.last,
                                       SecondMessage(version, suites, c.publicKey(ephemeral), reply.box));
            if version < i.minVersion || version > NOISE_VERSION then end == Err(UnsupportedVersion)
            else
              && end.Ok? && h.trace + end.value.trace == reply.trace
              && Reported(c, i, r, d, h.first, version, suites, end.value.outcome, reply.outcome)
  {
    var text := EncodeParameters(ServerParameters(r));
    SharedBothWays(c, d.ephemeral, ephemeral);
    SharedBothWays(c, i.staticKey, ephemeral);
    ParametersRoundTrip(ServerParameters(r));
    hide X25519, MixHash, MixKey, MixKeyAndHash, EncryptAndHash, DecryptAndHash, SecondMessage, ParseSecond, ParseBox,
      FirstCommon, EncodeParameters, DecodeParameters, ServerParameters, SecretsOf, Lawful, KeepAliveField;
    var reply := Answer(c, r, ephemeral, h).value;
    var s10 := reply.trace[|h.trace| + 3];
    var (box, s11) := EncryptAndHash(c, s10, text);
    DecryptInvertsEncrypt(c, s10, text, BadParameters);
    SecondMessageParses(version, suites, c.publicKey(ephemeral), box, i.minVersion, i.suites);
    SecretsCross(c, s11, d.sessionID, h.first.sessionID, i.remoteStatic, h.remoteStatic);
  }

  /** Crossed keys, for what each side takes the session identifier to be. */
  predicate KeysCrossed(a: Secrets, b: Secrets) { Crossed(a.(sessionID := b.sessionID), b) }

  lemma SecretsCross(
    c: Crypto, s: Symmetric, clientID: Block16, serverID: Block16, peerOfClient: Block32, peerOfServer: Block32)
    ensures var a, b := SecretsOf(c, s, Client, clientID, peerOfClient),
            SecretsOf(c, s, Server, serverID, peerOfServer);
            KeysCrossed(a, b) && a.sessionID == clientID && b.sessionID == serverID
  {}

  /** What the two sides report, each from the clear fields that reached it; the initiator's parameters are the
      responder's, the keep-alive cut to its 16-bit millisecond field. */
  ghost predicate Reported(
    c: Crypto, i: Options, r: Options, d: InitiatorDraw, first: First, version: byte, suites: seq<uint16>,
    a: Outcome, b: Outcome)
  {
    && KeysCrossed(a.secrets, b.secrets)
    && a.secrets.sessionID == d.sessionID && b.secrets.sessionID == first.sessionID
    && a.suite == SuiteOr(FirstCommon(suites, i.suites)) && b.suite == SuiteOr(FirstCommon(first.suites, r.suites))
    && a.version == version && b.version == MinByte(NOISE_VERSION, first.version)
    && a.remoteStatic == c.publicKey(r.staticKey) && b.remoteStatic == c.publicKey(i.staticKey)
    && b.parameters == ServerParameters(r)
    && a.parameters == b.parameters.(keepAlive := KeepAliveField(b.parameters.keepAlive) * MILLISECOND)
  }

  ghost predicate SameOutcome(c: Crypto, i: Options, r: Options, d: InitiatorDraw, a: Outcome, b: Outcome) {
    && Crossed(a.secrets, b.secrets) && a.secrets.sessionID == d.sessionID
    && a.suite == b.suite == SuiteOr(FirstCommon(i.suites, r.suites))
    && a.version == b.version == NOISE_VERSION
    && a.remoteStatic == c.publicKey(r.staticKey) && b.remoteStatic == c.publicKey(i.staticKey)
    && b.parameters == ServerParameters(r)
    && a.parameters == b.parameters.(keepAlive := KeepAliveField(b.parameters.keepAlive) * MILLISECOND)
  }

  const ZEROS: Block32 :=
    [0, 0, 0, 0, 0, 0, 0, 0, 0, 0, 0, 0, 0, 0, 0, 0, 0, 0, 0, 0, 0, 0, 0, 0, 0, 0, 0, 0, 0, 0, 0, 0]

  /** A shared secret is refused exactly when it is all zero. */
  lemma SharedUsable(c: Crypto, privateKey: Block32, publicKey: Block32)
    ensures X25519(c, privateKey, publicKey).Ok? <==> c.dh(privateKey, publicKey) != ZEROS
    ensures X25519(c, privateKey, publicKey).Ok? ==>
              X25519(c, privateKey, publicKey).value == c.dh(privateKey, publicKey)
  {
    var shared := c.dh(privateKey, publicKey);
    if AllZero(shared) { assert shared == ZEROS; }
  }

  /** The four Diffie-Hellman results of the handshake are all usable. */
  predicate UsableKeys(c: Crypto, i: Options, r: Options, d: InitiatorDraw, ephemeral: Block32) {
    && c.dh(d.ephemeral, c.publicKey(r.staticKey)) != ZEROS && c.dh(i.staticKey, c.publicKey(r.staticKey)) != ZEROS
    && c.dh(ephemeral, c.publicKey(d.ephemeral)) != ZEROS && c.dh(ephemeral, c.publicKey(i.staticKey)) != ZEROS
  }

  datatype Handshake = Handshake(start: Started, reply: Responded, end: Finished)

  /** Both messages delivered. */
  function Join(c: Crypto, i: Options, r: Options, d: InitiatorDraw, ephemeral: Block32): Result<Handshake, Error> {
    var start :- InitiatorStart(c, i, d);
    var reply :- Respond(c, r, ephemeral, start.message);
    assert |i.remoteStatic| == 32;
    var end :- InitiatorFinish(c, i, d, start.last, reply.message);
    Ok(Handshake(start, reply, end))
  }

  /** What the network puts in place of the clear fields of message 1, and of version and suites of message 2. */
  datatype Rewriting = Rewriting(first: ClearFields, version: byte, suites: seq<uint16>)

  /** Both messages delivered, with rewritten clear fields. */
  function JoinRewritten(c: Crypto, i: Options, r: Options, d: InitiatorDraw, ephemeral: Block32, w: Rewriting)
    : Result<Handshake, Error>
  {
    var start :- InitiatorStart(c, i, d);
    var reply :- Respond(c, r, ephemeral, FirstMessage(w.first, c.publicKey(d.ephemeral), start.box));
    assert |i.remoteStatic| == 32;
    var message := SecondMessage(w.version, w.suites, c.publicKey(ephemeral), reply.box);
    var end :- InitiatorFinish(c, i, d, start.last, message);
    Ok(Handshake(start, reply, end))
  }

  /** The clear fields are not authenticated. Over a network that rewrites them the handshake still completes on both
      sides exactly when the versions that arrive are acceptable and no Diffie-Hellman result is degenerate; hash
      and chaining key agree after each token and the keys are crossed. The sides report one session identifier,
      suite and version exactly when what arrives makes them the same. */
  lemma RewrittenLockStep(c: Crypto, i: Options, r: Options, d: InitiatorDraw, ephemeral: Block32, w: Rewriting)
    requires Lawful(c) && HonestPair(c, i, r) && |w.first.suites| <= 255 && Scannable(w.suites, i.suites)
    ensures JoinRewritten(c, i, r, d, ephemeral, w).Ok? <==>
            && w.first.minVersion <= NOISE_VERSION && i.minVersion <= w.version <= NOISE_VERSION
            && UsableKeys(c, i, r, d, ephemeral)
    ensures var j := JoinRewritten(c, i, r, d, ephemeral, w);
            j.Ok? ==>
              var a, b := j.value.end.outcome, j.value.reply.outcome;
              && |j.value.reply.trace| == 12
              && j.value.start.trace + j.value.end.trace == j.value.reply.trace
              && KeysCrossed(a.secrets, b.secrets)
              && (Crossed(a.secrets, b.secrets) <==> w.first.sessionID == d.sessionID)
              && (a.suite == b.suite <==>
                    SuiteOr(FirstCommon(w.suites, i.suites)) == SuiteOr(FirstCommon(w.first.suites, r.suites)))
              && (a.version == b.version <==> w.version == MinByte(NOISE_VERSION, w.first.version))
  {
    var start := InitiatorStart(c, i, d);
    SharedUsable(c, d.ephemeral, c.publicKey(r.staticKey));
    SharedUsable(c, i.staticKey, c.publicKey(r.staticKey));
    SharedUsable(c, ephemeral, c.publicKey(d.ephemeral));
    SharedUsable(c, ephemeral, c.publicKey(i.staticKey));
    hide AllZero;
    StartCompletes(c, i, d);
    if start.Ok? {
      FirstMessageLockStep(c, i, r, d, w.first);
      var heard := Hear(c, r, FirstMessage(w.first, c.publicKey(d.ephemeral), start.value.box));
      if heard.Ok? {
        AnswerCompletes(c, r, ephemeral, heard.value);
        if Answer(c, r, ephemeral, heard.value).Ok? {
          hide InitiatorStart, Hear, Answer, InitiatorFinish, X25519, Lawful, FirstMessage, SecondMessage, FirstCommon;
          SecondMessageLockStep(c, i, r, d, ephemeral, heard.value, w.version, w.suites);
        }
      }
    }
  }

  /** An honest handshake completes on both sides exactly when the initiator accepts version 2 and no
      Diffie-Hellman result is degenerate. Then hash and chaining key agree after each token of both messages
      and both sides report the same outcome. */
  lemma LockStep(c: Crypto, i: Options, r: Options, d: InitiatorDraw, ephemeral: Block32)
    requires Lawful(c) && HonestPair(c, i, r)
    ensures Join(c, i, r, d, ephemeral).Ok? <==> i.minVersion <= NOISE_VERSION && UsableKeys(c, i, r, d, ephemeral)
    ensures var j := Join(c, i, r, d, ephemeral);
            j.Ok? ==>
              && |j.value.reply.trace| == 12
              && j.value.start.trace + j.value.end.trace == j.value.reply.trace
              && SameOutcome(c, i, r, d, j.value.end.outcome, j.value.reply.outcome)
  {
    var start := InitiatorStart(c, i, d);
    SharedUsable(c, d.ephemeral, c.publicKey(r.staticKey));
    SharedUsable(c, i.staticKey, c.publicKey(r.staticKey));
    SharedUsable(c, ephemeral, c.publicKey(d.ephemeral));
    SharedUsable(c, ephemeral, c.publicKey(i.staticKey));
    hide AllZero;
    StartCompletes(c, i, d);
    if start.Ok? {
      FirstMessageLockStep(c, i, r, d, FieldsOf(i, d));
      var heard := Hear(c, r, start.value.message);
      if heard.Ok? {
        AnswerCompletes(c, r, ephemeral, heard.value);
        var reply := Answer(c, r, ephemeral, heard.value);
        if reply.Ok? {
          AnswerMessage(c, r, ephemeral, heard.value);
          hide InitiatorStart, Hear, Answer, InitiatorFinish, X25519, Lawful, FirstMessage, SecondMessage;
          SuiteStandsFirst(i.suites, r.suites);
          hide FirstCommon;
          var suite := reply.value.outcome.suite;
          SecondMessageLockStep(c, i, r, d, ephemeral, heard.value, NOISE_VERSION, [suite]);
        }
      }
    }
  }

  /** The initiator finds the suite that the responder chose. */
  lemma SuiteStandsFirst(offered: seq<uint16>, supported: seq<uint16>)
    ensures var suite := SuiteOr(FirstCommon(offered, supported)); SuiteOr(FirstCommon([suite], offered)) == suite
  {
    FirstCommonIsCommon(offered, supported);
  }

  lemma AnswerMessage(c: Crypto, o: Options, ephemeral: Block32, h: Heard)
    requires Answer(c, o, ephemeral, h).Ok?
    ensures var reply := Answer(c, o, ephemeral, h).value;
            reply.message == SecondMessage(MinByte(NOISE_VERSION, h.first.version), [reply.outcome.suite],
                                           c.publicKey(ephemeral), reply.box)
            && reply.outcome.suite == SuiteOr(FirstCommon(h.first.suites, o.suites))
  {
    hide X25519, MixHash, MixKey, MixKeyAndHash, EncryptAndHash, SecondMessage, FirstCommon, SecretsOf,
      EncodeParameters;
  }

  lemma StartCompletes(c: Crypto, i: Options, d: InitiatorDraw)
    requires |i.remoteStatic| == 32
    ensures InitiatorStart(c, i, d).Ok? <==>
            X25519(c, d.ephemeral, i.remoteStatic).Ok? && X25519(c, i.staticKey, i.remoteStatic).Ok?
    ensures InitiatorStart(c, i, d).Ok? ==> |InitiatorStart(c, i, d).value.trace| == 7
  {
    hide X25519, MixHash, MixKey, MixKeyAndHash, Initialize, EncryptAndHash, FirstMessage;
  }

  lemma AnswerCompletes(c: Crypto, o: Options, ephemeral: Block32, h: Heard)
    ensures Answer(c, o, ephemeral, h).Ok? <==>
            X25519(c, ephemeral, h.first.e).Ok? && X25519(c, ephemeral, h.remoteStatic).Ok?
    ensures Answer(c, o, ephemeral, h).Ok? ==> |Answer(c, o, ephemeral, h).value.trace| == |h.trace| + 5
  {
    hide X25519, MixHash, MixKey, MixKeyAndHash, EncryptAndHash, SecondMessage, FirstCommon, SecretsOf,
      EncodeParameters;
  }

  /** The keys of a completed handshake are 32 bytes long. */
  lemma JoinKeys(c: Crypto, i: Options, r: Options, d: InitiatorDraw, ephemeral: Block32)
    requires Join(c, i, r, d, ephemeral).Ok?
    ensures var a := Join(c, i, r, d, ephemeral).value.end.outcome.secrets;
            |a.sendKey| == 32 && |a.receiveKey| == 32
  {
    hide InitiatorStart, Respond, MixHash, MixKey, MixKeyAndHash, X25519, DecryptAndHash, ParseSecond, ParseBox,
      DecodeParameters;
  }

  // ---------------------------------------------------------------- reads out of range

  /** Exactly when the responder reads message 1 out of range: the check of its length does not count the suites. */
  lemma HearOutOfRange(c: Crypto, o: Options, m: bytes)
    ensures Hear(c, o, m) == Err(OutOfRange) <==>
            |m| >= 51 && m[1] <= NOISE_VERSION && |m| < 51 + 2 * m[2] as int
  {
    hide Initialize, MixHash, MixKey, MixKeyAndHash, MessageKey, GetU64, CopyKey, ParseSuites;
  }

  /** Exactly when message 1 ends before the encrypted static key does. */
  lemma HearTruncated(c: Crypto, o: Options, m: bytes)
    ensures Hear(c, o, m) == Err(Truncated) <==>
            && |m| >= 51 && m[1] <= 2
            && var offset := 3 + 2 * m[2] as int;
               && offset + 48 <= |m| < offset + 96 && c.dh(o.staticKey, m[offset + 16..offset + 48]) != ZEROS
  {
    hide Initialize, MixHash, MixKey, MixKeyAndHash, MessageKey, GetU64, CopyKey, ParseSuites;
    if ParseFirst(m).Ok? { SharedUsable(c, o.staticKey, ParseFirst(m).value.e); }
    hide AllZero;
  }

  /** It happens, before anything is authenticated: 51 bytes that announce one suite. */
  lemma ShortHelloIsOutOfRange(c: Crypto, o: Options)
    ensures Hear(c, o, [2, 1, 1] + seq(48, _ => 0)) == Err(OutOfRange)
  {
    HearOutOfRange(c, o, [2, 1, 1] + seq(48, _ => 0));
  }

  /** The number of suites that the initiator reads from message 2, up to and including the first it offered. */
  function Entries(message: bytes, offset: nat, count: nat, offered: seq<uint16>): nat
    decreases count
  {
    if count == 0 then 0
    else if |message| < offset + 2 || GetU16(message[offset..offset + 2]) in offered then 1
    else 1 + Entries(message, offset + 2, count - 1, offered)
  }

  lemma {:induction false} ScanEnds(message: bytes, offset: nat, count: nat, offered: seq<uint16>)
    ensures var r, end := ScanSuites(message, offset, count, offered),
            offset + 2 * Entries(message, offset, count, offered);
            if r.Err? then r.error == OutOfRange && |message| < end else r.value.1 == end
    decreases count
  {
    if count > 0 && |message| >= offset + 2 { ScanEnds(message, offset + 2, count - 1, offered); }
  }

  /** The suites of message 2 and the key behind them leave the message. */
  lemma ParseSecondOutOfRange(m: bytes, minVersion: byte, offered: seq<uint16>)
    ensures ParseSecond(m, minVersion, offered) == Err(OutOfRange) <==>
            && |m| >= 37 && minVersion <= m[0] <= NOISE_VERSION && m[1] != 0
            && |m| < 34 + 2 * Entries(m, 2, m[1], offered)
    ensures ParseSecond(m, minVersion, offered).Ok? <==>
            && |m| >= 37 && minVersion <= m[0] <= NOISE_VERSION && m[1] != 0
            && |m| >= 34 + 2 * Entries(m, 2, m[1], offered)
  {
    if |m| >= 37 { ScanEnds(m, 2, m[1], offered); }
    hide ScanSuites, Entries;
  }

  lemma ParseSecondFields(m: bytes, minVersion: byte, offered: seq<uint16>)
    requires ParseSecond(m, minVersion, offered).Ok?
    ensures |m| >= 37 && m[1] != 0 && minVersion <= m[0] <= NOISE_VERSION
    ensures var q, offset := ParseSecond(m, minVersion, offered).value, 2 + 2 * Entries(m, 2, m[1], offered);
            |m| >= offset + 32 && q.e == m[offset..offset + 32] && q.rest == m[offset + 32..]
  {
    ScanEnds(m, 2, m[1], offered);
    hide ScanSuites, Entries;
  }

  /** Exactly when the initiator reads message 2 out of range: behind the suites there is no whole key, or, for a
      key whose shared secrets are usable, no whole length-prefixed box. */
  lemma FinishOutOfRange(c: Crypto, o: Options, d: InitiatorDraw, s6: Symmetric, m: bytes)
    requires |o.remoteStatic| == 32
    ensures InitiatorFinish(c, o, d, s6, m) == Err(OutOfRange) <==>
            && |m| >= 37 && o.minVersion <= m[0] <= NOISE_VERSION && m[1] != 0
            && var key := 2 + 2 * Entries(m, 2, m[1], o.suites);
               || |m| < key + 32
               || (&& X25519(c, d.ephemeral, m[key..key + 32]).Ok? && X25519(c, o.staticKey, m[key..key + 32]).Ok?
                   && (|m| < key + 34 || |m| < key + 34 + GetU16(m[key + 32..]) as int))
  {
    var parsed := ParseSecond(m, o.minVersion, o.suites);
    ParseSecondOutOfRange(m, o.minVersion, o.suites);
    if parsed.Ok? {
      ParseSecondFields(m, o.minVersion, o.suites);
      FinishBehindKey(c, o, d, s6, m);
      var key := 2 + 2 * Entries(m, 2, m[1], o.suites);
      assert |m[key + 32..]| == |m| - key - 32;
    } else {
      FinishUnparsed(c, o, d, s6, m);
    }
    hide InitiatorFinish, ParseSecond, Entries, X25519, GetU16;
  }

  lemma FinishUnparsed(c: Crypto, o: Options, d: InitiatorDraw, s6: Symmetric, m: bytes)
    requires |o.remoteStatic| == 32 && ParseSecond(m, o.minVersion, o.suites).Err?
    ensures InitiatorFinish(c, o, d, s6, m) == Err(ParseSecond(m, o.minVersion, o.suites).error)
  {
    hide ParseSecond;
  }

  lemma FinishBehindKey(c: Crypto, o: Options, d: InitiatorDraw, s6: Symmetric, m: bytes)
    requires |o.remoteStatic| == 32 && ParseSecond(m, o.minVersion, o.suites).Ok?
    ensures var q := ParseSecond(m, o.minVersion, o.suites).value;
            InitiatorFinish(c, o, d, s6, m) == Err(OutOfRange) <==>
            && X25519(c, d.ephemeral, q.e).Ok? && X25519(c, o.staticKey, q.e).Ok?
            && (|q.rest| < 2 || |q.rest| < 2 + GetU16(q.rest) as int)
  {
    hide MixHash, MixKey, MixKeyAndHash, MessageKey, GetU64, SecretsOf, ParseSecond, GetU16;
  }

  /** It happens: 37 bytes that announce 255 suites, none of them offered. */
  lemma ShortReplyIsOutOfRange(c: Crypto, o: Options, d: InitiatorDraw, s6: Symmetric)
    requires |o.remoteStatic| == 32 && o.minVersion <= NOISE_VERSION && 0 !in o.suites
    ensures InitiatorFinish(c, o, d, s6, [2, 255] + seq(35, _ => 0)) == Err(OutOfRange)
  {
    var m := [2, 255] + seq(35, _ => 0);
    assert m[2..4] == [0, 0];
    assert Entries(m, 2, 255, o.suites) >= 2;
    FinishOutOfRange(c, o, d, s6, m);
  }

  // ---------------------------------------------------------------- the object

  method ScanReply(message: bytes, from: nat, count: nat, offered: seq<uint16>)
      returns (r: Result<(uint16, nat), Error>)
    ensures r == match ScanSuites(message, from, count, offered)
                 case Err(e) => Err(e)
                 case Ok((found, offset)) => Ok((SuiteOr(found), offset))
  {
    var offset: nat := from;
    for i := 0 to count
      invariant ScanSuites(message, offset, count - i, offered) == ScanSuites(message, from, count, offered)
    {
      if |message| < offset + 2 { return Err(OutOfRange); }
      var suite := GetU16(message[offset..offset + 2]);
      offset := offset + 2;
      if suite in offered { return Ok((suite, offset)); }
    }
    return Ok((CHACHA20_POLY1305, offset));
  }

  class NoiseHandshakeState {
    const crypto: Crypto
    const options: Options
    var hash: Block32
    var chainingKey: Block32
    var remoteStatic: Block32
    var remoteEphemeral: Block32
    var agreedVersion: byte
    /** The symmetric states passed so far. */
    ghost var trace: seq<Symmetric>

    function Current(): Symmetric
      reads this
    {
      Symmetric(hash, chainingKey)
    }

    constructor (c: Crypto, o: Options)
      ensures crypto == c && options == Effective(o)
      ensures Current() == Initialize(c, PROTOCOL_NAME) && trace == [Current()]
    {
      crypto, options := c, Effective(o);
      hash, chainingKey := Initialize(c, PROTOCOL_NAME).hash, Initialize(c, PROTOCOL_NAME).chainingKey;
      remoteStatic, remoteEphemeral, agreedVersion := CopyKey([]), CopyKey([]), 0;
      trace := [Initialize(c, PROTOCOL_NAME)];
    }

    method TokenHash(data: bytes)
      modifies this`hash, this`trace
      ensures Current() == MixHash(crypto, old(Current()), data)
      ensures trace == old(trace) + [Current()]
    {
      hash := crypto.sha256(hash + data);
      trace := trace + [Current()];
    }

    method TokenKey(material: bytes)
      modifies this`chainingKey, this`trace
      ensures Current() == MixKey(crypto, old(Current()), material)
      ensures trace == old(trace) + [Current()]
    {
      chainingKey := crypto.hmac(chainingKey, material);
      trace := trace + [Current()];
    }

    method TokenPsk(material: bytes)
      modifies this`hash, this`chainingKey, this`trace
      ensures Current() == MixKeyAndHash(crypto, old(Current()), material)
      ensures trace == old(trace) + [Current()]
    {
      var temp := ExpandBlock(crypto, material, chainingKey, 0);
      hash := crypto.sha256(hash + material);
      chainingKey := temp;
      trace := trace + [Current()];
    }

    method TokenEncrypt(text: bytes) returns (box: bytes)
      modifies this`hash, this`trace
      ensures (box, Current()) == EncryptAndHash(crypto, old(Current()), text)
      ensures trace == old(trace) + [Current()]
    {
      var key := ExpandBlock(crypto, chainingKey, Ascii("encryption"), 0);
      box := crypto.seal(key, GetU64(hash[24..]), hash, text);
      hash := crypto.sha256(hash + box);
      trace := trace + [Current()];
    }

    method TokenDecrypt(box: bytes, error: Error) returns (r: Result<bytes, Error>)
      modifies this`hash, this`trace
      ensures match DecryptAndHash(crypto, old(Current()), box, error)
              case Err(e) => r == Err(e)
              case Ok((text, s)) => r == Ok(text) && Current() == s && trace == old(trace) + [s]
    {
      var key := ExpandBlock(crypto, chainingKey, Ascii("encryption"), 0);
      var text := crypto.open(key, GetU64(hash[24..]), hash, box);
      match text {
        case None => return Err(error);
        case Some(t) =>
          hash := crypto.sha256(hash + box);
          trace := trace + [Current()];
          return Ok(t);
      }
    }

    /** The initiator up to message 1. */
    method Initiate(d: InitiatorDraw) returns (r: Result<bytes, Error>)
      requires Current() == Initialize(crypto, PROTOCOL_NAME) && trace == [Current()]
      modifies this
      ensures match InitiatorStart(crypto, options, d)
              case Err(e) => r == Err(e)
              case Ok(s) =>
                r == Ok(s.message) && Current() == s.last && trace == s.trace && remoteStatic == options.remoteStatic
    {
      hide MixHash, MixKey, MixKeyAndHash, EncryptAndHash, Initialize, X25519, SuiteBytes;
      if |options.remoteStatic| != 32 { return Err(NoRemoteStatic); }
      remoteStatic := options.remoteStatic;
      var e := crypto.publicKey(d.ephemeral);
      TokenHash(remoteStatic);
      var message := [NOISE_VERSION, options.minVersion, |options.suites| % 0x100];
      var suites := WriteSuites(options.suites);
      message := message + suites;
      message := message + d.sessionID;
      message := message + e;
      TokenHash(e);
      var es :- X25519(crypto, d.ephemeral, remoteStatic);
      TokenKey(es);
      TokenPsk(options.psk);
      var box := TokenEncrypt(crypto.publicKey(options.staticKey));
      message := message + box;
      var ss :- X25519(crypto, options.staticKey, remoteStatic);
      TokenKey(ss);
      message := message + [|d.padding| % 0x100] + d.padding;
      r := Ok(message);
    }

    /** The initiator from message 2 on. */
    method Complete(d: InitiatorDraw, message: bytes) returns (r: Result<Outcome, Error>)
      requires |options.remoteStatic| == 32 && remoteStatic == options.remoteStatic
      modifies this
      ensures match InitiatorFinish(crypto, options, d, old(Current()), message)
              case Err(e) => r == Err(e)
              case Ok(f) => r == Ok(f.outcome) && trace == old(trace) + f.trace
    {
      hide MixHash, MixKey, MixKeyAndHash, DecryptAndHash, X25519, ScanSuites, SecretsOf, DecodeParameters, ParseBox,
        SuiteOr;
      if |message| < 37 { return Err(TooShort); }
      var version := message[0];
      if version < options.minVersion || version > NOISE_VERSION { return Err(UnsupportedVersion); }
      agreedVersion := version;
      if message[1] == 0 { return Err(NoSuites); }
      var scan :- ScanReply(message, 2, message[1], options.suites);
      var (suite, offset) := scan;
      if |message| < offset + 32 { return Err(OutOfRange); }
      remoteEphemeral := message[offset..offset + 32];
      var rest := message[offset + 32..];
      TokenHash(remoteEphemeral);
      var ee :- X25519(crypto, d.ephemeral, remoteEphemeral);
      TokenKey(ee);
      var se :- X25519(crypto, options.staticKey, remoteEphemeral);
      TokenKey(se);
      TokenPsk(options.psk);
      var box :- ParseBox(rest);
      var data :- TokenDecrypt(box, BadParameters);
      var parameters :- DecodeParameters(data);
      r := Ok(Outcome(SecretsOf(crypto, Current(), Client, d.sessionID, remoteStatic), parameters, remoteStatic, suite,
                      agreedVersion));
    }

    /** The responder reads message 1. */
    method HearFirst(message: bytes) returns (r: Result<First, Error>)
      requires Current() == Initialize(crypto, PROTOCOL_NAME) && trace == [Current()]
      modifies this
      ensures match Hear(crypto, options, message)
              case Err(e) => r == Err(e)
              case Ok(h) =>
                r == Ok(h.first) && Current() == h.last && trace == h.trace && remoteStatic == h.remoteStatic
                && remoteEphemeral == h.first.e
    {
      hide MixHash, MixKey, MixKeyAndHash, DecryptAndHash, Initialize, X25519, CopyKey, ParseFirst;
      var first :- ParseFirst(message);
      TokenHash(crypto.publicKey(options.staticKey));
      remoteEphemeral := first.e;
      TokenHash(remoteEphemeral);
      var es :- X25519(crypto, options.staticKey, remoteEphemeral);
      TokenKey(es);
      TokenPsk(options.psk);
      if first.box == [] { return Err(Truncated); }
      var text :- TokenDecrypt(first.box, BadStatic);
      remoteStatic := CopyKey(text);
      var ss :- X25519(crypto, options.staticKey, remoteStatic);
      TokenKey(ss);
      r := Ok(first);
    }

    /** The responder returns message 2 and its outcome. */
    method AnswerSecond(ephemeral: Block32, first: First) returns (r: Result<(bytes, Outcome), Error>)
      requires remoteEphemeral == first.e
      modifies this
      ensures match Answer(crypto, options, ephemeral, Heard(first, old(remoteStatic), old(trace), old(Current())))
              case Err(e) => r == Err(e)
              case Ok(s) => r == Ok((s.message, s.outcome)) && trace == s.trace
    {
      hide MixHash, MixKey, MixKeyAndHash, EncryptAndHash, X25519, SecretsOf, EncodeParameters, FirstCommon,
        SecondMessage;
      agreedVersion := MinByte(NOISE_VERSION, first.version);
      var common := FindCommon(first.suites, options.suites);
      var suite := SuiteOr(common);
      var e := crypto.publicKey(ephemeral);
      TokenHash(e);
      var ee :- X25519(crypto, ephemeral, remoteEphemeral);
      TokenKey(ee);
      var se :- X25519(crypto, ephemeral, remoteStatic);
      TokenKey(se);
      TokenPsk(options.psk);
      var box := TokenEncrypt(EncodeParameters(ServerParameters(options)));
      r := Ok((SecondMessage(agreedVersion, [suite], e, box),
               Outcome(SecretsOf(crypto, Current(), Server, first.sessionID, remoteStatic), ServerParameters(options),
                       remoteStatic, suite, agreedVersion)));
    }

    /** The responder: reads message 1, returns message 2 and its outcome. */
    method RespondTo(ephemeral: Block32, message: bytes) returns (r: Result<(bytes, Outcome), Error>)
      requires Current() == Initialize(crypto, PROTOCOL_NAME) && trace == [Current()]
      modifies this
      ensures match Respond(crypto, options, ephemeral, message)
              case Err(e) => r == Err(e)
              case Ok(s) => r == Ok((s.message, s.outcome)) && trace == s.trace
    {
      hide Hear, Answer, Initialize;
      var first :- HearFirst(message);
      r := AnswerSecond(ephemeral, first);
    }
  }
  /** PerformNoiseHandshake up to the choice of the role. */
  method Perform(c: Crypto, o: Options) returns (r: Result<NoiseHandshakeState, Error>)
    ensures |o.psk| == 0 ==> r == Err(PskRequired)
    ensures |o.psk| > 0 ==>
              && r.Ok? && fresh(r.value) && r.value.crypto == c && r.value.options == Effective(o)
              && r.value.Current() == Initialize(c, PROTOCOL_NAME) && r.value.trace == [r.value.Current()]
  {
    if |o.psk| == 0 { return Err(PskRequired); }
    var hs := new NoiseHandshakeState(c, o);
    return Ok(hs);
  }
}
