/** What the keys of the Noise handshake of crypto/noise.go are bound to, against any peer and any network. Every state
is described with the primitives themselves; a key or a ciphertext that both sides have in common then shows that
they mixed the same inputs. */
module NoiseBinding {
  import opened Bits
  import opened Bytes
  import opened Wrappers
  import opened Primitives
  import opened SessionSecrets
  import opened CipherSuites
  import opened Noise

  // ---------------------------------------------------------------- what goes into each state

  ghost predicate Expanded(c: Crypto, block: bytes, prk: bytes, info: bytes, from: nat) {
    |block| == 32 && forall j: nat | j < 32 :: block[j] == c.expand(prk, info, from + j)
  }

  /** The seven states of message 1. */
  ghost predicate FirstMixed(
    c: Crypto, t: seq<Symmetric>, rs: bytes, e: bytes, es: bytes, psk: bytes, box: bytes, ss: bytes)
  {
    && |t| == 7
    && t[0].hash == t[0].chainingKey == c.sha256(Ascii("Noise_IKpsk2_25519_ChaChaPoly_SHA256"))
    && t[1] == t[0].(hash := c.sha256(t[0].hash + rs))
    && t[2] == t[1].(hash := c.sha256(t[1].hash + e))
    && t[3] == t[2].(chainingKey := c.hmac(t[2].chainingKey, es))
    && t[4].hash == c.sha256(t[3].hash + psk) && Expanded(c, t[4].chainingKey, psk, t[3].chainingKey, 0)
    && t[5] == t[4].(hash := c.sha256(t[4].hash + box))
    && t[6] == t[5].(chainingKey := c.hmac(t[5].chainingKey, ss))
  }

  /** The five states of message 2, behind the state `s`. */
  ghost predicate SecondMixed(
    c: Crypto, s: Symmetric, t: seq<Symmetric>, e: bytes, ee: bytes, se: bytes, psk: bytes, box: bytes)
  {
    && |t| == 5
    && t[0] == s.(hash := c.sha256(s.hash + e))
    && t[1] == t[0].(chainingKey := c.hmac(t[0].chainingKey, ee))
    && t[2] == t[1].(chainingKey := c.hmac(t[1].chainingKey, se))
    && t[3].hash == c.sha256(t[2].hash + psk) && Expanded(c, t[3].chainingKey, psk, t[2].chainingKey, 0)
    && t[4] == t[3].(hash := c.sha256(t[3].hash + box))
  }

  /** `box` is sealed in the state `s`: under a key from the chaining key, with the hash as associated data and its
      last eight bytes as the counter. */
  ghost predicate SealedIn(c: Crypto, s: Symmetric, box: bytes, text: bytes) {
    exists key: Block32 ::
      Expanded(c, key, s.chainingKey, Ascii("encryption"), 0) && box == c.seal(key, GetU64(s.hash[24..]), s.hash, text)
  }

  ghost predicate OpenedIn(c: Crypto, s: Symmetric, box: bytes, text: bytes) {
    exists key: Block32 ::
      && Expanded(c, key, s.chainingKey, Ascii("encryption"), 0)
      && c.open(key, GetU64(s.hash[24..]), s.hash, box) == Some(text)
  }

  lemma MessageKeyExpanded(c: Crypto, s: Symmetric)
    ensures Expanded(c, MessageKey(c, s), s.chainingKey, Ascii("encryption"), 0)
  {
    hide Ascii;
  }

  lemma SealsInState(c: Crypto, s: Symmetric, text: bytes)
    ensures var (box, s') := EncryptAndHash(c, s, text);
            SealedIn(c, s, box, text) && s' == s.(hash := c.sha256(s.hash + box))
  {
    MessageKeyExpanded(c, s);
    hide MessageKey, Expanded, GetU64;
  }

  lemma OpensInState(c: Crypto, s: Symmetric, box: bytes, error: Error)
    requires DecryptAndHash(c, s, box, error).Ok?
    ensures var (text, s') := DecryptAndHash(c, s, box, error).value;
            OpenedIn(c, s, box, text) && s' == s.(hash := c.sha256(s.hash + box))
  {
    MessageKeyExpanded(c, s);
    hide MessageKey, Expanded, GetU64;
  }

  lemma PskExpanded(c: Crypto, s: Symmetric, psk: bytes)
    ensures Expanded(c, MixKeyAndHash(c, s, psk).chainingKey, psk, s.chainingKey, 0)
    ensures MixKeyAndHash(c, s, psk).hash == c.sha256(s.hash + psk)
  {}

  lemma StartsFromName(c: Crypto)
    ensures var s := Initialize(c, PROTOCOL_NAME);
            s.hash == s.chainingKey == c.sha256(Ascii("Noise_IKpsk2_25519_ChaChaPoly_SHA256"))
  {
    hide Ascii;
  }

  /** The initiator of message 1. */
  lemma InitiatorMixes(c: Crypto, o: Options, d: InitiatorDraw)
    requires InitiatorStart(c, o, d).Ok?
    ensures |o.remoteStatic| == 32
    ensures var s, e := InitiatorStart(c, o, d).value, c.publicKey(d.ephemeral);
            && FirstMixed(c, s.trace, o.remoteStatic, e, c.dh(d.ephemeral, o.remoteStatic), o.psk, s.box,
                          c.dh(o.staticKey, o.remoteStatic))
            && s.last == s.trace[6]
            && SealedIn(c, s.trace[4], s.box, c.publicKey(o.staticKey))
            && s.message == FirstMessage(FieldsOf(o, d), e, s.box)
  {
    var s := InitiatorStart(c, o, d).value;
    hide Initialize, MixKeyAndHash, EncryptAndHash, SealedIn, Expanded, FirstMessage, AllZero;
    StartsFromName(c);
    PskExpanded(c, s.trace[3], o.psk);
    SealsInState(c, s.trace[4], c.publicKey(o.staticKey));
    hide Ascii;
  }

  /** The responder of message 1. */
  lemma ResponderMixes(c: Crypto, o: Options, message: bytes)
    requires Hear(c, o, message).Ok?
    ensures var h := Hear(c, o, message).value;
            && FirstMixed(c, h.trace, c.publicKey(o.staticKey), h.first.e, c.dh(o.staticKey, h.first.e), o.psk,
                          h.first.box, c.dh(o.staticKey, h.remoteStatic))
            && h.last == h.trace[6]
            && exists text :: OpenedIn(c, h.trace[4], h.first.box, text) && h.remoteStatic == CopyKey(text)
  {
    var h := Hear(c, o, message).value;
    hide Initialize, MixKeyAndHash, DecryptAndHash, OpenedIn, Expanded, ParseFirst, AllZero, CopyKey;
    StartsFromName(c);
    PskExpanded(c, h.trace[3], o.psk);
    OpensInState(c, h.trace[4], h.first.box, BadStatic);
    hide Ascii;
  }

  /** The responder of message 2. */
  lemma AnswerMixes(c: Crypto, o: Options, ephemeral: Block32, h: Heard)
    requires Answer(c, o, ephemeral, h).Ok?
    ensures var a, e := Answer(c, o, ephemeral, h).value, c.publicKey(ephemeral);
            && |a.trace| == |h.trace| + 5
            && var t := a.trace[|h.trace|..];
               && SecondMixed(c, h.last, t, e, c.dh(ephemeral, h.first.e), c.dh(ephemeral, h.remoteStatic), o.psk,
                              a.box)
               && SealedIn(c, t[3], a.box, EncodeParameters(ServerParameters(o)))
               && SplitFrom(c, a.outcome.secrets.receiveKey, a.outcome.secrets.sendKey,
                            a.outcome.secrets.obfuscationKey, t[4])
  {
    var a := Answer(c, o, ephemeral, h).value;
    var t := a.trace[|h.trace|..];
    hide MixKeyAndHash, EncryptAndHash, SealedIn, Expanded, SplitFrom, SecondMessage, FirstCommon, EncodeParameters,
      ServerParameters, AllZero, SecretsOf;
    PskExpanded(c, t[2], o.psk);
    SealsInState(c, t[3], EncodeParameters(ServerParameters(o)));
    SecretsSplit(c, t[4], Server, h.first.sessionID, h.remoteStatic);
  }

  /** The initiator of message 2. */
  lemma FinishMixes(c: Crypto, o: Options, d: InitiatorDraw, s6: Symmetric, message: bytes)
    requires |o.remoteStatic| == 32 && InitiatorFinish(c, o, d, s6, message).Ok?
    ensures ParseSecond(message, o.minVersion, o.suites).Ok?
    ensures var q, f := ParseSecond(message, o.minVersion, o.suites).value, InitiatorFinish(c, o, d, s6, message).value;
            && ParseBox(q.rest).Ok?
            && SecondMixed(c, s6, f.trace, q.e, c.dh(d.ephemeral, q.e), c.dh(o.staticKey, q.e), o.psk,
                           ParseBox(q.rest).value)
            && (exists text :: OpenedIn(c, f.trace[3], ParseBox(q.rest).value, text)
                               && DecodeParameters(text) == Ok(f.outcome.parameters))
            && SplitFrom(c, f.outcome.secrets.sendKey, f.outcome.secrets.receiveKey, f.outcome.secrets.obfuscationKey,
                         f.trace[4])
  {
    var q, f := ParseSecond(message, o.minVersion, o.suites).value, InitiatorFinish(c, o, d, s6, message).value;
    hide MixKeyAndHash, DecryptAndHash, OpenedIn, Expanded, SplitFrom, ParseSecond, ParseBox, DecodeParameters, AllZero,
      SecretsOf;
    PskExpanded(c, f.trace[2], o.psk);
    OpensInState(c, f.trace[3], ParseBox(q.rest).value, BadParameters);
    SecretsSplit(c, f.trace[4], Client, d.sessionID, o.remoteStatic);
  }

  /** The session keys of the last state, byte by byte; `up` is the initiator's sending key. */
  ghost predicate SplitFrom(c: Crypto, up: bytes, down: bytes, mask: bytes, s: Symmetric) {
    && Expanded(c, up, s.chainingKey, s.hash, 0) && Expanded(c, down, s.chainingKey, s.hash, 32)
    && Expanded(c, mask, s.chainingKey, Ascii("obfuscation"), 0)
  }

  lemma SecretsSplit(c: Crypto, s: Symmetric, role: Role, sessionID: Block16, peer: Block32)
    ensures var k := SecretsOf(c, s, role, sessionID, peer);
            && SplitFrom(c, if role.Client? then k.sendKey else k.receiveKey,
                         if role.Client? then k.receiveKey else k.sendKey, k.obfuscationKey, s)
            && k.epoch == 1 && k.peerPublicKey == peer
  {
    hide Ascii;
  }

  /** Defaults replace exactly what is missing. */
  lemma OptionDefaults(o: Options)
    ensures var e := Effective(o);
            && (o.minVersion != 0 ==> e.minVersion == o.minVersion) && (o.minVersion == 0 ==> e.minVersion == 1)
            && (o.suites != [] ==> e.suites == o.suites) && (o.suites == [] ==> e.suites == [1])
            && e == o.(minVersion := e.minVersion, suites := e.suites)
    ensures SuiteOr(None) == 1 && forall s: uint16 :: SuiteOr(Some(s)) == s
    ensures var p := ServerParameters(o);
            && (o.keepAlive != 0 ==> p.keepAlive == o.keepAlive) && (o.keepAlive == 0 ==> p.keepAlive == 15_000_000_000)
            && (o.maxPadding != 0 ==> p.maxPadding == o.maxPadding) && (o.maxPadding == 0 ==> p.maxPadding == 96)
  {}

  // ---------------------------------------------------------------- common states have common inputs

  lemma SplitSum(h1: Block32, x1: bytes, h2: Block32, x2: bytes)
    ensures h1 + x1 == h2 + x2 ==> h1 == h2 && x1 == x2
  {
    if h1 + x1 == h2 + x2 {
      assert h1 == (h1 + x1)[..32] && x1 == (h1 + x1)[32..];
      assert h2 == (h2 + x2)[..32] && x2 == (h2 + x2)[32..];
    }
  }

  lemma ExpandedApart(c: Crypto, block: bytes, prk: bytes, info: bytes, prk': bytes, info': bytes)
    requires Expanded(c, block, prk, info, 0) && Expanded(c, block, prk', info', 0)
    requires ExpandApart(c, prk, info, prk', info')
    ensures prk == prk' && info == info'
  {
    forall j: nat | j < 32 ensures c.expand(prk, info, j) == c.expand(prk', info', j) {
      assert block[j] == c.expand(prk, info, 0 + j) == c.expand(prk', info', 0 + j);
    }
  }

  /** The primitives tell apart what the two sides put into message 1 up to the sealing of the static key. */
  ghost predicate SealApart(
    c: Crypto, t: seq<Symmetric>, u: seq<Symmetric>, rs: bytes, rs': bytes, e: bytes, e': bytes, es: bytes, es': bytes,
    psk: bytes, psk': bytes)
    requires |t| == |u| == 7
  {
    && HashApart(c, t[0].hash + rs, u[0].hash + rs') && HashApart(c, t[1].hash + e, u[1].hash + e')
    && MacApart(c, t[2].chainingKey, es, u[2].chainingKey, es')
    && HashApart(c, t[3].hash + psk, u[3].hash + psk')
    && ExpandApart(c, psk, t[3].chainingKey, psk', u[3].chainingKey)
  }

  /** One state at the sealing of the static key: the same responder key, ephemeral key, first shared secret and
      pre-shared key. */
  lemma SealStateBinds(
    c: Crypto, t: seq<Symmetric>, u: seq<Symmetric>, rs: bytes, rs': bytes, e: bytes, e': bytes, es: bytes, es': bytes,
    psk: bytes, psk': bytes, box: bytes, box': bytes, ss: bytes, ss': bytes)
    requires FirstMixed(c, t, rs, e, es, psk, box, ss) && FirstMixed(c, u, rs', e', es', psk', box', ss')
    requires SealApart(c, t, u, rs, rs', e, e', es, es', psk, psk')
    ensures t[4] == u[4] ==> rs == rs' && e == e' && es == es' && psk == psk'
  {
    SplitSum(t[0].hash, rs, u[0].hash, rs');
    SplitSum(t[1].hash, e, u[1].hash, e');
    SplitSum(t[3].hash, psk, u[3].hash, psk');
    if t[4] == u[4] { ExpandedApart(c, t[4].chainingKey, psk, t[3].chainingKey, psk', u[3].chainingKey); }
    hide Ascii, Expanded, ExpandApart;
  }

  /** One state behind message 1: besides those the same box and second shared secret. */
  lemma FirstStateBinds(
    c: Crypto, t: seq<Symmetric>, u: seq<Symmetric>, rs: bytes, rs': bytes, e: bytes, e': bytes, es: bytes, es': bytes,
    psk: bytes, psk': bytes, box: bytes, box': bytes, ss: bytes, ss': bytes)
    requires FirstMixed(c, t, rs, e, es, psk, box, ss) && FirstMixed(c, u, rs', e', es', psk', box', ss')
    requires HashApart(c, t[4].hash + box, u[4].hash + box')
    requires MacApart(c, t[5].chainingKey, ss, u[5].chainingKey, ss')
    ensures t[6] == u[6] ==> t[4] == u[4] && box == box' && ss == ss'
  {
    SplitSum(t[4].hash, box, u[4].hash, box');
    hide Ascii, Expanded;
  }

  ghost predicate SecondApart(
    c: Crypto, s: Symmetric, s': Symmetric, t: seq<Symmetric>, u: seq<Symmetric>, e: bytes, e': bytes, ee: bytes,
    ee': bytes, se: bytes, se': bytes, psk: bytes, psk': bytes)
    requires |t| == |u| == 5
  {
    && HashApart(c, s.hash + e, s'.hash + e')
    && MacApart(c, t[0].chainingKey, ee, u[0].chainingKey, ee')
    && MacApart(c, t[1].chainingKey, se, u[1].chainingKey, se')
    && HashApart(c, t[2].hash + psk, u[2].hash + psk')
    && ExpandApart(c, psk, t[2].chainingKey, psk', u[2].chainingKey)
  }

  /** One state at the sealing of the parameters: the same state behind message 1, and the same ephemeral key, third
      and fourth shared secret and pre-shared key. */
  lemma SecondStateBinds(
    c: Crypto, s: Symmetric, s': Symmetric, t: seq<Symmetric>, u: seq<Symmetric>, e: bytes, e': bytes, ee: bytes,
    ee': bytes, se: bytes, se': bytes, psk: bytes, psk': bytes, box: bytes, box': bytes)
    requires SecondMixed(c, s, t, e, ee, se, psk, box) && SecondMixed(c, s', u, e', ee', se', psk', box')
    requires SecondApart(c, s, s', t, u, e, e', ee, ee', se, se', psk, psk')
    ensures t[3] == u[3] ==> s == s' && e == e' && ee == ee' && se == se' && psk == psk'
  {
    SplitSum(s.hash, e, s'.hash, e');
    SplitSum(t[2].hash, psk, u[2].hash, psk');
    if t[3] == u[3] { ExpandedApart(c, t[3].chainingKey, psk, t[2].chainingKey, psk', u[2].chainingKey); }
    hide Expanded, ExpandApart;
  }

  // ---------------------------------------------------------------- a box that opens

  /** If this box opens at all, then as it was sealed. */
  ghost predicate OpensOnlyAsSealed(c: Crypto, s: Symmetric, s': Symmetric, box: bytes) {
    (exists text :: OpenedIn(c, s', box, text)) ==>
      s'.hash == s.hash && forall key: Block32, key': Block32 |
        && Expanded(c, key, s.chainingKey, Ascii("encryption"), 0)
        && Expanded(c, key', s'.chainingKey, Ascii("encryption"), 0) :: key == key'
  }

  lemma SameStateOpens(c: Crypto, s: Symmetric, s': Symmetric, box: bytes, text: bytes)
    requires OpensOnlyAsSealed(c, s, s', box) && OpenedIn(c, s', box, text)
    requires ExpandApart(c, s.chainingKey, Ascii("encryption"), s'.chainingKey, Ascii("encryption"))
    ensures s == s'
  {
    MessageKeyExpanded(c, s);
    MessageKeyExpanded(c, s');
    hide Ascii, GetU64, MessageKey, Expanded;
    assert MessageKey(c, s) == MessageKey(c, s');
    ExpandedApart(c, MessageKey(c, s), s.chainingKey, Ascii("encryption"), s'.chainingKey, Ascii("encryption"));
  }

  /** Message 1 authenticates: a responder that opens the initiator's box, if that opens only as it was sealed, has
      the very static key that the initiator meant, the same pre-shared key, ephemeral key and shared secret. */
  lemma FirstBoxBinds(c: Crypto, i: Options, r: Options, d: InitiatorDraw, message: bytes)
    requires InitiatorStart(c, i, d).Ok? && Hear(c, r, message).Ok?
    requires var s, h := InitiatorStart(c, i, d).value, Hear(c, r, message).value;
             && h.first.box == s.box && |s.trace| == |h.trace| == 7
             && OpensOnlyAsSealed(c, s.trace[4], h.trace[4], s.box)
             && ExpandApart(c, s.trace[4].chainingKey, Ascii("encryption"), h.trace[4].chainingKey, Ascii("encryption"))
             && |i.remoteStatic| == 32
             && SealApart(c, s.trace, h.trace, i.remoteStatic, c.publicKey(r.staticKey), c.publicKey(d.ephemeral),
                          h.first.e, c.dh(d.ephemeral, i.remoteStatic), c.dh(r.staticKey, h.first.e), i.psk, r.psk)
    ensures var h := Hear(c, r, message).value;
            && i.psk == r.psk && i.remoteStatic == c.publicKey(r.staticKey) && h.first.e == c.publicKey(d.ephemeral)
            && c.dh(d.ephemeral, i.remoteStatic) == c.dh(r.staticKey, h.first.e)
            && InitiatorStart(c, i, d).value.trace[4] == h.trace[4]
  {
    var s, h := InitiatorStart(c, i, d).value, Hear(c, r, message).value;
    InitiatorMixes(c, i, d);
    ResponderMixes(c, r, message);
    hide InitiatorStart, Hear, FirstMixed, SealApart, OpenedIn, SealedIn, OpensOnlyAsSealed, ExpandApart, Ascii,
      CopyKey;
    var text :| OpenedIn(c, h.trace[4], h.first.box, text) && h.remoteStatic == CopyKey(text);
    SameStateOpens(c, s.trace[4], h.trace[4], s.box, text);
    SealStateBinds(
      c, s.trace, h.trace, i.remoteStatic, c.publicKey(r.staticKey), c.publicKey(d.ephemeral), h.first.e,
      c.dh(d.ephemeral, i.remoteStatic), c.dh(r.staticKey, h.first.e), i.psk, r.psk, s.box, h.first.box,
      c.dh(i.staticKey, i.remoteStatic), c.dh(r.staticKey, h.remoteStatic));
  }

  /** Message 2 authenticates: an initiator that opens the responder's box, if that opens only as it was sealed, was
      in the responder's state behind message 1, and mixed the same ephemeral key, shared secrets and pre-shared key. */
  lemma SecondBoxBinds(
    c: Crypto, i: Options, r: Options, d: InitiatorDraw, s6: Symmetric, message: bytes, ephemeral: Block32, h: Heard)
    requires |i.remoteStatic| == 32 && InitiatorFinish(c, i, d, s6, message).Ok? && Answer(c, r, ephemeral, h).Ok?
    requires ParseSecond(message, i.minVersion, i.suites).Ok?
    requires var f, a := InitiatorFinish(c, i, d, s6, message).value, Answer(c, r, ephemeral, h).value;
             var e := ParseSecond(message, i.minVersion, i.suites).value.e;
             && ParseBox(ParseSecond(message, i.minVersion, i.suites).value.rest) == Ok(a.box)
             && |f.trace| == 5 && |a.trace| == |h.trace| + 5
             && var u := a.trace[|h.trace|..];
                && OpensOnlyAsSealed(c, u[3], f.trace[3], a.box)
                && ExpandApart(c, u[3].chainingKey, Ascii("encryption"), f.trace[3].chainingKey, Ascii("encryption"))
                && SecondApart(c, s6, h.last, f.trace, u, e, c.publicKey(ephemeral), c.dh(d.ephemeral, e),
                               c.dh(ephemeral, h.first.e), c.dh(i.staticKey, e), c.dh(ephemeral, h.remoteStatic),
                               i.psk, r.psk)
    ensures var e := ParseSecond(message, i.minVersion, i.suites).value.e;
            && s6 == h.last && e == c.publicKey(ephemeral) && i.psk == r.psk
            && c.dh(d.ephemeral, e) == c.dh(ephemeral, h.first.e)
            && c.dh(i.staticKey, e) == c.dh(ephemeral, h.remoteStatic)
  {
    var f, a := InitiatorFinish(c, i, d, s6, message).value, Answer(c, r, ephemeral, h).value;
    var q, u := ParseSecond(message, i.minVersion, i.suites).value, a.trace[|h.trace|..];
    FinishMixes(c, i, d, s6, message);
    AnswerMixes(c, r, ephemeral, h);
    hide InitiatorFinish, Answer, SecondMixed, SecondApart, OpenedIn, SealedIn, OpensOnlyAsSealed, ExpandApart, Ascii,
      ParseSecond, ParseBox, SplitFrom, EncodeParameters, ServerParameters, DecodeParameters;
    var text :| OpenedIn(c, f.trace[3], a.box, text) && DecodeParameters(text) == Ok(f.outcome.parameters);
    SameStateOpens(c, u[3], f.trace[3], a.box, text);
    SecondStateBinds(
      c, s6, h.last, f.trace, u, q.e, c.publicKey(ephemeral), c.dh(d.ephemeral, q.e), c.dh(ephemeral, h.first.e),
      c.dh(i.staticKey, q.e), c.dh(ephemeral, h.remoteStatic), i.psk, r.psk, a.box, a.box);
  }

  /** In particular, with different pre-shared keys the responder can only have opened the box under associated data
      under which it was not sealed, unless SHA-256 gives one hash for the two. */
  lemma MismatchedPskHeard(c: Crypto, i: Options, r: Options, d: InitiatorDraw, message: bytes)
    requires InitiatorStart(c, i, d).Ok? && Hear(c, r, message).Ok? && i.psk != r.psk
    ensures var s, h := InitiatorStart(c, i, d).value, Hear(c, r, message).value;
            && |s.trace| == |h.trace| == 7
            && (HashApart(c, s.trace[3].hash + i.psk, h.trace[3].hash + r.psk) ==> s.trace[4].hash != h.trace[4].hash)
            && exists text :: OpenedIn(c, h.trace[4], h.first.box, text)
  {
    var s, h := InitiatorStart(c, i, d).value, Hear(c, r, message).value;
    InitiatorMixes(c, i, d);
    ResponderMixes(c, r, message);
    SplitSum(s.trace[3].hash, i.psk, h.trace[3].hash, r.psk);
    hide InitiatorStart, Hear, OpenedIn, SealedIn, Ascii, CopyKey, Expanded;
  }

  // ---------------------------------------------------------------- a mismatched pair is refused

  /** An expansion that singles out two keys. */
  function Marking(key1: bytes, key2: bytes, mark: byte, other: byte): (bytes, bytes, nat) -> byte {
    (prk, info, j) => if prk == key1 || prk == key2 then mark else other
  }

  function Filled(b: byte): Block32 { seq(32, _ => b) }

  /** Lawful primitives under which the pre-shared keys `p` and `q` lead to different message keys. */
  function TellingApart(p: bytes, q: bytes): Crypto {
    var mark: byte := if q == Filled(2) then 4 else 2;
    var other: byte := if p == Filled(3) then 5 else 3;
    WithHmac((k, m) => Filled(1), 0).(expand := Marking(p, Filled(mark), mark, other))
  }

  lemma TellingApartLawful(p: bytes, q: bytes)
    ensures Lawful(TellingApart(p, q))
  {
    WithHmacLawful((k, m) => Filled(1), 0);
    hide KeyTag;
  }

  lemma MessageKeysTold(p: bytes, q: bytes, s: Symmetric, u: Symmetric)
    requires p != q
    ensures var c := TellingApart(p, q);
            KeyTag(MessageKey(c, MixKeyAndHash(c, s, p))) != KeyTag(MessageKey(c, MixKeyAndHash(c, u, q)))
  {
    var c := TellingApart(p, q);
    var mark: byte := if q == Filled(2) then 4 else 2;
    var other: byte := if p == Filled(3) then 5 else 3;
    var ckP, ckQ := MixKeyAndHash(c, s, p).chainingKey, MixKeyAndHash(c, u, q).chainingKey;
    assert ckP == Filled(mark);
    assert Filled(2)[0] == 2 && Filled(mark)[0] == mark && Filled(other)[0] == other;
    assert ckQ == Filled(other);
    assert MessageKey(c, MixKeyAndHash(c, s, p))[0] == mark && MessageKey(c, MixKeyAndHash(c, u, q))[0] == other;
  }

  /** The state in which the static key is sealed. */
  function AtSeal(c: Crypto, rs: bytes, e: bytes, es: bytes, psk: bytes): Symmetric {
    MixKeyAndHash(c, MixKey(c, MixHash(c, MixHash(c, Initialize(c, PROTOCOL_NAME), rs), e), es), psk)
  }

  lemma StartSeals(c: Crypto, o: Options, d: InitiatorDraw)
    requires |o.remoteStatic| == 32
    requires !AllZero(c.dh(d.ephemeral, o.remoteStatic)) && !AllZero(c.dh(o.staticKey, o.remoteStatic))
    ensures InitiatorStart(c, o, d).Ok?
    ensures var s, e := InitiatorStart(c, o, d).value, c.publicKey(d.ephemeral);
            && s.message == FirstMessage(FieldsOf(o, d), e, s.box)
            && s.box == EncryptAndHash(c, AtSeal(c, o.remoteStatic, e, c.dh(d.ephemeral, o.remoteStatic), o.psk),
                                       c.publicKey(o.staticKey)).0
  {
    hide Initialize, MixHash, MixKey, MixKeyAndHash, EncryptAndHash, FirstMessage, AllZero;
  }

  lemma HearRefuses(c: Crypto, o: Options, message: bytes)
    requires ParseFirst(message).Ok? && ParseFirst(message).value.box != []
    requires var m := ParseFirst(message).value;
             && !AllZero(c.dh(o.staticKey, m.e))
             && DecryptAndHash(c, AtSeal(c, c.publicKey(o.staticKey), m.e, c.dh(o.staticKey, m.e), o.psk), m.box,
                               BadStatic) == Err(BadStatic)
    ensures Hear(c, o, message) == Err(BadStatic)
  {
    hide Initialize, MixHash, MixKey, MixKeyAndHash, DecryptAndHash, ParseFirst, AllZero, CopyKey;
  }

  /** For every two different pre-shared keys there are lawful primitives under which a responder with the one refuses
      an initiator with the other, though that holds its real static key and nothing was altered. */
  lemma MismatchedPskRefused(i: Options, r: Options, d: InitiatorDraw)
    requires i.psk != r.psk && i.minVersion <= NOISE_VERSION && |i.suites| <= 255
    ensures exists c: Crypto :: Lawful(c) && RefusesMismatch(c, i, r, d)
  {
    var c := TellingApart(i.psk, r.psk);
    TellingApartLawful(i.psk, r.psk);
    hide Lawful;
    RefusedUnder(c, i.(remoteStatic := c.publicKey(r.staticKey)), r, d);
    assert RefusesMismatch(c, i, r, d);
  }

  lemma RefusedUnder(c: Crypto, i: Options, r: Options, d: InitiatorDraw)
    requires c == TellingApart(i.psk, r.psk) && i.remoteStatic == c.publicKey(r.staticKey)
    requires i.psk != r.psk && i.minVersion <= NOISE_VERSION && |i.suites| <= 255
    ensures InitiatorStart(c, i, d).Ok? && Hear(c, r, InitiatorStart(c, i, d).value.message) == Err(BadStatic)
  {
    var rs, e := c.publicKey(r.staticKey), c.publicKey(d.ephemeral);
    var one: Block32 := seq(32, _ => 1);
    assert rs == e == one && one[0] == 1;
    assert c.dh(d.ephemeral, rs) == c.dh(i.staticKey, rs) == c.dh(r.staticKey, e) == one;
    StartSeals(c, i, d);
    var s4, u4 := AtSeal(c, rs, e, one, i.psk), AtSeal(c, rs, e, one, r.psk);
    var text, box := c.publicKey(i.staticKey), InitiatorStart(c, i, d).value.box;
    var before := MixKey(c, MixHash(c, MixHash(c, Initialize(c, PROTOCOL_NAME), rs), e), one);
    MessageKeysTold(i.psk, r.psk, before, before);
    SealedElsewhere(c, i.psk, r.psk, s4, u4, text);
    assert |box| == 48;
    FirstMessageParses(FieldsOf(i, d), e, box);
    HearRefuses(c, r, InitiatorStart(c, i, d).value.message);
    hide TellingApart, AtSeal, MessageKey, InitiatorStart, Hear, Initialize, MixKeyAndHash, FirstMessage, ParseFirst;
  }

  lemma SealedElsewhere(c: Crypto, p: bytes, q: bytes, s: Symmetric, u: Symmetric, text: bytes)
    requires c == TellingApart(p, q) && KeyTag(MessageKey(c, s)) != KeyTag(MessageKey(c, u))
    ensures var box := EncryptAndHash(c, s, text).0;
            |box| == |text| + 16 && DecryptAndHash(c, u, box, BadStatic) == Err(BadStatic)
  {
    hide MessageKey, GetU64, KeyTag;
    var box := EncryptAndHash(c, s, text).0;
    assert box == text + KeyTag(MessageKey(c, s));
    assert box[|box| - 16..] == KeyTag(MessageKey(c, s));
  }

  ghost predicate RefusesMismatch(c: Crypto, i: Options, r: Options, d: InitiatorDraw) {
    var i' := i.(remoteStatic := c.publicKey(r.staticKey));
    && InitiatorStart(c, i', d).Ok?
    && Hear(c, r, InitiatorStart(c, i', d).value.message) == Err(BadStatic)
  }
}
