/** Protocol negotiation of crypto/negotiation.go: version, cipher suite and features.

`Offer`, `Respond` and `Conclude` specify what CreateOffer, ProcessOffer and ProcessResponse do to a
negotiation state; the class below updates its fields in place.
*/
module Negotiation {
  import opened Bits
  import opened Bytes
  import opened Wrappers
  import opened Primitives
  import opened CipherSuites

  datatype Config = Config(
    minVersion: byte, maxVersion: byte, suites: seq<uint16>,
    requirePFS: bool, requireAntiReplay: bool, requireObfuscation: bool,
    downgradeProtection: bool, signingKey: bytes)

  datatype State = State(config: Config, version: byte, suite: uint16, features: uint32, transcript: bytes)

  datatype Error =
    | TooShort | Truncated | ClientTooOld | ClientTooNew | NoCommonSuite | MissingPFS | MissingAntiReplay
    | MissingObfuscation | BadVersion | BadSuite | DowngradeDetected

  // Feature flags, by the number of their bit.
  const PFS: nat := 0
  const ANTI_REPLAY: nat := 1
  const OBFUSCATION: nat := 2
  const REKEYING: nat := 3
  const COMPRESSION: nat := 4
  const DOUBLE_RATCHET: nat := 5

  function New(config: Config): State { State(config, 0, 0, 0, []) }

  // ---------------------------------------------------------------- features

  function With(features: nat, wanted: bool, k: nat): nat {
    if wanted then Or(features, Pow2(k)) else features
  }

  function OfferedFeatures(c: Config): nat {
    var required := With(With(With(0, c.requirePFS, PFS), c.requireAntiReplay, ANTI_REPLAY), c.requireObfuscation,
                         OBFUSCATION);
    With(With(required, true, REKEYING), true, DOUBLE_RATCHET)
  }

  function NegotiateFeatures(c: Config, offered: nat): nat {
    And(With(OfferedFeatures(c), And(offered, Pow2(COMPRESSION)) != 0, COMPRESSION), offered)
  }

  function ValidateRequired(c: Config, features: nat): Result<(), Error> {
    if c.requirePFS && And(features, Pow2(PFS)) == 0 then Err(MissingPFS)
    else if c.requireAntiReplay && And(features, Pow2(ANTI_REPLAY)) == 0 then Err(MissingAntiReplay)
    else if c.requireObfuscation && And(features, Pow2(OBFUSCATION)) == 0 then Err(MissingObfuscation)
    else Ok(())
  }

  lemma WithBit(features: nat, wanted: bool, k: nat, d: nat)
    ensures Bit(With(features, wanted, k), d) == ((wanted && d == k) || Bit(features, d))
  {
    if wanted { OrFlag(features, k, d); }
  }

  /** A client offers what it requires, rekeying and the double ratchet; never compression. */
  lemma OfferedBits(c: Config, d: nat)
    ensures Bit(OfferedFeatures(c), d) <==>
            (c.requirePFS && d == 0) || (c.requireAntiReplay && d == 1) || (c.requireObfuscation && d == 2)
            || d == 3 || d == 5
  {
    var f1 := With(0, c.requirePFS, PFS);
    var f2 := With(f1, c.requireAntiReplay, ANTI_REPLAY);
    var f3 := With(f2, c.requireObfuscation, OBFUSCATION);
    var f4 := With(f3, true, REKEYING);
    BitOfZero(d);
    WithBit(0, c.requirePFS, PFS, d);
    WithBit(f1, c.requireAntiReplay, ANTI_REPLAY, d);
    WithBit(f2, c.requireObfuscation, OBFUSCATION, d);
    WithBit(f3, true, REKEYING, d);
    WithBit(f4, true, DOUBLE_RATCHET, d);
    hide With, Bit;
  }

  /** Negotiated features: offered by the client, and supported here or compression. */
  lemma NegotiatedBits(c: Config, offered: nat, d: nat)
    ensures Bit(NegotiateFeatures(c, offered), d) <==>
            Bit(offered, d) && (Bit(OfferedFeatures(c), d) || d == COMPRESSION)
  {
    TestFlag(offered, COMPRESSION);
    WithBit(OfferedFeatures(c), And(offered, Pow2(COMPRESSION)) != 0, COMPRESSION, d);
    var n := With(OfferedFeatures(c), And(offered, Pow2(COMPRESSION)) != 0, COMPRESSION);
    BitwiseBit(BoolAnd, n, offered, d);
    assert And(n, offered) == Bitwise(BoolAnd, n, offered);
    hide With, Bit, OfferedFeatures, And;
  }

  lemma RequiredMet(c: Config, features: nat)
    ensures ValidateRequired(c, features).Ok? <==>
            (c.requirePFS ==> Bit(features, PFS)) && (c.requireAntiReplay ==> Bit(features, ANTI_REPLAY))
            && (c.requireObfuscation ==> Bit(features, OBFUSCATION))
  {
    TestFlag(features, PFS);
    TestFlag(features, ANTI_REPLAY);
    TestFlag(features, OBFUSCATION);
    hide Bit, And;
  }

  lemma OfferedBound(c: Config)
    ensures OfferedFeatures(c) < TWO32
  {
    var f1 := With(0, c.requirePFS, PFS);
    var f2 := With(f1, c.requireAntiReplay, ANTI_REPLAY);
    var f3 := With(f2, c.requireObfuscation, OBFUSCATION);
    var f4 := With(f3, true, REKEYING);
    Pow2Values();
    Pow2Positive(8);
    assert Pow2(0) == 1 && Pow2(1) == 2 && Pow2(2) == 4 && Pow2(5) == 32;
    BitwiseBound(BoolOr, 0, 1, 8);
    BitwiseBound(BoolOr, f1, 2, 8);
    BitwiseBound(BoolOr, f2, 4, 8);
    BitwiseBound(BoolOr, f3, 8, 8);
    BitwiseBound(BoolOr, f4, 32, 8);
    hide Bitwise;
  }

  lemma NegotiatedBound(c: Config, offered: uint32)
    ensures NegotiateFeatures(c, offered) < TWO32
  {
    var n := With(OfferedFeatures(c), And(offered, Pow2(COMPRESSION)) != 0, COMPRESSION);
    hide OfferedFeatures;
    OfferedBound(c);
    Pow2Values();
    assert Pow2(COMPRESSION) == 16;
    BitwiseBound(BoolOr, OfferedFeatures(c), 16, 32);
    BitwiseBound(BoolAnd, n, offered, 32);
    hide Bitwise;
  }

  // ---------------------------------------------------------------- codecs

  datatype OfferMessage = OfferMessage(minVersion: byte, maxVersion: byte, suites: seq<uint16>, features: uint32)

  datatype ResponseMessage = ResponseMessage(version: byte, suite: uint16, features: uint32, proof: bytes)

  function EncodeOffer(m: OfferMessage): bytes {
    [m.minVersion, m.maxVersion, |m.suites| % 0x100] + SuiteBytes(m.suites) + U32(m.features)
  }

  function DecodeOffer(data: bytes): Result<OfferMessage, Error> {
    if |data| < 3 then Err(TooShort) else
    var count: int := data[2];
    if |data| < 3 + 2 * count + 4 then Err(Truncated)
    else Ok(OfferMessage(data[0], data[1], ParseSuites(data[3..3 + 2 * count], count), GetU32(data[3 + 2 * count..])))
  }

  function EncodeResponse(m: ResponseMessage): bytes {
    [m.version] + U16(m.suite) + U32(m.features) + [|m.proof| % 0x100] + m.proof
  }

  function DecodeResponse(data: bytes): Result<ResponseMessage, Error> {
    if |data| < 8 then Err(TooShort) else
    var proofLen: int := data[7];
    if |data| < 8 + proofLen then Err(Truncated)
    else Ok(ResponseMessage(data[0], GetU16(data[1..3]), GetU32(data[3..7]), data[8..8 + proofLen]))
  }

  /** An offer survives its encoding exactly when it lists at most 255 suites. */
  lemma OfferRoundTrip(m: OfferMessage)
    ensures DecodeOffer(EncodeOffer(m)) == Ok(m) <==> |m.suites| <= 255
  {
    hide SuiteBytes, ParseSuites, U32, GetU32;
    if |m.suites| <= 255 {
      var data, end := EncodeOffer(m), 3 + 2 * |m.suites|;
      assert data[3..end] == SuiteBytes(m.suites);
      assert data[end..] == U32(m.features) + [];
      SuitesRoundTrip(m.suites);
      U32RoundTrip(m.features, []);
    }
  }

  lemma ResponseRoundTrip(m: ResponseMessage)
    ensures DecodeResponse(EncodeResponse(m)) == Ok(m) <==> |m.proof| <= 255
  {
    if |m.proof| <= 255 {
      var data := EncodeResponse(m);
      assert data[1..3] == U16(m.suite) + [];
      assert data[3..7] == U32(m.features) + [];
      assert data[8..8 + |m.proof|] == m.proof;
      U16RoundTrip(m.suite, []);
      U32RoundTrip(m.features, []);
    }
  }

  /** Whatever decodes begins with the encoding of what it decodes to, and every string that begins so decodes. */
  lemma OfferReencodes(data: bytes)
    ensures DecodeOffer(data).Ok? <==> |data| >= 3 && |data| >= 7 + 2 * data[2] as int
    ensures DecodeOffer(data).Ok? ==> EncodeOffer(DecodeOffer(data).value) <= data
  {
    if DecodeOffer(data).Ok? {
      var m, end := DecodeOffer(data).value, 3 + 2 * data[2] as int;
      SuitesReencode(data[3..end], data[2]);
      U32Reencodes(data[end..]);
      hide ParseSuites, SuiteBytes, GetU32, U32;
      assert EncodeOffer(m) == [data[0], data[1], data[2]] + data[3..end] + data[end..][..4];
      assert data[..end + 4] == [data[0], data[1], data[2]] + data[3..end] + data[end..][..4];
    }
  }

  lemma ResponseReencodes(data: bytes)
    ensures DecodeResponse(data).Ok? <==> |data| >= 8 && |data| >= 8 + data[7] as int
    ensures DecodeResponse(data).Ok? ==> EncodeResponse(DecodeResponse(data).value) <= data
  {
    if DecodeResponse(data).Ok? {
      var m, end := DecodeResponse(data).value, 8 + data[7] as int;
      U16Reencodes(data[1..3]);
      U32Reencodes(data[3..7]);
      hide GetU16, U16, GetU32, U32;
      assert data[1..3][..2] == data[1..3] && data[3..7][..4] == data[3..7];
      assert EncodeResponse(m) == [data[0]] + data[1..3] + data[3..7] + [data[7]] + data[8..end];
      assert data[..end] == [data[0]] + data[1..3] + data[3..7] + [data[7]] + data[8..end];
    }
  }

  // ---------------------------------------------------------------- the three steps

  function DowngradeProof(c: Crypto, st: State): (proof: bytes)
    ensures |proof| == 16
  {
    c.hmac(st.config.signingKey,
           st.transcript + Ascii("downgrade protection") + [st.version] + U16(st.suite) + U32(st.features))[..16]
  }

  function Offer(st: State): (bytes, State) {
    OfferedBound(st.config);
    var data := EncodeOffer(OfferMessage(st.config.minVersion, st.config.maxVersion, st.config.suites,
                                         OfferedFeatures(st.config)));
    (data, st.(transcript := st.transcript + data))
  }

  /** The server's side. Fields set before an error stay set. */
  function Respond(c: Crypto, st: State, data: bytes): (Result<bytes, Error>, State) {
    var st := st.(transcript := st.transcript + data);
    match DecodeOffer(data)
    case Err(e) => (Err(e), st)
    case Ok(offer) =>
      if offer.maxVersion < st.config.minVersion then (Err(ClientTooOld), st)
      else if offer.minVersion > st.config.maxVersion then (Err(ClientTooNew), st)
      else
        var v := MinByte(offer.maxVersion, st.config.maxVersion);
        var st := st.(version := if v < st.config.minVersion then st.config.minVersion else v);
        match FirstCommon(st.config.suites, offer.suites)
        case None => (Err(NoCommonSuite), st)
        case Some(suite) =>
          NegotiatedBound(st.config, offer.features);
          var st := st.(suite := suite, features := NegotiateFeatures(st.config, offer.features));
          match ValidateRequired(st.config, st.features)
          case Err(e) => (Err(e), st)
          case Ok(_) =>
            var proof := if st.config.downgradeProtection then DowngradeProof(c, st) else [];
            var reply := EncodeResponse(ResponseMessage(st.version, st.suite, st.features, proof));
            (Ok(reply), st.(transcript := st.transcript + reply))
  }

  /** The client's side. */
  function Conclude(c: Crypto, st: State, data: bytes): (Result<(), Error>, State) {
    var st := st.(transcript := st.transcript + data);
    match DecodeResponse(data)
    case Err(e) => (Err(e), st)
    case Ok(m) =>
      if m.version < st.config.minVersion || m.version > st.config.maxVersion then (Err(BadVersion), st)
      else
        var st := st.(version := m.version);
        if m.suite !in st.config.suites then (Err(BadSuite), st)
        else
          var st := st.(suite := m.suite, features := m.features);
          match ValidateRequired(st.config, st.features)
          case Err(e) => (Err(e), st)
          case Ok(_) =>
            if st.config.downgradeProtection && m.proof != DowngradeProof(c, st) then (Err(DowngradeDetected), st)
            else (Ok(()), st)
  }

  // ---------------------------------------------------------------- any offer and any response

  /** The features that a party requires, by the numbers of their bits, are among those given. */
  ghost predicate RequiredIn(config: Config, features: nat) {
    && (config.requirePFS ==> Bit(features, 0)) && (config.requireAntiReplay ==> Bit(features, 1))
    && (config.requireObfuscation ==> Bit(features, 2))
  }

  /** The proof over a transcript and what was agreed. */
  function ProofOver(c: Crypto, key: bytes, transcript: bytes, version: byte, suite: uint16, features: uint32): bytes {
    c.hmac(key, transcript + Ascii("downgrade protection") + [version] + U16(suite) + U32(features))[..16]
  }

  /** The client accepts exactly those responses, from anyone, that decode to a version in its range, a suite in its
      list and all the features it requires, with the right proof if it checks that; it then holds just these. */
  lemma ConcludeDecides(c: Crypto, st: State, data: bytes)
    ensures var (r, st') := Conclude(c, st, data);
            && st'.transcript == st.transcript + data && st'.config == st.config
            && (r.Ok? <==>
                  DecodeResponse(data).Ok? &&
                  var m := DecodeResponse(data).value;
                  && st.config.minVersion <= m.version <= st.config.maxVersion && m.suite in st.config.suites
                  && RequiredIn(st.config, m.features)
                  && (st.config.downgradeProtection ==>
                        m.proof == ProofOver(c, st.config.signingKey, st.transcript + data, m.version, m.suite,
                                             m.features)))
            && (r.Ok? ==>
                  var m := DecodeResponse(data).value;
                  st'.version == m.version && st'.suite == m.suite && st'.features == m.features)
  {
    hide DecodeResponse, ValidateRequired, U16, U32, Ascii, RequiredIn;
    if DecodeResponse(data).Ok? { RequiredBits(st.config, DecodeResponse(data).value.features); }
  }

  lemma RequiredBits(config: Config, features: nat)
    ensures ValidateRequired(config, features).Ok? <==> RequiredIn(config, features)
  {
    RequiredMet(config, features);
    hide Bit, ValidateRequired;
  }

  /** The server answers exactly those offers, from anyone, that decode to versions and suites that meet its own and
      contain all the features it requires. */
  lemma RespondDecides(c: Crypto, st: State, data: bytes)
    ensures Respond(c, st, data).0.Ok? <==>
            DecodeOffer(data).Ok? &&
            var m := DecodeOffer(data).value;
            && m.maxVersion >= st.config.minVersion && m.minVersion <= st.config.maxVersion
            && (exists s :: s in st.config.suites && s in m.suites)
            && RequiredIn(st.config, m.features)
  {
    hide DecodeOffer, ValidateRequired, NegotiateFeatures, FirstCommon, EncodeResponse, DowngradeProof, RequiredIn;
    if DecodeOffer(data).Ok? {
      var m := DecodeOffer(data).value;
      FirstCommonIsCommon(st.config.suites, m.suites);
      NegotiatedRequired(st.config, m.features);
    }
  }

  /** What is negotiated contains the required features exactly when the offer does. */
  lemma NegotiatedRequired(config: Config, offered: nat)
    ensures ValidateRequired(config, NegotiateFeatures(config, offered)).Ok? <==> RequiredIn(config, offered)
  {
    RequiredBits(config, NegotiateFeatures(config, offered));
    NegotiatedBits(config, offered, 0);
    NegotiatedBits(config, offered, 1);
    NegotiatedBits(config, offered, 2);
    OfferedBits(config, 0);
    OfferedBits(config, 1);
    OfferedBits(config, 2);
    hide Bit, ValidateRequired, NegotiateFeatures, OfferedFeatures;
  }

  /** The lower of the two highest versions, but not below the server's lowest. */
  ghost function Chosen(config: Config, offered: byte): byte {
    var top := if offered < config.maxVersion then offered else config.maxVersion;
    if top < config.minVersion then config.minVersion else top
  }

  /** What the server then holds and answers. */
  lemma RespondHolds(c: Crypto, st: State, data: bytes)
    requires Respond(c, st, data).0.Ok?
    ensures DecodeOffer(data).Ok?
    ensures var m, (r, st') := DecodeOffer(data).value, Respond(c, st, data);
            && st'.version == Chosen(st.config, m.maxVersion)
            && (exists k :: 0 <= k < |st.config.suites| && st.config.suites[k] == st'.suite && st'.suite in m.suites
                            && forall j | 0 <= j < k :: st.config.suites[j] !in m.suites)
            && (forall d: nat :: Bit(st'.features, d) <==>
                                 Bit(m.features, d) && (Bit(OfferedFeatures(st.config), d) || d == 4))
            && var proof := if !st.config.downgradeProtection then []
                            else ProofOver(c, st.config.signingKey, st.transcript + data, st'.version, st'.suite,
                                           st'.features);
               r.value == EncodeResponse(ResponseMessage(st'.version, st'.suite, st'.features, proof))
               && st'.transcript == st.transcript + data + r.value && st'.config == st.config
  {
    hide DecodeOffer, ValidateRequired, NegotiateFeatures, FirstCommon, EncodeResponse, U16, U32, Ascii, Bit,
      OfferedFeatures;
    var m, st' := DecodeOffer(data).value, Respond(c, st, data).1;
    FirstCommonPosition(st.config.suites, m.suites);
    FirstCommonIsCommon(st.config.suites, m.suites);
    forall d: nat
      ensures Bit(st'.features, d) <==> Bit(m.features, d) && (Bit(OfferedFeatures(st.config), d) || d == 4)
    {
      NegotiatedBits(st.config, m.features, d);
    }
  }

  /** A refused response leaves behind what was already taken from it. */
  lemma ConcludeErrors(c: Crypto, st: State, data: bytes)
    requires Conclude(c, st, data).0.Err?
    ensures var (r, st'), read := Conclude(c, st, data), st.(transcript := st.transcript + data);
            if DecodeResponse(data).Err? then r.error == DecodeResponse(data).error && st' == read
            else
              var m := DecodeResponse(data).value;
              if m.version < st.config.minVersion || m.version > st.config.maxVersion then
                r.error == BadVersion && st' == read
              else if m.suite !in st.config.suites then r.error == BadSuite && st' == read.(version := m.version)
              else
                && st' == read.(version := m.version, suite := m.suite, features := m.features)
                && r.error == MissingOr(st.config, m.features, DowngradeDetected)
  {
    hide DecodeResponse, ValidateRequired, DowngradeProof, MissingOr;
    if DecodeResponse(data).Ok? { FirstMissing(st.config, DecodeResponse(data).value.features, DowngradeDetected); }
  }

  /** The first required feature that is missing, in the order of their bits. */
  ghost function MissingOr(config: Config, features: nat, otherwise: Error): Error {
    if config.requirePFS && !Bit(features, 0) then MissingPFS
    else if config.requireAntiReplay && !Bit(features, 1) then MissingAntiReplay
    else if config.requireObfuscation && !Bit(features, 2) then MissingObfuscation
    else otherwise
  }

  lemma FirstMissing(config: Config, features: nat, otherwise: Error)
    ensures var r := ValidateRequired(config, features);
            if r.Err? then r.error == MissingOr(config, features, otherwise)
            else MissingOr(config, features, otherwise) == otherwise
  {
    TestFlag(features, PFS);
    TestFlag(features, ANTI_REPLAY);
    TestFlag(features, OBFUSCATION);
    hide Bit, And;
  }

  /** So does a refused offer. */
  lemma RespondErrors(c: Crypto, st: State, data: bytes)
    requires Respond(c, st, data).0.Err?
    ensures var (r, st'), read := Respond(c, st, data), st.(transcript := st.transcript + data);
            if DecodeOffer(data).Err? then r.error == DecodeOffer(data).error && st' == read
            else
              var m := DecodeOffer(data).value;
              if m.maxVersion < st.config.minVersion then r.error == ClientTooOld && st' == read
              else if m.minVersion > st.config.maxVersion then r.error == ClientTooNew && st' == read
              else if forall s | s in st.config.suites :: s !in m.suites then
                r.error == NoCommonSuite && st' == read.(version := Chosen(st.config, m.maxVersion))
              else
                && st' == read.(version := Chosen(st.config, m.maxVersion), suite := st'.suite,
                                features := st'.features)
                && FirstCommon(st.config.suites, m.suites) == Some(st'.suite)
                && st'.features == NegotiateFeatures(st.config, m.features)
                && r.error == MissingOr(st.config, st'.features, NoCommonSuite)
  {
    hide DecodeOffer, ValidateRequired, NegotiateFeatures, FirstCommon, EncodeResponse, DowngradeProof, MissingOr;
    if DecodeOffer(data).Ok? {
      var m := DecodeOffer(data).value;
      FirstCommonIsCommon(st.config.suites, m.suites);
      FirstMissing(st.config, NegotiateFeatures(st.config, m.features), NoCommonSuite);
    }
  }

  // ---------------------------------------------------------------- an honest pair

  datatype Ending = Agreed(client: State, server: State) | Failed

  /** Offer, response and conclusion between a client and a server. */
  function Negotiate(c: Crypto, client: Config, server: Config): Ending {
    var (offer, cl) := Offer(New(client));
    match Respond(c, New(server), offer)
    case (Err(_), _) => Failed
    case (Ok(reply), sv) =>
      match Conclude(c, cl, reply)
      case (Err(_), _) => Failed
      case (Ok(_), cl') => Agreed(cl', sv)
  }

  ghost predicate WellFormed(c: Config) {
    c.minVersion <= c.maxVersion && |c.suites| <= 255
  }

  ghost predicate Compatible(client: Config, server: Config) {
    && client.minVersion <= server.maxVersion && server.minVersion <= client.maxVersion
    && (exists s :: s in client.suites && s in server.suites)
    && client.requirePFS == server.requirePFS
    && client.requireAntiReplay == server.requireAntiReplay
    && client.requireObfuscation == server.requireObfuscation
  }

  /** What a compatible pair agrees on. */
  function Common(client: Config, server: Config): (byte, uint16, nat) {
    (MinByte(client.maxVersion, server.maxVersion),
     match FirstCommon(server.suites, client.suites) case None => 0 case Some(s) => s,
     NegotiateFeatures(server, OfferedFeatures(client)))
  }

  function OfferOf(client: Config): bytes { Offer(New(client)).0 }

  /** The server's state when it computes its proof. */
  function ServerAgreed(client: Config, server: Config): State {
    OfferedBound(client);
    NegotiatedBound(server, OfferedFeatures(client));
    var (version, suite, features) := Common(client, server);
    State(server, version, suite, features, OfferOf(client))
  }

  function ServerProof(c: Crypto, client: Config, server: Config): bytes {
    if server.downgradeProtection then DowngradeProof(c, ServerAgreed(client, server)) else []
  }

  function ReplyOf(c: Crypto, client: Config, server: Config): bytes {
    var st := ServerAgreed(client, server);
    EncodeResponse(ResponseMessage(st.version, st.suite, st.features, ServerProof(c, client, server)))
  }

  /** The client's state when it checks that proof: its transcript already holds the response. */
  function ClientAgreed(c: Crypto, client: Config, server: Config): State {
    ServerAgreed(client, server).(config := client, transcript := OfferOf(client) + ReplyOf(c, client, server))
  }

  lemma FeaturesMeetBoth(client: Config, server: Config)
    ensures var f := NegotiateFeatures(server, OfferedFeatures(client));
            ValidateRequired(server, f).Ok? && ValidateRequired(client, f).Ok? <==>
            client.requirePFS == server.requirePFS && client.requireAntiReplay == server.requireAntiReplay
            && client.requireObfuscation == server.requireObfuscation
  {
    var f := NegotiateFeatures(server, OfferedFeatures(client));
    RequiredMet(server, f);
    RequiredMet(client, f);
    FeatureBits(client, server, PFS);
    FeatureBits(client, server, ANTI_REPLAY);
    FeatureBits(client, server, OBFUSCATION);
    hide ValidateRequired, Bit, NegotiateFeatures, OfferedFeatures;
  }

  /** A feature is agreed on exactly when both sides offer it. */
  lemma FeatureBits(client: Config, server: Config, d: nat)
    ensures Bit(NegotiateFeatures(server, OfferedFeatures(client)), d) <==>
            Bit(OfferedFeatures(client), d) && Bit(OfferedFeatures(server), d)
    ensures Bit(OfferedFeatures(client), d) <==>
            (client.requirePFS && d == PFS) || (client.requireAntiReplay && d == ANTI_REPLAY)
            || (client.requireObfuscation && d == OBFUSCATION) || d == REKEYING || d == DOUBLE_RATCHET
    ensures Bit(OfferedFeatures(server), d) <==>
            (server.requirePFS && d == PFS) || (server.requireAntiReplay && d == ANTI_REPLAY)
            || (server.requireObfuscation && d == OBFUSCATION) || d == REKEYING || d == DOUBLE_RATCHET
  {
    NegotiatedBits(server, OfferedFeatures(client), d);
    OfferedBits(client, d);
    OfferedBits(server, d);
    hide Bit, NegotiateFeatures, OfferedFeatures;
  }

  lemma ServerResponds(c: Crypto, client: Config, server: Config)
    requires WellFormed(client) && WellFormed(server)
    ensures var (r, st) := Respond(c, New(server), OfferOf(client));
            && (r.Ok? <==> client.minVersion <= server.maxVersion && server.minVersion <= client.maxVersion
                           && FirstCommon(server.suites, client.suites).Some?
                           && ValidateRequired(server, NegotiateFeatures(server, OfferedFeatures(client))).Ok?)
            && (r.Ok? ==> r.value == ReplyOf(c, client, server)
                          && st == ServerAgreed(client, server).(transcript := OfferOf(client) + r.value))
  {
    hide EncodeOffer, DecodeOffer, OfferedFeatures, NegotiateFeatures, ValidateRequired, DowngradeProof, FirstCommon,
      EncodeResponse, Pow2;
    OfferedBound(client);
    NegotiatedBound(server, OfferedFeatures(client));
    var m := OfferMessage(client.minVersion, client.maxVersion, client.suites, OfferedFeatures(client));
    OfferRoundTrip(m);
    var data := OfferOf(client);
    assert DecodeOffer(data) == Ok(m);
    assert [] + data == data;
    hide OfferOf;
  }

  lemma ClientConcludes(c: Crypto, client: Config, server: Config)
    requires WellFormed(client) && WellFormed(server)
    requires client.minVersion <= server.maxVersion && server.minVersion <= client.maxVersion
    requires FirstCommon(server.suites, client.suites).Some?
    ensures var (r, st) := Conclude(c, Offer(New(client)).1, ReplyOf(c, client, server));
            && (r.Ok? <==> ValidateRequired(client, NegotiateFeatures(server, OfferedFeatures(client))).Ok?
                           && (client.downgradeProtection ==>
                                 ServerProof(c, client, server) == DowngradeProof(c, ClientAgreed(c, client, server))))
            && (r.Ok? ==> st == ClientAgreed(c, client, server))
  {
    hide EncodeOffer, EncodeResponse, DecodeResponse, OfferedFeatures, NegotiateFeatures, ValidateRequired,
      DowngradeProof, FirstCommon, Pow2;
    OfferedBound(client);
    NegotiatedBound(server, OfferedFeatures(client));
    FirstCommonIsCommon(server.suites, client.suites);
    var agreed, proof := ServerAgreed(client, server), ServerProof(c, client, server);
    ResponseRoundTrip(ResponseMessage(agreed.version, agreed.suite, agreed.features, proof));
    var cl := Offer(New(client)).1;
    assert cl.transcript == OfferOf(client);
    hide OfferOf;
  }

  /** For well-formed configurations negotiation completes on both sides exactly when the version ranges meet,
      the suite lists intersect, the three required features agree and, if the client asks for it, its
      downgrade check holds; then both sides hold the same parameters. */
  lemma NegotiationOutcome(c: Crypto, client: Config, server: Config)
    requires WellFormed(client) && WellFormed(server)
    ensures Negotiate(c, client, server).Agreed? <==>
            && Compatible(client, server)
            && (client.downgradeProtection ==>
                  ServerProof(c, client, server) == DowngradeProof(c, ClientAgreed(c, client, server)))
    ensures var r := Negotiate(c, client, server);
            r.Agreed? ==>
              && (r.client.version, r.client.suite, r.client.features) == Common(client, server)
              && (r.server.version, r.server.suite, r.server.features) == Common(client, server)
              && r.client.transcript == r.server.transcript
  {
    ServerResponds(c, client, server);
    FirstCommonIsCommon(server.suites, client.suites);
    FeaturesMeetBoth(client, server);
    hide Respond, Conclude, ValidateRequired, FirstCommon, OfferedFeatures, NegotiateFeatures, DowngradeProof,
      EncodeOffer, EncodeResponse;
    if Respond(c, New(server), OfferOf(client)).0.Ok? {
      ClientConcludes(c, client, server);
    }
  }

  predicate Accepts(c: Config, version: byte) { c.minVersion <= version <= c.maxVersion }

  /** The common parameters are the best ones: the highest version in both ranges, and the suite that comes
      first in the server's list among those the client offered. */
  lemma CommonIsBest(client: Config, server: Config)
    requires WellFormed(client) && WellFormed(server) && Compatible(client, server)
    ensures var (version, suite, _) := Common(client, server);
            && Accepts(client, version) && Accepts(server, version)
            && (forall v: byte | Accepts(client, v) && Accepts(server, v) :: v <= version)
            && exists k :: 0 <= k < |server.suites| && server.suites[k] == suite && suite in client.suites
                           && forall j | 0 <= j < k :: server.suites[j] !in client.suites
  {
    FirstCommonPosition(server.suites, client.suites);
    FirstCommonIsCommon(server.suites, client.suites);
    hide NegotiateFeatures, OfferedFeatures;
  }

  /** An honest pair with the client's downgrade check on: without a proof from the server it always fails,
      and with one it completes only if the server's key over its shorter input and the client's key over its
      longer input give the same 16 bytes, for the client has already appended the response to its
      transcript. The two inputs are never equal. */
  lemma DowngradeCheckOfHonestPair(c: Crypto, client: Config, server: Config)
    requires WellFormed(client) && WellFormed(server) && client.downgradeProtection
    ensures !server.downgradeProtection ==> Negotiate(c, client, server) == Failed
    ensures server.downgradeProtection ==>
              (Negotiate(c, client, server).Agreed? <==>
                 Compatible(client, server)
                 && DowngradeProof(c, ServerAgreed(client, server))
                    == DowngradeProof(c, ClientAgreed(c, client, server)))
    ensures ServerAgreed(client, server).transcript < ClientAgreed(c, client, server).transcript
  {
    NegotiationOutcome(c, client, server);
    assert |ReplyOf(c, client, server)| > 0;
    hide Negotiate, Compatible, DowngradeProof;
  }

  /** A lawful choice of primitives whose keyed hash is the length of the message, modulo 256. */
  function LengthCrypto(): Crypto {
    WithHmac((key, message) => seq(32, _ => |message| % 0x100), 0)
  }

  /** It happens: under those primitives no honest pair completes with both downgrade checks on, though without
      the client's check every compatible pair does. */
  lemma HonestPairRefused(client: Config, server: Config)
    requires WellFormed(client) && WellFormed(server) && server.downgradeProtection
    ensures Lawful(LengthCrypto())
    ensures client.downgradeProtection ==> Negotiate(LengthCrypto(), client, server) == Failed
    ensures !client.downgradeProtection && Compatible(client, server) ==>
              Negotiate(LengthCrypto(), client, server).Agreed?
  {
    WithHmacLawful((key, message) => seq(32, _ => |message| % 0x100), 0);
    hide Lawful, LengthCrypto, Negotiate, DowngradeProof, Compatible, WellFormed, ServerAgreed, ClientAgreed;
    var c := LengthCrypto();
    if client.downgradeProtection {
      DowngradeCheckOfHonestPair(c, client, server);
      ProofsDiffer(client, server);
    } else {
      NegotiationOutcome(c, client, server);
    }
  }

  lemma ProofsDiffer(client: Config, server: Config)
    requires server.downgradeProtection
    ensures var c := LengthCrypto();
            DowngradeProof(c, ServerAgreed(client, server)) != DowngradeProof(c, ClientAgreed(c, client, server))
  {
    var c := LengthCrypto();
    var a, b := ServerAgreed(client, server), ClientAgreed(c, client, server);
    hide LengthCrypto, ServerAgreed, ClientAgreed, DowngradeProof;
    ReplyLength(c, client, server);
    ProofIsLength(a);
    ProofIsLength(b);
  }

  lemma ReplyLength(c: Crypto, client: Config, server: Config)
    requires server.downgradeProtection
    ensures |ClientAgreed(c, client, server).transcript| == |ServerAgreed(client, server).transcript| + 24
  {
    hide OfferOf, Common, DowngradeProof, U16, U32, OfferedFeatures, NegotiateFeatures;
    assert |ReplyOf(c, client, server)| == 24;
  }

  lemma ProofIsLength(st: State)
    ensures DowngradeProof(LengthCrypto(), st)[0] == (|st.transcript| + 20 + 1 + 2 + 4) % 0x100
  {}

  // ---------------------------------------------------------------- the object

  /** decodeOffer with its suite loop. */
  method ReadOffer(data: bytes) returns (r: Result<OfferMessage, Error>)
    ensures r == DecodeOffer(data)
  {
    if |data| < 3 { return Err(TooShort); }
    var count: int := data[2];
    var offset := 3;
    if |data| < offset + count * 2 + 4 { return Err(Truncated); }
    var suites := ReadSuites(data, offset, count);
    offset := offset + 2 * count;
    var features := GetU32(data[offset..]);
    return Ok(OfferMessage(data[0], data[1], suites, features));
  }

  class NegotiationState {
    const crypto: Crypto
    const config: Config
    var agreedVersion: byte
    var agreedCipher: uint16
    var agreedFeatures: uint32
    var transcript: bytes

    ghost function Abstract(): State
      reads this
    {
      State(config, agreedVersion, agreedCipher, agreedFeatures, transcript)
    }

    constructor (c: Crypto, cfg: Config)
      ensures crypto == c && Abstract() == New(cfg)
    {
      crypto, config, agreedVersion, agreedCipher, agreedFeatures, transcript := c, cfg, 0, 0, 0, [];
    }

    method CreateOffer() returns (data: bytes)
      modifies this
      ensures (data, Abstract()) == Offer(old(Abstract()))
    {
      OfferedBound(config);
      hide OfferedFeatures, SuiteBytes;
      var features := OfferedFeatures(config);
      var suites := WriteSuites(config.suites);
      data := [config.minVersion, config.maxVersion, |config.suites| % 0x100] + suites + U32(features);
      transcript := transcript + data;
    }

    method ProcessOffer(data: bytes) returns (r: Result<bytes, Error>)
      modifies this
      ensures (r, Abstract()) == Respond(crypto, old(Abstract()), data)
    {
      hide DecodeOffer, NegotiateFeatures, ValidateRequired, FirstCommon, DowngradeProof, EncodeResponse;
      transcript := transcript + data;
      var offer :- ReadOffer(data);
      if offer.maxVersion < config.minVersion { return Err(ClientTooOld); }
      if offer.minVersion > config.maxVersion { return Err(ClientTooNew); }
      agreedVersion := MinByte(offer.maxVersion, config.maxVersion);
      if agreedVersion < config.minVersion { agreedVersion := config.minVersion; }
      var found := FindCommon(config.suites, offer.suites);
      match found {
        case None => return Err(NoCommonSuite);
        case Some(suite) => agreedCipher := suite;
      }
      NegotiatedBound(config, offer.features);
      agreedFeatures := NegotiateFeatures(config, offer.features);
      var _ :- ValidateRequired(config, agreedFeatures);
      var proof := [];
      if config.downgradeProtection {
        proof := DowngradeProof(crypto, State(config, agreedVersion, agreedCipher, agreedFeatures, transcript));
      }
      var reply := EncodeResponse(ResponseMessage(agreedVersion, agreedCipher, agreedFeatures, proof));
      transcript := transcript + reply;
      r := Ok(reply);
    }

    method ProcessResponse(data: bytes) returns (r: Result<(), Error>)
      modifies this
      ensures (r, Abstract()) == Conclude(crypto, old(Abstract()), data)
    {
      hide DecodeResponse, ValidateRequired, DowngradeProof;
      transcript := transcript + data;
      var response :- DecodeResponse(data);
      if response.version < config.minVersion || response.version > config.maxVersion { return Err(BadVersion); }
      agreedVersion := response.version;
      var valid := false;
      for i := 0 to |config.suites|
        invariant valid <==> response.suite in config.suites[..i]
      {
        if config.suites[i] == response.suite {
          valid := true;
          break;
        }
      }
      if !valid { return Err(BadSuite); }
      agreedCipher := response.suite;
      agreedFeatures := response.features;
      var _ :- ValidateRequired(config, agreedFeatures);
      if config.downgradeProtection {
        var expected := DowngradeProof(crypto, State(config, agreedVersion, agreedCipher, agreedFeatures, transcript));
        if response.proof != expected { return Err(DowngradeDetected); }
      }
      r := Ok(());
    }
  }
}
