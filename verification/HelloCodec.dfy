/** The three handshake messages of crypto/keyexchange.go and their byte codecs. */
module HelloCodec {
  import opened Bits
  import opened Bytes
  import opened Wrappers
  import opened SessionSecrets

  const VERSION: byte := 1
  const CLIENT_HELLO: byte := 1
  const SERVER_HELLO: byte := 2
  const COOKIE: byte := 3
  const HAS_COOKIE: byte := 1

  datatype ClientHello = ClientHello(
    flags: byte, sessionID: Block16, publicKey: Block32, cookie: bytes, padding: bytes, mac: Block16)

  datatype ServerHello = ServerHello(
    flags: byte, sessionID: Block16, publicKey: Block32, keepAlive: int, maxPadding: byte, padding: bytes, mac: Block16)

  datatype CookieMessage = CookieMessage(sessionID: Block16, cookie: bytes)

  datatype CodecError = TooShort | WrongType | WrongVersion | Truncated | TruncatedPadding

  function CookieFlag(cookie: bytes): byte { if |cookie| > 0 then HAS_COOKIE else 0 }

  function EncodeClientHello(sessionID: Block16, publicKey: Block32, cookie: bytes, padding: bytes, mac: Block16)
    : bytes
  {
    [CLIENT_HELLO, VERSION, CookieFlag(cookie)] + sessionID + publicKey
    + [|cookie| % 0x100] + cookie + [|padding| % 0x100] + padding + mac
  }

  function DecodeClientHello(payload: bytes): Result<ClientHello, CodecError> {
    if |payload| < 68 then Err(TooShort)
    else if payload[0] != CLIENT_HELLO then Err(WrongType)
    else if payload[1] != VERSION then Err(WrongVersion)
    else
      var cookieLen: int := payload[51];
      if |payload| < 52 + cookieLen + 17 then Err(Truncated) else
      var offset := 52 + cookieLen;
      var paddingLen: int := payload[offset];
      if |payload| < offset + 1 + paddingLen + 16 then Err(TruncatedPadding) else
      var end := offset + 1 + paddingLen;
      Ok(ClientHello(payload[2], payload[3..19], payload[19..51], payload[52..offset], payload[offset + 1..end],
                     payload[end..end + 16]))
  }

  function EncodeServerHello(
    sessionID: Block16, publicKey: Block32, keepAliveMillis: uint16, maxPadding: byte, padding: bytes,
    mac: Block16): bytes
  {
    [SERVER_HELLO, VERSION, 0] + sessionID + publicKey
    + [maxPadding] + U16(keepAliveMillis) + [|padding| % 0x100] + padding + mac
  }

  function DecodeServerHello(payload: bytes): Result<ServerHello, CodecError> {
    if |payload| < 71 then Err(TooShort)
    else if payload[0] != SERVER_HELLO then Err(WrongType)
    else if payload[1] != VERSION then Err(WrongVersion)
    else
      var paddingLen: int := payload[54];
      if |payload| < 55 + paddingLen + 16 then Err(Truncated) else
      var end := 55 + paddingLen;
      Ok(ServerHello(payload[2], payload[3..19], payload[19..51], GetU16(payload[52..54]) * MILLISECOND, payload[51],
                     payload[55..end], payload[end..end + 16]))
  }

  function EncodeCookie(sessionID: Block16, cookie: bytes): bytes {
    [COOKIE, VERSION, 0] + sessionID + [|cookie| % 0x100] + cookie
  }

  function DecodeCookie(payload: bytes): Result<CookieMessage, CodecError> {
    if |payload| < 20 then Err(TooShort)
    else if payload[0] != COOKIE then Err(WrongType)
    else if payload[1] != VERSION then Err(WrongVersion)
    else
      var length: int := payload[19];
      if |payload| < 20 + length then Err(Truncated)
      else Ok(CookieMessage(payload[3..19], payload[20..20 + length]))
  }

  /** Decoding inverts encoding exactly when cookie and padding fit their one-byte length fields. */
  lemma ClientHelloRoundTrip(sessionID: Block16, publicKey: Block32, cookie: bytes, padding: bytes, mac: Block16)
    ensures DecodeClientHello(EncodeClientHello(sessionID, publicKey, cookie, padding, mac))
              == Ok(ClientHello(if cookie == [] then 0 else 1, sessionID, publicKey, cookie, padding, mac))
            <==> |cookie| <= 255 && |padding| <= 255
  {
    if |cookie| <= 255 && |padding| <= 255 {
      var m := EncodeClientHello(sessionID, publicKey, cookie, padding, mac);
      assert m == [CLIENT_HELLO, VERSION, CookieFlag(cookie)] + sessionID + publicKey
                  + [|cookie|] + cookie + [|padding|] + padding + mac;
      hide EncodeClientHello;
      ClientHelloLayout(m, [CLIENT_HELLO, VERSION, CookieFlag(cookie)], sessionID, publicKey, cookie, padding, mac);
    }
  }

  /** Where each field of a client hello lies. */
  lemma ClientHelloLayout(m: bytes, head: bytes, id: Block16, key: Block32, cookie: bytes, padding: bytes, mac: Block16)
    requires |head| == 3 && |cookie| <= 255 && |padding| <= 255
    requires m == head + id + key + [|cookie|] + cookie + [|padding|] + padding + mac
    ensures var offset := 52 + |cookie|;
            var end := offset + 1 + |padding|;
            && |m| == end + 16 && m[0] == head[0] && m[1] == head[1] && m[2] == head[2]
            && m[3..19] == id && m[19..51] == key && m[51] == |cookie| && m[52..offset] == cookie
            && m[offset] == |padding| && m[offset + 1..end] == padding && m[end..end + 16] == mac
  {}

  lemma ClientHelloPieces(payload: bytes, offset: nat, end: nat)
    requires 52 <= offset < end && |payload| == end + 16
    ensures payload == [payload[0], payload[1], payload[2]] + payload[3..19] + payload[19..51] + [payload[51]]
                       + payload[52..offset] + [payload[offset]] + payload[offset + 1..end] + payload[end..end + 16]
  {
    var front := [payload[0], payload[1], payload[2]] + payload[3..19] + payload[19..51] + [payload[51]];
    assert payload[..52] == front;
    assert payload[..offset + 1] == payload[..52] + payload[52..offset] + [payload[offset]];
    assert payload == payload[..offset + 1] + payload[offset + 1..end] + payload[end..end + 16];
  }

  /** Encoding what was decoded restores the message exactly when its flag byte is the canonical one and
      nothing follows the MAC: the decoder ignores both. */
  lemma ClientHelloReencodes(payload: bytes)
    requires DecodeClientHello(payload).Ok?
    ensures var m := DecodeClientHello(payload).value;
            EncodeClientHello(m.sessionID, m.publicKey, m.cookie, m.padding, m.mac) == payload <==>
            m.flags == (if m.cookie == [] then 0 else 1) && |payload| == 69 + |m.cookie| + |m.padding|
  {
    var m := DecodeClientHello(payload).value;
    var offset := 52 + |m.cookie|;
    var end := offset + 1 + |m.padding|;
    assert payload[..3] == [CLIENT_HELLO, VERSION, m.flags];
    assert payload[51] == |m.cookie| && payload[offset] == |m.padding| && |payload| >= end + 16;
    assert m.sessionID == payload[3..19] && m.publicKey == payload[19..51] && m.cookie == payload[52..offset];
    assert m.padding == payload[offset + 1..end] && m.mac == payload[end..end + 16];
    hide DecodeClientHello;
    var again := EncodeClientHello(m.sessionID, m.publicKey, m.cookie, m.padding, m.mac);
    assert |again| == end + 16 && again[2] == CookieFlag(m.cookie) && payload[2] == payload[..3][2];
    if m.flags == CookieFlag(m.cookie) && |payload| == |again| {
      ClientHelloPieces(payload, offset, end);
    }
  }

  /** The decoder takes a hello off the front of a longer string. */
  lemma TrailingIgnored(payload: bytes, trailer: bytes)
    requires DecodeClientHello(payload).Ok?
    ensures DecodeClientHello(payload + trailer) == DecodeClientHello(payload)
  {
    var m, all := DecodeClientHello(payload).value, payload + trailer;
    var offset := 52 + |m.cookie|;
    var end := offset + 1 + |m.padding|;
    assert all[3..19] == payload[3..19] && all[19..51] == payload[19..51] && all[52..offset] == payload[52..offset];
    assert all[offset + 1..end] == payload[offset + 1..end] && all[end..end + 16] == payload[end..end + 16];
  }

  /** Where each field of a hello lies. */
  lemma ServerHelloLayout(m: bytes, head: bytes, id: Block16, key: Block32, middle: bytes, padding: bytes, mac: Block16)
    requires |head| == 3 && |middle| == 4
    requires m == head + id + key + middle + padding + mac
    ensures |m| == 71 + |padding| && m[..3] == head && m[3..19] == id && m[19..51] == key && m[51..55] == middle
    ensures m[55..55 + |padding|] == padding && m[55 + |padding|..71 + |padding|] == mac
  {
  }

  lemma ServerHelloRoundTrip(
    sessionID: Block16, publicKey: Block32, keepAliveMillis: uint16, maxPadding: byte, padding: bytes, mac: Block16)
    ensures DecodeServerHello(EncodeServerHello(sessionID, publicKey, keepAliveMillis, maxPadding, padding, mac))
              == Ok(ServerHello(0, sessionID, publicKey, keepAliveMillis * MILLISECOND, maxPadding, padding, mac))
            <==> |padding| <= 255
  {
    if |padding| <= 255 {
      var m := EncodeServerHello(sessionID, publicKey, keepAliveMillis, maxPadding, padding, mac);
      var head, middle := [SERVER_HELLO, VERSION, 0], [maxPadding] + U16(keepAliveMillis) + [|padding|];
      assert m == head + sessionID + publicKey + middle + padding + mac by {
        hide U16;
        assert |padding| % 0x100 == |padding|;
      }
      ServerHelloLayout(m, head, sessionID, publicKey, middle, padding, mac);
      assert m[51] == middle[0] && m[52..54] == middle[1..3] && m[54] == middle[3];
      assert middle[1..3] == U16(keepAliveMillis) + [];
      U16RoundTrip(keepAliveMillis, []);
    }
  }

  lemma CookieRoundTrip(sessionID: Block16, cookie: bytes)
    ensures DecodeCookie(EncodeCookie(sessionID, cookie)) == Ok(CookieMessage(sessionID, cookie)) <==> |cookie| <= 255
  {
    if |cookie| <= 255 {
      var m := EncodeCookie(sessionID, cookie);
      assert m[3..19] == sessionID;
      assert m[19] == |cookie|;
      assert m[20..20 + |cookie|] == cookie;
    }
  }

  /** A server hello decodes exactly if it begins with the encoding of what it decodes to, but for the flag byte,
      which is ignored. */
  lemma ServerHelloReencodes(payload: bytes)
    requires DecodeServerHello(payload).Ok?
    ensures var m := DecodeServerHello(payload).value;
            && m.keepAlive % MILLISECOND == 0 && 0 <= m.keepAlive / MILLISECOND < 0x1_0000
            && var again := EncodeServerHello(m.sessionID, m.publicKey, m.keepAlive / MILLISECOND, m.maxPadding,
                                              m.padding, m.mac);
               |payload| >= |again| && payload[..|again|][2 := 0] == again
  {
    var m := DecodeServerHello(payload).value;
    var millis, end := GetU16(payload[52..54]), 55 + |m.padding|;
    assert payload[0] == SERVER_HELLO && payload[1] == VERSION && payload[54] == |m.padding| && |payload| >= end + 16;
    assert m.sessionID == payload[3..19] && m.publicKey == payload[19..51] && m.maxPadding == payload[51];
    assert m.padding == payload[55..end] && m.mac == payload[end..end + 16] && m.keepAlive == millis * MILLISECOND;
    hide DecodeServerHello;
    U16Reencodes(payload[52..54]);
    assert payload[52..54][..2] == payload[52..54];
    hide U16, GetU16;
    ServerHelloPieces(payload, end);
  }

  lemma ServerHelloPieces(payload: bytes, end: nat)
    requires 55 <= end && |payload| >= end + 16
    ensures payload[..end + 16][2 := 0] == [payload[0], payload[1], 0] + payload[3..19] + payload[19..51]
                                           + [payload[51]] + payload[52..54] + [payload[54]] + payload[55..end]
                                           + payload[end..end + 16]
  {
    var front := [payload[0], payload[1], 0] + payload[3..19] + payload[19..51] + [payload[51]] + payload[52..54]
                 + [payload[54]];
    assert payload[..55][2 := 0] == front;
    assert payload[..end + 16][2 := 0] == payload[..55][2 := 0] + payload[55..end] + payload[end..end + 16];
  }

  lemma CookieReencodes(payload: bytes)
    requires DecodeCookie(payload).Ok?
    ensures var m := DecodeCookie(payload).value;
            var again := EncodeCookie(m.sessionID, m.cookie);
            |payload| >= |again| && payload[..|again|][2 := 0] == again
  {
    var m := DecodeCookie(payload).value;
    var end := 20 + |m.cookie|;
    assert payload[..end][2 := 0] == [payload[0], payload[1], 0] + payload[3..19] + [payload[19]] + payload[20..end];
  }

  /** Exactly which strings decode. */
  lemma Decodable(payload: bytes)
    ensures DecodeClientHello(payload).Ok? <==>
            && |payload| >= 68 && payload[0] == 1 && payload[1] == 1 && |payload| >= 69 + payload[51] as int
            && |payload| >= 69 + payload[51] as int + payload[52 + payload[51] as int] as int
    ensures DecodeServerHello(payload).Ok? <==>
            |payload| >= 71 && payload[0] == 2 && payload[1] == 1 && |payload| >= 71 + payload[54] as int
    ensures DecodeCookie(payload).Ok? <==>
            |payload| >= 20 && payload[0] == 3 && payload[1] == 1 && |payload| >= 20 + payload[19] as int
  {
    hide GetU16;
  }

  // ---------------------------------------------------------------- the codecs as the program runs them

  method WriteClientHello(sessionID: Block16, publicKey: Block32, cookie: bytes, padding: bytes, mac: Block16)
    returns (buf: bytes)
    ensures buf == EncodeClientHello(sessionID, publicKey, cookie, padding, mac)
  {
    var flags: byte := 0;
    if |cookie| > 0 { flags := HAS_COOKIE; }
    buf := [CLIENT_HELLO];
    buf := buf + [VERSION];
    buf := buf + [flags];
    buf := buf + sessionID;
    buf := buf + publicKey;
    buf := buf + [|cookie| % 0x100];
    buf := buf + cookie;
    buf := buf + [|padding| % 0x100];
    buf := buf + padding;
    buf := buf + mac;
  }

  method ReadClientHello(payload: bytes) returns (r: Result<ClientHello, CodecError>)
    ensures r == DecodeClientHello(payload)
  {
    if |payload| < 1 + 1 + 1 + 16 + 32 + 1 + 16 { return Err(TooShort); }
    if payload[0] != CLIENT_HELLO { return Err(WrongType); }
    if payload[1] != VERSION { return Err(WrongVersion); }
    var offset: int := 3;
    var sessionID := payload[offset..offset + 16];
    offset := offset + 16;
    var publicKey := payload[offset..offset + 32];
    offset := offset + 32;
    var cookieLen: int := payload[offset];
    offset := offset + 1;
    if |payload| < offset + cookieLen + 1 + 16 { return Err(Truncated); }
    var cookie := payload[offset..offset + cookieLen];
    offset := offset + cookieLen;
    var paddingLen: int := payload[offset];
    offset := offset + 1;
    if |payload| < offset + paddingLen + 16 { return Err(TruncatedPadding); }
    var padding := payload[offset..offset + paddingLen];
    offset := offset + paddingLen;
    var mac := payload[offset..offset + 16];
    return Ok(ClientHello(payload[2], sessionID, publicKey, cookie, padding, mac));
  }

  method WriteServerHello(
    sessionID: Block16, publicKey: Block32, keepAliveMillis: uint16, maxPadding: byte, padding: bytes, mac: Block16)
    returns (buf: bytes)
    ensures buf == EncodeServerHello(sessionID, publicKey, keepAliveMillis, maxPadding, padding, mac)
  {
    buf := [SERVER_HELLO];
    buf := buf + [VERSION];
    buf := buf + [0];
    buf := buf + sessionID;
    buf := buf + publicKey;
    buf := buf + [maxPadding];
    buf := buf + U16(keepAliveMillis);
    buf := buf + [|padding| % 0x100];
    buf := buf + padding;
    buf := buf + mac;
  }

  method ReadServerHello(payload: bytes) returns (r: Result<ServerHello, CodecError>)
    ensures r == DecodeServerHello(payload)
  {
    if |payload| < 1 + 1 + 1 + 16 + 32 + 1 + 2 + 1 + 16 { return Err(TooShort); }
    if payload[0] != SERVER_HELLO { return Err(WrongType); }
    if payload[1] != VERSION { return Err(WrongVersion); }
    var offset: int := 3;
    var sessionID := payload[offset..offset + 16];
    offset := offset + 16;
    var publicKey := payload[offset..offset + 32];
    offset := offset + 32;
    var maxPadding := payload[offset];
    offset := offset + 1;
    var keepAliveMillis := GetU16(payload[offset..offset + 2]);
    offset := offset + 2;
    var paddingLen: int := payload[offset];
    offset := offset + 1;
    if |payload| < offset + paddingLen + 16 { return Err(Truncated); }
    var padding := payload[offset..offset + paddingLen];
    offset := offset + paddingLen;
    var mac := payload[offset..offset + 16];
    return Ok(ServerHello(payload[2], sessionID, publicKey, keepAliveMillis * MILLISECOND, maxPadding, padding, mac));
  }

  method WriteCookie(sessionID: Block16, cookie: bytes) returns (buf: bytes)
    ensures buf == EncodeCookie(sessionID, cookie)
  {
    buf := [COOKIE];
    buf := buf + [VERSION];
    buf := buf + [0];
    buf := buf + sessionID;
    buf := buf + [|cookie| % 0x100];
    buf := buf + cookie;
  }

  method ReadCookie(payload: bytes) returns (r: Result<CookieMessage, CodecError>)
    ensures r == DecodeCookie(payload)
  {
    if |payload| < 1 + 1 + 1 + 16 + 1 { return Err(TooShort); }
    if payload[0] != COOKIE { return Err(WrongType); }
    if payload[1] != VERSION { return Err(WrongVersion); }
    var offset: int := 3;
    var sessionID := payload[offset..offset + 16];
    offset := offset + 16;
    var length: int := payload[offset];
    offset := offset + 1;
    if |payload| < offset + length { return Err(Truncated); }
    return Ok(CookieMessage(sessionID, payload[offset..offset + length]));
  }
}
