/** Session tickets and 0-RTT packets of transport/zero_rtt.go: the byte codecs. */
module Tickets {
  import opened Bits
  import opened Bytes
  import opened Wrappers
  import opened Primitives

  /** A time is its int64 Unix seconds and its nanoseconds within the second. */
  datatype Time = Time(seconds: int, nanos: nat)

  datatype Ticket = Ticket(
    id: Block16, sessionKey: bytes, publicKey: Block32, issuedAt: Time, expiresAt: Time, usageCount: int, maxUsage: int)

  /** `OutOfRange` stands for a slice bound out of range, which the source does not check. */
  datatype Error = TooShort | Invalid | BadChecksum | Incomplete | OutOfRange

  datatype Packet = Packet(ticket: Ticket, payload: bytes)

  function Signed(n: uint64): int {
    if n < 0x8000_0000_0000_0000 then n else n - TWO64
  }

  /** Everything before the checksum. */
  function TicketFields(t: Ticket): bytes {
    t.id + U16(|t.sessionKey| % 0x1_0000) + t.sessionKey + t.publicKey
    + U64(t.issuedAt.seconds % TWO64) + U64(t.expiresAt.seconds % TWO64)
    + U16(t.usageCount % 0x1_0000) + U16(t.maxUsage % 0x1_0000)
  }

  function Checksum(c: Crypto, data: bytes): (s: bytes)
    ensures |s| == 4
  {
    c.sha256(data)[..4]
  }

  function Serialize(c: Crypto, t: Ticket): bytes {
    TicketFields(t) + Checksum(c, TicketFields(t))
  }

  /** Length checks are those of the source: 80 bytes in all, and the key with four more. `spare` is what the
      backing array holds behind `data`: a slice expression may reach into it. */
  function Deserialize(c: Crypto, data: bytes, spare: bytes): Result<Ticket, Error> {
    if |data| < 80 then Err(TooShort) else
    var keyLen: int := GetU16(data[16..18]);
    if |data| < 18 + keyLen + 4 then Err(Invalid) else
    var o, full := 18 + keyLen, data + spare;
    if |full| < o + 56 then Err(OutOfRange)
    else if full[o + 52..o + 56] != Checksum(c, full[..o + 52]) then Err(BadChecksum)
    else
      Ok(Ticket(full[..16], full[18..o], full[o..o + 32],
                Time(Signed(GetU64(full[o + 32..o + 40])), 0), Time(Signed(GetU64(full[o + 40..o + 48])), 0),
                GetU16(full[o + 48..o + 50]), GetU16(full[o + 50..o + 52])))
  }

  function EncodePacket(c: Crypto, p: Packet): bytes {
    var data := Serialize(c, p.ticket);
    U16(|data| % 0x1_0000) + data + p.payload
  }

  /** The slice bound `2+ticketLen` is computed in uint16. */
  function DecodePacket(c: Crypto, data: bytes, spare: bytes): Result<Packet, Error> {
    if |data| < 2 then Err(TooShort) else
    var ticketLen := GetU16(data[0..2]);
    if |data| < 2 + ticketLen as int then Err(Incomplete) else
    var end := (2 + ticketLen as int) % 0x1_0000;
    if end < 2 then Err(OutOfRange) else
    var ticket :- Deserialize(c, data[2..end], data[end..] + spare);
    Ok(Packet(ticket, data[end..]))
  }

  /** Whole seconds in int64, counts in uint16. */
  predicate Representable(t: Ticket) {
    && t.issuedAt.nanos == 0 && t.expiresAt.nanos == 0
    && -0x8000_0000_0000_0000 <= t.issuedAt.seconds < 0x8000_0000_0000_0000
    && -0x8000_0000_0000_0000 <= t.expiresAt.seconds < 0x8000_0000_0000_0000
    && 0 <= t.usageCount < 0x1_0000 && 0 <= t.maxUsage < 0x1_0000
  }

  lemma SignedRoundTrip(n: int)
    ensures Signed(n % TWO64) == n <==> -0x8000_0000_0000_0000 <= n < 0x8000_0000_0000_0000
  {}

  /** What the decoder reads back from the fields of a ticket whose key length fits its field. */
  lemma FieldsReadBack(t: Ticket, sum: bytes)
    requires |t.sessionKey| < 0x1_0000 && |sum| == 4
    ensures var data, o := TicketFields(t) + sum, 18 + |t.sessionKey|;
            && |data| == o + 56 && data[..16] == t.id && GetU16(data[16..18]) == |t.sessionKey|
            && data[18..o] == t.sessionKey && data[o..o + 32] == t.publicKey
            && GetU64(data[o + 32..o + 40]) == t.issuedAt.seconds % TWO64
            && GetU64(data[o + 40..o + 48]) == t.expiresAt.seconds % TWO64
            && GetU16(data[o + 48..o + 50]) == t.usageCount % 0x1_0000
            && GetU16(data[o + 50..o + 52]) == t.maxUsage % 0x1_0000
            && data[o + 52..o + 56] == sum && data[..o + 52] == TicketFields(t)
  {
    hide U64, GetU64, U16, GetU16;
    var data, o := TicketFields(t) + sum, 18 + |t.sessionKey|;
    var issued, expires := t.issuedAt.seconds % TWO64, t.expiresAt.seconds % TWO64;
    assert data[..16] == t.id;
    assert data[16..18] == U16(|t.sessionKey|) + [];
    assert data[18..o] == t.sessionKey;
    assert data[o..o + 32] == t.publicKey;
    assert data[o + 32..o + 40] == U64(issued) + [];
    assert data[o + 40..o + 48] == U64(expires) + [];
    assert data[o + 48..o + 50] == U16(t.usageCount % 0x1_0000) + [];
    assert data[o + 50..o + 52] == U16(t.maxUsage % 0x1_0000) + [];
    hide TicketFields;
    U16RoundTrip(|t.sessionKey|, []);
    U64RoundTrip(issued, []);
    U64RoundTrip(expires, []);
    U16RoundTrip(t.usageCount % 0x1_0000, []);
    U16RoundTrip(t.maxUsage % 0x1_0000, []);
  }

  /** What is decoded from the encoding of a ticket whose key length fits its field. */
  function ReadBack(t: Ticket): Ticket {
    t.(issuedAt := Time(Signed(t.issuedAt.seconds % TWO64), 0),
       expiresAt := Time(Signed(t.expiresAt.seconds % TWO64), 0),
       usageCount := t.usageCount % 0x1_0000, maxUsage := t.maxUsage % 0x1_0000)
  }

  lemma DecodedTicket(c: Crypto, t: Ticket, spare: bytes)
    requires 6 <= |t.sessionKey| < 0x1_0000
    ensures Deserialize(c, Serialize(c, t), spare) == Ok(ReadBack(t))
  {
    hide TicketFields, Deserialize, GetU16, GetU64, Checksum, Signed;
    var fields := TicketFields(t);
    var sum := Checksum(c, fields);
    var data := Serialize(c, t);
    assert data == fields + sum;
    FieldsReadBack(t, sum);
    hide Serialize;
    SpareIgnored(c, data, spare);
    DeserializeAlone(c, data);
  }

  lemma DeserializeAlone(c: Crypto, data: bytes)
    requires |data| >= 80 && |data| >= 74 + GetU16(data[16..18]) as int
    ensures var o := 18 + GetU16(data[16..18]) as int;
            Deserialize(c, data, []) ==
            if data[o + 52..o + 56] != Checksum(c, data[..o + 52]) then Err(BadChecksum)
            else Ok(Ticket(data[..16], data[18..o], data[o..o + 32], Time(Signed(GetU64(data[o + 32..o + 40])), 0),
                           Time(Signed(GetU64(data[o + 40..o + 48])), 0), GetU16(data[o + 48..o + 50]),
                           GetU16(data[o + 50..o + 52])))
  {
    hide GetU16, GetU64, Checksum, Signed;
    assert data + [] == data;
  }

  lemma RepresentableReadsBack(t: Ticket)
    ensures ReadBack(t) == t <==> Representable(t)
  {
    SignedRoundTrip(t.issuedAt.seconds);
    SignedRoundTrip(t.expiresAt.seconds);
    hide Signed;
  }

  /** Decoding a ticket inverts encoding exactly for keys of 6 to 65535 bytes and representable fields. */
  lemma TicketRoundTrip(c: Crypto, t: Ticket, spare: bytes)
    ensures Deserialize(c, Serialize(c, t), spare) == Ok(t) <==> 6 <= |t.sessionKey| < 0x1_0000 && Representable(t)
  {
    var data := Serialize(c, t);
    assert |data| == 74 + |t.sessionKey|;
    hide Serialize, Deserialize, ReadBack, Representable;
    if 6 <= |t.sessionKey| < 0x1_0000 {
      DecodedTicket(c, t, spare);
      RepresentableReadsBack(t);
    } else if Deserialize(c, data, spare).Ok? {
      KeyFits(c, data, spare);
    }
  }

  /** Data that is long enough for its key is decoded from itself alone. */
  lemma SpareIgnored(c: Crypto, data: bytes, spare: bytes)
    requires |data| >= 80 && |data| >= 74 + GetU16(data[16..18]) as int
    ensures Deserialize(c, data, spare) == Deserialize(c, data, [])
  {
    var o, full, alone := 18 + GetU16(data[16..18]) as int, data + spare, data + [];
    assert full[..o + 52] == alone[..o + 52] && full[o + 52..o + 56] == alone[o + 52..o + 56];
    assert full[..16] == alone[..16] && full[18..o] == alone[18..o] && full[o..o + 32] == alone[o..o + 32];
    assert full[o + 32..o + 40] == alone[o + 32..o + 40] && full[o + 40..o + 48] == alone[o + 40..o + 48];
    assert full[o + 48..o + 50] == alone[o + 48..o + 50] && full[o + 50..o + 52] == alone[o + 50..o + 52];
    hide Checksum, GetU16, GetU64, Signed;
  }

  lemma PacketSplits(c: Crypto, p: Packet)
    ensures var ticketData, data := Serialize(c, p.ticket), EncodePacket(c, p);
            && |ticketData| == 74 + |p.ticket.sessionKey| && |data| == 2 + |ticketData| + |p.payload|
            && GetU16(data[0..2]) == |ticketData| % 0x1_0000
            && data[2..2 + |ticketData|] == ticketData && data[2 + |ticketData|..] == p.payload
  {
    var ticketData, data := Serialize(c, p.ticket), EncodePacket(c, p);
    assert |ticketData| == 74 + |p.ticket.sessionKey|;
    hide Serialize;
    assert data[0..2] == U16(|ticketData| % 0x1_0000) + [];
    U16RoundTrip(|ticketData| % 0x1_0000, []);
  }

  /** A 0-RTT packet survives exactly with a session key of 6 to 65459 bytes and representable fields: beyond
      that the uint16 bound of the ticket wraps around. */
  lemma PacketRoundTrip(c: Crypto, p: Packet, spare: bytes)
    ensures DecodePacket(c, EncodePacket(c, p), spare) == Ok(p) <==>
            6 <= |p.ticket.sessionKey| <= 65459 && Representable(p.ticket)
  {
    hide Serialize, EncodePacket, GetU16, Deserialize, Representable;
    PacketSplits(c, p);
    var data := EncodePacket(c, p);
    var ticketLen := |Serialize(c, p.ticket)| % 0x1_0000;
    if 2 + ticketLen < 0x1_0000 {
      var behind := data[2 + ticketLen..] + spare;
      TicketRoundTrip(c, p.ticket, behind);
      if |p.ticket.sessionKey| > 65459 && Deserialize(c, data[2..2 + ticketLen], behind).Ok? {
        KeyFits(c, data[2..2 + ticketLen], behind);
      }
    }
  }

  lemma KeyFits(c: Crypto, data: bytes, spare: bytes)
    requires Deserialize(c, data, spare).Ok?
    ensures |data| >= 80 && |Deserialize(c, data, spare).value.sessionKey| < 0x1_0000
  {}

  /** After its length check the decoder reads beyond the data exactly when between 4 and 55 bytes follow the
      key, for the check counts four of the 56: then the fields come from the spare bytes, or the access is out
      of range when these do not suffice. */
  lemma OutOfRangeExactly(c: Crypto, data: bytes, spare: bytes)
    ensures Deserialize(c, data, spare) == Err(OutOfRange) <==>
            |data| >= 80 && 4 <= |data| - 18 - GetU16(data[16..18]) as int
            && |data| + |spare| - 18 - GetU16(data[16..18]) as int < 56
  {
    hide Checksum, GetU64, Signed;
  }

  /** Exactly which data decode: long enough for the length checks and the fields, with the first four bytes of the
      SHA-256 hash of everything before them behind the fields. */
  lemma DeserializeDecides(c: Crypto, data: bytes, spare: bytes)
    ensures Deserialize(c, data, spare).Ok? <==>
            && |data| >= 80
            && var end, full := 70 + GetU16(data[16..18]) as int, data + spare;
               && |data| >= end - 48 && |full| >= end + 4
               && full[end..end + 4] == c.sha256(full[..end])[..4]
  {
    hide GetU16, GetU64, Signed;
  }

  /** What decodes is the encoding of what it decodes to, with what follows it. */
  lemma DeserializeReencodes(c: Crypto, data: bytes, spare: bytes)
    requires Deserialize(c, data, spare).Ok?
    ensures var t := Deserialize(c, data, spare).value; Serialize(c, t) <= data + spare && Representable(t)
  {
    var t, full := Deserialize(c, data, spare).value, data + spare;
    var o := 18 + |t.sessionKey|;
    SpareBehind(data, spare);
    SignedInverse(GetU64(full[o + 32..o + 40]));
    SignedInverse(GetU64(full[o + 40..o + 48]));
    hide GetU64, GetU16, Signed, TicketFields;
    FieldsReencode(t, full, o);
    assert full[..o + 56] == full[..o + 52] + full[o + 52..o + 56];
  }

  lemma SpareBehind(data: bytes, spare: bytes)
    ensures |data| >= 18 ==> (data + spare)[16..18] == data[16..18]
  {}

  lemma FieldsReencode(t: Ticket, full: bytes, o: nat)
    requires o == 18 + |t.sessionKey| && |full| >= o + 52 && |t.sessionKey| == GetU16(full[16..18])
    requires t.id == full[..16] && t.sessionKey == full[18..o] && t.publicKey == full[o..o + 32]
    requires t.issuedAt.seconds % TWO64 == GetU64(full[o + 32..o + 40])
    requires t.expiresAt.seconds % TWO64 == GetU64(full[o + 40..o + 48])
    requires t.usageCount == GetU16(full[o + 48..o + 50]) && t.maxUsage == GetU16(full[o + 50..o + 52])
    ensures TicketFields(t) == full[..o + 52]
  {
    hide GetU64, U64, GetU16, U16;
    var issued, expires := full[o + 32..o + 40], full[o + 40..o + 48];
    var used, most := full[o + 48..o + 50], full[o + 50..o + 52];
    U64Reencodes(issued);
    U64Reencodes(expires);
    U16Reencodes(used);
    U16Reencodes(most);
    U16Reencodes(full[16..18]);
    assert issued[..8] == issued && expires[..8] == expires && used[..2] == used && most[..2] == most;
    assert full[16..18][..2] == full[16..18];
    FieldPieces(full, o);
  }

  lemma SignedInverse(n: uint64)
    ensures Signed(n) % TWO64 == n && -0x8000_0000_0000_0000 <= Signed(n) < 0x8000_0000_0000_0000
  {}

  lemma FieldPieces(full: bytes, o: nat)
    requires 18 <= o && |full| >= o + 52
    ensures full[..o + 52] == full[..16] + full[16..18] + full[18..o] + full[o..o + 32] + full[o + 32..o + 40]
                              + full[o + 40..o + 48] + full[o + 48..o + 50] + full[o + 50..o + 52]
  {
    assert full[..o + 32] == full[..16] + full[16..18] + full[18..o] + full[o..o + 32];
    assert full[..o + 48] == full[..o + 32] + full[o + 32..o + 40] + full[o + 40..o + 48];
  }

  // ---------------------------------------------------------------- the codecs as the program runs them

  method SerializeTicket(c: Crypto, t: Ticket) returns (buf: bytes)
    ensures buf == Serialize(c, t)
  {
    hide U64;
    buf := t.id;
    buf := buf + U16(|t.sessionKey| % 0x1_0000);
    buf := buf + t.sessionKey;
    buf := buf + t.publicKey;
    buf := buf + U64(t.issuedAt.seconds % TWO64);
    buf := buf + U64(t.expiresAt.seconds % TWO64);
    buf := buf + U16(t.usageCount % 0x1_0000);
    buf := buf + U16(t.maxUsage % 0x1_0000);
    buf := buf + Checksum(c, buf);
  }

  /** `data` with the spare bytes of its backing array behind it; compares the checksum byte by byte. */
  method DeserializeTicket(c: Crypto, data: bytes, spare: bytes) returns (r: Result<Ticket, Error>)
    ensures r == Deserialize(c, data, spare)
  {
    hide GetU16, GetU64, Checksum, Signed;
    var full := data + spare;
    if |data| < 80 { return Err(TooShort); }
    var keyLen: int := GetU16(data[16..18]);
    if |data| < 18 + keyLen + 4 { return Err(Invalid); }
    if |full| < 18 + keyLen + 56 { return Err(OutOfRange); }
    var offset: int := 0;
    var id := full[offset..offset + 16];
    offset := offset + 18;
    var sessionKey := full[offset..offset + keyLen];
    offset := offset + keyLen;
    var publicKey := full[offset..offset + 32];
    offset := offset + 32;
    var issuedAt := Signed(GetU64(full[offset..offset + 8]));
    offset := offset + 8;
    var expiresAt := Signed(GetU64(full[offset..offset + 8]));
    offset := offset + 8;
    var usageCount := GetU16(full[offset..offset + 2]);
    offset := offset + 2;
    var maxUsage := GetU16(full[offset..offset + 2]);
    offset := offset + 2;
    var expected, actual := full[offset..offset + 4], Checksum(c, full[..offset]);
    for i := 0 to 4
      invariant expected[..i] == actual[..i]
    {
      if expected[i] != actual[i] { return Err(BadChecksum); }
    }
    assert expected[..4] == expected && actual[..4] == actual;
    return Ok(Ticket(id, sessionKey, publicKey, Time(issuedAt, 0), Time(expiresAt, 0), usageCount, maxUsage));
  }
}
