/** The encrypted record channel of transport/transport.go: framing, masked headers, derived padding and
the monotone receive counter.

`Session` is the abstract value of a `SessionState` object. `Encode` and `Receive` specify the methods
`WriteFrame` and `Receive` of class `Transport`; the theorems are about them.
*/
module RecordChannel {
  import opened Bits
  import opened Bytes
  import opened Wrappers
  import opened Primitives
  import opened SessionSecrets

  const FRAME_HEADER: nat := 10
  const RECORD_HEADER: nat := 5

  datatype Frame = Frame(flags: byte, payload: bytes)

  datatype Session = Session(
    sendKey: Block32, recvKey: Block32, obfuscationKey: bytes,
    sendCounter: uint64, recvCounter: uint64, maxPadding: byte, keepAlive: int, epoch: uint32)

  datatype Error =
    | SessionUnset | FrameTooLarge | KeyTooShort
    | UnexpectedEnd | FrameTooShort | BadPadding | OpenFailed | PlaintextTruncated | LengthTooLarge | Replayed

  // ---------------------------------------------------------------- headers and padding

  function HeaderMask(c: Crypto, seed: bytes, counter: uint64, offset: byte): byte {
    if seed == [] then 0 else c.hmac(seed, U64(counter) + [offset])[offset % 32]
  }

  /** maskHeader and unmaskHeader: the same exclusive-or. */
  function MaskHeader(c: Crypto, seed: bytes, counter: uint64, flag: byte, padLen: byte): (byte, byte) {
    if seed == [] then (flag, padLen)
    else (XorByte(flag, HeaderMask(c, seed, counter, 0)), XorByte(padLen, HeaderMask(c, seed, counter, 1)))
  }

  function PadLength(c: Crypto, seed: bytes, counter: uint64, max: byte): (n: byte)
    ensures n <= max
  {
    if max == 0 || seed == [] then 0
    else c.hkdf(seed, U64(counter), Ascii("stp/padding"), 0) % (max + 1)
  }

  function Padding(c: Crypto, seed: bytes, counter: uint64, max: byte): (pad: bytes)
    ensures |pad| == PadLength(c, seed, counter, max)
  {
    HkdfBytes(c, seed, U64(counter), Ascii("stp/padding"), 1, PadLength(c, seed, counter, max))
  }

  // ---------------------------------------------------------------- sending

  function BuildPlaintext(payload: bytes): bytes {
    U16(|payload| % 0x1_0000) + payload
  }

  function Ciphertext(c: Crypto, s: Session, f: Frame): bytes {
    var padLen := PadLength(c, s.obfuscationKey, s.sendCounter, s.maxPadding);
    c.seal(s.sendKey, s.sendCounter, [f.flags, padLen], BuildPlaintext(f.payload))
  }

  function Body(c: Crypto, s: Session, f: Frame): bytes {
    var pad := Padding(c, s.obfuscationKey, s.sendCounter, s.maxPadding);
    var (flagByte, padByte) := MaskHeader(c, s.obfuscationKey, s.sendCounter, f.flags, |pad|);
    [flagByte, padByte] + U64(s.sendCounter) + Ciphertext(c, s, f) + pad
  }

  /** The record written for a frame, when the size check admits it. */
  function Encode(c: Crypto, s: Session, f: Frame): Option<bytes> {
    var body := Body(c, s, f);
    if |body| > 0xFFFF then None else Some([0x17, 0x03, 0x03] + U16(|body|) + body)
  }

  /** The two writes of a record, which are two datagrams on a datagram network. */
  function Writes(record: bytes): seq<bytes>
    requires |record| >= RECORD_HEADER
  {
    [record[..RECORD_HEADER], record[RECORD_HEADER..]]
  }

  // ---------------------------------------------------------------- receiving

  datatype Sealed = Sealed(flags: byte, padLen: byte, counter: uint64, ciphertext: bytes)

  /** Splits a body into the unmasked header, the counter and the ciphertext. */
  function ParseBody(c: Crypto, seed: bytes, body: bytes): Result<Sealed, Error>
    requires FRAME_HEADER <= |body|
  {
    var counter := GetU64(body[2..10]);
    var (flag, padLen) := MaskHeader(c, seed, counter, body[0], body[1]);
    if padLen > |body| - FRAME_HEADER then Err(BadPadding)
    else Ok(Sealed(flag, padLen, counter, body[FRAME_HEADER..|body| - padLen]))
  }

  /** The payload slice `plaintext[2:2+payloadLen]`, whose upper bound Go computes in uint16. */
  function Slice(plaintext: bytes): Result<bytes, Error>
    requires |plaintext| + 16 + FRAME_HEADER <= 0xFFFF
  {
    if |plaintext| < 2 then Err(PlaintextTruncated) else
    var payloadLen := GetU16(plaintext[..2]);
    if payloadLen > |plaintext| - 2 then Err(LengthTooLarge)
    else Ok(plaintext[2..(2 + payloadLen) % 0x1_0000])
  }

  function OpenBody(c: Crypto, s: Session, body: bytes): (Result<Frame, Error>, Session)
    requires Lawful(c)
    requires FRAME_HEADER <= |body| <= 0xFFFF
  {
    match ParseBody(c, s.obfuscationKey, body)
    case Err(e) => (Err(e), s)
    case Ok(q) =>
      match c.open(s.recvKey, q.counter, [q.flags, q.padLen], q.ciphertext)
      case None => (Err(OpenFailed), s)
      case Some(plaintext) =>
        match Slice(plaintext)
        case Err(e) => (Err(e), s)
        case Ok(payload) =>
          if q.counter < s.recvCounter then (Err(Replayed), s)
          else (Ok(Frame(q.flags, payload)), s.(recvCounter := (q.counter + 1) % TWO64))
  }

  /** One record header and body read from the connection, and what is left of it. */
  function ReadRecord(wire: bytes): (r: (Result<bytes, Error>, bytes))
    ensures |wire| >= RECORD_HEADER ==> |r.1| <= |wire| - RECORD_HEADER
  {
    if |wire| < RECORD_HEADER then (Err(UnexpectedEnd), []) else
    var length := GetU16(wire[3..5]);
    if length < FRAME_HEADER then (Err(FrameTooShort), wire[5..])
    else if |wire| < 5 + length then (Err(UnexpectedEnd), [])
    else (Ok(wire[5..5 + length]), wire[5 + length..])
  }

  /** One call of Receive: its result, the session after it and the unread rest of the connection. */
  function Receive(c: Crypto, s: Session, wire: bytes): (r: (Result<Frame, Error>, Session, bytes))
    requires Lawful(c)
    ensures r.2 == ReadRecord(wire).1
  {
    match ReadRecord(wire)
    case (Err(e), rest) => (Err(e), s, rest)
    case (Ok(body), rest) => var (r, s') := OpenBody(c, s, body); (r, s', rest)
  }

  // ---------------------------------------------------------------- one record

  lemma MaskTwice(c: Crypto, seed: bytes, counter: uint64, flag: byte, padLen: byte)
    ensures var (f, p) := MaskHeader(c, seed, counter, flag, padLen);
            MaskHeader(c, seed, counter, f, p) == (flag, padLen)
  {
    XorTwice(flag, HeaderMask(c, seed, counter, 0));
    XorTwice(padLen, HeaderMask(c, seed, counter, 1));
  }

  /** The size check admits a frame exactly when payload and padding together leave room for the 28 bytes
      of overhead; so no admitted payload is longer than 65507 bytes. */
  lemma AdmittedSize(c: Crypto, s: Session, f: Frame)
    requires Lawful(c)
    ensures Encode(c, s, f).Some? <==>
            |f.payload| + PadLength(c, s.obfuscationKey, s.sendCounter, s.maxPadding) <= 65507
  {
    assert |Ciphertext(c, s, f)| == |f.payload| + 18;
  }

  /** Every byte of an admitted record. */
  lemma WireLayout(c: Crypto, s: Session, f: Frame)
    requires Lawful(c) && Encode(c, s, f).Some?
    ensures var w, n, seed, field := Encode(c, s, f).value, |f.payload|, s.obfuscationKey, U64(s.sendCounter);
            var p: byte := if s.maxPadding == 0 || seed == [] then 0
                           else c.hkdf(seed, field, Ascii("stp/padding"), 0) % (s.maxPadding + 1);
            && |w| == 33 + n + p && w[..3] == [0x17, 0x03, 0x03] && GetU16(w[3..5]) == 28 + n + p
            && w[5] == (if seed == [] then f.flags else XorByte(f.flags, c.hmac(seed, field + [0])[0]))
            && w[6] == (if seed == [] then p else XorByte(p, c.hmac(seed, field + [1])[1]))
            && w[7..15] == field
            && w[15..33 + n] == c.seal(s.sendKey, s.sendCounter, [f.flags, p], U16(n) + f.payload)
            && var pad := w[33 + n..];
               forall j: nat | j < p as int :: pad[j] == c.hkdf(seed, field, Ascii("stp/padding"), 1 + j)
  {
    AdmittedSize(c, s, f);
    BoxLength(c, s, f);
    PaddingIs(c, s.obfuscationKey, s.sendCounter, s.maxPadding);
    var n, seed, field := |f.payload|, s.obfuscationKey, U64(s.sendCounter);
    var pad, box := Padding(c, seed, s.sendCounter, s.maxPadding), Ciphertext(c, s, f);
    MaskIs(c, seed, s.sendCounter, f.flags, |pad|);
    hide Ascii, U64, Lawful, Padding, PadLength, MaskHeader, XorByte;
    var (flagByte, padByte) := MaskHeader(c, seed, s.sendCounter, f.flags, |pad|);
    var length := U16(28 + n + |pad|);
    U16RoundTrip(28 + n + |pad|, []);
    assert length + [] == length;
    assert Encode(c, s, f).value == [0x17, 0x03, 0x03] + length + ([flagByte, padByte] + field + box + pad);
    assert box == c.seal(s.sendKey, s.sendCounter, [f.flags, |pad|], U16(n) + f.payload);
    hide Encode, Ciphertext, U16, GetU16;
    WireSlices(Encode(c, s, f).value, length, flagByte, padByte, field, box, pad);
  }

  /** The padding, byte by byte. */
  lemma PaddingIs(c: Crypto, seed: bytes, counter: uint64, max: byte)
    ensures var p: byte := if max == 0 || seed == [] then 0
                           else c.hkdf(seed, U64(counter), Ascii("stp/padding"), 0) % (max + 1);
            var pad := Padding(c, seed, counter, max);
            && PadLength(c, seed, counter, max) == p == |pad|
            && forall j: nat | j < p as int :: pad[j] == c.hkdf(seed, U64(counter), Ascii("stp/padding"), 1 + j)
  {
    hide Ascii, U64;
  }

  /** The masked flag and padding length. */
  lemma MaskIs(c: Crypto, seed: bytes, counter: uint64, flag: byte, padLen: byte)
    ensures MaskHeader(c, seed, counter, flag, padLen) ==
            if seed == [] then (flag, padLen)
            else (XorByte(flag, c.hmac(seed, U64(counter) + [0])[0]),
                  XorByte(padLen, c.hmac(seed, U64(counter) + [1])[1]))
  {
    hide XorByte, U64;
  }

  lemma BoxLength(c: Crypto, s: Session, f: Frame)
    requires Lawful(c)
    ensures |Ciphertext(c, s, f)| == |f.payload| + 18
  {}

  lemma WireSlices(w: bytes, length: bytes, flagByte: byte, padByte: byte, field: bytes, box: bytes, pad: bytes)
    requires |length| == 2 && |field| == 8
    requires w == [0x17, 0x03, 0x03] + length + ([flagByte, padByte] + field + box + pad)
    ensures |w| == 15 + |box| + |pad| && w[..3] == [0x17, 0x03, 0x03] && w[3..5] == length
    ensures w[5] == flagByte && w[6] == padByte && w[7..15] == field && w[15..15 + |box|] == box
    ensures w[15 + |box|..] == pad
  {}

  ghost predicate Matching(s: Session, r: Session) {
    s.sendKey == r.recvKey && s.obfuscationKey == r.obfuscationKey
  }

  function SealedOf(c: Crypto, s: Session, f: Frame): Sealed {
    Sealed(f.flags, PadLength(c, s.obfuscationKey, s.sendCounter, s.maxPadding), s.sendCounter, Ciphertext(c, s, f))
  }

  lemma SealedOfFields(c: Crypto, s: Session, f: Frame)
    ensures SealedOf(c, s, f).counter == s.sendCounter && SealedOf(c, s, f).flags == f.flags
  {}

  lemma ParseInvertsBody(c: Crypto, s: Session, f: Frame)
    ensures |Body(c, s, f)| >= FRAME_HEADER
    ensures ParseBody(c, s.obfuscationKey, Body(c, s, f)) == Ok(SealedOf(c, s, f))
  {
    var pad := Padding(c, s.obfuscationKey, s.sendCounter, s.maxPadding);
    var (flagByte, padByte) := MaskHeader(c, s.obfuscationKey, s.sendCounter, f.flags, |pad|);
    var body := Body(c, s, f);
    var box := Ciphertext(c, s, f);
    assert body[2..10] == U64(s.sendCounter) + [];
    U64RoundTrip(s.sendCounter, []);
    MaskTwice(c, s.obfuscationKey, s.sendCounter, f.flags, |pad|);
    assert body[FRAME_HEADER..|body| - |pad|] == box;
  }

  lemma SliceInvertsPlaintext(payload: bytes)
    requires |payload| <= 65507
    ensures Slice(BuildPlaintext(payload)) == Ok(payload)
  {
    var text := BuildPlaintext(payload);
    assert text[..2] == U16(|payload|) + [];
    U16RoundTrip(|payload|, []);
    assert text[2..2 + |payload|] == payload;
  }

  lemma ReadInvertsHeader(body: bytes, rest: bytes)
    requires FRAME_HEADER <= |body| <= 0xFFFF
    ensures ReadRecord([0x17, 0x03, 0x03] + U16(|body|) + body + rest) == (Ok(body), rest)
  {
    var wire := [0x17, 0x03, 0x03] + U16(|body|) + body + rest;
    assert wire[3..5] == U16(|body|) + [];
    U16RoundTrip(|body|, []);
    assert wire[5..5 + |body|] == body && wire[5 + |body|..] == rest;
  }

  lemma OpenInvertsSeal(c: Crypto, s: Session, r: Session, f: Frame)
    requires Lawful(c) && Matching(s, r)
    ensures var q := SealedOf(c, s, f);
            c.open(r.recvKey, q.counter, [q.flags, q.padLen], q.ciphertext) == Some(BuildPlaintext(f.payload))
  {}

  /** Receive inverts writeFrame: a record that the size check admitted is delivered unchanged, whatever
      follows it on the connection, unless its counter is below the receive counter. */
  lemma ReceiveInvertsEncode(c: Crypto, s: Session, r: Session, f: Frame, rest: bytes)
    requires Lawful(c) && Matching(s, r)
    requires Encode(c, s, f).Some?
    ensures Receive(c, r, Encode(c, s, f).value + rest) ==
            if s.sendCounter < r.recvCounter then (Err(Replayed), r, rest)
            else (Ok(f), r.(recvCounter := (s.sendCounter + 1) % TWO64), rest)
  {
    hide Body, ParseBody, Slice, ReadRecord, SealedOf, BuildPlaintext, PadLength, Lawful;
    AdmittedSize(c, s, f);
    ParseInvertsBody(c, s, f);
    ReadInvertsHeader(Body(c, s, f), rest);
    SliceInvertsPlaintext(f.payload);
    OpenInvertsSeal(c, s, r, f);
    SealedOfFields(c, s, f);
    OpenShortens(c, r.recvKey, s.sendCounter, [f.flags, SealedOf(c, s, f).padLen], SealedOf(c, s, f).ciphertext);
  }

  // ---------------------------------------------------------------- a sender's run in one key epoch

  datatype Entry = Entry(frame: Frame, record: bytes)

  /** The sender's session and the frames written, with their records, after a run of writeFrame calls.
      A call whose frame exceeds the size limit writes nothing and leaves the counter alone. */
  function SendRun(c: Crypto, s: Session, frames: seq<Frame>): (Session, seq<Entry>) {
    if frames == [] then (s, []) else
    var (s1, log) := SendRun(c, s, frames[..|frames| - 1]);
    var f := frames[|frames| - 1];
    match Encode(c, s1, f)
    case None => (s1, log)
    case Some(record) => (s1.(sendCounter := (s1.sendCounter + 1) % TWO64), log + [Entry(f, record)])
  }

  /** Entry i of a log was written under counter i. */
  ghost predicate Written(c: Crypto, s: Session, log: seq<Entry>) {
    |log| < TWO64 &&
    forall i | 0 <= i < |log| :: Encode(c, s.(sendCounter := i), log[i].frame) == Some(log[i].record)
  }

  lemma {:induction false} SendRunWritten(c: Crypto, s: Session, frames: seq<Frame>)
    requires s.sendCounter == 0 && |frames| < TWO64
    ensures var (s', log) := SendRun(c, s, frames);
            Written(c, s, log) && |log| <= |frames| && s' == s.(sendCounter := |log|)
  {
    hide Encode;
    if frames != [] { SendRunWritten(c, s, frames[..|frames| - 1]); }
  }

  // ---------------------------------------------------------------- a receiver's run

  /** The frames returned when Receive is called on one connection, whatever it returns, until the connection
      has no further header: `wire` is all that the connection yields. */
  function Received(c: Crypto, r: Session, wire: bytes): seq<Frame>
    requires Lawful(c)
    decreases |wire|
  {
    if |wire| < RECORD_HEADER then [] else
    var (result, r', rest) := Receive(c, r, wire);
    (if result.Ok? then [result.value] else []) + Received(c, r', rest)
  }

  /** The frames that reach the tunnel loop, which stops at the first error. */
  function Tunneled(c: Crypto, r: Session, wire: bytes): seq<Frame>
    requires Lawful(c)
    decreases |wire|
  {
    if |wire| < RECORD_HEADER then [] else
    var (result, r', rest) := Receive(c, r, wire);
    if result.Err? then [] else [result.value] + Tunneled(c, r', rest)
  }

  lemma {:induction false} TunnelIsPrefix(c: Crypto, r: Session, wire: bytes)
    requires Lawful(c)
    ensures Tunneled(c, r, wire) <= Received(c, r, wire)
    decreases |wire|
  {
    hide Receive, ReadRecord, Lawful;
    if |wire| >= RECORD_HEADER {
      var (_, r', rest) := Receive(c, r, wire);
      TunnelIsPrefix(c, r', rest);
    }
  }

  /** The delivered indices that exceed every index kept before them. */
  function Highs(picks: seq<nat>, from: nat): seq<nat> {
    if picks == [] then []
    else if picks[0] >= from then [picks[0]] + Highs(picks[1..], picks[0] + 1)
    else Highs(picks[1..], from)
  }

  /** The delivered indices before the first that is not higher than all earlier ones. */
  function Leading(picks: seq<nat>, from: nat): seq<nat> {
    if picks == [] || picks[0] < from then [] else [picks[0]] + Leading(picks[1..], picks[0] + 1)
  }

  predicate Below(indices: seq<nat>, n: nat) {
    forall k | 0 <= k < |indices| :: indices[k] < n
  }

  function Pick(log: seq<Entry>, indices: seq<nat>): (frames: seq<Frame>)
    requires Below(indices, |log|)
    ensures |frames| == |indices|
  {
    if indices == [] then [] else [log[indices[0]].frame] + Pick(log, indices[1..])
  }

  /** The connection when the network delivers whole records, header and body together. */
  function Deliver(log: seq<Entry>, picks: seq<nat>): bytes
    requires Below(picks, |log|)
  {
    if picks == [] then [] else log[picks[0]].record + Deliver(log, picks[1..])
  }

  lemma {:induction false} HighsFrom(picks: seq<nat>, from: nat, bound: nat)
    requires Below(picks, bound)
    ensures forall k | 0 <= k < |Highs(picks, from)| :: from <= Highs(picks, from)[k] < bound
    ensures forall i, j | 0 <= i < j < |Highs(picks, from)| :: Highs(picks, from)[i] < Highs(picks, from)[j]
    ensures Leading(picks, from) <= Highs(picks, from)
  {
    if picks != [] {
      HighsFrom(picks[1..], if picks[0] >= from then picks[0] + 1 else from, bound);
    }
  }

  lemma RecordLength(c: Crypto, s: Session, log: seq<Entry>, i: nat)
    requires Lawful(c) && Written(c, s, log) && i < |log|
    ensures var record := log[i].record;
            && 33 <= |record| <= RECORD_HEADER + 0xFFFF
            && record[..3] == [0x17, 0x03, 0x03] && GetU16(record[3..5]) == |record| - RECORD_HEADER
  {
    var f, record := log[i].frame, log[i].record;
    assert Encode(c, s.(sendCounter := i), f) == Some(record);
    var body := Body(c, s.(sendCounter := i), f);
    assert |body| >= 28;
    assert record[3..5] == U16(|body|) + [];
    U16RoundTrip(|body|, []);
  }

  lemma ReceiveEntry(c: Crypto, s: Session, r: Session, log: seq<Entry>, i: nat, rest: bytes)
    requires Lawful(c) && Matching(s, r) && Written(c, s, log) && i < |log|
    ensures Receive(c, r, log[i].record + rest) ==
            if i < r.recvCounter then (Err(Replayed), r, rest)
            else (Ok(log[i].frame), r.(recvCounter := i + 1), rest)
  {
    hide Encode, Receive, Lawful;
    assert Encode(c, s.(sendCounter := i), log[i].frame) == Some(log[i].record);
    ReceiveInvertsEncode(c, s.(sendCounter := i), r, log[i].frame, rest);
  }

  /** What one whole record adds to what is received from the rest of the connection. */
  lemma ReceivedEntry(c: Crypto, s: Session, r: Session, log: seq<Entry>, i: nat, rest: bytes)
    requires Lawful(c) && Matching(s, r) && Written(c, s, log) && i < |log|
    ensures i < r.recvCounter ==>
              && Received(c, r, log[i].record + rest) == Received(c, r, rest)
              && Tunneled(c, r, log[i].record + rest) == []
    ensures i >= r.recvCounter ==>
              var r' := r.(recvCounter := i + 1);
              && Received(c, r, log[i].record + rest) == [log[i].frame] + Received(c, r', rest)
              && Tunneled(c, r, log[i].record + rest) == [log[i].frame] + Tunneled(c, r', rest)
  {
    RecordLength(c, s, log, i);
    hide Encode, Receive, ReadRecord, Lawful, Matching;
    ReceiveEntry(c, s, r, log, i, rest);
  }

  /** A network that drops, duplicates, delays and reorders whole records: whatever it delivers, the calls of
      Receive return exactly the frames whose index is higher than every earlier returned one. */
  lemma {:induction false} HonestNetwork(c: Crypto, s: Session, r: Session, log: seq<Entry>, picks: seq<nat>)
    requires Lawful(c) && Matching(s, r) && Written(c, s, log)
    requires Below(picks, |log|)
    ensures Below(Highs(picks, r.recvCounter), |log|)
    ensures Received(c, r, Deliver(log, picks)) == Pick(log, Highs(picks, r.recvCounter))
    decreases |picks|
  {
    hide Encode, Receive, ReadRecord, Lawful;
    HighsFrom(picks, r.recvCounter, |log|);
    if picks != [] {
      hide Received;
      ReceivedEntry(c, s, r, log, picks[0], Deliver(log, picks[1..]));
      hide Written;
      HonestNetwork(c, s, if picks[0] < r.recvCounter then r else r.(recvCounter := picks[0] + 1), log, picks[1..]);
    }
  }

  /** Over the same network the tunnel loop gets the frames before the first replay. */
  lemma {:induction false} HonestTunnel(c: Crypto, s: Session, r: Session, log: seq<Entry>, picks: seq<nat>)
    requires Lawful(c) && Matching(s, r) && Written(c, s, log)
    requires Below(picks, |log|)
    ensures Below(Leading(picks, r.recvCounter), |log|)
    ensures Tunneled(c, r, Deliver(log, picks)) == Pick(log, Leading(picks, r.recvCounter))
    decreases |picks|
  {
    hide Encode, Receive, ReadRecord, Lawful;
    if picks != [] {
      hide Tunneled;
      ReceivedEntry(c, s, r, log, picks[0], Deliver(log, picks[1..]));
      hide Written;
      if picks[0] >= r.recvCounter { HonestTunnel(c, s, r.(recvCounter := picks[0] + 1), log, picks[1..]); }
    }
  }

  /** The connection as the sender writes it. */
  function Stream(log: seq<Entry>): bytes {
    if log == [] then [] else log[0].record + Stream(log[1..])
  }

  function AllFrames(log: seq<Entry>): seq<Frame> {
    seq(|log|, i requires 0 <= i < |log| => log[i].frame)
  }

  /** In particular, a connection that loses nothing delivers every frame, to the tunnel loop too. */
  lemma LosslessNetwork(c: Crypto, s: Session, r: Session, log: seq<Entry>)
    requires Lawful(c) && Matching(s, r) && Written(c, s, log) && r.recvCounter == 0
    ensures Received(c, r, Stream(log)) == Tunneled(c, r, Stream(log)) == AllFrames(log)
  {
    hide Encode, Receive, Lawful;
    FromIsRising(0, |log|);
    FromIsAll(log, 0);
    HonestNetwork(c, s, r, log, From(0, |log|));
    HonestTunnel(c, s, r, log, From(0, |log|));
    assert log[0..] == log && AllFrames(log)[0..] == AllFrames(log);
  }

  function From(i: nat, n: nat): (s: seq<nat>)
    ensures Below(s, n)
    decreases n - i
  {
    if i >= n then [] else [i] + From(i + 1, n)
  }

  lemma {:induction false} FromIsRising(i: nat, n: nat)
    ensures Highs(From(i, n), i) == From(i, n) == Leading(From(i, n), i)
    decreases n - i
  {
    if i < n {
      FromIsRising(i + 1, n);
      assert From(i, n)[1..] == From(i + 1, n);
    }
  }

  lemma {:induction false} FromIsAll(log: seq<Entry>, i: nat)
    requires i <= |log|
    ensures Deliver(log, From(i, |log|)) == Stream(log[i..])
    ensures Pick(log, From(i, |log|)) == AllFrames(log)[i..]
    decreases |log| - i
  {
    if i < |log| {
      FromIsAll(log, i + 1);
      assert From(i, |log|)[1..] == From(i + 1, |log|) && log[i..][1..] == log[i + 1..];
      hide From;
      assert AllFrames(log)[i..] == [log[i].frame] + AllFrames(log)[i + 1..];
    }
  }

  /** What a delivered record presents to Open, if it is long enough to be parsed. */
  function Presented(c: Crypto, seed: bytes, wire: bytes): Result<Sealed, Error> {
    match ReadRecord(wire).0
    case Err(e) => Err(e)
    case Ok(body) => ParseBody(c, seed, body)
  }

  ghost predicate WasWritten(c: Crypto, s: Session, log: seq<Entry>, q: Sealed)
    requires |log| < TWO64
  {
    exists i: uint64 :: i < |log| && q == SealedOf(c, s.(sendCounter := i), log[i].frame)
  }

  /** If Open accepts what is presented at the head of `wire`, the sender sealed and wrote it. */
  ghost predicate Genuine(c: Crypto, s: Session, log: seq<Entry>, wire: bytes)
    requires |log| < TWO64
  {
    var q := Presented(c, s.obfuscationKey, wire);
    q.Ok? && c.open(s.sendKey, q.value.counter, [q.value.flags, q.value.padLen], q.value.ciphertext).Some? ==>
      WasWritten(c, s, log, q.value)
  }

  /** No forgery: that holds wherever the receiver, reading `wire`, looks for a record. */
  ghost predicate Unforged(c: Crypto, s: Session, log: seq<Entry>, wire: bytes)
    requires |log| < TWO64
    decreases |wire|
  {
    |wire| < RECORD_HEADER || (Genuine(c, s, log, wire) && Unforged(c, s, log, ReadRecord(wire).1))
  }

  /** `frames` is the subsequence of the log at `indices`, which rise from at least `from`. */
  ghost predicate SelectsFrom(log: seq<Entry>, from: nat, indices: seq<nat>, frames: seq<Frame>) {
    && |indices| == |frames|
    && (forall k | 0 <= k < |indices| :: from <= indices[k] < |log| && log[indices[k]].frame == frames[k])
    && (forall j, k | 0 <= j < k < |indices| :: indices[j] < indices[k])
  }

  /** Receive returns a frame only if Open accepted what the record presents, and then counts up from it. */
  lemma ReceiveAccepts(c: Crypto, r: Session, wire: bytes)
    requires Lawful(c)
    ensures var (result, r', _) := Receive(c, r, wire);
            var q := Presented(c, r.obfuscationKey, wire);
            if result.Err? then r' == r else
              && q.Ok? && r.recvCounter <= q.value.counter && r' == r.(recvCounter := (q.value.counter + 1) % TWO64)
              && var text := c.open(r.recvKey, q.value.counter, [q.value.flags, q.value.padLen], q.value.ciphertext);
                 text.Some? && |text.value| + 26 <= 0xFFFF
                 && Slice(text.value).Ok? && result.value == Frame(q.value.flags, Slice(text.value).value)
  {
    hide MaskHeader, Slice;
  }

  lemma AlteredRecord(c: Crypto, s: Session, r: Session, log: seq<Entry>, wire: bytes)
    requires Lawful(c) && Matching(s, r) && Written(c, s, log) && Genuine(c, s, log, wire)
    ensures var (result, r', _) := Receive(c, r, wire);
            if result.Err? then r' == r
            else
              exists i :: r.recvCounter <= i < |log| && result.value == log[i].frame && r' == r.(recvCounter := i + 1)
  {
    hide Receive, Presented, Encode, Slice, PadLength, SealedOf, Lawful, BuildPlaintext;
    ReceiveAccepts(c, r, wire);
    var (result, r', _) := Receive(c, r, wire);
    if result.Ok? {
      var q := Presented(c, r.obfuscationKey, wire).value;
      var i: uint64 :| i < |log| && q == SealedOf(c, s.(sendCounter := i), log[i].frame);
      AdmittedSize(c, s.(sendCounter := i), log[i].frame);
      SliceInvertsPlaintext(log[i].frame.payload);
      OpenInvertsSeal(c, s.(sendCounter := i), r, log[i].frame);
      assert q.counter == i && q.flags == log[i].frame.flags by {
        SealedOfFields(c, s.(sendCounter := i), log[i].frame);
      }
    }
  }

  lemma SelectsCons(log: seq<Entry>, from: nat, i: nat, rest: seq<nat>, frames: seq<Frame>)
    requires from <= i < |log| && SelectsFrom(log, i + 1, rest, frames)
    ensures SelectsFrom(log, from, [i] + rest, [log[i].frame] + frames)
  {}

  /** Whatever bytes the connection yields, as long as none of them is forged: the frames returned in one key
      epoch are an in-order subsequence of the frames written, each at most once, with flag and payload intact. */
  lemma {:induction false} InOrderSubsequence(c: Crypto, s: Session, r: Session, log: seq<Entry>, wire: bytes)
    requires Lawful(c) && Matching(s, r) && Written(c, s, log) && Unforged(c, s, log, wire)
    ensures exists indices :: SelectsFrom(log, r.recvCounter, indices, Received(c, r, wire))
    decreases |wire|
  {
    hide Receive, ReadRecord, Genuine, Encode, Lawful;
    if |wire| < RECORD_HEADER {
      var none: seq<nat> := [];
      assert SelectsFrom(log, r.recvCounter, none, Received(c, r, wire));
    } else {
      AlteredRecord(c, s, r, log, wire);
      var (result, r', rest) := Receive(c, r, wire);
      InOrderSubsequence(c, s, r', log, rest);
      hide SelectsFrom;
      var frames := Received(c, r', rest);
      var indices: seq<nat> :| SelectsFrom(log, r'.recvCounter, indices, frames);
      if result.Ok? {
        var i :| r.recvCounter <= i < |log| && result.value == log[i].frame && r' == r.(recvCounter := i + 1);
        SelectsCons(log, r.recvCounter, i, indices, frames);
        assert Received(c, r, wire) == [log[i].frame] + frames;
      } else {
        assert Received(c, r, wire) == frames;
      }
    }
  }

  // ---------------------------------------------------------------- headers and bodies that part

  /** No frame fits into fewer than 33 bytes. */
  lemma {:induction false} ShortStream(c: Crypto, r: Session, wire: bytes)
    requires Lawful(c) && |wire| < 33
    ensures Received(c, r, wire) == []
    decreases |wire|
  {
    if |wire| >= RECORD_HEADER {
      ReceiveAccepts(c, r, wire);
      var (result, r', rest) := Receive(c, r, wire);
      if result.Ok? {
        var q := Presented(c, r.obfuscationKey, wire).value;
        OpenShortens(c, r.recvKey, q.counter, [q.flags, q.padLen], q.ciphertext);
        assert false;
      }
      ShortStream(c, r', rest);
    }
  }

  lemma CounterAtLeast(field: bytes)
    requires |field| >= 8
    ensures GetU64(field) >= field[0] as int * 0x0100_0000_0000_0000
  {}

  /** The network delivers the header of record i and, if `whole`, its body, and then record j. writeFrame sends
      header and body in two writes, so a datagram network can part them; Receive then takes record j for
      the missing body, and the frame that was delivered whole is not returned either. */
  lemma LostBody(c: Crypto, s: Session, r: Session, log: seq<Entry>, i: nat, j: nat, whole: bool)
    requires Lawful(c) && Matching(s, r) && Written(c, s, log) && |log| <= 0x0300_0000_0000_0000
    requires r.recvCounter <= i < j < |log| && |log[j].record| < |log[i].record| + 28
    requires !whole ==> Unforged(c, s, log, log[i].record[..RECORD_HEADER] + log[j].record)
    ensures Received(c, r, (if whole then log[i].record else log[i].record[..RECORD_HEADER]) + log[j].record) ==
            if whole then [log[i].frame, log[j].frame] else []
  {
    hide Lawful, Unforged, Encode, Received, Written, Matching;
    if whole {
      WholePair(c, s, r, log, i, j);
    } else {
      BodyTakenFromNext(c, s, r, log, i, j);
    }
  }

  lemma WholePair(c: Crypto, s: Session, r: Session, log: seq<Entry>, i: nat, j: nat)
    requires Lawful(c) && Matching(s, r) && Written(c, s, log) && r.recvCounter <= i < j < |log|
    ensures Received(c, r, log[i].record + log[j].record) == [log[i].frame, log[j].frame]
  {
    hide Lawful, Encode, Received;
    var next, last := r.(recvCounter := i + 1), r.(recvCounter := j + 1);
    ReceivedEntry(c, s, r, log, i, log[j].record);
    ReceivedEntry(c, s, next, log, j, []);
    ShortStream(c, last, []);
    hide Written;
    assert log[j].record + [] == log[j].record;
  }

  /** A record cannot be genuine whose counter begins with the third byte of another record's header. */
  lemma ForeignCounter(c: Crypto, s: Session, r: Session, log: seq<Entry>, wire: bytes)
    requires Lawful(c) && Matching(s, r) && |log| <= 0x0300_0000_0000_0000 && Genuine(c, s, log, wire)
    requires |wire| >= 15 && wire[7] == 0x03
    ensures var (result, r', _) := Receive(c, r, wire); result.Err? && r' == r
  {
    hide Receive, Lawful;
    ReceiveAccepts(c, r, wire);
    if Receive(c, r, wire).0.Ok? {
      var q := Presented(c, r.obfuscationKey, wire).value;
      PresentedCounter(c, r.obfuscationKey, wire);
      CounterAtLeast(wire[7..15]);
      WrittenCounter(c, s, log, q);
      assert false;
    }
  }

  lemma WrittenCounter(c: Crypto, s: Session, log: seq<Entry>, q: Sealed)
    requires |log| < TWO64 && WasWritten(c, s, log, q)
    ensures q.counter < |log|
  {}

  lemma PresentedCounter(c: Crypto, seed: bytes, wire: bytes)
    requires Presented(c, seed, wire).Ok?
    ensures |wire| >= 15 && Presented(c, seed, wire).value.counter == GetU64(wire[7..15])
  {
    hide MaskHeader, GetU64, GetU16;
    var body := ReadRecord(wire).0.value;
    var n := |body|;
    assert n >= FRAME_HEADER && |wire| >= 5 + n && body == wire[5..5 + n];
    assert body[2..10] == wire[7..15] by {
      assert forall k | 0 <= k < 8 :: body[2..10][k] == body[2 + k] == wire[7 + k];
    }
  }

  lemma BodyTakenFromNext(c: Crypto, s: Session, r: Session, log: seq<Entry>, i: nat, j: nat)
    requires Lawful(c) && Matching(s, r) && Written(c, s, log) && |log| <= 0x0300_0000_0000_0000
    requires i < |log| && j < |log| && |log[j].record| < |log[i].record| + 28
    requires Unforged(c, s, log, log[i].record[..RECORD_HEADER] + log[j].record)
    ensures Received(c, r, log[i].record[..RECORD_HEADER] + log[j].record) == []
  {
    RecordLength(c, s, log, i);
    RecordLength(c, s, log, j);
    hide Written, Lawful, GetU16, Genuine, Matching, Receive;
    var record := log[j].record;
    var wire := log[i].record[..RECORD_HEADER] + record;
    assert wire[3..5] == log[i].record[3..5];
    assert wire[7] == record[..3][2] == 0x03;
    ForeignCounter(c, s, r, log, wire);
    ShortStream(c, r, ReadRecord(wire).1);
  }

  /** Of the two frames in the log the second is delivered whole behind the first header; none is returned. */
  ghost predicate Loses(c: Crypto, s: Session, log: seq<Entry>) {
    && Lawful(c) && Matching(s, s) && Written(c, s, log) && |log| == 2 && s.recvCounter == 0
    && |log[0].record| >= RECORD_HEADER
    && var wire := log[0].record[..RECORD_HEADER] + log[1].record;
       Unforged(c, s, log, wire) && Received(c, s, wire) == [] && Tunneled(c, s, wire) == []
  }

  /** It happens: with two empty frames under lawful primitives and nothing forged, a lost first body takes the
      second frame with it. */
  lemma LostBodyHappens()
    ensures exists c: Crypto, s: Session, log: seq<Entry> :: Loses(c, s, log)
  {
    hide Loses, WithHmac;
    LosesUnder((k, m) => seq(32, _ => 0), seq(32, _ => 0), Frame(1, []));
  }

  lemma LosesUnder(hmac: (bytes, bytes) -> Block32, key: Block32, f: Frame)
    requires AllZero(key) && f.payload == []
    ensures Loses(WithHmac(hmac, 0), Session(key, key, [], 0, 0, 0, SECOND, 1),
                  [Entry(f, EmptyRecord(f, 0)), Entry(f, EmptyRecord(f, 1))])
  {
    WithHmacLawful(hmac, 0);
    UnderZeroKey(hmac, key);
    hide Lawful, Loses, WithHmac, EmptyRecord;
    LosesEmptyFrames(WithHmac(hmac, 0), Session(key, key, [], 0, 0, 0, SECOND, 1), f);
  }

  lemma UnderZeroKey(hmac: (bytes, bytes) -> Block32, key: Block32)
    requires AllZero(key)
    ensures var c := WithHmac(hmac, 0);
            && (forall n: uint64, aad: bytes, text: bytes :: c.seal(key, n, aad, text) == text + TAG)
            && (forall n: uint64, aad: bytes, box: bytes | |box| < 16 :: c.open(key, n, aad, box) == None)
  {
    assert KeyTag(key) == TAG;
    hide KeyTag;
  }

  lemma LosesEmptyFrames(c: Crypto, s: Session, f: Frame)
    requires Lawful(c) && Matching(s, s) && s.sendCounter == s.recvCounter == 0
    requires s.obfuscationKey == [] && s.maxPadding == 0 && f.payload == []
    requires forall n: uint64, aad: bytes, text: bytes :: c.seal(s.sendKey, n, aad, text) == text + TAG
    requires forall n: uint64, aad: bytes, box: bytes | |box| < 16 :: c.open(s.sendKey, n, aad, box) == None
    ensures Loses(c, s, [Entry(f, EmptyRecord(f, 0)), Entry(f, EmptyRecord(f, 1))])
  {
    var log := [Entry(f, EmptyRecord(f, 0)), Entry(f, EmptyRecord(f, 1))];
    EmptyFrame(c, s, f);
    EmptyFrame(c, s.(sendCounter := 1), f);
    hide Encode, Unforged, Lawful, Received, Tunneled;
    assert s.(sendCounter := 0) == s;
    assert Written(c, s, log);
    var wire := log[0].record[..RECORD_HEADER] + log[1].record;
    PartedWire(f);
    hide EmptyRecord;
    PartedIsUnforged(c, s, log, wire);
    BodyTakenFromNext(c, s, s, log, 0, 1);
    TunnelIsPrefix(c, s, wire);
  }

  function EmptyRecord(f: Frame, counter: uint64): (record: bytes)
    ensures |record| == 33
  {
    [0x17, 0x03, 0x03] + U16(28) + ([f.flags, 0] + U64(counter) + [0, 0] + TAG)
  }

  lemma PartedWire(f: Frame)
    ensures var wire := EmptyRecord(f, 0)[..RECORD_HEADER] + EmptyRecord(f, 1);
            |wire| == 38 && wire[3..5] == [0, 28] && wire[6] == 3 && wire[33..] == [0, 0, 0, 0, 0]
  {
    hide U64;
  }

  lemma EmptyFrame(c: Crypto, s: Session, f: Frame)
    requires s.obfuscationKey == [] && s.maxPadding == 0 && f.payload == []
    requires forall text: bytes :: c.seal(s.sendKey, s.sendCounter, [f.flags, 0], text) == text + TAG
    ensures Encode(c, s, f) == Some(EmptyRecord(f, s.sendCounter))
  {
    var pad := Padding(c, s.obfuscationKey, s.sendCounter, s.maxPadding);
    assert pad == [];
    assert BuildPlaintext([]) == [0, 0];
    assert Body(c, s, f) == [f.flags, 0] + U64(s.sendCounter) + [0, 0] + TAG;
  }

  lemma PartedIsUnforged(c: Crypto, s: Session, log: seq<Entry>, wire: bytes)
    requires s.obfuscationKey == [] && |log| < TWO64 && |wire| == 38 && wire[3..5] == [0, 28] && wire[6] == 3
    requires wire[33..] == [0, 0, 0, 0, 0]
    requires forall n: uint64, aad: bytes, box: bytes | |box| < 16 :: c.open(s.sendKey, n, aad, box) == None
    ensures Unforged(c, s, log, wire)
  {
    var q := Presented(c, [], wire).value;
    assert wire[5..33][1] == 3;
    assert |q.ciphertext| == 15;
    var rest := ReadRecord(wire).1;
    assert rest == [0, 0, 0, 0, 0];
    assert Unforged(c, s, log, []);
    assert ReadRecord(rest).1 == [];
  }

  // ---------------------------------------------------------------- the objects

  class SessionState {
    var sendKey: Block32
    var recvKey: Block32
    var obfuscationKey: bytes
    var sendCounter: uint64
    var recvCounter: uint64
    const maxPadding: byte
    const keepAlive: int
    var epoch: uint32

    function Abstract(): Session
      reads this
    {
      Session(sendKey, recvKey, obfuscationKey, sendCounter, recvCounter, maxPadding, keepAlive, epoch)
    }

    constructor (s: Session)
      ensures Abstract() == s
    {
      sendKey, recvKey, obfuscationKey := s.sendKey, s.recvKey, s.obfuscationKey;
      sendCounter, recvCounter := s.sendCounter, s.recvCounter;
      maxPadding, keepAlive, epoch := s.maxPadding, s.keepAlive, s.epoch;
    }
  }

  /** The session that InstallSession sets up: NewCipherState keeps the first 32 bytes of each key. */
  function Installed(k: Secrets, params: TransportParameters): Option<Session> {
    if |k.sendKey| < 32 || |k.receiveKey| < 32 then None
    else Some(Session(k.sendKey[..32], k.receiveKey[..32], k.obfuscationKey, 0, 0,
                      if params.maxPadding == 0 then 96 else params.maxPadding,
                      if params.keepAlive <= 0 then 15 * SECOND else params.keepAlive, k.epoch))
  }

  /** Two ends installed with crossed secrets make a channel in each direction. */
  lemma CrossedSecretsMatch(a: Secrets, b: Secrets, paramsA: TransportParameters, paramsB: TransportParameters)
    requires Crossed(a, b)
    ensures Installed(a, paramsA).Some? <==> Installed(b, paramsB).Some?
    ensures Installed(a, paramsA).Some? ==>
              var s, r := Installed(a, paramsA).value, Installed(b, paramsB).value;
              Matching(s, r) && Matching(r, s) && s.sendCounter == 0 && r.recvCounter == 0
  {
    if |a.sendKey| >= 32 && |a.receiveKey| >= 32 {
      assert a.sendKey[..32] == b.receiveKey[..32];
    }
  }

  /** What a session starts with: the first 32 bytes of each key, both counters at zero, defaults for what is
      missing. */
  lemma InstalledFields(k: Secrets, params: TransportParameters)
    ensures Installed(k, params).Some? <==> |k.sendKey| >= 32 && |k.receiveKey| >= 32
    ensures Installed(k, params).Some? ==>
              var s := Installed(k, params).value;
              && s.sendKey == k.sendKey[..32] && s.recvKey == k.receiveKey[..32]
              && s.obfuscationKey == k.obfuscationKey && s.epoch == k.epoch && s.sendCounter == s.recvCounter == 0
              && (params.maxPadding != 0 ==> s.maxPadding == params.maxPadding)
              && (params.maxPadding == 0 ==> s.maxPadding == 96)
              && (params.keepAlive > 0 ==> s.keepAlive == params.keepAlive)
              && (params.keepAlive <= 0 ==> s.keepAlive == 15_000_000_000)
  {}

  class Transport {
    const crypto: Crypto
    var session: SessionState?

    constructor (c: Crypto)
      ensures crypto == c && session == null
    {
      crypto, session := c, null;
    }

    method InstallSession(secrets: Secrets, params: TransportParameters) returns (r: Result<(), Error>)
      modifies this
      ensures match Installed(secrets, params)
              case None => r == Err(KeyTooShort) && session == old(session)
              case Some(s) => r == Ok(()) && session != null && fresh(session) && session.Abstract() == s
    {
      if |secrets.sendKey| < 32 { return Err(KeyTooShort); }
      if |secrets.receiveKey| < 32 { return Err(KeyTooShort); }
      var keep := params.keepAlive;
      if keep <= 0 { keep := 15 * SECOND; }
      var pad := params.maxPadding;
      if pad == 0 { pad := 96; }
      session := new SessionState(Session(secrets.sendKey[..32], secrets.receiveKey[..32], secrets.obfuscationKey,
                                          0, 0, pad, keep, secrets.epoch));
      r := Ok(());
    }

    /** A new key epoch: fresh keys, both counters back to zero, padding and keep-alive kept. */
    method UpdateSessionKeys(secrets: Secrets) returns (r: Result<(), Error>)
      modifies session
      ensures match Installed(secrets, TransportParameters(0, 0))
              case None => r == Err(KeyTooShort) && (session != null ==> session.Abstract() == old(session.Abstract()))
              case Some(s) =>
                if session == null then r == Err(SessionUnset)
                else r == Ok(()) && session.Abstract() ==
                     s.(maxPadding := session.maxPadding, keepAlive := session.keepAlive)
    {
      if |secrets.sendKey| < 32 { return Err(KeyTooShort); }
      if |secrets.receiveKey| < 32 { return Err(KeyTooShort); }
      if session == null { return Err(SessionUnset); }
      session.sendKey := secrets.sendKey[..32];
      session.recvKey := secrets.receiveKey[..32];
      session.obfuscationKey := secrets.obfuscationKey;
      session.sendCounter := 0;
      session.recvCounter := 0;
      session.epoch := secrets.epoch;
      r := Ok(());
    }

    /** Fills the body buffer field by field; returns what is written to the connection, header and body apart. */
    method WriteFrame(f: Frame) returns (r: Result<seq<bytes>, Error>)
      modifies session
      ensures session == null ==> r == Err(SessionUnset)
      ensures session != null ==>
                match Encode(crypto, old(session.Abstract()), f)
                case None => r == Err(FrameTooLarge) && session.Abstract() == old(session.Abstract())
                case Some(record) =>
                  && r == Ok(Writes(record))
                  && session.Abstract() ==
                     old(session.Abstract()).(sendCounter := (old(session.sendCounter) + 1) % TWO64)
    {
      hide MaskHeader, PadLength, HkdfBytes, U64;
      if session == null { return Err(SessionUnset); }
      var counter := session.sendCounter;
      var pad := Padding(crypto, session.obfuscationKey, counter, session.maxPadding);
      var padLen := |pad|;
      var box := crypto.seal(session.sendKey, counter, [f.flags, padLen], BuildPlaintext(f.payload));
      var (flagByte, padByte) := MaskHeader(crypto, session.obfuscationKey, counter, f.flags, padLen);
      var bodyLen := FRAME_HEADER + |box| + padLen;
      if bodyLen > 0xFFFF { return Err(FrameTooLarge); }
      var body := new byte[bodyLen](_ => 0);
      body[0] := flagByte;
      body[1] := padByte;
      var field := U64(counter);
      forall i | 0 <= i < 8 { body[2 + i] := field[i]; }
      forall i | 0 <= i < |box| { body[10 + i] := box[i]; }
      forall i | 0 <= i < padLen { body[10 + |box| + i] := pad[i]; }
      assert body[..] == [flagByte, padByte] + field + box + pad;
      session.sendCounter := (counter + 1) % TWO64;
      var header := [0x17, 0x03, 0x03] + U16(bodyLen);
      assert header == (header + body[..])[..RECORD_HEADER] && body[..] == (header + body[..])[RECORD_HEADER..];
      r := Ok([header, body[..]]);
    }

    method ReceiveFrame(wire: bytes) returns (r: Result<Frame, Error>, rest: bytes)
      requires Lawful(crypto)
      modifies session
      ensures rest == ReadRecord(wire).1
      ensures session == null ==> r == Err(if ReadRecord(wire).0.Err? then ReadRecord(wire).0.error else SessionUnset)
      ensures session != null ==>
                (r, session.Abstract(), rest) == Receive(crypto, old(session.Abstract()), wire)
    {
      hide MaskHeader, Lawful, GetU16, GetU64;
      if |wire| < RECORD_HEADER { return Err(UnexpectedEnd), []; }
      var length := GetU16(wire[3..5]);
      rest := wire[5..];
      if length < FRAME_HEADER { return Err(FrameTooShort), rest; }
      if |rest| < length { return Err(UnexpectedEnd), []; }
      var body := rest[..length];
      rest := rest[length..];
      assert body == wire[5..5 + length] && rest == wire[5 + length..];
      if session == null { return Err(SessionUnset), rest; }
      var counter := GetU64(body[2..10]);
      var (flag, padLen) := MaskHeader(crypto, session.obfuscationKey, counter, body[0], body[1]);
      if padLen > |body| - FRAME_HEADER { return Err(BadPadding), rest; }
      var ciphertextLen := |body| - FRAME_HEADER - padLen;
      var ciphertext := body[FRAME_HEADER..FRAME_HEADER + ciphertextLen];
      var unsealed := crypto.open(session.recvKey, counter, [flag, padLen], ciphertext);
      var plaintext;
      match unsealed {
        case None => return Err(OpenFailed), rest;
        case Some(text) => plaintext := text;
      }
      OpenShortens(crypto, session.recvKey, counter, [flag, padLen], ciphertext);
      if |plaintext| < 2 { return Err(PlaintextTruncated), rest; }
      var payloadLen := GetU16(plaintext[..2]);
      if payloadLen > |plaintext| - 2 { return Err(LengthTooLarge), rest; }
      var payload := plaintext[2..(2 + payloadLen) % 0x1_0000];
      if counter < session.recvCounter { return Err(Replayed), rest; }
      session.recvCounter := (counter + 1) % TWO64;
      r := Ok(Frame(flag, payload));
    }
  }
}
