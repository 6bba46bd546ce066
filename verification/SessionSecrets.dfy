/** Session secrets, as every key agreement of the program delivers them. */
module SessionSecrets {
  import opened Bits
  import opened Bytes

  datatype Role = Client | Server

  datatype TransportParameters = TransportParameters(keepAlive: int, maxPadding: byte)

  datatype Secrets = Secrets(
    sessionID: Block16, sendKey: bytes, receiveKey: bytes, obfuscationKey: bytes,
    peerPublicKey: Block32, epoch: uint32)

  /** Two ends of one session: same identifier, epoch and obfuscation key, crossed send and receive keys. */
  predicate Crossed(a: Secrets, b: Secrets) {
    && a.sessionID == b.sessionID
    && a.epoch == b.epoch
    && a.obfuscationKey == b.obfuscationKey
    && a.sendKey == b.receiveKey
    && a.receiveKey == b.sendKey
  }

  const MILLISECOND: int := 1_000_000
  const SECOND: int := 1_000_000_000

  /** Go's integer division. */
  function TruncDiv(a: int, b: int): int
    requires b > 0
  {
    if a >= 0 then a / b else -((-a) / b)
  }

  /** `uint16(keepAlive / time.Millisecond)` */
  function KeepAliveField(keepAlive: int): uint16 {
    TruncDiv(keepAlive, MILLISECOND) % 0x1_0000
  }

  /** The keep-alive interval survives the 16-bit millisecond field exactly when it is a whole number of
      milliseconds below 65536. */
  lemma KeepAliveSurvives(keepAlive: int)
    ensures KeepAliveField(keepAlive) * 1_000_000 == keepAlive <==>
            keepAlive % 1_000_000 == 0 && 0 <= keepAlive < 65_536_000_000
  {
    if keepAlive >= 0 {
      var q, r := keepAlive / MILLISECOND, keepAlive % MILLISECOND;
      assert keepAlive == q * MILLISECOND + r;
    }
  }
}
