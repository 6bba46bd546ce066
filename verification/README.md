# VeilDeploy: verified protocol cores

This project models the protocol state machines and codecs of VeilDeploy in Dafny and proves what they promise:

- the encrypted record channel and the datagram-to-stream session below it (`RecordChannel`, `UdpSession`);
- the cookie handshake with its message codecs, and the Noise_IKpsk2 handshake (`HelloCodec`, `Handshake`, `Noise`), and
  what each side of them has checked and bound its keys to when it completes, against any peer (`Authentication`,
  `NoiseBinding`);
- rekeying with a grace period, and the double ratchet with skipped keys (`Rekey`, `Pfs`, `Ratchet`);
- the replay window and the Bloom filter (`AntiReplay`, `BloomFilter`);
- negotiation of version, cipher suite and features (`CipherSuites`, `Negotiation`);
- the connection limiter and the session registry (`RateLimit`, `Registry`);
- congestion control and the RTT estimator (`Congestion`);
- the 0-RTT ticket codec and the plugin option string (`Tickets`, `PluginOptions`);
- and the pieces joined: frames over a channel keyed by an honest handshake of either kind or by a rekey, and over a
  datagram session (`EndToEnd`).

## How it is built

Objects that the program updates in place are classes. Each of their methods is proved equal to a pure function of the
old state, and the theorems are about that function, over whole runs. Loops of the program are loops here.

Cryptography is a value of type `Crypto`: uninterpreted functions for HMAC, SHA-256, HKDF, X25519 and the AEAD. The
predicate `Lawful` states the only laws used: Diffie-Hellman commutes, Open inverts Seal under the same key, counter and
associated data, and a ciphertext is 16 bytes longer than its plaintext. `LawsAreConsistent` shows that they can be met.
That Open accepts nothing else is not a law but, where a result needs it, a hypothesis about the bytes at hand: what
the receiver reads off the connection is genuine (`RecordChannel.Genuine` and `Unforged`), or one sealed message does
not open under one other key or state (`Ratchet.OpensOnlyUnder`, `NoiseBinding.OpensOnlyAsSealed`). In the same way the
binding lemmas name the two inputs that a hash, HMAC or HKDF must tell apart (`Primitives.HashApart` and the like), and
`Authentication.Vouched` says of one MAC that a holder of the key made it. Random draws, clock readings and received bytes are parameters.

Machine integers are naturals with their bounds. Wrap-around and truncation are written out; `Bits` defines Go's
bitwise operators on naturals and proves what each bit of a result is.

## Where the code does less than one might expect

Each of these is a lemma that gives the exact condition, and where the condition alone does not show that it can fail,
a second lemma that exhibits a failing input or run.

- `writeFrame` sends header and body in two writes, which are two datagrams on a datagram network. The frames returned
  are exactly those that the delivered records promise if header and body travel together
  (`RecordChannel.HonestNetwork`). A body that is lost behind its header takes the next record with it
  (`RecordChannel.LostBody`, `RecordChannel.LostBodyHappens`); order, integrity and at-most-once delivery hold on any
  connection (`RecordChannel.InOrderSubsequence`).
- The tunnel loop stops at the first error of Receive, so a single replayed record ends it
  (`RecordChannel.HonestTunnel`).
- A Diffie-Hellman step of the ratchet keeps the skipped keys of the old chain under their numbers, so the new chain is
  tracked exactly when there were none (`Ratchet.StepTurnsLead`, `Ratchet.StaleKeyShadows`).
- Two ratchets that are set up from crossed secrets start with matching chains and one root key exactly when both
  directions of the session have the same key (`Ratchet.SetUpMatches`), and the first message opens exactly when both
  ends come to one message key (`Ratchet.FirstMessageOpens`); under lawful primitives it need not
  (`Ratchet.FreshPairFails`). That a conversation keeps in lock step (`Ratchet.StepTurnsLead`, `Ratchet.Turn`) is
  therefore stated for ends that are in lock step, which a shared root key brings about (`Ratchet.SharedRootLeads`) and
  NewDoubleRatchet does not.
- The Noise handshake mixes nothing from version, suites, session identifier and padding. A network that rewrites them
  leaves both sides with crossed keys and one view of a field exactly when what arrives gives them one
  (`Noise.RewrittenLockStep`).
- A clean-up of the previous secrets that overtakes a rekey response leaves the responder without secrets for the
  initiator exactly when it is of the initiator's epoch (`Pfs.ExpiryKeepsEpoch`).
- A replayed number passes the window at distance exactly `WindowSize` once its timestamp has been cleaned up
  (`AntiReplay.CheckDecides`, `AntiReplay.SecondDelivery`, `AntiReplay.ReplayPasses`), and numbers whose sum with the
  window size wraps around are refused although they are new (`AntiReplay.CheckAtWrapAround`,
  `AntiReplay.NewestIsRefused`).
- A second delivery of one ratchet message advances the chain past a message whose key is then lost
  (`Ratchet.DuplicateBreaksTracking`).
- An honest pair with the client's downgrade check on completes only if two different MAC inputs give the same 16 bytes,
  because the client has already appended the response to its transcript (`Negotiation.DowngradeCheckOfHonestPair`);
  under lawful primitives it may never do so (`Negotiation.HonestPairRefused`).
- A reload that lowers the connection limit below the number of open connections makes the count wrong
  (`Registry.ReloadBreaksCount`, `Registry.ReloadLosesCount`).
- The congestion window is not capped in recovery (`Congestion.AckKeepsCap`, `Congestion.RecoveryExceedsCap`).
- Session keys shorter than 6 or longer than 65459 bytes do not survive a 0-RTT packet (`Tickets.PacketRoundTrip`), and
  the ticket decoder checks 4 of the 56 bytes behind the key (`Tickets.OutOfRangeExactly`).
- The option map with an empty key that means "true", and nothing else, prints as the empty string
  (`PluginOptions.FormatRoundTrip`).
- The client handshake indexes a record that may be empty, exactly when it is (`Handshake.EmptyRecordExactly`), and the
  Noise code slices messages without checking every bound: the responder reads message 1 out of range exactly when it
  is shorter than its suite count demands (`Noise.HearOutOfRange`, `Noise.ShortHelloIsOutOfRange`), the initiator
  message 2 exactly when the suites it reads, the key or the parameters do not fit (`Noise.FinishOutOfRange`,
  `Noise.ShortReplyIsOutOfRange`). The models return `EmptyRecord` and `OutOfRange` there.

## Model

| member | source | states |
|---|---|---|
| Primitives.LawsAreConsistent | crypto/encryption.go:32-48 | the laws assumed of the primitives can be met together |
| Primitives.OpenShortens | crypto/encryption.go:41-48 | an opened ciphertext is 16 bytes longer than its plaintext |
| SessionSecrets.KeepAliveSurvives | crypto/keyexchange.go:243-244 | the keep-alive interval survives its 16-bit millisecond field iff it is a whole number of milliseconds below 65536 |
| RecordChannel.PadLength | transport/transport.go:296-317 | the derived padding is never longer than the configured maximum |
| RecordChannel.MaskTwice | transport/transport.go:319-348 | unmasking a masked header gives back flag and padding length, for every seed and counter |
| RecordChannel.AdmittedSize | transport/transport.go:154-168 | the size check admits a frame iff payload and padding together are at most 65507 bytes |
| RecordChannel.WireLayout | transport/transport.go:140-192 | every byte of a record: header, masked flag and padding length, counter, ciphertext, and padding from the key stream of the counter |
| RecordChannel.ParseInvertsBody | transport/transport.go:207-230 | parsing the body of a written frame recovers flag, padding length, counter and ciphertext |
| RecordChannel.SliceInvertsPlaintext | transport/transport.go:236-245 | for admitted payloads neither the uint16 length prefix nor the uint16 slice bound wraps, and the payload comes back |
| RecordChannel.ReadInvertsHeader | transport/transport.go:178-205 | reading a record off the connection returns its body and leaves exactly what follows |
| RecordChannel.ReceiveInvertsEncode | transport/transport.go:140-260 | Receive delivers an admitted record unchanged iff its counter is not below the receive counter, and then counts up from it |
| RecordChannel.SendRunWritten | transport/transport.go:140-192 | in one epoch the i-th written frame carries counter i; refused frames write nothing and leave the counter alone |
| RecordChannel.HighsFrom | transport/transport.go:247-251 | the kept indices rise strictly from the receive counter |
| RecordChannel.HonestNetwork | transport/transport.go:194-260 | on a connection of whole records, dropped, duplicated, delayed or reordered at will, the frames returned by all calls of Receive are exactly those whose index exceeds every earlier returned one |
| RecordChannel.HonestTunnel | device/device.go:195-200 | on the same connection the tunnel loop, which stops at the first error, gets the frames before the first replay |
| RecordChannel.TunnelIsPrefix | device/device.go:195-200 | on any connection the tunnel loop gets a prefix of what all calls of Receive would return |
| RecordChannel.LosslessNetwork | transport/transport.go:140-260 | a connection that carries all records one after the other delivers every written frame, in order, to Receive and to the tunnel loop |
| RecordChannel.ReceiveAccepts | transport/transport.go:231-251 | a frame is returned only if Open accepted what the record presents, its counter is not below the receive counter, and the state is untouched otherwise |
| RecordChannel.AlteredRecord | transport/transport.go:231-251 | whatever stands at the head of the connection, unless forged, yields nothing, or a written frame not returned before |
| RecordChannel.InOrderSubsequence | transport/transport.go:140-260 | on a connection that yields any bytes at all, none of them forged, the returned frames of one epoch are an in-order subsequence of the written ones, each at most once, flag and payload intact |
| RecordChannel.LostBody | transport/transport.go:188-205 | behind the header of one record, the next record is returned iff the body of the first was delivered with it; otherwise it is taken for that body |
| RecordChannel.LostBodyHappens | transport/transport.go:188-205 | two empty frames under lawful primitives: with the first body lost, neither is returned |
| RecordChannel.CrossedSecretsMatch | transport/transport.go:65-98 | two ends installed with crossed secrets form a channel in each direction with zero counters |
| RecordChannel.InstalledFields | transport/transport.go:65-98 | a session starts with the first 32 bytes of each key, zero counters, and defaults of 96 bytes and 15 seconds for what is missing |
| RecordChannel.Transport.InstallSession | transport/transport.go:65-98 | installs a fresh session with defaulted padding and keep-alive, or refuses short keys and changes nothing |
| RecordChannel.Transport.UpdateSessionKeys | transport/transport.go:100-122 | new keys and epoch, both counters zero, padding and keep-alive kept; short keys or a missing session are refused |
| RecordChannel.Transport.WriteFrame | transport/transport.go:140-192 | fills the body buffer with the encoded record, writes header and body apart and advances the send counter, or refuses and changes nothing |
| RecordChannel.Transport.ReceiveFrame | transport/transport.go:194-260 | result, new session and unread rest are those of the specification, with every error case; no slice is out of range |
| UdpSession.ReadConserves | transport/transport.go:557-610 | one read, whether it times out or not, moves bytes from the session to the reader without losing, repeating or reordering any |
| UdpSession.PushConserves | transport/transport.go:537-555 | an accepted datagram is appended whole, a dropped one changes nothing |
| UdpSession.PushTakes | transport/transport.go:537-555 | a datagram is queued iff the session is open and fewer than 64 are waiting |
| UdpSession.ReadFills | transport/transport.go:557-610 | a read fills the buffer as far as pending bytes or the next datagram go; when it reports end of file and when the deadline |
| UdpSession.Conservation | transport/transport.go:537-610 | in every run: bytes returned, then pending, then queued, are the accepted datagrams in order; the queue never exceeds 64 |
| UdpSession.Drained | transport/transport.go:557-610 | whatever the reads were, once nothing is pending or queued every accepted byte has been returned |
| UdpSession.Drain | transport/transport.go:557-610 | on an open session, enough reads in time, each into any non-empty buffer, return every accepted byte |
| UdpSession.Session.PushData | transport/transport.go:537-555 | the queue accepts, or drops when closed or full |
| UdpSession.Session.ReadInto | transport/transport.go:557-610 | copies pending bytes or the next datagram into the buffer and keeps the remainder, or times out; the rest of the buffer is untouched |
| HelloCodec.ClientHelloRoundTrip | crypto/keyexchange.go:447-508 | decoding inverts encoding iff cookie and padding are at most 255 bytes |
| HelloCodec.ClientHelloReencodes | crypto/keyexchange.go:252-253 | re-encoding a decoded hello restores it iff its flag byte is canonical and nothing follows the MAC |
| HelloCodec.TrailingIgnored | crypto/keyexchange.go:466-508 | bytes after the MAC do not change what is decoded |
| HelloCodec.ServerHelloRoundTrip | crypto/keyexchange.go:510-569 | decoding inverts encoding iff the padding is at most 255 bytes |
| HelloCodec.CookieRoundTrip | crypto/keyexchange.go:571-603 | decoding inverts encoding iff the cookie is at most 255 bytes |
| HelloCodec.ServerHelloReencodes | crypto/keyexchange.go:527-569 | a server hello begins with the encoding of what it decodes to, but for the ignored flag byte |
| HelloCodec.CookieReencodes | crypto/keyexchange.go:582-603 | the same for a cookie message |
| HelloCodec.Decodable | crypto/keyexchange.go:466-603 | exactly which strings the three decoders accept |
| HelloCodec.WriteClientHello | crypto/keyexchange.go:447-464 | appends the fields of the specified encoding |
| HelloCodec.ReadClientHello | crypto/keyexchange.go:466-508 | moves through any byte string without leaving it and decodes as specified, with every error case |
| HelloCodec.WriteServerHello | crypto/keyexchange.go:510-525 | appends the fields of the specified encoding |
| HelloCodec.ReadServerHello | crypto/keyexchange.go:527-569 | moves through any byte string without leaving it and decodes as specified, with every error case |
| HelloCodec.WriteCookie | crypto/keyexchange.go:571-580 | appends the fields of the specified encoding |
| HelloCodec.ReadCookie | crypto/keyexchange.go:582-603 | moves through any byte string without leaving it and decodes as specified, with every error case |
| Handshake.OwnCookieVerifies | crypto/keyexchange.go:605-636 | the server accepts its own cookie iff no more than the lifetime has passed since its 32-bit second stamp |
| Handshake.ClientHandshake | crypto/keyexchange.go:96-185 | against any peer the loop computes the specified run and sends at most four hellos |
| Handshake.ServerHandshake | crypto/keyexchange.go:187-272 | against any peer the loop computes the specified run and handles at most four hellos |
| Handshake.PerformClient | crypto/keyexchange.go:78-94 | a static key of the wrong length or a missing pre-shared key is refused before anything is sent |
| Handshake.PerformServer | crypto/keyexchange.go:78-94 | the same for the server |
| Handshake.EmptyRecordExactly | crypto/keyexchange.go:129-135 | the client indexes out of range iff the record is empty |
| Handshake.ServerReadsHello | crypto/keyexchange.go:112-121 | the server decodes an honest client's hello to exactly its fields, with a valid MAC |
| Handshake.ServerSendsCookie | crypto/keyexchange.go:217-227 | an honest hello without a fresh cookie is answered with a cookie, the fourth time as the last act |
| Handshake.ClientCarriesCookie | crypto/keyexchange.go:135-149 | an honest client resends its hello with the cookie it was given |
| Handshake.ServerAcceptsHello | crypto/keyexchange.go:217-272 | an honest hello with a fresh cookie completes both sides, in agreement |
| Handshake.HonestExchange | crypto/keyexchange.go:96-272 | an honest exchange completes iff one of the first three cookies returns in time, right after the first that does; then transcripts are identical, session id and obfuscation key equal, send and receive keys crossed |
| Handshake.OneCookieExchange | crypto/keyexchange.go:96-272 | from the start, a first cookie that returns within its lifetime is the only one |
| Handshake.ExchangeIsTwoRuns | crypto/keyexchange.go:96-272 | a completed exchange is one client run and one server run in which each receives what the other sends |
| Handshake.TranscriptBindsKeys | crypto/keyexchange.go:127-177 | over any network, sides that complete with the same transcript hold crossed keys bound to each other's ephemeral keys |
| Authentication.ClientCompletes | crypto/keyexchange.go:134-167 | the client completes iff the record is a server hello for its session with the right MAC under the pre-shared key |
| Authentication.ClientRefuses | crypto/keyexchange.go:134-167 | why the client refuses a record |
| Authentication.ClientHolds | crypto/keyexchange.go:127-185 | its transcript and parameters, and its keys byte by byte from the shared secret and the MAC of the transcript |
| Authentication.ClientResends | crypto/keyexchange.go:134-154 | the client resends iff the record is a cookie for its session and it is one of the first three; the new hello carries it |
| Authentication.ServerDecides | crypto/keyexchange.go:201-231 | for any record: refused iff the MAC is wrong, completed iff the cookie is this server's and within its lifetime too, answered with a cookie otherwise |
| Authentication.CookieIssued | crypto/keyexchange.go:605-622 | the cookie message byte by byte |
| Authentication.ServerHolds | crypto/keyexchange.go:233-272 | reply, transcript, parameters and keys of a server that completes |
| Authentication.ClientMetHolder | crypto/keyexchange.go:96-185 | against any peer, a client that completes met a holder of the pre-shared key who vouched for its session, its key and the key it takes for its peer's |
| Authentication.ServerMetHolder | crypto/keyexchange.go:187-272 | against any peer, so did a server, and it got back a cookie made for that address, session and key no longer ago than the lifetime |
| Authentication.KeyBindsInputs | crypto/keyexchange.go:351-383 | two ends with one key have one shared secret, transcript and pre-shared key |
| Authentication.ServerDefaults | crypto/keyexchange.go:188-196 | defaults of 15 seconds, 96 bytes and 60 seconds replace exactly what is missing |
| Rekey.RekeyRoundTrip | crypto/rekey.go:155-178 | decoding inverts encoding iff the version is 1, and only encodings decode |
| Rekey.DerivedSecretsCross | crypto/rekey.go:110-153 | opposite roles derive crossed secrets from crossed secrets |
| Rekey.RekeyedKeys | crypto/rekey.go:110-153 | keys and session identifier byte by byte, from shared secret, nonces, old session identifier and obfuscation key |
| Rekey.RekeyBinds | crypto/rekey.go:110-153 | two ends with one new key had one shared secret, session, obfuscation key and pair of nonces |
| Rekey.ProcessDecides | crypto/rekey.go:63-108 | for any message: accepted iff well-formed and, for a response, awaited; whose nonce comes first; what is answered |
| Rekey.RekeyCrosses | crypto/rekey.go:39-108 | request, response and its processing leave both sides with crossed secrets of the next epoch and each other's public key |
| Pfs.PFSManager.constructor | crypto/pfs.go:69-76 | a new manager holds the initial secrets, nothing previous or pending |
| Pfs.PFSManager.InitiateRekey | crypto/pfs.go:154-169 | starts a rekey, or refuses while one is pending and changes nothing |
| Pfs.PFSManager.ProcessRekeyMessage | crypto/pfs.go:172-187 | on success the new secrets are current, the old ones previous, nothing pending; on error nothing changes |
| Pfs.PFSManager.ExpirePrevious | crypto/pfs.go:205-219 | drops the previous secrets iff they are of the given epoch |
| Pfs.PFSManager.GetSecretsForEpoch | crypto/pfs.go:140-151 | current secrets, else previous ones, of exactly that epoch |
| Pfs.RequestDelivered | crypto/pfs.go:172-187 | a responder moves one epoch ahead and keeps the initiator's secrets as previous |
| Pfs.ResponseDelivered | crypto/pfs.go:172-187 | processing the response crosses the current secrets again |
| Pfs.StepKeepsInv | crypto/pfs.go:139-220 | every event of a two-party run keeps the pairing invariant |
| Pfs.RunStaysPaired | crypto/pfs.go:139-220 | in every run either both managers are at one epoch with crossed secrets, or the responder is exactly one ahead and still gives out the crossed partner of the initiator's secrets |
| Pfs.ExpiryKeepsEpoch | crypto/pfs.go:204-219 | with a response under way in any run, a clean-up at the responder leaves it secrets for the initiator's epoch iff it is of another epoch |
| Pfs.ResponseClosesTheGap | crypto/pfs.go:172-187 | processing the outstanding response returns both managers to one epoch, crossed |
| Ratchet.HeaderRoundTrip | crypto/pfs.go:456-472 | the header carries public key, length of the previous chain and message number |
| Ratchet.ChainIsHmac | crypto/pfs.go:448-454 | a chain step is one HMAC over the byte 1 |
| Ratchet.ChainBinds | crypto/pfs.go:448-454 | chains that meet after equally many steps started with one key |
| Ratchet.RootIsHkdf | crypto/pfs.go:407-415 | root and chain key are the first 64 bytes of HKDF from the shared secret, salted with the old root key |
| Ratchet.RootBinds | crypto/pfs.go:407-443 | two ends with one new root key had one root key and shared secret |
| Ratchet.EncryptSends | crypto/pfs.go:323-350 | message n is sealed with n+1 applications of the KDF and the chain advances by one |
| Ratchet.SenderUsesChain | crypto/pfs.go:323-350 | the same for every message of a run |
| Ratchet.SkipTracks | crypto/pfs.go:376-386 | the skip loop stores exactly the keys of the messages it passes |
| Ratchet.TakeKeyTracks | crypto/pfs.go:369-393 | a message not taken before gets the sender's key iff its forward gap is at most maxSkip, else nothing changes; the skipped keys stay exactly those of the undelivered messages |
| Ratchet.DuplicateBreaksTracking | crypto/pfs.go:369-393 | the invariant survives a delivery iff it is the first of that message |
| Ratchet.DeliveryFrom | crypto/pfs.go:353-394 | from any tracked state a duplicate-free order decrypts to the sender's texts, gaps beyond maxSkip refused; at the end the skipped keys are exactly those of the messages passed and not taken |
| Ratchet.AnyOrder | crypto/pfs.go:323-394 | from matching chains the same holds for every duplicate-free order |
| Ratchet.SharedRootLeads | crypto/pfs.go:433-443 | of two ends with one root key the one that makes a sending step is ahead |
| Ratchet.StepTurnsLead | crypto/pfs.go:396-446 | between ends in lock step, a Diffie-Hellman step puts the receiver on the sender's chain and, with fresh keys, ahead in turn; it tracks that chain iff no keys were skipped before |
| Ratchet.StaleKeyShadows | crypto/pfs.go:358-393 | after a step a number skipped in the old chain gets its old key, every other one the new chain's |
| Ratchet.Turn | crypto/pfs.go:323-446 | a whole turn between ends in lock step: the first delivery makes the step, all texts come back in any duplicate-free order, and the receiver is ahead for its own turn |
| Ratchet.SetUpMatches | crypto/pfs.go:284-320 | after set-up from crossed secrets the chains match, in either direction, and the root keys are equal iff both directions of the session have the same key |
| Ratchet.FirstMessageOfFreshPair | crypto/pfs.go:284-394 | the first message is sealed under the client's send key and opened under the server's, with a step or without, or refused where the step fails |
| Ratchet.FirstMessageOpens | crypto/pfs.go:284-394 | if it opens under no other key, the first message opens to its text iff the server can follow and both ends derive one message key |
| Ratchet.FreshPairFails | crypto/pfs.go:284-394 | for all crossed secrets, unless the server knows the client's key and both directions share one, there are lawful primitives under which no first message opens |
| Ratchet.DoubleRatchet.constructor | crypto/pfs.go:284-320 | root and chain keys from the secrets by role, counters zero, nothing skipped |
| Ratchet.DoubleRatchet.RatchetEncrypt | crypto/pfs.go:323-350 | message and new state are the specified ones |
| Ratchet.DoubleRatchet.RatchetDecrypt | crypto/pfs.go:353-394 | result and new state are the specified ones, with every error case, for headers with the known and with a new remote key |
| Ratchet.DoubleRatchet.Advance | crypto/pfs.go:396-446 | the Diffie-Hellman step as specified, with what it leaves behind on each error |
| Ratchet.DoubleRatchet.SkipMessages | crypto/pfs.go:380-385 | the loop reaches the specified state |
| AntiReplay.EmptyRepresents | crypto/antireplay.go:72-102 | the empty bitmap stands for the empty set |
| AntiReplay.AcceptKeepsBitmap | crypto/antireplay.go:199-223 | after Accept the base is the greatest accepted number and bit d is set iff base-d was accepted, for every recorded distance |
| AntiReplay.RunRepresents | crypto/antireplay.go:105-223 | the same after every run of Accept and Check calls |
| AntiReplay.TickKeepsBitmap | crypto/antireplay.go:115-119 | the periodic clean-up touches timestamps only |
| AntiReplay.CheckDecides | crypto/antireplay.go:166-197 | Check passes newer numbers and unaccepted ones up to the window size back; accepted ones only at unrecorded distances without a timestamp |
| AntiReplay.WhyRefused | crypto/antireplay.go:166-197 | which verdict refuses a number: its timestamp first, then the distance, then the set |
| AntiReplay.CheckAtWrapAround | crypto/antireplay.go:177-185 | where number plus window size wraps, it passes iff the base is at most the wrapped sum |
| AntiReplay.NewestIsRefused | crypto/antireplay.go:177-185 | once 64 is accepted the greatest number is refused as too old, at any time |
| AntiReplay.GuardedRepresents | crypto/antireplay.go:105-223 | a receiver that accepts what passes keeps bitmap and delivered set equal |
| AntiReplay.RunStamped | crypto/antireplay.go:105-243 | after any run the timestamps are those of the last passages that the last clean-up found no older than the maximum age |
| AntiReplay.NoReplayWithinAge | crypto/antireplay.go:105-243 | with a monotone clock, no number is let through twice within the maximum age |
| AntiReplay.SecondDelivery | crypto/antireplay.go:105-243 | a number is let through again iff its distance from the greatest one is not recorded and a clean-up more than the maximum age after its last passage has run |
| AntiReplay.WindowDefaults | crypto/antireplay.go:77-82 | defaults of 64 and 60 seconds replace exactly what is missing |
| AntiReplay.ReplayPasses | crypto/antireplay.go:166-223 | with the default window and age, and at any time, 1, 65 and, just after a minute, 1 again are all let through |
| AntiReplay.AntiReplay.constructor | crypto/antireplay.go:72-102 | defaults of window size and age, empty state |
| AntiReplay.AntiReplay.Accept | crypto/antireplay.go:137-157 | the fields end as the specified state |
| AntiReplay.AntiReplay.Check | crypto/antireplay.go:105-134 | clean-up when due, then the specified verdict |
| AntiReplay.AntiReplay.Cleanup | crypto/antireplay.go:232-243 | keeps exactly the timestamps that are not too old |
| AntiReplay.AntiReplay.Reset | crypto/antireplay.go:246-261 | forgets everything but the last clean-up time |
| BloomFilter.Hash | crypto/antireplay.go:329-336 | every position lies inside the array, whenever the uint32 bit count is not zero |
| BloomFilter.SpreadInverts | crypto/antireplay.go:329-336 | a position is the mixed value modulo the bit count, and the mixed value gives back number and round: the mixing loses nothing |
| BloomFilter.RoundsDiffer | crypto/antireplay.go:329-336 | different rounds of a number mix to different values |
| BloomFilter.OnesOfNewBit | crypto/antireplay.go:309-312 | setting a bit adds one to the set bits iff it was clear |
| BloomFilter.TotalOfSetAt | crypto/antireplay.go:309-312 | the same for the whole array |
| BloomFilter.FilledBits | crypto/antireplay.go:303-314 | after any run of adds a bit is set iff some added number hashes to it |
| BloomFilter.FilledContains | crypto/antireplay.go:316-327 | a number is reported present iff all its positions were hit; every added number is |
| BloomFilter.BloomFilter.constructor | crypto/antireplay.go:86-95 | defaults of size and hash count, all bits clear, for every size |
| BloomFilter.BloomFilter.Add | crypto/antireplay.go:303-314 | sets exactly the positions of the number and keeps count equal to the number of set bits |
| BloomFilter.BloomFilter.Has | crypto/antireplay.go:316-327 | true iff all positions are set |
| BloomFilter.BloomFilter.Reset | crypto/antireplay.go:342-347 | all bits clear, count zero |
| Noise.DecryptInvertsEncrypt | crypto/noise.go:180-220 | from equal states decryption recovers the text and reaches the same hash |
| Noise.SharedBothWays | crypto/noise.go:265-268 | both sides compute the same shared secret or both find it degenerate |
| CipherSuites.SuitesRoundTrip | crypto/noise.go:426-433 | parsing inverts writing of a suite list |
| CipherSuites.FirstCommonIsCommon | crypto/noise.go:435-449 | the search finds a suite of both lists iff there is one |
| CipherSuites.FirstCommonPosition | crypto/negotiation.go:192-209 | nothing before the found suite is in the other list |
| CipherSuites.WriteSuites | crypto/noise.go:255-257 | the loop writes the specified list |
| CipherSuites.ReadSuites | crypto/negotiation.go:423-427 | the loop reads the specified list |
| CipherSuites.FindCommon | crypto/negotiation.go:192-209 | the nested loops find the first common suite |
| Noise.ParametersRoundTrip | crypto/noise.go:602-619 | transport parameters survive, the keep-alive cut to its millisecond field |
| Noise.FirstMessageParses | crypto/noise.go:404-479 | the responder reads back the fields of message 1, or refuses a minimum version above 2 |
| Noise.SecondMessageParses | crypto/noise.go:306-368 | the initiator reads back the fields of message 2 |
| Noise.FirstMessageLockStep | crypto/noise.go:247-492 | whatever the clear fields become on the way, after each token of message 1 the responder has the initiator's hash and chaining key, and learns its static key |
| Noise.SecondMessageLockStep | crypto/noise.go:300-578 | the same for message 2; both hold crossed keys, and each reports session, suite and version from the fields that reached it |
| Noise.SecretsCross | crypto/noise.go:580-600 | the split keys are crossed and the obfuscation key is shared |
| Noise.LockStep | crypto/noise.go:223-578 | an honest handshake completes iff version 2 is acceptable and no shared secret is degenerate; then hash and chaining key agree after all twelve steps and the outcomes are the same |
| Noise.RewrittenLockStep | crypto/noise.go:223-578 | over a network that rewrites the clear fields the handshake still completes iff the arriving versions are acceptable and no shared secret is degenerate, in lock step and with crossed keys; session, suite and version agree iff what arrives makes them the same |
| NoiseBinding.InitiatorMixes | crypto/noise.go:223-298 | what goes into each of the initiator's seven states and under what its static key is sealed, in terms of SHA-256, HMAC and HKDF-Expand |
| NoiseBinding.ResponderMixes | crypto/noise.go:405-492 | the same for the responder, which opened the box in that very state |
| NoiseBinding.AnswerMixes | crypto/noise.go:494-578 | the same for message 2, with the session keys byte by byte |
| NoiseBinding.FinishMixes | crypto/noise.go:306-401 | the same for the initiator, which opened the parameters in that very state |
| NoiseBinding.SealStateBinds | crypto/noise.go:164-178 | one state at the sealing of the static key: one responder key, ephemeral key, first shared secret and pre-shared key |
| NoiseBinding.FirstStateBinds | crypto/noise.go:157-168 | one state behind message 1: also one box and second shared secret |
| NoiseBinding.SecondStateBinds | crypto/noise.go:164-178 | one state at the sealing of the parameters: one history, ephemeral key, third and fourth shared secret and pre-shared key |
| NoiseBinding.FirstBoxBinds | crypto/noise.go:405-492 | a responder that opens the initiator's box, if that opens only as it was sealed, has the static key the initiator meant and the same pre-shared key and inputs |
| NoiseBinding.SecondBoxBinds | crypto/noise.go:306-401 | the same for an initiator that opens the responder's box |
| NoiseBinding.MismatchedPskHeard | crypto/noise.go:170-220 | with different pre-shared keys a box that opens was opened under other associated data than it was sealed under, or SHA-256 has a collision |
| NoiseBinding.MismatchedPskRefused | crypto/noise.go:170-220 | for any two different pre-shared keys there are lawful primitives under which the responder refuses an otherwise honest initiator |
| NoiseBinding.OptionDefaults | crypto/noise.go:87-92 | defaults replace exactly what is missing |
| Noise.SharedUsable | crypto/noise.go:265-268 | a shared secret is refused iff it is all zero |
| Noise.HearOutOfRange | crypto/noise.go:409-450 | the responder reads message 1 out of range iff it has 51 bytes, an acceptable minimum version and too few bytes for its suite count |
| Noise.ShortHelloIsOutOfRange | crypto/noise.go:409-450 | 51 bytes that announce one suite do so, whatever the keys |
| Noise.HearTruncated | crypto/noise.go:409-479 | message 1 is found truncated iff it ends behind the ephemeral key and before the end of the static key |
| Noise.ParseSecondOutOfRange | crypto/noise.go:306-344 | the initiator leaves message 2 before the parameters iff the suites it reads and a key do not fit |
| Noise.FinishOutOfRange | crypto/noise.go:306-368 | the initiator reads message 2 out of range iff suites and key do not fit, or the shared secrets are usable and the length-prefixed box does not |
| Noise.ShortReplyIsOutOfRange | crypto/noise.go:306-344 | 37 bytes that announce 255 suites, none offered, do so |
| Noise.ScanReply | crypto/noise.go:319-340 | the loop stops behind the first known suite, or reads out of range as specified |
| Noise.Perform | crypto/noise.go:82-103 | a missing pre-shared key is refused, otherwise the state starts with defaulted options |
| Noise.NoiseHandshakeState.constructor | crypto/noise.go:105-155 | the initial hash and chaining key of the protocol name |
| Noise.NoiseHandshakeState.TokenHash | crypto/noise.go:157-162 | hash overwritten as specified, chaining key kept |
| Noise.NoiseHandshakeState.TokenKey | crypto/noise.go:164-168 | chaining key overwritten as specified, hash kept |
| Noise.NoiseHandshakeState.TokenPsk | crypto/noise.go:170-178 | both overwritten, the new chaining key from the old one |
| Noise.NoiseHandshakeState.TokenEncrypt | crypto/noise.go:180-200 | ciphertext and new hash as specified |
| Noise.NoiseHandshakeState.TokenDecrypt | crypto/noise.go:202-220 | text and new hash as specified, or an error |
| Noise.NoiseHandshakeState.Initiate | crypto/noise.go:223-298 | message 1 and the state after each token as specified |
| Noise.NoiseHandshakeState.Complete | crypto/noise.go:300-401 | outcome and states as specified, with every error case |
| Noise.NoiseHandshakeState.HearFirst | crypto/noise.go:405-492 | states after message 1 as specified, with every error case |
| Noise.NoiseHandshakeState.AnswerSecond | crypto/noise.go:494-578 | message 2, outcome and states as specified |
| Noise.NoiseHandshakeState.RespondTo | crypto/noise.go:404-578 | the responder as a whole as specified |
| Negotiation.OfferedBits | crypto/negotiation.go:282-300 | exactly the required features, rekeying and the double ratchet are offered |
| Negotiation.NegotiatedBits | crypto/negotiation.go:302-315 | exactly the features offered by the client that the server offers too, or compression, are negotiated |
| Negotiation.RequiredMet | crypto/negotiation.go:317-328 | validation succeeds iff every required feature is set |
| Negotiation.OfferRoundTrip | crypto/negotiation.go:388-432 | decoding inverts encoding iff at most 255 suites are offered |
| Negotiation.ResponseRoundTrip | crypto/negotiation.go:434-476 | decoding inverts encoding iff the proof is at most 255 bytes |
| Negotiation.OfferReencodes | crypto/negotiation.go:404-432 | exactly which strings decode to an offer; each begins with the encoding of that offer |
| Negotiation.ResponseReencodes | crypto/negotiation.go:448-476 | the same for responses |
| Negotiation.ConcludeDecides | crypto/negotiation.go:238-280 | the client accepts, from anyone, iff version, suite, required features and, if checked, the proof are right; it then holds just what the response says |
| Negotiation.RespondDecides | crypto/negotiation.go:168-235 | the server answers, to anyone, iff versions and suites meet and the offer has the features it requires |
| Negotiation.RespondHolds | crypto/negotiation.go:168-235 | version, suite, features, proof, reply and transcript of that answer |
| Negotiation.ConcludeErrors | crypto/negotiation.go:238-280 | which error refuses a response, and what is kept of it |
| Negotiation.RespondErrors | crypto/negotiation.go:168-235 | which error refuses an offer, and what is kept of it |
| Negotiation.FeatureBits | crypto/negotiation.go:282-315 | between two parties a feature is agreed iff both offer it |
| Negotiation.FeaturesMeetBoth | crypto/negotiation.go:302-328 | both sides are satisfied iff they require the same features |
| Negotiation.ServerResponds | crypto/negotiation.go:168-235 | the server answers a client's offer iff versions and suites meet and its features are met, with the common parameters |
| Negotiation.ClientConcludes | crypto/negotiation.go:238-280 | the client accepts that answer iff its features are met and its downgrade check, if any, holds |
| Negotiation.NegotiationOutcome | crypto/negotiation.go:153-328 | both sides complete iff version ranges meet, suite lists intersect, required features agree and the client's downgrade check, if any, holds; then both hold the same parameters and transcript |
| Negotiation.CommonIsBest | crypto/negotiation.go:186-209 | the agreed version is the highest in both ranges, the suite the server's most preferred among the offered |
| Negotiation.DowngradeCheckOfHonestPair | crypto/negotiation.go:226-232 | with the client's check on, an honest pair completes only on a MAC coincidence between two different inputs |
| Negotiation.HonestPairRefused | crypto/negotiation.go:226-274 | under a lawful choice of primitives no honest pair with both checks on completes, while every compatible pair without the client's check does |
| Negotiation.ReadOffer | crypto/negotiation.go:404-432 | decodes as specified, with every error case |
| Negotiation.NegotiationState.CreateOffer | crypto/negotiation.go:153-165 | offer and transcript as specified |
| Negotiation.NegotiationState.ProcessOffer | crypto/negotiation.go:168-235 | response and fields as specified, also after each error |
| Negotiation.NegotiationState.ProcessResponse | crypto/negotiation.go:238-280 | result and fields as specified, also after each error |
| RateLimit.StepPotential | internal/ratelimit/ratelimit.go:35-63 | one call spends no more than the bucket could hold by then; tokens stay between 0 and burst |
| RateLimit.GrantsBelowPotential | internal/ratelimit/ratelimit.go:35-63 | so does every run of calls |
| RateLimit.RateBound | internal/ratelimit/ratelimit.go:35-63 | in any interval of any run, granted * 60e9 <= burst * 60e9 + rate * nanoseconds |
| RateLimit.GrantedAtOnce | internal/ratelimit/ratelimit.go:35-63 | of n calls at one instant exactly the least of n, the whole tokens and the free connections are granted |
| RateLimit.DueTokensGranted | internal/ratelimit/ratelimit.go:35-63 | after any run, n calls are all granted if burst and connections allow n and rate * nanoseconds since the last refill is at least n * 60e9 |
| RateLimit.NextToken | internal/ratelimit/ratelimit.go:35-63 | from an empty bucket the next call is granted iff rate * nanoseconds is at least 60e9, burst and connections permitting |
| RateLimit.BurstIsGranted | internal/ratelimit/ratelimit.go:20-63 | a new limiter grants exactly its burst at once, as far as there are connections |
| RateLimit.UpdateCaps | internal/ratelimit/ratelimit.go:80-98 | a reload replaces the limits that are given and only takes away from tokens and count |
| RateLimit.ConnectionLimiter.AllowAt | internal/ratelimit/ratelimit.go:35-63 | result and fields as specified |
| RateLimit.ConnectionLimiter.ReleaseOne | internal/ratelimit/ratelimit.go:66-72 | one connection less, never below zero |
| RateLimit.ConnectionLimiter.UpdateLimits | internal/ratelimit/ratelimit.go:80-98 | limits, tokens and count as specified |
| Registry.ReleaseKeepsInv | main.go:315-343 | a release on behalf of an unreleased session keeps the accounting exact and finds a positive count |
| Registry.StepKeepsInv | main.go:302-343 | every action of accept loop, session goroutine and forced shutdown keeps it |
| Registry.AccountingHolds | main.go:302-382 | over all interleavings the count equals the admitted and unreleased sessions and the zero guard never fires |
| Registry.EachReleasedOnce | main.go:327-343 | once everything has wound down each admitted connection was released exactly once and the count is zero |
| Registry.WithinLimit | main.go:302-313 | the open connections never exceed the limit |
| Registry.ReloadBreaksCount | internal/ratelimit/ratelimit.go:95-97 | a limit reload keeps the accounting exact iff the new limit is not below the count |
| Registry.ReloadLosesCount | internal/ratelimit/ratelimit.go:95-97 | a reachable run: two sessions, a reload to one, one session ended; the count is zero with a session still open |
| Registry.ShutDownKeepsInv | main.go:452-471 | the forced shutdown keeps it in every release order |
| Registry.SessionRegistry.Remove | main.go:369-382 | the entry is taken out and returned, or nothing is |
| Registry.SessionRegistry.Admit | main.go:302-325 | the accept path is the machine's admission followed by registration or device failure |
| Registry.SessionRegistry.Finish | main.go:327-336 | the deferred clean-up is the machine's end of session followed by at most one release |
| Registry.SessionRegistry.ForceShutdown | main.go:452-471 | swaps the map out, releases once per entry and returns their number |
| Congestion.UpdateStaysBetween | transport/congestion.go:183-196 | one truncated update keeps the smoothed RTT between the bounds of the samples |
| Congestion.UpdateInIntegers | transport/congestion.go:169-197 | one update is (7 srtt + rtt) / 8 and (3 var + difference) / 4, rounded down, the variance from the old mean |
| Congestion.EstimateBounds | transport/congestion.go:169-197 | over any samples the smoothed RTT lies between the smallest and largest positive one and minRTT is the smallest |
| Congestion.TimeoutBounds | transport/congestion.go:221-243 | the timeout lies in 200 ms to 60 s, is 1 s before the first sample, and covers the smallest sample |
| Congestion.TimeoutFormula | transport/congestion.go:221-243 | the timeout is srtt + 4 var wherever that lies in range, and the nearer end elsewhere |
| Congestion.AckKeepsFloor | transport/congestion.go:133-166 | an acknowledgement keeps the window at two packets or more iff in recovery or the maximum is at least two |
| Congestion.AckKeepsCap | transport/congestion.go:133-166 | an acknowledgement keeps the window under the maximum iff outside recovery or half a packet per window still fits |
| Congestion.RecoveryExceedsCap | transport/congestion.go:157-166 | a reachable run: two losses under a maximum of five packets, and the next acknowledgement exceeds it |
| Congestion.StepKeepsFloor | transport/congestion.go:69-130 | no event takes the window below two packets |
| Congestion.SlowStartOpens | transport/congestion.go:133-145 | k acknowledgements in slow start open the window by k, up to the maximum |
| Congestion.InitialWindowOpens | transport/congestion.go:51-66 | from 10 packets to at most 1000 |
| Congestion.SlowStartEnds | transport/congestion.go:133-145 | slow start ends iff the uncapped window reaches the threshold |
| Congestion.RecoveryEnds | transport/congestion.go:157-166 | recovery ends iff more than twice the smoothed RTT has passed since the loss; half a packet per window each time |
| Congestion.EmptyWindowFills | transport/congestion.go:147-155 | an empty window in avoidance jumps to the maximum, the quotient being infinite |
| Congestion.RestartIsInitial | transport/congestion.go:304-315 | a restart is the initial state but for maximum, estimates and last loss |
| Congestion.FlightBalances | transport/congestion.go:69-130 | bytes in flight are those sent and neither acknowledged nor lost |
| Congestion.FlightUnderflow | transport/congestion.go:78-116 | an acknowledgement of more than is in flight empties it, a loss of more leaves it |
| Congestion.LossesInARow | transport/congestion.go:109-130 | k losses in a row take the window w to max(0.7^k w, 2), from slow start through avoidance to recovery, and note the time |
| Congestion.ClimbBounds | transport/congestion.go:147-155 | k uncapped avoidance acknowledgements from w give w^2+2k <= cwnd^2 <= w^2+2k+k/w^2 |
| Congestion.AvoidanceClimbs | transport/congestion.go:78-106 | acknowledgements in avoidance follow that climb as long as it stays under the maximum |
| Congestion.CongestionControl.constructor | transport/congestion.go:51-66 | the initial window, limits and phase |
| Congestion.CongestionControl.OnPacketSent | transport/congestion.go:69-75 | bytes in flight as specified |
| Congestion.CongestionControl.OnPacketAcked | transport/congestion.go:78-106 | window, phase, flight and estimates as specified |
| Congestion.CongestionControl.OnPacketLost | transport/congestion.go:109-130 | window, threshold, phase and flight as specified |
| Congestion.CongestionControl.UpdateEstimates | transport/congestion.go:169-197 | the three estimates as specified, in the order variance before mean |
| Congestion.CongestionControl.Timeout | transport/congestion.go:221-243 | the clamped timeout |
| Congestion.CongestionControl.ResetWindow | transport/congestion.go:304-315 | window, threshold, flight and phase start again, the estimates stay |
| Tickets.FieldsReadBack | transport/zero_rtt.go:338-440 | every field is found again at its offset |
| Tickets.DecodedTicket | transport/zero_rtt.go:338-440 | what decoding gives for every ticket with a key of 6 to 65535 bytes |
| Tickets.TicketRoundTrip | transport/zero_rtt.go:338-440 | decoding inverts encoding iff the key has 6 to 65535 bytes, the counts fit uint16 and the times are whole seconds |
| Tickets.PacketRoundTrip | transport/zero_rtt.go:449-496 | a 0-RTT packet survives iff the key has 6 to 65459 bytes and the ticket is representable |
| Tickets.OutOfRangeExactly | transport/zero_rtt.go:384-429 | exactly when the ticket decoder reads out of range |
| Tickets.DeserializeDecides | transport/zero_rtt.go:383-440 | exactly which data decode: long enough, with the first four bytes of the SHA-256 hash of the fields behind them |
| Tickets.DeserializeReencodes | transport/zero_rtt.go:338-440 | what decodes begins with the encoding of a representable ticket |
| Tickets.SpareIgnored | transport/zero_rtt.go:399-431 | data long enough for its key is decoded from itself alone |
| Tickets.SerializeTicket | transport/zero_rtt.go:338-380 | appends the specified fields and checksum |
| Tickets.DeserializeTicket | transport/zero_rtt.go:383-440 | decodes as specified, with every error case |
| PluginOptions.TrimTakes | internal/plugin/sip003.go:475 | trimming takes all white space off both ends and nothing else |
| PluginOptions.SpacesAre | internal/plugin/sip003.go:475 | blanks, tabs, line ends and the Unicode spaces are white space, printable ASCII is not |
| PluginOptions.TrimFacts | internal/plugin/sip003.go:475 | trimming twice is trimming once |
| PluginOptions.SplitInvertsJoin | internal/plugin/sip003.go:471-499 | splitting inverts joining of separator-free parts |
| PluginOptions.PairRoundTrip | internal/plugin/sip003.go:472-496 | a clean pair parses back |
| PluginOptions.PairIsCut | internal/plugin/sip003.go:472-480 | a pair is cut at its first equals sign and trimmed; without one it means "true" |
| PluginOptions.LastPairDecides | internal/plugin/sip003.go:463-482 | the keys are those of the pairs, and the last pair with a key decides |
| PluginOptions.ParsedIsClean | internal/plugin/sip003.go:463-482 | whatever is parsed has trimmed, separator-free keys and values |
| PluginOptions.FormatRoundTrip | internal/plugin/sip003.go:463-500 | in every print order parsing restores the map iff it is clean and not the lone empty key that means "true" |
| PluginOptions.ParsePluginOptions | internal/plugin/sip003.go:463-482 | the loop computes the specified map |
| PluginOptions.FormatPluginOptions | internal/plugin/sip003.go:485-500 | the loop prints every key once, in some order |
| EndToEnd.FramesArrive | transport/transport.go:65-260 | crossed secrets make a channel in both directions: whole records arrive as `HonestNetwork` says, and from any connection that forges nothing come the sender's frames in order |
| EndToEnd.HandshakeThenFrames | crypto/keyexchange.go:96-272 | an honest handshake in which one of the first three cookies returns in time makes such a channel |
| EndToEnd.NoiseThenFrames | crypto/noise.go:223-578 | so does an honest Noise handshake that accepts version 2 and meets no degenerate shared secret |
| EndToEnd.RekeyThenFrames | crypto/pfs.go:139-220 | in every run, also with the responder one epoch ahead, the initiator's secrets and those the responder holds for their epoch make such a channel |
| EndToEnd.FramesOverDatagrams | transport/transport.go:537-610 | a datagram session whose accepted datagrams add up to whole records, once read to the end in reads of any sizes, has delivered exactly the frames those records promise |

## Left out

- The inside of the cryptographic primitives, key generation and randomness: uninterpreted functions and parameters.
- Sockets, goroutine scheduling, TUN, HTTP, the GUI, TLS, YAML and URL handling: I/O or code that is not part of this model.
- Locks: every method is one atomic step; only `Registry` interleaves, at the granularity of its locked sections.
- Wall-clock bookkeeping of `Transport` (`lastSend`, `lastRecv`) and its debug log: no property depends on it.
- Write errors of the connection: a written record counts as handed to the network.
- RecordChannel.SendRunWritten: counts fewer than 2^64 frames in one epoch, because the send counter is a uint64.
- RecordChannel.ParseInvertsBody: padding of the record is not authenticated by the source, so nothing is claimed about its bytes.
- RecordChannel.LostBody: one lost body, with the following record at most 27 bytes longer and fewer than 3 * 2^56 frames; what a receiver finds after losing its place for longer is covered by `InOrderSubsequence` only.
- UdpSession.Conservation: one reader at a time; a read that a concurrent Close interrupts is not modelled.
- Handshake.HonestExchange: padding draws of at most 255 bytes; `randomPadding` divides by zero for a maximum of 255, so the maximum is 1 to 254, or 0 for its default.
- Handshake.ExchangeIsTwoRuns: states the agreement of completed exchanges; refused ones are covered by the bounds of the two loops.
- Pfs.RunStaysPaired: one rekey at a time over a reliable channel, though the initiator may ask again meanwhile, and no clean-up of the initiator's epoch overtakes the response; crossing initiations are not modelled.
- Rekey policy (`NeedsRekey`), traffic counters and the rekey driving of `device/device.go`.
- BloomFilter.BloomFilter.Add: requires that the bit count does not wrap around to zero, where the source divides by zero.
- Ratchet.AnyOrder: fewer than 2^32 messages, because message numbers are uint32.
- AntiReplay.AntiReplay.Check: window mode; the simple mode, the mode switch and `TimestampValidator` are not modelled.
- Noise.LockStep: at most 255 offered suites, the range of their one-byte count; the XX pattern is not implemented in the source.
- Noise.RewrittenLockStep: rewritten suites of message 2 whose last entry alone may be an offered one, so that the key behind them is read from its place; altered keys and boxes are not covered.
- Noise.Perform: the role and pattern switch, and a static key of another length, which the source replaces by a fresh one, are not modelled.
- Negotiation.NegotiationOutcome: configurations with minimum at most maximum version and at most 255 suites.
- Registry.AccountingHolds: fixed limits; what a reload does is stated separately.
- AntiReplay.NoReplayWithinAge: a clock that does not run backwards, from the Unix epoch on.
- RateLimit.RateBound: float64 is modelled as real, and the clock is monotone.
- Congestion.CongestionControl.OnPacketAcked: float64 is modelled as real; send-window queries and statistics are not modelled.
- The ticket store (`IssueTicket`, `UseTicket`, `ValidateTicket`, clean-up): it would add only easy members.
- `transport/mux.go`, `crypto/obfuscation.go`, ACLs, token stores, reload history: not part of this model.
