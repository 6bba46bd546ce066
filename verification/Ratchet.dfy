/** The DoubleRatchet of crypto/pfs.go: chain keys, counters and skipped keys, and the Diffie-Hellman step that a
header with a new remote key sets off. */
module Ratchet {
  import opened Bits
  import opened Bytes
  import opened Wrappers
  import opened Primitives
  import opened SessionSecrets

  datatype State = State(
    dhPrivate: Block32, dhPublic: Block32, dhRemote: Block32, rootKey: Block32, sendChain: Block32, recvChain: Block32,
    sendN: uint32, recvN: uint32, previousN: uint32, skipped: map<uint32, Block32>, maxSkip: uint32)

  datatype Error = HeaderTooShort | LowOrderPoint | TooManySkipped | OpenFailed

  datatype Plain = Plain(text: bytes, aad: bytes)

  datatype Message = Message(header: bytes, ciphertext: bytes, aad: bytes)

  /** kdfCK; it yields both the message key and the next chain key. */
  function KdfCK(c: Crypto, chain: Block32): Block32 {
    c.hmac(chain, [1])
  }

  /** The chain key after n steps from `k0`. */
  function Chain(c: Crypto, k0: Block32, n: nat): Block32 {
    if n == 0 then k0 else KdfCK(c, Chain(c, k0, n - 1))
  }

  function EncodeHeader(dhPublic: Block32, pn: uint32, n: uint32): bytes {
    dhPublic + U32(pn) + U32(n)
  }

  function HeaderNumber(header: bytes): uint32
    requires |header| >= 40
  {
    GetU32(header[36..40])
  }

  lemma HeaderRoundTrip(dhPublic: Block32, pn: uint32, n: uint32)
    ensures var h := EncodeHeader(dhPublic, pn, n);
            |h| == 40 && h[..32] == dhPublic && GetU32(h[32..36]) == pn && HeaderNumber(h) == n
  {
    var h := EncodeHeader(dhPublic, pn, n);
    assert h[32..36] == U32(pn) + [];
    U32RoundTrip(pn, []);
    assert h[36..40] == U32(n) + [];
    U32RoundTrip(n, []);
  }

  function Encrypt(c: Crypto, st: State, p: Plain): (Message, State) {
    var key := KdfCK(c, st.sendChain);
    (Message(EncodeHeader(st.dhPublic, st.previousN, st.sendN), c.seal(key, st.sendN, p.aad, p.text), p.aad),
     st.(sendChain := KdfCK(c, st.sendChain), sendN := (st.sendN + 1) % TWO32))
  }

  /** The skip loop: stores the keys of the messages from recvN up to n. */
  function SkipTo(c: Crypto, st: State, n: uint32): (st': State)
    ensures st.recvN <= n ==> st'.recvN == n
    decreases n - st.recvN
  {
    if st.recvN >= n then st
    else
      var key := KdfCK(c, st.recvChain);
      SkipTo(c, st.(skipped := st.skipped[st.recvN := key], recvChain := key, recvN := st.recvN + 1), n)
  }

  /** The key used for message `n`, and the state after taking it. */
  function TakeKey(c: Crypto, st: State, n: uint32): (Result<Block32, Error>, State) {
    if n in st.skipped then (Ok(st.skipped[n]), st.(skipped := st.skipped - {n}))
    else if n > st.recvN && n - st.recvN > st.maxSkip then (Err(TooManySkipped), st)
    else
      var st := SkipTo(c, st, n);
      var key := KdfCK(c, st.recvChain);
      (Ok(key), st.(recvChain := key, recvN := (st.recvN + 1) % TWO32))
  }

  /** The next root key and the new chain key. */
  function KdfRoot(c: Crypto, root: Block32, shared: Block32): (Block32, Block32) {
    (HkdfBytes(c, shared, root, Ascii("ratchet"), 0, 32), HkdfBytes(c, shared, root, Ascii("ratchet"), 32, 32))
  }

  /** The first half of dhRatchet: a new receiving chain, and the fresh private key in place of the old one. */
  function NewReceivingChain(c: Crypto, st: State, remote: Block32, ephemeral: Block32): State {
    var (root, chain) := KdfRoot(c, st.rootKey, c.dh(st.dhPrivate, remote));
    st.(rootKey := root, recvChain := chain, recvN := 0, dhRemote := remote,
        dhPrivate := ephemeral, dhPublic := c.publicKey(ephemeral))
  }

  /** The second half: a new sending chain. */
  function NewSendingChain(c: Crypto, st: State): State {
    var (root, chain) := KdfRoot(c, st.rootKey, c.dh(st.dhPrivate, st.dhRemote));
    st.(rootKey := root, sendChain := chain, sendN := 0)
  }

  /** dhRatchet with the fresh private key `ephemeral`. Fields set before an error stay set. */
  function DhRatchet(c: Crypto, st: State, remote: Block32, ephemeral: Block32): (Result<(), Error>, State) {
    var st := st.(previousN := st.sendN);
    if AllZero(c.dh(st.dhPrivate, remote)) then (Err(LowOrderPoint), st) else
    var st := NewReceivingChain(c, st, remote, ephemeral);
    if AllZero(c.dh(ephemeral, remote)) then (Err(LowOrderPoint), st)
    else (Ok(()), NewSendingChain(c, st))
  }

  /** A message of the current receiving chain. */
  function DecryptIn(c: Crypto, st: State, m: Message): (Result<bytes, Error>, State)
    requires |m.header| >= 40
  {
    var n := HeaderNumber(m.header);
    match TakeKey(c, st, n)
    case (Err(e), st') => (Err(e), st')
    case (Ok(key), st') => (TryOpen(c, key, n, m), st')
  }

  function TryOpen(c: Crypto, key: Block32, n: uint32, m: Message): Result<bytes, Error> {
    match c.open(key, n, m.aad, m.ciphertext) case None => Err(OpenFailed) case Some(text) => Ok(text)
  }

  function Decrypt(c: Crypto, st: State, m: Message, ephemeral: Block32): (Result<bytes, Error>, State) {
    if |m.header| < 40 then (Err(HeaderTooShort), st)
    else if m.header[..32] == st.dhRemote then DecryptIn(c, st, m)
    else
      match DhRatchet(c, st, m.header[..32], ephemeral)
      case (Err(e), st') => (Err(e), st')
      case (Ok(_), st') => DecryptIn(c, st', m)
  }

  /** One step of a chain is one HMAC over the byte 1. */
  lemma ChainIsHmac(c: Crypto, k0: Block32, n: nat)
    ensures Chain(c, k0, 0) == k0 && Chain(c, k0, n + 1) == c.hmac(Chain(c, k0, n), [1])
  {}

  /** Two chains that meet after the same number of steps started with one key, as far as HMAC tells theirs apart. */
  lemma {:induction false} ChainBinds(c: Crypto, k: Block32, l: Block32, n: nat)
    requires forall j: nat | j < n :: MacApart(c, Chain(c, k, j), [1], Chain(c, l, j), [1])
    ensures Chain(c, k, n) == Chain(c, l, n) ==> k == l
  {
    if n > 0 {
      ChainIsHmac(c, k, n - 1);
      ChainIsHmac(c, l, n - 1);
      ChainBinds(c, k, l, n - 1);
    }
  }

  /** Root and chain key are the first 64 bytes of HKDF from the shared secret, salted with the old root key. */
  lemma RootIsHkdf(c: Crypto, root: Block32, shared: Block32)
    ensures var (next, chain) := KdfRoot(c, root, shared);
            forall j: nat | j < 32 ::
              && next[j] == c.hkdf(shared, root, Ascii("ratchet"), j)
              && chain[j] == c.hkdf(shared, root, Ascii("ratchet"), 32 + j)
  {
    hide Ascii;
  }

  /** Two ends that come to one root key had one root key and shared secret before, as far as HKDF tells theirs
      apart. */
  lemma RootBinds(c: Crypto, root1: Block32, shared1: Block32, root2: Block32, shared2: Block32)
    requires HkdfApart(c, shared1, root1, shared2, root2, Ascii("ratchet"))
    ensures KdfRoot(c, root1, shared1).0 == KdfRoot(c, root2, shared2).0 ==> root1 == root2 && shared1 == shared2
  {
    RootIsHkdf(c, root1, shared1);
    RootIsHkdf(c, root2, shared2);
    hide KdfRoot, Ascii;
  }

  // ---------------------------------------------------------------- the receiver's invariant

  /** A receiver whose chain started at `k0` and that has taken the keys of the messages in `taken`: the
      skipped keys are exactly those of the untaken messages below recvN. */
  ghost predicate Tracks(c: Crypto, k0: Block32, st: State, taken: set<uint32>) {
    && st.recvChain == Chain(c, k0, st.recvN)
    && (forall i | i in taken :: i < st.recvN)
    && (forall i: uint32 :: i in st.skipped <==> i < st.recvN && i !in taken)
    && (forall i | i in st.skipped :: st.skipped[i] == Chain(c, k0, i + 1))
  }

  /** Receiving touches nothing but the receiving chain and the skipped keys. */
  ghost predicate OnlyReceived(st: State, st': State) {
    st' == st.(recvChain := st'.recvChain, recvN := st'.recvN, skipped := st'.skipped)
  }

  lemma {:induction false} SkipTracks(c: Crypto, k0: Block32, st: State, n: uint32, taken: set<uint32>)
    requires Tracks(c, k0, st, taken) && st.recvN <= n
    ensures Tracks(c, k0, SkipTo(c, st, n), taken)
    ensures OnlyReceived(st, SkipTo(c, st, n))
    decreases n - st.recvN
  {
    if st.recvN < n {
      var key := KdfCK(c, st.recvChain);
      SkipTracks(c, k0, st.(skipped := st.skipped[st.recvN := key], recvChain := key, recvN := st.recvN + 1), n, taken);
    }
  }

  /** A message not taken before gets the sender's key, namely n+1 applications of the KDF, exactly when its
      forward gap is at most maxSkip; a larger gap is refused and changes nothing. */
  lemma TakeKeyTracks(c: Crypto, k0: Block32, st: State, n: uint32, taken: set<uint32>)
    requires Tracks(c, k0, st, taken) && n !in taken && n < TWO32 - 1
    ensures var (r, st') := TakeKey(c, st, n);
            if n <= st.recvN + st.maxSkip then
              && r == Ok(Chain(c, k0, n + 1)) && Tracks(c, k0, st', taken + {n})
              && st'.recvN == (if n < st.recvN then st.recvN else n + 1) && OnlyReceived(st, st')
            else r == Err(TooManySkipped) && st' == st
  {
    if n >= st.recvN && n <= st.recvN + st.maxSkip {
      SkipTracks(c, k0, st, n, taken);
    }
  }

  /** A duplicate is what the scheme does not survive: taking a key a second time advances the chain past a
      message whose key is then lost, so the invariant holds afterwards exactly for first deliveries. */
  lemma DuplicateBreaksTracking(c: Crypto, k0: Block32, st: State, n: uint32, taken: set<uint32>)
    requires Tracks(c, k0, st, taken) && n < TWO32 - 1 && st.recvN < TWO32 - 1
    requires n <= st.recvN + st.maxSkip
    ensures Tracks(c, k0, TakeKey(c, st, n).1, taken + {n}) <==> n !in taken
  {
    if n in taken {
      var st' := TakeKey(c, st, n).1;
      assert st'.recvN == st.recvN + 1;
      assert st.recvN !in taken + {n} && st.recvN !in st'.skipped;
    } else {
      TakeKeyTracks(c, k0, st, n, taken);
    }
  }

  // ---------------------------------------------------------------- whole runs

  /** The messages of a sender, in order. */
  function EncryptRun(c: Crypto, st: State, plains: seq<Plain>): (State, seq<Message>) {
    if plains == [] then (st, []) else
    var (st1, log) := EncryptRun(c, st, plains[..|plains| - 1]);
    var (m, st2) := Encrypt(c, st1, plains[|plains| - 1]);
    (st2, log + [m])
  }

  /** The results of decrypting the messages of a log in the given order, and the state at the end;
      `draws(k)` is the fresh key for the delivery after which k - 1 remain. */
  function DecryptRun(c: Crypto, st: State, log: seq<Message>, order: seq<uint32>, draws: nat -> Block32)
    : (seq<Result<bytes, Error>>, State)
    requires forall k | 0 <= k < |order| :: order[k] < |log|
    decreases |order|
  {
    if order == [] then ([], st) else
    var (r, st') := Decrypt(c, st, log[order[0]], draws(|order|));
    var (rs, end) := DecryptRun(c, st', log, order[1..], draws);
    ([r] + rs, end)
  }

  /** What a receiver should return: each message whose forward gap is at most maxSkip. */
  function Expected(plains: seq<Plain>, order: seq<uint32>, recvN: nat, maxSkip: nat): seq<Result<bytes, Error>>
    requires forall k | 0 <= k < |order| :: order[k] < |plains|
    decreases |order|
  {
    if order == [] then [] else
    var n := order[0];
    if n > recvN + maxSkip then [Err(TooManySkipped)] + Expected(plains, order[1..], recvN, maxSkip)
    else [Ok(plains[n].text)] + Expected(plains, order[1..], if n < recvN then recvN else n + 1, maxSkip)
  }

  /** The messages of an order that a receiver should take, that is, not refuse. */
  function Taken(order: seq<uint32>, recvN: nat, maxSkip: nat): set<uint32>
    decreases |order|
  {
    if order == [] then {} else
    var n := order[0];
    if n > recvN + maxSkip then Taken(order[1..], recvN, maxSkip)
    else {n} + Taken(order[1..], if n < recvN then recvN else n + 1, maxSkip)
  }

  /** `m` carries `p` as message i of the chain from `k0`, under the sender's public key. */
  ghost predicate SentAs(c: Crypto, key: Block32, k0: Block32, p: Plain, m: Message, i: uint32) {
    && |m.header| == 40 && m.header[..32] == key && HeaderNumber(m.header) == i && m.aad == p.aad
    && m.ciphertext == c.seal(Chain(c, k0, i + 1), i, p.aad, p.text)
  }

  ghost predicate SentWith(c: Crypto, key: Block32, k0: Block32, plains: seq<Plain>, log: seq<Message>) {
    |log| == |plains| < TWO32 && forall i: uint32 | i < |log| :: SentAs(c, key, k0, plains[i], log[i], i)
  }

  lemma EncryptSends(c: Crypto, k0: Block32, st: State, p: Plain)
    requires st.sendChain == Chain(c, k0, st.sendN) && st.sendN < TWO32 - 1
    ensures var (m, st') := Encrypt(c, st, p);
            SentAs(c, st.dhPublic, k0, p, m, st.sendN)
            && st' == st.(sendChain := Chain(c, k0, st.sendN + 1), sendN := st.sendN + 1)
  {
    HeaderRoundTrip(st.dhPublic, st.previousN, st.sendN);
    hide HeaderNumber, EncodeHeader;
  }

  lemma {:induction false} SenderUsesChain(c: Crypto, st: State, plains: seq<Plain>)
    requires st.sendN == 0 && |plains| < TWO32
    ensures var (st', log) := EncryptRun(c, st, plains);
            && SentWith(c, st.dhPublic, st.sendChain, plains, log)
            && st' == st.(sendN := |plains|, sendChain := Chain(c, st.sendChain, |plains|))
  {
    hide Encrypt, SentAs;
    if plains != [] {
      var n := |plains| - 1;
      SenderUsesChain(c, st, plains[..n]);
      EncryptSends(c, st.sendChain, EncryptRun(c, st, plains[..n]).0, plains[n]);
    }
  }

  ghost predicate Distinct(order: seq<uint32>) {
    forall j, k | 0 <= j < k < |order| :: order[j] != order[k]
  }

  /** From any tracked state a duplicate-free order yields the sender's texts, message by message, except that a
      message more than maxSkip ahead is refused until the gap has closed; at the end the skipped keys are
      exactly those of the messages passed and not taken. */
  lemma {:induction false} DeliveryFrom(
    c: Crypto, k0: Block32, plains: seq<Plain>, log: seq<Message>, st: State, order: seq<uint32>, taken: set<uint32>,
    draws: nat -> Block32)
    requires Lawful(c) && SentWith(c, st.dhRemote, k0, plains, log) && Tracks(c, k0, st, taken)
    requires forall k | 0 <= k < |order| :: order[k] < |plains|
    requires Distinct(order) && forall k | 0 <= k < |order| :: order[k] !in taken
    ensures var (results, end) := DecryptRun(c, st, log, order, draws);
            && results == Expected(plains, order, st.recvN, st.maxSkip)
            && Tracks(c, k0, end, taken + Taken(order, st.recvN, st.maxSkip)) && OnlyReceived(st, end)
    decreases |order|
  {
    hide TakeKey, Tracks, HeaderNumber, Lawful, SentAs, Chain, DhRatchet;
    if order == [] {
      assert taken + {} == taken;
    } else {
      var n, rest := order[0], order[1..];
      TakeKeyTracks(c, k0, st, n, taken);
      OpensAs(c, st.dhRemote, k0, plains, log, n);
      assert forall k | 0 <= k < |rest| :: rest[k] == order[k + 1] && rest[k] != order[0];
      if n <= st.recvN + st.maxSkip {
        var st' := TakeKey(c, st, n).1;
        DeliveryFrom(c, k0, plains, log, st', rest, taken + {n}, draws);
        assert taken + ({n} + Taken(rest, st'.recvN, st.maxSkip)) == taken + {n} + Taken(rest, st'.recvN, st.maxSkip);
      } else {
        DeliveryFrom(c, k0, plains, log, st, rest, taken, draws);
      }
    }
  }

  lemma OpensAs(c: Crypto, key: Block32, k0: Block32, plains: seq<Plain>, log: seq<Message>, n: uint32)
    requires Lawful(c) && SentWith(c, key, k0, plains, log) && n < |plains|
    ensures |log[n].header| == 40 && log[n].header[..32] == key && HeaderNumber(log[n].header) == n
    ensures c.open(Chain(c, k0, n + 1), n, log[n].aad, log[n].ciphertext) == Some(plains[n].text)
  {}

  /** With matching chains and the sender's key known, any duplicate-free delivery order does the same. */
  lemma AnyOrder(
    c: Crypto, sender: State, receiver: State, plains: seq<Plain>, order: seq<uint32>, draws: nat -> Block32)
    requires Lawful(c) && sender.sendChain == receiver.recvChain && sender.dhPublic == receiver.dhRemote
    requires sender.sendN == 0 && receiver.recvN == 0 && receiver.skipped == map[]
    requires |plains| < TWO32 && Distinct(order)
    requires forall k | 0 <= k < |order| :: order[k] < |plains|
    ensures |EncryptRun(c, sender, plains).1| == |plains|
    ensures var (results, end) := DecryptRun(c, receiver, EncryptRun(c, sender, plains).1, order, draws);
            && results == Expected(plains, order, 0, receiver.maxSkip)
            && Tracks(c, sender.sendChain, end, Taken(order, 0, receiver.maxSkip)) && OnlyReceived(receiver, end)
  {
    SenderUsesChain(c, sender, plains);
    DeliveryFrom(c, sender.sendChain, plains, EncryptRun(c, sender, plains).1, receiver, order, {}, draws);
    assert {} + Taken(order, 0, receiver.maxSkip) == Taken(order, 0, receiver.maxSkip);
  }

  // ---------------------------------------------------------------- Diffie-Hellman steps

  /** `x` has made a Diffie-Hellman step that `y` has not seen: from the key in the next header `y` will derive
      the root key of `x`, and `chain`, from which `x` sends. NewDoubleRatchet does not establish this; two ends
      that share a root key do (SharedRootLeads). */
  ghost predicate Ahead(c: Crypto, x: State, y: State, chain: Block32) {
    && x.dhPublic == c.publicKey(x.dhPrivate) && y.dhPublic == c.publicKey(y.dhPrivate)
    && x.dhRemote == y.dhPublic && y.dhRemote != x.dhPublic
    && KdfRoot(c, y.rootKey, c.dh(y.dhPrivate, x.dhPublic)) == (x.rootKey, chain)
  }

  /** How a lead arises: from a shared root key, by making a sending step towards a key of the other end. */
  lemma SharedRootLeads(c: Crypto, x: State, y: State)
    requires Lawful(c) && x.rootKey == y.rootKey && x.dhRemote == y.dhPublic && y.dhRemote != x.dhPublic
    requires x.dhPublic == c.publicKey(x.dhPrivate) && y.dhPublic == c.publicKey(y.dhPrivate)
    ensures Ahead(c, NewSendingChain(c, x), y, NewSendingChain(c, x).sendChain)
  {
    assert c.dh(x.dhPrivate, c.publicKey(y.dhPrivate)) == c.dh(y.dhPrivate, c.publicKey(x.dhPrivate));
    hide Lawful, KdfRoot;
  }

  /** The two shared secrets of a step are usable, and the fresh key is a new one. */
  predicate UsableStep(c: Crypto, x: State, y: State, ephemeral: Block32) {
    && !AllZero(c.dh(y.dhPrivate, x.dhPublic)) && !AllZero(c.dh(ephemeral, x.dhPublic))
    && c.publicKey(ephemeral) != x.dhRemote
  }

  /** A step turns the lead around: `y` receives on the chain of `x` and is now itself ahead. It tracks that chain
      exactly when no keys were skipped before, for the step keeps the keys of the old chain under their numbers. */
  lemma StepTurnsLead(c: Crypto, x: State, y: State, chain: Block32, ephemeral: Block32)
    requires Lawful(c) && Ahead(c, x, y, chain) && UsableStep(c, x, y, ephemeral)
    ensures var (r, y') := DhRatchet(c, y, x.dhPublic, ephemeral);
            && r.Ok? && Ahead(c, y', x, y'.sendChain) && y'.sendN == 0
            && y'.dhRemote == x.dhPublic && y'.recvChain == chain && y'.recvN == 0 && y'.maxSkip == y.maxSkip
            && y'.previousN == y.sendN && y'.dhPrivate == ephemeral && y'.skipped == y.skipped
            && (Tracks(c, chain, y', {}) <==> y.skipped == map[])
  {
    assert c.dh(ephemeral, c.publicKey(x.dhPrivate)) == c.dh(x.dhPrivate, c.publicKey(ephemeral));
    hide Lawful, KdfRoot;
    var y' := DhRatchet(c, y, x.dhPublic, ephemeral).1;
    assert y'.skipped == y.skipped;
    if y.skipped != map[] {
      var i :| i in y.skipped;
      assert i in y'.skipped;
    }
  }

  /** What the stale keys do: a number skipped in the old chain is opened with its old key in the new one. */
  lemma StaleKeyShadows(c: Crypto, x: State, y: State, chain: Block32, ephemeral: Block32, n: uint32)
    requires Lawful(c) && Ahead(c, x, y, chain) && UsableStep(c, x, y, ephemeral) && n < TWO32 - 1
    ensures var y' := DhRatchet(c, y, x.dhPublic, ephemeral).1;
            TakeKey(c, y', n).0 ==
            if n in y.skipped then Ok(y.skipped[n])
            else if n <= y.maxSkip then Ok(Chain(c, chain, n + 1)) else Err(TooManySkipped)
  {
    StepTurnsLead(c, x, y, chain, ephemeral);
    var y' := DhRatchet(c, y, x.dhPublic, ephemeral).1;
    assert y'.skipped == y.skipped;
    hide DhRatchet, Lawful, Ahead;
    var clean := y'.(skipped := map[]);
    TakeKeyTracks(c, chain, clean, n, {});
    if n !in y.skipped && n <= y.maxSkip {
      SkipIgnoresMap(c, y', clean, n);
    }
  }

  lemma {:induction false} SkipIgnoresMap(c: Crypto, st: State, other: State, n: uint32)
    requires st.recvChain == other.recvChain && st.recvN == other.recvN
    ensures SkipTo(c, st, n).recvChain == SkipTo(c, other, n).recvChain
    decreases n - st.recvN
  {
    if st.recvN < n {
      var key := KdfCK(c, st.recvChain);
      SkipIgnoresMap(c, st.(skipped := st.skipped[st.recvN := key], recvChain := key, recvN := st.recvN + 1),
                     other.(skipped := other.skipped[other.recvN := key], recvChain := key, recvN := other.recvN + 1),
                     n);
    }
  }

  /** A whole turn, between two ends in lock step: `x`, ahead, sends; its messages reach `y`, that has no skipped
      keys left, in any duplicate-free order, the first of them setting off the step. `y` returns the texts and is
      ahead for its own turn. */
  lemma Turn(
    c: Crypto, x: State, y: State, plains: seq<Plain>, order: seq<uint32>, draws: nat -> Block32)
    requires Lawful(c) && Ahead(c, x, y, x.sendChain) && x.sendN == 0 && y.skipped == map[]
    requires |plains| < TWO32 && order != [] && Distinct(order)
    requires forall k | 0 <= k < |order| :: order[k] < |plains|
    requires UsableStep(c, x, y, draws(|order|))
    ensures |EncryptRun(c, x, plains).1| == |plains|
    ensures var (x', log) := EncryptRun(c, x, plains);
            var (results, y') := DecryptRun(c, y, log, order, draws);
            && results == Expected(plains, order, 0, y.maxSkip)
            && Tracks(c, x.sendChain, y', Taken(order, 0, y.maxSkip))
            && Ahead(c, y', x', y'.sendChain) && y'.sendN == 0
  {
    var log, ephemeral := EncryptRun(c, x, plains).1, draws(|order|);
    SenderUsesChain(c, x, plains);
    StepTurnsLead(c, x, y, x.sendChain, ephemeral);
    var stepped := DhRatchet(c, y, x.dhPublic, ephemeral).1;
    OpensAs(c, x.dhPublic, x.sendChain, plains, log, order[0]);
    StepFirst(c, y, stepped, log, order, draws);
    AnyOrder(c, x, stepped, plains, order, draws);
    hide Lawful, DhRatchet, Tracks, KdfRoot, DecryptRun, EncryptRun;
  }

  /** Decrypting behind the step is decrypting with the step made beforehand. */
  lemma StepFirst(c: Crypto, st: State, stepped: State, log: seq<Message>, order: seq<uint32>, draws: nat -> Block32)
    requires order != [] && forall k | 0 <= k < |order| :: order[k] < |log|
    requires |log[order[0]].header| >= 40
    requires var remote := log[order[0]].header[..32];
             remote != st.dhRemote && stepped.dhRemote == remote
             && DhRatchet(c, st, remote, draws(|order|)) == (Ok(()), stepped)
    ensures DecryptRun(c, st, log, order, draws) == DecryptRun(c, stepped, log, order, draws)
  {
    hide DecryptIn, DhRatchet;
  }

  // ---------------------------------------------------------------- set-up

  /** NewDoubleRatchet with the private key `draw`. */
  function SetUp(c: Crypto, secrets: Secrets, role: Role, draw: Block32): State
    requires |secrets.sendKey| >= 32
  {
    var send, recv := CopyKey(secrets.sendKey), CopyKey(secrets.receiveKey);
    State(draw, c.publicKey(draw), secrets.peerPublicKey, secrets.sendKey[..32],
          if role.Client? then send else recv, if role.Client? then recv else send, 0, 0, 0, map[], 1000)
  }

  /** Two ends set up from crossed secrets start with one root key, and with the sending chain of either being the
      receiving chain of the other, exactly when both directions of the session have the same key. */
  lemma SetUpMatches(c: Crypto, a: Secrets, b: Secrets, drawA: Block32, drawB: Block32)
    requires Crossed(a, b) && |a.sendKey| >= 32 && |a.receiveKey| >= 32
    ensures var x, y := SetUp(c, a, Client, drawA), SetUp(c, b, Server, drawB);
            && (x.sendChain == y.recvChain <==> a.sendKey[..32] == a.receiveKey[..32])
            && (y.sendChain == x.recvChain <==> a.sendKey[..32] == a.receiveKey[..32])
            && (x.rootKey == y.rootKey <==> a.sendKey[..32] == a.receiveKey[..32])
            && x.maxSkip == y.maxSkip == 1000 && x.skipped == y.skipped == map[]
            && x.sendN == x.recvN == y.sendN == y.recvN == 0
            && x.dhRemote == a.peerPublicKey && y.dhRemote == b.peerPublicKey
  {}

  /** The receiving chain of a server just set up, for the first message of a client with the key `remote`. */
  function FirstChain(c: Crypto, b: Secrets, drawB: Block32, remote: Block32): Block32
    requires |b.sendKey| >= 32
  {
    if remote == b.peerPublicKey then b.sendKey[..32]
    else KdfRoot(c, b.sendKey[..32], c.dh(drawB, remote)).1
  }

  /** A server that knows the key `remote`, or can make the step to it. */
  predicate CanStep(c: Crypto, b: Secrets, drawB: Block32, ephemeral: Block32, remote: Block32) {
    remote == b.peerPublicKey || (!AllZero(c.dh(drawB, remote)) && !AllZero(c.dh(ephemeral, remote)))
  }

  /** The first message of the client is sealed under its send key, and opened under the server's, with a step or
      without one. */
  lemma FirstMessageOfFreshPair(
    c: Crypto, a: Secrets, b: Secrets, drawA: Block32, drawB: Block32, ephemeral: Block32, p: Plain)
    requires Crossed(a, b) && |a.sendKey| >= 32 && |a.receiveKey| >= 32
    ensures var m, remote := Encrypt(c, SetUp(c, a, Client, drawA), p).0, c.publicKey(drawA);
            && m.aad == p.aad && m.ciphertext == c.seal(KdfCK(c, a.sendKey[..32]), 0, p.aad, p.text)
            && Decrypt(c, SetUp(c, b, Server, drawB), m, ephemeral).0 ==
               if CanStep(c, b, drawB, ephemeral, remote)
               then TryOpen(c, KdfCK(c, FirstChain(c, b, drawB, remote)), 0, m) else Err(LowOrderPoint)
  {
    var x, y := SetUp(c, a, Client, drawA), SetUp(c, b, Server, drawB);
    HeaderRoundTrip(x.dhPublic, 0, 0);
    hide KdfRoot, HeaderNumber, EncodeHeader, KdfCK, TryOpen, AllZero;
    var m := Encrypt(c, x, p).0;
    assert y.recvChain == b.sendKey[..32];
  }

  /** `box`, sealed under one key, does not open under another. */
  ghost predicate OpensOnlyUnder(c: Crypto, key: Block32, other: Block32, n: uint64, aad: bytes, box: bytes) {
    other != key ==> c.open(other, n, aad, box) == None
  }

  /** The first message opens to its text exactly when the server can follow and both ends derive one message
      key: without a step, when the two directions of the session lead to the same one. */
  lemma FirstMessageOpens(
    c: Crypto, a: Secrets, b: Secrets, drawA: Block32, drawB: Block32, ephemeral: Block32, p: Plain)
    requires Lawful(c) && Crossed(a, b) && |a.sendKey| >= 32 && |a.receiveKey| >= 32
    requires OpensOnlyUnder(c, KdfCK(c, a.sendKey[..32]), KdfCK(c, FirstChain(c, b, drawB, c.publicKey(drawA))), 0,
                            p.aad, Encrypt(c, SetUp(c, a, Client, drawA), p).0.ciphertext)
    ensures var m, remote := Encrypt(c, SetUp(c, a, Client, drawA), p).0, c.publicKey(drawA);
            Decrypt(c, SetUp(c, b, Server, drawB), m, ephemeral).0 == Ok(p.text) <==>
            && CanStep(c, b, drawB, ephemeral, remote)
            && KdfCK(c, a.sendKey[..32]) == KdfCK(c, FirstChain(c, b, drawB, remote))
  {
    FirstMessageOfFreshPair(c, a, b, drawA, drawB, ephemeral, p);
    var key := KdfCK(c, a.sendKey[..32]);
    assert c.open(key, 0, p.aad, c.seal(key, 0, p.aad, p.text)) == Some(p.text);
    hide Lawful, Encrypt, Decrypt, SetUp, KdfCK, FirstChain, CanStep;
  }

  /** A keyed hash that tells one key from all others. */
  function Singling(key: bytes): (bytes, bytes) -> Block32 {
    (k, m) => if k == key then seq(32, _ => 2) else seq(32, _ => 3)
  }

  /** It happens: whatever the crossed secrets, unless the server knows the client's key and both directions have one
      key, there are lawful primitives under which no first message opens. */
  lemma FreshPairFails(a: Secrets, b: Secrets, drawA: Block32, drawB: Block32, ephemeral: Block32, p: Plain)
    requires Crossed(a, b) && |a.sendKey| >= 32 && |a.receiveKey| >= 32
    requires b.peerPublicKey == seq(32, _ => 1) ==> a.sendKey[..32] != a.receiveKey[..32]
    ensures exists c: Crypto :: Lawful(c) && FirstRefused(c, a, b, drawA, drawB, ephemeral, p)
  {
    var key: Block32 := a.sendKey[..32];
    var stream: byte := if key[0] == 0 then 1 else 0;
    var c := WithHmac(Singling(key), stream);
    WithHmacLawful(Singling(key), stream);
    assert c.publicKey(drawA)[0] == 1 && c.publicKey(drawA) == seq(32, _ => 1);
    OtherChain(a, b, drawA, drawB, stream);
    SinglesOut(key, FirstChain(c, b, drawB, c.publicKey(drawA)), stream, p);
    hide Lawful, WithHmac, FirstChain, KdfCK, Encrypt, Decrypt, SetUp;
    FirstMessageOfFreshPair(c, a, b, drawA, drawB, ephemeral, p);
    assert FirstRefused(c, a, b, drawA, drawB, ephemeral, p);
  }

  lemma OtherChain(a: Secrets, b: Secrets, drawA: Block32, drawB: Block32, stream: byte)
    requires Crossed(a, b) && |a.sendKey| >= 32 && |a.receiveKey| >= 32 && stream != a.sendKey[0]
    requires b.peerPublicKey == seq(32, _ => 1) ==> a.sendKey[..32] != a.receiveKey[..32]
    ensures var c := WithHmac(Singling(a.sendKey[..32]), stream);
            FirstChain(c, b, drawB, c.publicKey(drawA)) != a.sendKey[..32]
  {
    var c := WithHmac(Singling(a.sendKey[..32]), stream);
    var remote := c.publicKey(drawA);
    assert remote == seq(32, _ => 1);
    if remote != b.peerPublicKey { assert FirstChain(c, b, drawB, remote)[0] == stream; }
  }

  lemma SinglesOut(key: Block32, chain: Block32, stream: byte, p: Plain)
    requires chain != key
    ensures var c := WithHmac(Singling(key), stream);
            c.open(KdfCK(c, chain), 0, p.aad, c.seal(KdfCK(c, key), 0, p.aad, p.text)) == None
  {
    var c := WithHmac(Singling(key), stream);
    var sealing, opening := KdfCK(c, key), KdfCK(c, chain);
    assert KeyTag(sealing)[0] == 2 && KeyTag(opening)[0] == 3;
    OtherTagRefused(Singling(key), stream, sealing, opening, 0, p.aad, p.text);
  }

  ghost predicate FirstRefused(
    c: Crypto, a: Secrets, b: Secrets, drawA: Block32, drawB: Block32, ephemeral: Block32, p: Plain)
    requires |a.sendKey| >= 32 && |b.sendKey| >= 32
  {
    Decrypt(c, SetUp(c, b, Server, drawB), Encrypt(c, SetUp(c, a, Client, drawA), p).0, ephemeral).0 == Err(OpenFailed)
  }

  // ---------------------------------------------------------------- the object

  class DoubleRatchet {
    const crypto: Crypto
    var dhPrivate: Block32
    var dhPublic: Block32
    var dhRemote: Block32
    var rootKey: Block32
    var sendChainKey: Block32
    var recvChainKey: Block32
    var sendChainN: uint32
    var recvChainN: uint32
    var previousN: uint32
    var skippedKeys: map<uint32, Block32>
    const maxSkip: uint32

    ghost function Abstract(): State
      reads this
    {
      State(dhPrivate, dhPublic, dhRemote, rootKey, sendChainKey, recvChainKey, sendChainN, recvChainN, previousN,
            skippedKeys, maxSkip)
    }

    constructor (c: Crypto, secrets: Secrets, role: Role, draw: Block32)
      requires |secrets.sendKey| >= 32
      ensures crypto == c
      ensures Abstract() == SetUp(c, secrets, role, draw)
    {
      crypto, maxSkip, rootKey := c, 1000, secrets.sendKey[..32];
      if role.Client? {
        sendChainKey, recvChainKey := CopyKey(secrets.sendKey), CopyKey(secrets.receiveKey);
      } else {
        sendChainKey, recvChainKey := CopyKey(secrets.receiveKey), CopyKey(secrets.sendKey);
      }
      dhPrivate, dhPublic, dhRemote := draw, c.publicKey(draw), secrets.peerPublicKey;
      sendChainN, recvChainN, previousN, skippedKeys := 0, 0, 0, map[];
    }

    method RatchetEncrypt(p: Plain) returns (m: Message)
      modifies this
      ensures (m, Abstract()) == Encrypt(crypto, old(Abstract()), p)
    {
      var messageKey := KdfCK(crypto, sendChainKey);
      sendChainKey := KdfCK(crypto, sendChainKey);
      var n := sendChainN;
      sendChainN := (sendChainN + 1) % TWO32;
      var box := crypto.seal(messageKey, n, p.aad, p.text);
      m := Message(EncodeHeader(dhPublic, previousN, n), box, p.aad);
    }

    method RatchetDecrypt(m: Message, ephemeral: Block32) returns (r: Result<bytes, Error>)
      modifies this
      ensures (r, Abstract()) == Decrypt(crypto, old(Abstract()), m, ephemeral)
    {
      hide DhRatchet, DecryptIn;
      if |m.header| < 40 { return Err(HeaderTooShort); }
      if m.header[..32] != dhRemote {
        var stepped := Advance(m.header[..32], ephemeral);
        if stepped.Err? { return Err(stepped.error); }
      }
      r := DecryptInChain(m);
    }

    /** RatchetDecrypt behind the Diffie-Hellman step. */
    method DecryptInChain(m: Message) returns (r: Result<bytes, Error>)
      requires |m.header| >= 40
      modifies this
      ensures (r, Abstract()) == DecryptIn(crypto, old(Abstract()), m)
    {
      var n := HeaderNumber(m.header);
      hide HeaderNumber, KdfCK, SkipTo, TryOpen;
      if n in skippedKeys {
        var key := skippedKeys[n];
        skippedKeys := skippedKeys - {n};
        r := TryDecrypt(key, n, m);
        return;
      }
      SkipBehind(crypto, Abstract(), n);
      if n > recvChainN {
        if n - recvChainN > maxSkip { return Err(TooManySkipped); }
        SkipMessages(n);
      }
      var messageKey := KdfCK(crypto, recvChainKey);
      recvChainKey := KdfCK(crypto, recvChainKey);
      recvChainN := (recvChainN + 1) % TWO32;
      r := TryDecrypt(messageKey, n, m);
    }

    /** dhRatchet. */
    method Advance(remote: Block32, ephemeral: Block32) returns (r: Result<(), Error>)
      modifies this
      ensures (r, Abstract()) == DhRatchet(crypto, old(Abstract()), remote, ephemeral)
    {
      hide KdfRoot, AllZero;
      previousN := sendChainN;
      ghost var before := Abstract();
      var shared := crypto.dh(dhPrivate, remote);
      if AllZero(shared) { return Err(LowOrderPoint); }
      var (newRoot, newChain) := KdfRoot(crypto, rootKey, shared);
      rootKey, recvChainKey, recvChainN, dhRemote := newRoot, newChain, 0, remote;
      dhPrivate, dhPublic := ephemeral, crypto.publicKey(ephemeral);
      ghost var halfway := Abstract();
      assert halfway == NewReceivingChain(crypto, before, remote, ephemeral);
      hide NewReceivingChain;
      shared := crypto.dh(dhPrivate, dhRemote);
      if AllZero(shared) { return Err(LowOrderPoint); }
      var (lastRoot, lastChain) := KdfRoot(crypto, rootKey, shared);
      rootKey, sendChainKey, sendChainN := lastRoot, lastChain, 0;
      assert Abstract() == NewSendingChain(crypto, halfway);
      return Ok(());
    }

    /** The loop of RatchetDecrypt that stores the keys of skipped messages. */
    method SkipMessages(n: uint32)
      modifies this
      ensures Abstract() == SkipTo(crypto, old(Abstract()), n)
    {
      while recvChainN < n
        invariant SkipTo(crypto, Abstract(), n) == SkipTo(crypto, old(Abstract()), n)
        decreases n - recvChainN
      {
        var key := KdfCK(crypto, recvChainKey);
        skippedKeys := skippedKeys[recvChainN := key];
        recvChainKey := KdfCK(crypto, recvChainKey);
        recvChainN := recvChainN + 1;
      }
    }

    method TryDecrypt(key: Block32, n: uint32, m: Message) returns (r: Result<bytes, Error>)
      ensures r == TryOpen(crypto, key, n, m)
    {
      var text := crypto.open(key, n, m.aad, m.ciphertext);
      match text {
        case None => r := Err(OpenFailed);
        case Some(t) => r := Ok(t);
      }
    }
  }

  lemma SkipBehind(c: Crypto, st: State, n: uint32)
    ensures n <= st.recvN ==> SkipTo(c, st, n) == st
  {}
}
