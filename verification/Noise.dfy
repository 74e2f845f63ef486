/**
 The symmetric and handshake state of src/crypto/NoiseProtocol.cpp.

 X25519, SHA-256, HKDF and ChaCha20-Poly1305 enter as a `Suite` of functions, of which only the
 laws in `Lawful` are ever used. A private key drawn from RAND_bytes is an argument of the
 operation that draws it; `None` is a failed draw.
 */
module Noise {
  import opened Basics

  const KEY_SIZE := 32
  const PROTOCOL_NAME := "Noise_KK_25519_ChaChaPoly_SHA256"

  datatype Suite = Suite(
    publicKey: Bytes -> Bytes,
    dh: (Bytes, Bytes) -> Option<Bytes>,
    hash: Bytes -> Bytes,
    /** The two 32-octet halves of hkdf(chaining_key, ikm, 64). */
    hkdf: (Bytes, Bytes) -> (Bytes, Bytes),
    seal: (Bytes, Bytes, Bytes, string) -> Bytes,
    open: (Bytes, Bytes, Bytes, string) -> Option<Bytes>,
    encode64: Bytes -> Bytes,
    decode64: Bytes -> Option<Bytes>)
  {
    /** X25519 succeeds and commutes on derived public keys, which have 32 octets. */
    ghost predicate LawfulDh() {
      && (forall k :: |publicKey(k)| == KEY_SIZE)
      && (forall k, l :: dh(k, publicKey(l)).Some?)
      && (forall k, l :: dh(k, publicKey(l)) == dh(l, publicKey(k)))
    }

    /** The base64 decoder undoes the encoder. */
    ghost predicate LawfulText() {
      forall x :: decode64(encode64(x)) == Some(x)
    }

    /** Opening undoes sealing of anything but nothing: the program's sealing of an empty text is undefined. */
    ghost predicate LawfulSeal() {
      forall k, n, p, ad :: p != [] ==> open(k, n, seal(k, n, p, ad), ad) == Some(p)
    }

    /** All a handshake needs. */
    ghost predicate LawfulHandshake() { LawfulDh() && LawfulText() }

    ghost predicate Lawful() { LawfulHandshake() && LawfulSeal() }
  }

  datatype Role = Initiator | Responder
  datatype Keypair = Keypair(private: Bytes, public: Bytes)

  function DeriveKeypair(s: Suite, private: Bytes): (r: Keypair) {
    Keypair(private, s.publicKey(private))
  }

  /** The fields of a NoiseProtocol object. */
  datatype State = State(
    role: Role,
    localStatic: Keypair,
    remoteStatic: Bytes,
    localEphemeral: Option<Keypair>,
    remoteEphemeral: Bytes,
    h: Bytes,
    ck: Bytes,
    sendKey: Bytes,
    recvKey: Bytes,
    msg1Sent: bool,
    msg1Received: bool,
    complete: bool)

  function Name(): (r: Bytes) { Ascii(PROTOCOL_NAME) }

  function MixHash(s: Suite, n: State, data: Bytes): (r: State) { n.(h := s.hash(n.h + data)) }

  function MixKey(s: Suite, n: State, ikm: Bytes): (r: State) { n.(ck := s.hkdf(n.ck, ikm).0) }

  function Split(s: Suite, n: State): (r: State) {
    var (k1, k2) := s.hkdf(n.ck, []);
    if n.role == Initiator then n.(sendKey := k1, recvKey := k2) else n.(recvKey := k1, sendKey := k2)
  }

  function Initial(s: Suite, role: Role, local: Keypair, remote: Bytes): (r: State) {
    var blank := State(role, local, remote, None, Zeros(KEY_SIZE), Name(), Name(),
                       Zeros(KEY_SIZE), Zeros(KEY_SIZE), false, false, false);
    var initiator := if role == Initiator then local.public else remote;
    var responder := if role == Initiator then remote else local.public;
    MixHash(s, MixHash(s, blank, initiator), responder)
  }

  function BuildMessage1(s: Suite, n: State, draw: Option<Bytes>): (r: (State, Option<Bytes>)) {
    if n.role != Initiator || n.msg1Sent || n.complete then (n, None)
    else if draw.None? then (n.(localEphemeral := None), None)
    else
      var e := DeriveKeypair(s, draw.value);
      var n1 := MixHash(s, n.(localEphemeral := Some(e)), e.public);
      var es := s.dh(e.private, n.remoteStatic);
      var ss := s.dh(n.localStatic.private, n.remoteStatic);
      if es.None? || ss.None? then (n1, None)
      else (MixKey(s, MixKey(s, n1, es.value), ss.value).(msg1Sent := true), Some(e.public))
  }

  function HandleMessage1(s: Suite, n: State, payload: Bytes, draw: Option<Bytes>): (r: (State, Option<Bytes>)) {
    if n.role != Responder || n.complete || |payload| != KEY_SIZE then (n, None)
    else
      var n1 := MixHash(s, n.(remoteEphemeral := payload, msg1Received := true), payload);
      var es := s.dh(n.localStatic.private, payload);
      var ss := s.dh(n.localStatic.private, n.remoteStatic);
      if es.None? || ss.None? then (n1, None)
      else
        var n2 := MixKey(s, MixKey(s, n1, es.value), ss.value);
        if draw.None? then (n2.(localEphemeral := None), None)
        else
          var e := DeriveKeypair(s, draw.value);
          var n3 := MixHash(s, n2.(localEphemeral := Some(e)), e.public);
          var ee := s.dh(e.private, payload);
          var se := s.dh(n.localStatic.private, payload);
          if ee.None? || se.None? then (n3, None)
          else (Split(s, MixKey(s, MixKey(s, n3, ee.value), se.value)).(complete := true), Some(e.public))
  }

  function HandleMessage2(s: Suite, n: State, payload: Bytes): (r: (State, bool)) {
    if n.role != Initiator || !n.msg1Sent || n.complete || |payload| != KEY_SIZE || n.localEphemeral.None?
        then (n, false)
    else
      var n1 := MixHash(s, n.(remoteEphemeral := payload), payload);
      var ee := s.dh(n.localEphemeral.value.private, payload);
      var se := s.dh(n.localEphemeral.value.private, n.remoteStatic);
      if ee.None? || se.None? then (n1, false)
      else (Split(s, MixKey(s, MixKey(s, n1, ee.value), se.value)).(complete := true), true)
  }

  /** The 64-bit counter, little endian, after four zero octets. */
  function Nonce(n: UInt64): (b: Bytes)
    ensures |b| == 12
  {
    Zeros(4) + LittleEndian(n, 8)
  }

  method BuildNonce(nonce: UInt64) returns (r: Bytes)
    ensures r == Nonce(nonce)
  {
    var out := new Byte[12](_ => 0);
    var i := 0;
    while i < 8
      invariant 0 <= i <= 8
      invariant forall j :: 0 <= j < 4 || 4 + i <= j < 12 ==> out[j] == 0
      invariant forall j :: 0 <= j < i ==> out[4 + j] == LittleEndian(nonce, 8)[j]
    {
      LittleEndianAt(nonce, 8, i);
      out[4 + i] := ShiftBytes(nonce, i) % 256;
      i := i + 1;
    }
    r := out[..];
  }

  /** Two 64-bit counters never give the same AEAD nonce. */
  lemma NonceInjective(m: UInt64, n: UInt64)
    requires Nonce(m) == Nonce(n)
    ensures m == n
  {
    assert Nonce(m)[4..] == LittleEndian(m, 8) && Nonce(n)[4..] == LittleEndian(n, 8);
    assert Pow256(8) == TWO_64 by {
      assert Pow256(4) == TWO_32;
    }
    LittleEndianInjective(m, n, 8);
  }

  /** Octets as a number, least significant first. */
  function LittleNat(b: Bytes): (r: nat) {
    if b == [] then 0 else b[0] + 256 * LittleNat(b[1..])
  }

  lemma {:induction false} LittleEndianReads(n: nat, k: nat)
    requires n < Pow256(k)
    ensures LittleNat(LittleEndian(n, k)) == n
  {
    if k > 0 {
      LittleEndianReads(n / 256, k - 1);
      assert LittleEndian(n, k)[1..] == LittleEndian(n / 256, k - 1);
    }
  }

  /** A nonce is four zero octets and then the counter, which can be read off it. */
  lemma NonceReads(n: UInt64)
    ensures Nonce(n)[..4] == [0, 0, 0, 0] && LittleNat(Nonce(n)[4..]) == n
  {
    assert Nonce(n)[4..] == LittleEndian(n, 8);
    assert Pow256(8) == TWO_64 by {
      assert Pow256(4) == TWO_32;
    }
    LittleEndianReads(n, 8);
  }

  // ----- What both ends compute -----

  /** The initiator after its message 1, drawn as ea. */
  function Started(s: Suite, a: Bytes, b: Bytes, ea: Bytes): (r: State) {
    BuildMessage1(s, Initial(s, Initiator, DeriveKeypair(s, a), s.publicKey(b)), Some(ea)).0
  }

  /** The responder after answering message 1, with its own draw eb. */
  function Answered(s: Suite, a: Bytes, b: Bytes, message1: Bytes, eb: Bytes): (r: State) {
    HandleMessage1(s, Initial(s, Responder, DeriveKeypair(s, b), s.publicKey(a)), message1, Some(eb)).0
  }

  /** The initiator after message 2. */
  function Finished(s: Suite, a: Bytes, b: Bytes, ea: Bytes, message2: Bytes): (r: State) {
    HandleMessage2(s, Started(s, a, b, ea), message2).0
  }

  /** SHA-256 over everything both ends have seen. */
  function Transcript(s: Suite, initiator: Bytes, responder: Bytes, message1: Bytes, message2: Bytes): (r: Bytes) {
    s.hash(s.hash(s.hash(s.hash(Name() + initiator) + responder) + message1) + message2)
  }

  /** The chaining key over the shared secrets, in the order they are mixed. */
  function ChainingKey(s: Suite, es: Bytes, ss: Bytes, ee: Bytes, se: Bytes): (r: Bytes) {
    s.hkdf(s.hkdf(s.hkdf(s.hkdf(Name(), es).0, ss).0, ee).0, se).0
  }

  /** What one end sends under is what the other end receives under. */
  predicate KeysAgree(i: State, r: State) {
    i.sendKey == r.recvKey && i.recvKey == r.sendKey
  }

  /** An undisturbed exchange completes both ends on the same transcript, chaining key and crossed keys. */
  lemma HandshakeAgrees(s: Suite, a: Bytes, b: Bytes, ea: Bytes, eb: Bytes)
    requires s.LawfulDh()
    ensures var m1, m2 := s.publicKey(ea), s.publicKey(eb);
            var i, r := Finished(s, a, b, ea, m2), Answered(s, a, b, m1, eb);
            && i.complete && r.complete && KeysAgree(i, r)
            && i.h == r.h == Transcript(s, s.publicKey(a), s.publicKey(b), m1, m2)
            && var (es, ss, ee) := Secrets(s, a, b, ea, eb);
            && i.ck == r.ck == ChainingKey(s, es, ss, ee, es)
            && (i.sendKey, i.recvKey) == s.hkdf(i.ck, [])
  {
  }

  /** es, ss and ee as the initiator computes them, and as the responder does. */
  function Secrets(s: Suite, a: Bytes, b: Bytes, ea: Bytes, eb: Bytes): (r: (Bytes, Bytes, Bytes))
    requires s.LawfulDh()
    ensures s.dh(ea, s.publicKey(b)) == s.dh(b, s.publicKey(ea)) == Some(r.0)
    ensures s.dh(a, s.publicKey(b)) == s.dh(b, s.publicKey(a)) == Some(r.1)
    ensures s.dh(ea, s.publicKey(eb)) == s.dh(eb, s.publicKey(ea)) == Some(r.2)
    ensures |s.publicKey(ea)| == |s.publicKey(eb)| == KEY_SIZE
  {
    (s.dh(ea, s.publicKey(b)).value, s.dh(a, s.publicKey(b)).value, s.dh(ea, s.publicKey(eb)).value)
  }

  // ----- One step, from any state -----

  lemma BuildMessage1Keeps(s: Suite, n: State, draw: Option<Bytes>)
    ensures var (m, message) := BuildMessage1(s, n, draw);
            m.role == n.role && m.complete == n.complete && (n.complete ==> m == n)
  {
  }

  lemma HandleMessage1Keeps(s: Suite, n: State, payload: Bytes, draw: Option<Bytes>)
    ensures var (m, response) := HandleMessage1(s, n, payload, draw);
            m.role == n.role && (n.complete ==> m == n) && (response.Some? <==> m.complete && !n.complete)
  {
  }

  lemma HandleMessage2Keeps(s: Suite, n: State, payload: Bytes)
    ensures var (m, ok) := HandleMessage2(s, n, payload);
            m.role == n.role && (n.complete ==> m == n) && (ok <==> m.complete && !n.complete)
  {
  }

  // ----- The object -----

  class NoiseProtocol {
    const suite: Suite
    const role: Role
    const localStatic: Keypair
    const remoteStatic: Bytes
    var localEphemeral: Option<Keypair>
    var remoteEphemeral: Bytes
    var h: Bytes
    var ck: Bytes
    var sendKey: Bytes
    var recvKey: Bytes
    var msg1Sent: bool
    var msg1Received: bool
    var complete: bool

    function View(): (r: State)
      reads this
    {
      State(role, localStatic, remoteStatic, localEphemeral, remoteEphemeral, h, ck, sendKey, recvKey,
            msg1Sent, msg1Received, complete)
    }

    constructor (s: Suite, role: Role, local: Keypair, remote: Bytes)
      ensures suite == s && View() == Initial(s, role, local, remote)
    {
      suite, this.role, localStatic, remoteStatic := s, role, local, remote;
      localEphemeral, remoteEphemeral := None, Zeros(KEY_SIZE);
      sendKey, recvKey := Zeros(KEY_SIZE), Zeros(KEY_SIZE);
      msg1Sent, msg1Received, complete := false, false, false;
      h, ck := Name(), Name();
      new;
      Mix(if role == Initiator then local.public else remote);
      Mix(if role == Initiator then remote else local.public);
    }

    method Mix(data: Bytes)
      modifies this
      ensures View() == MixHash(suite, old(View()), data)
    {
      h := suite.hash(h + data);
    }

    method Chain(ikm: Bytes)
      modifies this
      ensures View() == MixKey(suite, old(View()), ikm)
    {
      ck := suite.hkdf(ck, ikm).0;
    }

    method ChainBoth(first: Bytes, second: Bytes)
      modifies this
      ensures View() == MixKey(suite, MixKey(suite, old(View()), first), second)
    {
      Chain(first);
      Chain(second);
    }

    method DeriveKeys()
      modifies this
      ensures View() == Split(suite, old(View()))
    {
      var (k1, k2) := suite.hkdf(ck, []);
      if role == Initiator {
        sendKey, recvKey := k1, k2;
      } else {
        recvKey, sendKey := k1, k2;
      }
    }

    method BuildHandshakeMessage1(draw: Option<Bytes>) returns (r: Option<Bytes>)
      modifies this
      ensures (View(), r) == BuildMessage1(suite, old(View()), draw)
    {
      if role != Initiator || msg1Sent || complete {
        return None;
      }
      localEphemeral := if draw.Some? then Some(DeriveKeypair(suite, draw.value)) else None;
      if localEphemeral.None? {
        return None;
      }
      var msg := localEphemeral.value.public;
      Mix(msg);
      var es := suite.dh(localEphemeral.value.private, remoteStatic);
      var ss := suite.dh(localStatic.private, remoteStatic);
      if es.None? || ss.None? {
        return None;
      }
      ChainBoth(es.value, ss.value);
      msg1Sent := true;
      return Some(msg);
    }

    method HandleHandshakeMessage1(payload: Bytes, draw: Option<Bytes>) returns (r: Option<Bytes>)
      modifies this
      ensures (View(), r) == HandleMessage1(suite, old(View()), payload, draw)
    {
      hide Split;
      if role != Responder || complete {
        return None;
      }
      if |payload| != KEY_SIZE {
        return None;
      }
      remoteEphemeral, msg1Received := payload, true;
      Mix(payload);
      var es := suite.dh(localStatic.private, remoteEphemeral);
      var ss := suite.dh(localStatic.private, remoteStatic);
      if es.None? || ss.None? {
        return None;
      }
      ChainBoth(es.value, ss.value);
      localEphemeral := if draw.Some? then Some(DeriveKeypair(suite, draw.value)) else None;
      if localEphemeral.None? {
        return None;
      }
      var response := localEphemeral.value.public;
      Mix(response);
      var ee := suite.dh(localEphemeral.value.private, remoteEphemeral);
      var se := suite.dh(localStatic.private, remoteEphemeral);
      if ee.None? || se.None? {
        return None;
      }
      ChainBoth(ee.value, se.value);
      DeriveKeys();
      complete := true;
      return Some(response);
    }

    method HandleHandshakeMessage2(payload: Bytes) returns (ok: bool)
      modifies this
      ensures (View(), ok) == HandleMessage2(suite, old(View()), payload)
    {
      if role != Initiator || !msg1Sent || complete {
        return false;
      }
      if |payload| != KEY_SIZE || localEphemeral.None? {
        return false;
      }
      remoteEphemeral := payload;
      Mix(payload);
      var ee := suite.dh(localEphemeral.value.private, remoteEphemeral);
      var se := suite.dh(localEphemeral.value.private, remoteStatic);
      if ee.None? || se.None? {
        return false;
      }
      ChainBoth(ee.value, se.value);
      DeriveKeys();
      complete := true;
      return true;
    }

    /** Sealing is refused until the handshake is complete; `works` is whether the library call succeeds. */
    method Encrypt(nonce: UInt64, plaintext: Bytes, ad: string, works: bool) returns (r: Option<Bytes>)
      ensures r == if complete && works then Some(suite.seal(sendKey, Nonce(nonce), plaintext, ad)) else None
    {
      if !complete {
        return None;
      }
      var iv := BuildNonce(nonce);
      if !works {
        return None;
      }
      r := Some(suite.seal(sendKey, iv, plaintext, ad));
    }

    method Decrypt(nonce: UInt64, ciphertext: Bytes, ad: string) returns (r: Option<Bytes>)
      ensures r == if complete then suite.open(recvKey, Nonce(nonce), ciphertext, ad) else None
    {
      if !complete {
        return None;
      }
      var iv := BuildNonce(nonce);
      r := suite.open(recvKey, iv, ciphertext, ad);
    }
  }
}
