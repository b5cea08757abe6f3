/** The post-quantum hybrid encryption of `app/crypto.py`: a Kyber512 key
    encapsulation, a SHA-256 key derivation from the shared secret, and an
    AES-GCM envelope `IV (12 bytes) || TAG (16 bytes) || CIPHERTEXT`.

    The primitives come from foreign libraries and are not modelled: they
    are the function-valued fields of `Primitives`, and `Valid` states the
    only facts about them the model relies on, their output lengths. The
    randomness the source draws (`os.urandom` for the IV, the KEM's internal
    randomness) is passed in explicitly. */
module Crypto {

  type byte = bv8

  /** AES-GCM with a 96-bit IV (NIST SP 800-38D) and a full 128-bit tag. */
  const IvLength: nat := 12
  const TagLength: nat := 16
  const HeaderLength: nat := IvLength + TagLength

  /** The most plaintext one GCM invocation may encrypt: 2^39 - 256 bits
      (NIST SP 800-38D, section 5.2.1.1), in bytes. */
  const GcmMaxPlaintextLength: nat := 68719476704

  /** SHA-256 (FIPS 180-4) digests are 32 bytes. */
  const DigestLength: nat := 32

  /** Kyber512 sizes: encapsulation key, KEM ciphertext, shared secret. */
  const KyberPublicKeyLength: nat := 800
  const KyberCiphertextLength: nat := 768
  const KyberSharedSecretLength: nat := 32

  /** What `encryptor.update(p) + encryptor.finalize()` and `encryptor.tag`
      deliver. */
  datatype GcmOutput = GcmOutput(ciphertext: seq<byte>, tag: seq<byte>)

  /** What `kem.encap_secret(public_key)` returns. */
  datatype Encapsulation = Encapsulation(ciphertext: seq<byte>, sharedSecret: seq<byte>)

  datatype Primitives = Primitives(
    sha256: seq<byte> -> seq<byte>,
    /** key, IV, plaintext */
    aesGcmEncrypt: (seq<byte>, seq<byte>, seq<byte>) -> GcmOutput,
    /** KEM randomness to the public key; the secret key stays inside the
        KEM object and is dropped when the `with` block ends */
    kyberKeygen: seq<byte> -> seq<byte>,
    /** public key and encapsulation randomness */
    kyberEncap: (seq<byte>, seq<byte>) -> Encapsulation)

  ghost predicate Valid(p: Primitives)
  {
    && (forall m :: |p.sha256(m)| == DigestLength)
    && (forall k, iv, m :: |p.aesGcmEncrypt(k, iv, m).ciphertext| == |m|
                        && |p.aesGcmEncrypt(k, iv, m).tag| == TagLength)
    && (forall r :: |p.kyberKeygen(r)| == KyberPublicKeyLength)
    && (forall pk, r :: |p.kyberEncap(pk, r).ciphertext| == KyberCiphertextLength
                     && |p.kyberEncap(pk, r).sharedSecret| == KyberSharedSecretLength)
  }

  datatype CryptoError =
    /** `algorithms.AES(key)` rejects keys that are not 128, 192 or 256 bits. */
    | InvalidKeySize(length: nat)
    /** The GCM encryptor refuses a plaintext longer than
        `GcmMaxPlaintextLength` bytes. */
    | PlaintextTooLong(length: nat)
    /** A byte string too short to hold the IV and the tag. */
    | TruncatedEnvelope(length: nat)

  datatype Result<T> = Success(value: T) | Failure(error: CryptoError)

  predicate IsAesKeyLength(n: nat)
  {
    n == 16 || n == 24 || n == 32
  }

  /** The three parts of an envelope. */
  datatype Envelope = Envelope(iv: seq<byte>, tag: seq<byte>, ciphertext: seq<byte>)

  predicate WellFormed(e: Envelope)
  {
    |e.iv| == IvLength && |e.tag| == TagLength
  }

  /** The wire form: the parts concatenated in the order IV, tag, ciphertext. */
  function Frame(e: Envelope): (bytes: seq<byte>)
    requires WellFormed(e)
    ensures |bytes| == HeaderLength + |e.ciphertext|
    ensures bytes[..IvLength] == e.iv
    ensures bytes[IvLength..HeaderLength] == e.tag
    ensures bytes[HeaderLength..] == e.ciphertext
  {
    e.iv + e.tag + e.ciphertext
  }

  /** Reading the wire form back: the first 12 bytes are the IV, the next 16
      the tag, the rest the ciphertext. The service itself never reads an
      envelope back; this is the inverse of the layout `Frame` writes, and
      `TruncatedEnvelope` is its only error. */
  function Parse(bytes: seq<byte>): (r: Result<Envelope>)
    ensures r.Success? <==> |bytes| >= HeaderLength
    ensures r.Success? ==> WellFormed(r.value) && |r.value.ciphertext| == |bytes| - HeaderLength
    ensures r.Failure? ==> r.error == TruncatedEnvelope(|bytes|)
  {
    if |bytes| < HeaderLength then Failure(TruncatedEnvelope(|bytes|))
    else Success(Envelope(bytes[..IvLength], bytes[IvLength..HeaderLength], bytes[HeaderLength..]))
  }

  /** Parsing a framed envelope gives back its parts. */
  lemma ParseFrame(e: Envelope)
    requires WellFormed(e)
    ensures Parse(Frame(e)) == Success(e)
  {
  }

  /** Framing the parts of any long-enough byte string gives it back. */
  lemma FrameParse(bytes: seq<byte>)
    requires |bytes| >= HeaderLength
    ensures Parse(bytes).Success? && Frame(Parse(bytes).value) == bytes
  {
    var e := Parse(bytes).value;
    assert e.iv + e.tag + e.ciphertext == bytes[..IvLength] + bytes[IvLength..HeaderLength] + bytes[HeaderLength..];
    assert bytes[..IvLength] + bytes[IvLength..HeaderLength] == bytes[..HeaderLength];
    assert bytes[..HeaderLength] + bytes[HeaderLength..] == bytes;
  }

  /** `derive_aes_key(shared_secret)`: the SHA-256 digest of the secret. */
  function DeriveAesKey(p: Primitives, sharedSecret: seq<byte>): (key: seq<byte>)
    requires Valid(p)
    ensures |key| == DigestLength
    ensures IsAesKeyLength(|key|)
  {
    p.sha256(sharedSecret)
  }

  /** `aes_encrypt(key, plaintext)` with `iv` standing for the 12 bytes
      `os.urandom(12)` returns. It fails where the AES key schedule refuses
      the key (checked first, when the cipher is built) or where the GCM
      encryptor refuses the plaintext length; otherwise it returns IV, tag and
      ciphertext, in that order, 28 bytes longer than the plaintext. */
  function AesEncrypt(p: Primitives, key: seq<byte>, iv: seq<byte>, plaintext: seq<byte>): (r: Result<seq<byte>>)
    requires Valid(p)
    requires |iv| == IvLength
    ensures r.Success? <==> IsAesKeyLength(|key|) && |plaintext| <= GcmMaxPlaintextLength
    ensures !IsAesKeyLength(|key|) ==> r == Failure(InvalidKeySize(|key|))
    ensures IsAesKeyLength(|key|) && |plaintext| > GcmMaxPlaintextLength ==>
      r == Failure(PlaintextTooLong(|plaintext|))
    ensures r.Success? ==>
      && |r.value| == HeaderLength + |plaintext|
      && r.value[..IvLength] == iv
      && r.value[IvLength..HeaderLength] == p.aesGcmEncrypt(key, iv, plaintext).tag
      && r.value[HeaderLength..] == p.aesGcmEncrypt(key, iv, plaintext).ciphertext
  {
    if !IsAesKeyLength(|key|) then Failure(InvalidKeySize(|key|))
    else if |plaintext| > GcmMaxPlaintextLength then Failure(PlaintextTooLong(|plaintext|))
    else
      var out := p.aesGcmEncrypt(key, iv, plaintext);
      Success(Frame(Envelope(iv, out.tag, out.ciphertext)))
  }

  /** What `pqc_kem_encrypt` returns: the KEM public key, the KEM ciphertext
      and the AES envelope. The shared secret has no place in it. */
  datatype PqcResult = PqcResult(publicKey: seq<byte>, kemCiphertext: seq<byte>, envelope: seq<byte>)

  /** `pqc_kem_encrypt(plaintext)`: generate a Kyber512 key pair, encapsulate
      against that same public key, hash the shared secret into an AES key and
      seal the plaintext under it. The derived key always has a valid length,
      so the only failure left is a plaintext too long for GCM. */
  function PqcKemEncrypt(p: Primitives, keygenRandomness: seq<byte>, encapRandomness: seq<byte>,
                         iv: seq<byte>, plaintext: seq<byte>): (r: Result<PqcResult>)
    requires Valid(p)
    requires |iv| == IvLength
    ensures r.Success? <==> |plaintext| <= GcmMaxPlaintextLength
    ensures r.Failure? ==> r.error == PlaintextTooLong(|plaintext|)
    ensures r.Success? ==>
      && r.value.publicKey == p.kyberKeygen(keygenRandomness)
      && r.value.kemCiphertext == p.kyberEncap(r.value.publicKey, encapRandomness).ciphertext
      && |r.value.publicKey| == KyberPublicKeyLength
      && |r.value.kemCiphertext| == KyberCiphertextLength
      && |r.value.envelope| == HeaderLength + |plaintext|
      && r.value.envelope[..IvLength] == iv
  {
    var publicKey := p.kyberKeygen(keygenRandomness);
    var encapsulation := p.kyberEncap(publicKey, encapRandomness);
    var key := DeriveAesKey(p, encapsulation.sharedSecret);
    match AesEncrypt(p, key, iv, plaintext)
    case Failure(e) => Failure(e)
    case Success(envelope) => Success(PqcResult(publicKey, encapsulation.ciphertext, envelope))
  }

  /** `pqc_kem_encrypt` succeeds or fails exactly as `aes_encrypt` does under
      the SHA-256 digest of the shared secret encapsulated against the
      generated public key; on success its envelope is that encryption's
      output and parses into the IV, the GCM tag and the GCM ciphertext of
      the plaintext. */
  lemma PqcEnvelopeComposition(p: Primitives, keygenRandomness: seq<byte>, encapRandomness: seq<byte>,
                               iv: seq<byte>, plaintext: seq<byte>)
    requires Valid(p)
    requires |iv| == IvLength
    ensures var r := PqcKemEncrypt(p, keygenRandomness, encapRandomness, iv, plaintext);
            var publicKey := p.kyberKeygen(keygenRandomness);
            var secret := p.kyberEncap(publicKey, encapRandomness).sharedSecret;
            var key := DeriveAesKey(p, secret);
            var out := p.aesGcmEncrypt(key, iv, plaintext);
            && (r.Failure? ==> AesEncrypt(p, key, iv, plaintext) == Failure(r.error))
            && (r.Success? ==>
                  && AesEncrypt(p, key, iv, plaintext) == Success(r.value.envelope)
                  && Parse(r.value.envelope) == Success(Envelope(iv, out.tag, out.ciphertext)))
  {
    var publicKey := p.kyberKeygen(keygenRandomness);
    var secret := p.kyberEncap(publicKey, encapRandomness).sharedSecret;
    var key := DeriveAesKey(p, secret);
    var out := p.aesGcmEncrypt(key, iv, plaintext);
    ParseFrame(Envelope(iv, out.tag, out.ciphertext));
  }
}
