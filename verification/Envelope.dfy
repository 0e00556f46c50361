/** Envelope encryption of one artifact: a fresh data key seals the bytes, the KMS wraps the
    data key. The cipher is abstract; its one law is that opening undoes sealing. */
module Envelope {
  import opened Wrappers
  import opened Utf8
  import opened Kms

  /** AES-GCM: seal(key, nonce, plaintext, associated data). */
  datatype Aead = Aead(
    seal: (Bytes, Bytes, Bytes, string) -> Bytes,
    open: (Bytes, Bytes, Bytes, string) -> Option<Bytes>)

  ghost predicate Authentic(aead: Aead) {
    forall key, nonce, x, ad {:trigger aead.seal(key, nonce, x, ad)} ::
      aead.open(key, nonce, aead.seal(key, nonce, x, ad), ad) == Some(x)
  }

  datatype EncryptedData = EncryptedData(
    ciphertext: Bytes,
    encryptedDek: Bytes,
    nonce: Bytes,
    algorithm: string,
    keyVersion: int,
    tenantId: string)

  datatype Error = NoEntropy | KmsRefused | TenantRequired | BadKeySize | OpenFailed

  const DEK_SIZE := 32
  const NONCE_SIZE := 12

  /** The random bytes one call draws: the data key, the nonce, and the KMS's own salt. */
  datatype Draw = Draw(dek: Bytes, nonce: Bytes, salt: nat)

  /** Sizes `aes.NewCipher` accepts. */
  predicate AesKeySize(n: nat) {
    n == 16 || n == 24 || n == 32
  }

  /** `draw` is None when the random source fails, `kmsUp` false when the KMS call fails. */
  function EncryptArtifact(kms: Provider, aead: Aead, tenantId: string, plaintext: Bytes, kekKeyId: KeyId,
                           draw: Option<Draw>, kmsUp: bool): Result<EncryptedData, Error>
  {
    if draw.None? then Err(NoEntropy)
    else if !AesKeySize(|draw.value.dek|) then Err(BadKeySize)
    else
      var ciphertext := aead.seal(draw.value.dek, draw.value.nonce, plaintext, tenantId);
      if !kmsUp then Err(KmsRefused)
      else Ok(EncryptedData(ciphertext, kms.encrypt(kekKeyId, draw.value.salt, draw.value.dek),
                            draw.value.nonce, "AES-256-GCM", 1, tenantId))
  }

  function DecryptArtifact(kms: Provider, aead: Aead, data: EncryptedData, kekKeyId: KeyId, kmsUp: bool)
    : Result<Bytes, Error>
  {
    if data.tenantId == "" then Err(TenantRequired)
    else
      var dek := if kmsUp then kms.decrypt(kekKeyId, data.encryptedDek) else None;
      if dek.None? then Err(KmsRefused)
      else if !AesKeySize(|dek.value|) then Err(BadKeySize)
      else
        match aead.open(dek.value, data.nonce, data.ciphertext, data.tenantId)
        case None => Err(OpenFailed)
        case Some(plaintext) => Ok(plaintext)
  }

  /** What decryption depends on: the artifact comes back as soon as the stored wrapped key
      unwraps, under the key id given, to the key it was sealed with. */
  lemma OpensWithItsKey(kms: Provider, aead: Aead, data: EncryptedData, dek: Bytes, plaintext: Bytes, kekKeyId: KeyId)
    requires Authentic(aead)
    requires AesKeySize(|dek|) && data.ciphertext == aead.seal(dek, data.nonce, plaintext, data.tenantId)
    requires kms.decrypt(kekKeyId, data.encryptedDek) == Some(dek)
    ensures DecryptArtifact(kms, aead, data, kekKeyId, true) == Ok(plaintext) <==> data.tenantId != ""
  {
    assert aead.open(dek, data.nonce, aead.seal(dek, data.nonce, plaintext, data.tenantId), data.tenantId)
      == Some(plaintext);
  }

  /** Nothing but what the cipher opened comes out of a decryption, under the key the provider
      unwrapped; and every way to fail has its own error. */
  lemma DecryptsExactly(kms: Provider, aead: Aead, data: EncryptedData, kekKeyId: KeyId, kmsUp: bool)
    ensures var r := DecryptArtifact(kms, aead, data, kekKeyId, kmsUp);
            var dek := kms.decrypt(kekKeyId, data.encryptedDek);
            && (forall p :: r == Ok(p) <==>
                  && data.tenantId != "" && kmsUp && dek.Some? && |dek.value| in {16, 24, 32}
                  && aead.open(dek.value, data.nonce, data.ciphertext, data.tenantId) == Some(p))
            && (r == Err(TenantRequired) <==> data.tenantId == "")
            && (r == Err(KmsRefused) <==> data.tenantId != "" && (!kmsUp || dek.None?))
            && (r == Err(OpenFailed) ==> aead.open(dek.value, data.nonce, data.ciphertext, data.tenantId) == None)
  {
  }

  /** An encryption gives a result exactly if random source and provider work, and the data key
      leaves it only as the provider's ciphertext. */
  lemma EncryptsExactly(kms: Provider, aead: Aead, tenantId: string, plaintext: Bytes, kekKeyId: KeyId,
                        draw: Option<Draw>, kmsUp: bool)
    requires draw.Some? ==> |draw.value.dek| == 32 && |draw.value.nonce| == 12
    ensures var r := EncryptArtifact(kms, aead, tenantId, plaintext, kekKeyId, draw, kmsUp);
            && (r.Ok? <==> draw.Some? && kmsUp)
            && (draw.None? ==> r == Err(NoEntropy))
            && (draw.Some? && !kmsUp ==> r == Err(KmsRefused))
            && (r.Ok? ==>
                  && r.value.encryptedDek == kms.encrypt(kekKeyId, draw.value.salt, draw.value.dek)
                  && r.value.ciphertext == aead.seal(draw.value.dek, draw.value.nonce, plaintext, tenantId)
                  && r.value.nonce == draw.value.nonce && r.value.tenantId == tenantId
                  && r.value.algorithm == "AES-256-GCM" && r.value.keyVersion == 1)
  {
  }

  /** The envelope round trip. Encryption accepts an empty tenant and decryption does not, so
      the round trip holds exactly for named tenants. */
  lemma RoundTrip(kms: Provider, aead: Aead, tenantId: string, plaintext: Bytes, kekKeyId: KeyId, draw: Draw)
    requires Lawful(kms) && Authentic(aead)
    requires |draw.dek| == DEK_SIZE && |draw.nonce| == NONCE_SIZE
    ensures var sealed := EncryptArtifact(kms, aead, tenantId, plaintext, kekKeyId, Some(draw), true);
            && sealed.Ok?
            && (DecryptArtifact(kms, aead, sealed.value, kekKeyId, true) == Ok(plaintext) <==> tenantId != "")
  {
    var sealed := EncryptArtifact(kms, aead, tenantId, plaintext, kekKeyId, Some(draw), true).value;
    OpensWithItsKey(kms, aead, sealed, draw.dek, plaintext, kekKeyId);
  }

  /** Overwrites a key buffer. */
  method ZeroBytes(b: array<Byte>)
    modifies b
    ensures forall i :: 0 <= i < b.Length ==> b[i] == 0
  {
    for i := 0 to b.Length
      invariant forall j :: 0 <= j < i ==> b[j] == 0
    {
      b[i] := 0;
    }
  }
}
