/** Sealing a signing key to a CPU, backing it up under a cloud key, and
    recovering it on a CPU that may be a different one. Ciphers, key derivation
    and curve operations are parameters known only by their inverse laws. */
module CloudBackup {
  import opened Wrappers
  import opened KeyWrap

  datatype Keyrequest = Keyrequest(
    keyname: nat, keypolicy: nat, isvsvn: nat, cpusvn: octets, attributemask: (nat, nat),
    keyid: octets, miscmask: nat, reserved: octets)

  /** The serialisable part of a key request: it has no reserved field. */
  datatype KeyRequestWrap = KeyRequestWrap(
    keyname: nat, keypolicy: nat, isvsvn: nat, cpusvn: octets, attributemask: (nat, nat),
    keyid: octets, miscmask: nat)

  datatype SealedKeyData = SealedKeyData(sealKeyRequest: KeyRequestWrap, nonce: octets, sealedSecret: octets)

  datatype CloudBackupKeyData = CloudBackupKeyData(nonce: octets, sealedSecret: octets, publicKey: octets)

  datatype CloudBackupSeal = CloudBackupSeal(encryptedSymmetricKey: octets, wrappedCloudSealingKey: octets)

  datatype CloudBackupKey = CloudBackupKey(sealedRsaKey: SealedKeyData, backupKey: CloudBackupSeal)

  datatype ErrorCode = InvalidKeyname | InvalidAttribute | MacCompareFail | InvalidSignature | KeyDerivation

  datatype CloudError =
    | SecretGenerationError
    | SealingError(code: ErrorCode)
    | UnwrapFailed(error: UnwrapError)
    | DecryptionError
    | EncryptionError

  /** An authenticated cipher: key, nonce, message or ciphertext, associated data. */
  datatype Aead = Aead(
    seal: (octets, octets, octets, octets) -> Option<octets>,
    open: (octets, octets, octets, octets) -> Option<octets>)

  datatype Crypto = Crypto(
    cpuAead: Aead,
    cloudAead: Aead,
    keyWrap: Cipher,
    parseRsa: octets -> Option<octets>,
    rsaDecrypt: (octets, octets) -> Option<octets>,
    publicOf: octets -> octets,
    isPublic: octets -> bool,
    knownPolicy: nat -> bool)

  /** A CPU with an enclave on it: its versions, and the key it derives for a request. */
  datatype Cpu = Cpu(isvsvn: nat, cpusvn: octets, getKey: Keyrequest -> Result<octets, ErrorCode>)

  const SEAL_KEYNAME := 4
  const MRSIGNER := 2

  ghost predicate OpenUndoesSeal(aead: Aead) {
    forall key, nonce, msg, aad :: aead.seal(key, nonce, msg, aad).Some? ==>
      aead.open(key, nonce, aead.seal(key, nonce, msg, aad).value, aad) == Some(msg)
  }

  ghost predicate LawfulCrypto(cr: Crypto) {
    && OpenUndoesSeal(cr.cpuAead)
    && OpenUndoesSeal(cr.cloudAead)
    && Lawful(cr.keyWrap)
    && (forall secret :: |secret| == 32 ==> cr.isPublic(cr.publicOf(secret)))
    && cr.knownPolicy(MRSIGNER)
  }

  // ----- key requests

  function ToWrap(kr: Keyrequest): KeyRequestWrap {
    KeyRequestWrap(kr.keyname, kr.keypolicy, kr.isvsvn, kr.cpusvn, kr.attributemask, kr.keyid, kr.miscmask)
  }

  function FromWrap(cr: Crypto, w: KeyRequestWrap): Option<Keyrequest> {
    if !cr.knownPolicy(w.keypolicy) then None
    else Some(Keyrequest(w.keyname, w.keypolicy, w.isvsvn, w.cpusvn, w.attributemask, w.keyid, w.miscmask, []))
  }

  /** A key request survives being stored exactly when its policy is a known one
      and it left every reserved field at its default. */
  lemma KeyRequestRoundTrip(cr: Crypto, kr: Keyrequest, w: KeyRequestWrap)
    ensures FromWrap(cr, ToWrap(kr)) == Some(kr) <==> cr.knownPolicy(kr.keypolicy) && kr.reserved == []
    ensures FromWrap(cr, w).Some? ==> ToWrap(FromWrap(cr, w).value) == w
  {
  }

  // ----- sealing to a CPU

  function SealPayload(cr: Crypto, cpu: Cpu, nonce: octets, msg: octets, aad: octets, keyid: octets)
    : Result<SealedKeyData, ErrorCode>
  {
    var request := Keyrequest(SEAL_KEYNAME, MRSIGNER, cpu.isvsvn, cpu.cpusvn, (0, 0), keyid, 0, []);
    var key := cpu.getKey(request);
    if key.Err? then Err(key.error)
    else
      var sealed := cr.cpuAead.seal(key.value, nonce, msg, aad);
      if sealed.None? then Err(MacCompareFail)
      else Ok(SealedKeyData(ToWrap(request), nonce, sealed.value))
  }

  /** Sealing a signing key, under its own public key as key id. */
  function Seal(cr: Crypto, cpu: Cpu, nonce: octets, keypair: octets): Result<SealedKeyData, ErrorCode> {
    SealPayload(cr, cpu, nonce, keypair, cr.publicOf(keypair), cr.publicOf(keypair))
  }

  function SealSecret(cr: Crypto, cpu: Cpu, nonce: octets, secret: octets, keyid: octets)
    : Result<SealedKeyData, ErrorCode>
  {
    SealPayload(cr, cpu, nonce, secret, keyid, keyid)
  }

  function UnsealSecret(cr: Crypto, cpu: Cpu, data: SealedKeyData): Result<octets, ErrorCode> {
    if data.sealKeyRequest.keyname != SEAL_KEYNAME then Err(InvalidKeyname)
    else
      var request := FromWrap(cr, data.sealKeyRequest);
      if request.None? then Err(InvalidAttribute)
      else
        var key := cpu.getKey(request.value);
        if key.Err? then Err(key.error)
        else
          var secret := cr.cpuAead.open(key.value, data.nonce, data.sealedSecret, data.sealKeyRequest.keyid);
          if secret.None? then Err(MacCompareFail) else Ok(secret.value)
  }

  function Unseal(cr: Crypto, cpu: Cpu, data: SealedKeyData): Result<octets, ErrorCode> {
    if !cr.isPublic(data.sealKeyRequest.keyid) then Err(InvalidSignature)
    else
      var secret := UnsealSecret(cr, cpu, data);
      if secret.Err? then Err(secret.error)
      else if |secret.value| != 32 then Err(InvalidSignature)
      else if cr.publicOf(secret.value) != data.sealKeyRequest.keyid then Err(InvalidSignature)
      else Ok(secret.value)
  }

  lemma SealSecretRoundTrip(cr: Crypto, cpu: Cpu, nonce: octets, secret: octets, keyid: octets)
    requires LawfulCrypto(cr) && SealSecret(cr, cpu, nonce, secret, keyid).Ok?
    ensures UnsealSecret(cr, cpu, SealSecret(cr, cpu, nonce, secret, keyid).value) == Ok(secret)
  {
    var request := Keyrequest(SEAL_KEYNAME, MRSIGNER, cpu.isvsvn, cpu.cpusvn, (0, 0), keyid, 0, []);
    KeyRequestRoundTrip(cr, request, ToWrap(request));
  }

  /** What sealing produces, for every CPU: the message encrypted under the key that
      the CPU derives for a seal key request of its signer and its own versions, with
      the request and the nonce beside it. */
  lemma SealedExactly(cr: Crypto, cpu: Cpu, nonce: octets, msg: octets, aad: octets, keyid: octets,
                      data: SealedKeyData)
    ensures var key := cpu.getKey(Keyrequest(4, 2, cpu.isvsvn, cpu.cpusvn, (0, 0), keyid, 0, []));
            && (SealPayload(cr, cpu, nonce, msg, aad, keyid) == Ok(data) <==>
                  && key.Ok?
                  && cr.cpuAead.seal(key.value, nonce, msg, aad) == Some(data.sealedSecret)
                  && data.nonce == nonce
                  && data.sealKeyRequest == KeyRequestWrap(4, 2, cpu.isvsvn, cpu.cpusvn, (0, 0), keyid, 0))
            && (key.Err? ==> SealPayload(cr, cpu, nonce, msg, aad, keyid) == Err(key.error))
  {
  }

  /** The key request that stored data stands for, whoever stored it. */
  function StoredRequest(data: SealedKeyData): Keyrequest {
    var w := data.sealKeyRequest;
    Keyrequest(4, w.keypolicy, w.isvsvn, w.cpusvn, w.attributemask, w.keyid, w.miscmask, [])
  }

  /** What unsealing returns, for any data: the decryption under the key the CPU
      derives for the stored request, authenticated by its key id. */
  lemma UnsealedExactly(cr: Crypto, cpu: Cpu, data: SealedKeyData, secret: octets)
    ensures var key := cpu.getKey(StoredRequest(data));
            var valid := data.sealKeyRequest.keyname == 4 && cr.knownPolicy(data.sealKeyRequest.keypolicy);
            && (UnsealSecret(cr, cpu, data) == Ok(secret) <==>
                  && valid && key.Ok?
                  && cr.cpuAead.open(key.value, data.nonce, data.sealedSecret, data.sealKeyRequest.keyid)
                     == Some(secret))
            && (valid && key.Ok?
                && cr.cpuAead.open(key.value, data.nonce, data.sealedSecret, data.sealKeyRequest.keyid).None? ==>
                  UnsealSecret(cr, cpu, data) == Err(MacCompareFail))
            && (valid && key.Err? ==> UnsealSecret(cr, cpu, data) == Err(key.error))
  {
  }

  /** Whatever was sealed as a signing key is unsealed as that key. */
  lemma SealRoundTrip(cr: Crypto, cpu: Cpu, nonce: octets, keypair: octets)
    requires LawfulCrypto(cr) && |keypair| == 32 && Seal(cr, cpu, nonce, keypair).Ok?
    ensures Unseal(cr, cpu, Seal(cr, cpu, nonce, keypair).value) == Ok(keypair)
  {
    SealSecretRoundTrip(cr, cpu, nonce, keypair, cr.publicOf(keypair));
  }

  /** Whatever is unsealed, from any data, belongs to the key id it was stored under. */
  lemma UnsealedKeyMatchesId(cr: Crypto, cpu: Cpu, data: SealedKeyData)
    requires Unseal(cr, cpu, data).Ok?
    ensures |Unseal(cr, cpu, data).value| == 32
    ensures cr.publicOf(Unseal(cr, cpu, data).value) == data.sealKeyRequest.keyid
    ensures data.sealKeyRequest.keyname == SEAL_KEYNAME
  {
  }

  /** A signing key is unsealed exactly if the data decrypts to 32 bytes that are the
      secret of the public key it was stored under. */
  lemma UnsealExactly(cr: Crypto, cpu: Cpu, data: SealedKeyData, key: octets)
    ensures Unseal(cr, cpu, data) == Ok(key) <==>
              && UnsealSecret(cr, cpu, data) == Ok(key)
              && |key| == 32
              && cr.isPublic(data.sealKeyRequest.keyid)
              && cr.publicOf(key) == data.sealKeyRequest.keyid
    ensures UnsealSecret(cr, cpu, data).Ok? && Unseal(cr, cpu, data).Err? ==>
              Unseal(cr, cpu, data) == Err(InvalidSignature)
  {
  }

  // ----- the cloud key and the backup

  /** The payload a cloud vendor provides: two fixed-size parts behind each other. */
  function NewSeal(payload: octets): Option<CloudBackupSeal> {
    if |payload| != 296 then None else Some(CloudBackupSeal(payload[..256], payload[256..]))
  }

  function SealBytes(s: CloudBackupSeal): octets {
    s.encryptedSymmetricKey + s.wrappedCloudSealingKey
  }

  lemma SealBytesRoundTrip(payload: octets, s: CloudBackupSeal)
    ensures NewSeal(payload).Some? ==> SealBytes(NewSeal(payload).value) == payload
    ensures |s.encryptedSymmetricKey| == 256 ==>
              (NewSeal(SealBytes(s)) == Some(s) <==> |s.wrappedCloudSealingKey| == 40)
  {
    if |s.encryptedSymmetricKey| == 256 {
      assert SealBytes(s)[..256] == s.encryptedSymmetricKey;
      if |s.wrappedCloudSealingKey| == 40 {
        assert SealBytes(s)[256..] == s.wrappedCloudSealingKey;
      }
    }
  }

  ghost function DecryptWrappedKey(cr: Crypto, rsaKey: octets, s: CloudBackupSeal): Result<octets, CloudError>
    requires LawfulCrypto(cr)
  {
    var wrappingKey := cr.rsaDecrypt(rsaKey, s.encryptedSymmetricKey);
    if wrappingKey.None? then Err(DecryptionError)
    else
      var key := UnwrapPad(cr.keyWrap, wrappingKey.value, s.wrappedCloudSealingKey);
      if key.Err? then Err(UnwrapFailed(key.error)) else Ok(key.value)
  }

  /** The first half of both backing up and recovering. */
  ghost function BackupKey(cr: Crypto, cpu: Cpu, backup: CloudBackupKey): Result<octets, CloudError>
    requires LawfulCrypto(cr)
  {
    var raw := UnsealSecret(cr, cpu, backup.sealedRsaKey);
    if raw.Err? then Err(SealingError(raw.error))
    else
      var rsaKey := cr.parseRsa(raw.value);
      if rsaKey.None? then Err(SecretGenerationError) else DecryptWrappedKey(cr, rsaKey.value, backup.backupKey)
  }

  ghost function BackUp(cr: Crypto, cpu: Cpu, nonce: octets, backup: CloudBackupKey, keypair: octets)
    : Result<CloudBackupKeyData, CloudError>
    requires LawfulCrypto(cr)
  {
    var key := BackupKey(cr, cpu, backup);
    if key.Err? then Err(key.error)
    else
      var sealed := cr.cloudAead.seal(key.value, nonce, keypair, cr.publicOf(keypair));
      if sealed.None? then Err(EncryptionError)
      else Ok(CloudBackupKeyData(nonce, sealed.value, cr.publicOf(keypair)))
  }

  function SealRecovered(cr: Crypto, cpu: Cpu, nonce: octets, sealKey: octets, data: CloudBackupKeyData)
    : Result<SealedKeyData, ErrorCode>
  {
    var secret := cr.cloudAead.open(sealKey, data.nonce, data.sealedSecret, data.publicKey);
    if secret.None? then Err(MacCompareFail)
    else if |secret.value| != 32 then Err(InvalidSignature)
    else Seal(cr, cpu, nonce, secret.value)
  }

  ghost function Recover(cr: Crypto, cpu: Cpu, nonce: octets, backup: CloudBackupKey, data: CloudBackupKeyData)
    : Result<SealedKeyData, CloudError>
    requires LawfulCrypto(cr)
  {
    var key := BackupKey(cr, cpu, backup);
    if key.Err? then Err(key.error)
    else
      var sealed := SealRecovered(cr, cpu, nonce, key.value, data);
      if sealed.Err? then Err(SealingError(sealed.error)) else Ok(sealed.value)
  }

  /** What a package for a CPU is made of: the RSA key and the nonce and key id it
      was sealed with, and the wrapping key that travels under it. */
  datatype Parts = Parts(nonce: octets, rsaBytes: octets, keyid: octets, rsaKey: octets, wrappingKey: octets)

  /** The RSA key is sealed to this CPU, and the wrapping key is encrypted for it. */
  ghost predicate MadeFor(cr: Crypto, cpu: Cpu, parts: Parts, backup: CloudBackupKey) {
    && SealSecret(cr, cpu, parts.nonce, parts.rsaBytes, parts.keyid) == Ok(backup.sealedRsaKey)
    && cr.parseRsa(parts.rsaBytes) == Some(parts.rsaKey)
    && cr.rsaDecrypt(parts.rsaKey, backup.backupKey.encryptedSymmetricKey) == Some(parts.wrappingKey)
    && |parts.wrappingKey| == 32
    && |backup.backupKey.wrappedCloudSealingKey| == 40
  }

  ghost predicate Holds(cr: Crypto, parts: Parts, backup: CloudBackupKey, cloudKey: octets)
    requires LawfulCrypto(cr) && |parts.wrappingKey| == 32
  {
    && |cloudKey| == 32
    && backup.backupKey.wrappedCloudSealingKey == Wrap(cr.keyWrap, parts.wrappingKey, cloudKey)
  }

  /** A package made for this CPU opens to the cloud key in it, and to no other. */
  lemma PackageOpens(cr: Crypto, cpu: Cpu, parts: Parts, backup: CloudBackupKey, cloudKey: octets)
    requires LawfulCrypto(cr) && MadeFor(cr, cpu, parts, backup)
    ensures BackupKey(cr, cpu, backup) == Ok(cloudKey) <==> Holds(cr, parts, backup, cloudKey)
  {
    SealSecretRoundTrip(cr, cpu, parts.nonce, parts.rsaBytes, parts.keyid);
    UnwrapPadExactly(cr.keyWrap, parts.wrappingKey, backup.backupKey.wrappedCloudSealingKey, cloudKey);
  }

  /** What is backed up: the key pair encrypted under the cloud key of the package, with
      its public key as associated data; never anything else. */
  lemma BackUpExactly(cr: Crypto, cpu: Cpu, parts: Parts, backup: CloudBackupKey, cloudKey: octets,
                      nonce: octets, keypair: octets, data: CloudBackupKeyData)
    requires LawfulCrypto(cr) && MadeFor(cr, cpu, parts, backup) && Holds(cr, parts, backup, cloudKey)
    ensures BackUp(cr, cpu, nonce, backup, keypair) == Ok(data) <==>
              && cr.cloudAead.seal(cloudKey, nonce, keypair, cr.publicOf(keypair)) == Some(data.sealedSecret)
              && data.nonce == nonce
              && data.publicKey == cr.publicOf(keypair)
    ensures cr.cloudAead.seal(cloudKey, nonce, keypair, cr.publicOf(keypair)).None? ==>
              BackUp(cr, cpu, nonce, backup, keypair) == Err(EncryptionError)
  {
    PackageOpens(cr, cpu, parts, backup, cloudKey);
  }

  /** What is recovered, from any data: the key pair that the data decrypts to under the
      cloud key, sealed to this CPU. Data that does not decrypt is refused. */
  lemma RecoverExactly(cr: Crypto, cpu: Cpu, parts: Parts, backup: CloudBackupKey, cloudKey: octets,
                       nonce: octets, data: CloudBackupKeyData, sealed: SealedKeyData)
    requires LawfulCrypto(cr) && MadeFor(cr, cpu, parts, backup) && Holds(cr, parts, backup, cloudKey)
    ensures var secret := cr.cloudAead.open(cloudKey, data.nonce, data.sealedSecret, data.publicKey);
            && (Recover(cr, cpu, nonce, backup, data) == Ok(sealed) <==>
                  secret.Some? && |secret.value| == 32 && Seal(cr, cpu, nonce, secret.value) == Ok(sealed))
            && (secret.None? ==> Recover(cr, cpu, nonce, backup, data) == Err(SealingError(MacCompareFail)))
            && (secret.Some? && |secret.value| != 32 ==>
                  Recover(cr, cpu, nonce, backup, data) == Err(SealingError(InvalidSignature)))
  {
    PackageOpens(cr, cpu, parts, backup, cloudKey);
  }

  /** Any package at all opens to a cloud key exactly if every layer of it opens: the
      sealed RSA key, the wrapping key under it, and the wrap of the standard. */
  lemma BackupKeyExactly(cr: Crypto, cpu: Cpu, backup: CloudBackupKey, cloudKey: octets)
    requires LawfulCrypto(cr)
    ensures BackupKey(cr, cpu, backup) == Ok(cloudKey) <==>
              exists raw, rsaKey, wrappingKey ::
                && UnsealSecret(cr, cpu, backup.sealedRsaKey) == Ok(raw)
                && cr.parseRsa(raw) == Some(rsaKey)
                && cr.rsaDecrypt(rsaKey, backup.backupKey.encryptedSymmetricKey) == Some(wrappingKey)
                && |wrappingKey| == 32 && |backup.backupKey.wrappedCloudSealingKey| == 40 && |cloudKey| == 32
                && RfcWraps(cr.keyWrap, wrappingKey, IV_5649, cloudKey, backup.backupKey.wrappedCloudSealingKey)
  {
    var raw := UnsealSecret(cr, cpu, backup.sealedRsaKey);
    var wrapped := backup.backupKey.wrappedCloudSealingKey;
    if raw.Ok? && cr.parseRsa(raw.value).Some? {
      var rsaKey := cr.parseRsa(raw.value).value;
      var wrappingKey := cr.rsaDecrypt(rsaKey, backup.backupKey.encryptedSymmetricKey);
      if wrappingKey.Some? && |wrappingKey.value| == 32 && |wrapped| == 40 {
        UnwrapPadExactly(cr.keyWrap, wrappingKey.value, wrapped, cloudKey);
        if |cloudKey| == 32 {
          KeyWrapIsRfc(cr.keyWrap, wrappingKey.value, cloudKey, wrapped);
        }
      }
    }
  }

  lemma SealedUnderOneKey(cr: Crypto, here: Cpu, there: Cpu, nonce: octets, nonce': octets, backup: CloudBackupKey,
                          backup': CloudBackupKey, cloudKey: octets, keypair: octets)
    requires LawfulCrypto(cr) && |keypair| == 32
    requires BackupKey(cr, here, backup) == Ok(cloudKey) && BackupKey(cr, there, backup') == Ok(cloudKey)
    requires BackUp(cr, here, nonce, backup, keypair).Ok?
    ensures var recovered := Recover(cr, there, nonce', backup', BackUp(cr, here, nonce, backup, keypair).value);
            if Seal(cr, there, nonce', keypair).Ok?
            then recovered == Ok(Seal(cr, there, nonce', keypair).value)
            else recovered == Err(SealingError(Seal(cr, there, nonce', keypair).error))
  {
    assert cr.cloudAead.seal(cloudKey, nonce, keypair, cr.publicOf(keypair)).Some?;
  }

  /** End to end: two packages, made for two CPUs with RSA and wrapping keys of
      their own, hold one cloud key. A signing key backed up on one CPU is recovered
      on the other and unsealed there as the same key. Backing up fails only if the
      cloud cipher cannot seal, recovering only if the second CPU cannot. */
  lemma RecoveryGivesBackTheKey(cr: Crypto, here: Cpu, there: Cpu, parts: Parts, parts': Parts,
                                backup: CloudBackupKey, backup': CloudBackupKey, cloudKey: octets,
                                nonce: octets, nonce': octets, keypair: octets)
    requires LawfulCrypto(cr) && |keypair| == 32
    requires MadeFor(cr, here, parts, backup) && Holds(cr, parts, backup, cloudKey)
    requires MadeFor(cr, there, parts', backup') && Holds(cr, parts', backup', cloudKey)
    ensures BackUp(cr, here, nonce, backup, keypair).Ok?
            <==> cr.cloudAead.seal(cloudKey, nonce, keypair, cr.publicOf(keypair)).Some?
    ensures BackUp(cr, here, nonce, backup, keypair).Ok? ==>
              var data := BackUp(cr, here, nonce, backup, keypair).value;
              var recovered := Recover(cr, there, nonce', backup', data);
              && data.publicKey == cr.publicOf(keypair)
              && (recovered.Ok? <==> Seal(cr, there, nonce', keypair).Ok?)
              && (recovered.Ok? ==>
                    Unseal(cr, there, recovered.value) == Ok(keypair)
                    && recovered.value.sealKeyRequest.keyid == cr.publicOf(keypair))
  {
    PackageOpens(cr, here, parts, backup, cloudKey);
    PackageOpens(cr, there, parts', backup', cloudKey);
    if BackUp(cr, here, nonce, backup, keypair).Ok? {
      SealedUnderOneKey(cr, here, there, nonce, nonce', backup, backup', cloudKey, keypair);
      if Seal(cr, there, nonce', keypair).Ok? {
        SealRoundTrip(cr, there, nonce', keypair);
      }
    }
  }
}
