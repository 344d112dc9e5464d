/**
 * Validation of a license service's certificate against the embedded root key, and
 * encryption of the client identification under the validated certificate
 * (src/service_certificate.rs).
 *
 * The protobuf codec, the RSA-PSS and PKCS#1 code, the signed-message envelope and the
 * AES/OAEP ciphers are libraries whose code is not part of this model: they appear as
 * function values in `Collaborators` and `CipherSuite`. The validator's properties hold
 * whatever those libraries compute; the decryption round trip assumes ciphers whose
 * decryption inverts encryption.
 */
module ServiceCertificate {
  import opened Wrappers

  newtype byte = x: int | 0 <= x < 0x100

  type Bytes = seq<byte>

  /** Protobuf `int32`, the wire type of the certificate's `type` field. */
  newtype int32 = x: int | -0x8000_0000 <= x < 0x8000_0000

  /** Code of `CertificateType::Service`, taken from the certificate schema. */
  const SERVICE_TYPE: int32 := 3

  /** Sizes of the AES-128-CBC privacy key and initialisation vector. */
  const PRIVACY_KEY_SIZE: nat := 16
  const PRIVACY_IV_SIZE: nat := 16

  // ---------------------------------------------------------------------------
  // Data model
  // ---------------------------------------------------------------------------

  /** An RSA public key. A placeholder: the model never reads its components. */
  datatype RsaPublicKey = RsaPublicKey(modulus: nat, exponent: nat)

  /** A parsed RSA-PSS signature value. A placeholder: the model never reads its contents. */
  datatype PssSignature = PssSignature(representative: nat)

  /** Errors of the libraries; their contents are opaque here and are passed on unchanged. */
  datatype DecodeError = DecodeError(description: string)
  datatype SignatureError = SignatureError(description: string)
  datatype Pkcs1Error = Pkcs1Error(description: string)
  datatype SignedMessageError = SignedMessageError(description: string)

  /**
   * The message types the signed-message envelope can declare. Only
   * `ServiceCertificateMessage` is used; the others are placeholders for the rest of the enumeration.
   */
  datatype MessageType =
    | LicenseRequest
    | License
    | ErrorResponse
    | ServiceCertificateRequest
    | ServiceCertificateMessage

  /**
   * The outer signed-message envelope, as the envelope collaborator decodes it. A
   * placeholder: only the collaborator reads its fields.
   */
  datatype SignedMessage = SignedMessage(messageType: Option<MessageType>, msg: Option<Bytes>, signature: Option<Bytes>)

  /** `SignedDrmDeviceCertificate`: certificate body bytes and the root's signature over them. */
  datatype SignedDrmDeviceCertificate = SignedDrmDeviceCertificate(drmCertificate: Option<Bytes>, signature: Option<Bytes>)

  /**
   * `DrmDeviceCertificate`, the decoded certificate body, restricted to the fields the
   * validator reads; every field has explicit presence.
   */
  datatype DrmDeviceCertificate = DrmDeviceCertificate(
    certType: Option<int32>,
    publicKey: Option<Bytes>,
    serialNumber: Option<Bytes>,
    providerId: Option<string>)

  /** A validated service certificate: unlike `DrmDeviceCertificate`, nothing is optional. */
  datatype ServerCertificate = ServerCertificate(key: RsaPublicKey, serialNumber: Bytes, providerId: string)

  /** `ServerCertificateError`: why a certificate was refused. */
  datatype ServerCertificateError =
    | CertificateEmpty
    | BadSignedMessage(messageError: SignedMessageError)
    | BadProto(decodeError: DecodeError)
    | MissingFields
    | BadSignature(signatureError: SignatureError)
    | MalformedKey(keyError: Pkcs1Error)
    | WrongCertificateType(observedType: int32)

  /**
   * The exception kinds of the host's content decryption module interface. Only the type
   * and invalid-state errors are used; the others are placeholders for the rest of the
   * enumeration.
   */
  datatype Exception =
    | ExceptionTypeError
    | ExceptionNotSupportedError
    | ExceptionInvalidStateError
    | ExceptionQuotaExceededError

  /**
   * The libraries the validator calls, and the embedded root key.
   * `rootKey` is the parse of the embedded root DER blob, which the source unwraps.
   * `publicKeyDefault` is what the generated `public_key()` accessor returns when the
   * field is absent.
   */
  datatype Collaborators = Collaborators(
    rootKey: RsaPublicKey,
    decodeSignedCertificate: Bytes -> Result<SignedDrmDeviceCertificate, DecodeError>,
    parsePssSignature: Bytes -> Result<PssSignature, SignatureError>,
    verifyPss: (RsaPublicKey, Bytes, PssSignature) -> Result<(), SignatureError>,
    decodeCertificate: Bytes -> Result<DrmDeviceCertificate, DecodeError>,
    publicKeyDefault: Bytes,
    parsePkcs1Key: Bytes -> Result<RsaPublicKey, Pkcs1Error>,
    decodeSignedMessage: (Bytes, MessageType) -> Result<SignedMessage, SignedMessageError>,
    msgChecked: SignedMessage -> Result<Bytes, SignedMessageError>)

  /** One call into a collaborator, with its arguments. */
  datatype Call =
    | DecodeSignedMessage(message: Bytes, expected: MessageType)
    | CheckSignedMessage(envelope: SignedMessage)
    | DecodeSignedCertificate(signedBytes: Bytes)
    | ParseSignature(signatureBytes: Bytes)
    | Verify(key: RsaPublicKey, body: Bytes, signature: PssSignature)
    | DecodeCertificate(certificateBytes: Bytes)
    | ParsePublicKey(der: Bytes)

  /** What a validation returns, together with the collaborator calls it made, in order. */
  datatype Validation = Validation(result: Result<ServerCertificate, ServerCertificateError>, calls: seq<Call>)

  // ---------------------------------------------------------------------------
  // Ordering of the collaborator calls
  // ---------------------------------------------------------------------------

  /** Every signature check is made against the embedded root key. */
  ghost predicate VerifiesWithRootKey(lib: Collaborators, calls: seq<Call>) {
    forall j | 0 <= j < |calls| && calls[j].Verify? :: calls[j].key == lib.rootKey
  }

  /**
   * Certificate body bytes are decoded only right after a successful check, under the
   * root key, of the signature over exactly those bytes.
   */
  ghost predicate DecodedOnlyAfterVerification(lib: Collaborators, calls: seq<Call>) {
    forall j | 0 <= j < |calls| && calls[j].DecodeCertificate? ::
      && 0 < j
      && calls[j - 1].Verify?
      && calls[j - 1].key == lib.rootKey
      && calls[j - 1].body == calls[j].certificateBytes
      && lib.verifyPss(lib.rootKey, calls[j].certificateBytes, calls[j - 1].signature).Ok?
  }

  /** The public key is parsed only out of a decoded body whose type is Service. */
  ghost predicate KeyParsedOnlyFromServiceCertificate(lib: Collaborators, calls: seq<Call>) {
    forall j | 0 <= j < |calls| && calls[j].ParsePublicKey? ::
      && 0 < j
      && calls[j - 1].DecodeCertificate?
      && var decoded := lib.decodeCertificate(calls[j - 1].certificateBytes);
      && decoded.Ok?
      && decoded.value.certType == Some(SERVICE_TYPE)
      && calls[j].der == PublicKeyOrDefault(lib, decoded.value)
  }

  /** The three ordering guarantees of the validator together. */
  ghost predicate TrustOrdered(lib: Collaborators, calls: seq<Call>) {
    && VerifiesWithRootKey(lib, calls)
    && DecodedOnlyAfterVerification(lib, calls)
    && KeyParsedOnlyFromServiceCertificate(lib, calls)
  }

  // ---------------------------------------------------------------------------
  // Operations
  // ---------------------------------------------------------------------------

  /** The `public_key()` accessor of the decoded body. */
  function PublicKeyOrDefault(lib: Collaborators, cert: DrmDeviceCertificate): Bytes {
    match cert.publicKey
    case Some(k) => k
    case None => lib.publicKeyDefault
  }

  /** `cdm_exception`: only a missing certificate is a type error; every other refusal is an invalid-state error. */
  function CdmException(e: ServerCertificateError): (x: Exception)
    ensures x == ExceptionTypeError <==> e.CertificateEmpty?
    ensures x == ExceptionInvalidStateError <==> !e.CertificateEmpty?
  {
    match e
    case CertificateEmpty => ExceptionTypeError
    case _ => ExceptionInvalidStateError
  }

  /**
   * `parse_service_certificate`: checks a signed certificate against the root key and
   * extracts a `ServerCertificate`, stopping at the first failed check.
   */
  function ParseServiceCertificate(lib: Collaborators, serverCertificate: Option<Bytes>): (v: Validation)
    ensures v.result == Err(CertificateEmpty) <==> serverCertificate.None? || serverCertificate.value == []
    ensures serverCertificate.None? || serverCertificate.value == [] ==> v.calls == []
  {
    match serverCertificate
    case None => Validation(Err(CertificateEmpty), [])
    case Some(signedCertBytes) =>
      if signedCertBytes == [] then Validation(Err(CertificateEmpty), [])
      else
        var c0 := [DecodeSignedCertificate(signedCertBytes)];
        match lib.decodeSignedCertificate(signedCertBytes)
        case Err(e) => Validation(Err(BadProto(e)), c0)
        case Ok(signedCert) =>
          match signedCert.drmCertificate
          case None => Validation(Err(MissingFields), c0)
          case Some(certBytes) =>
            match signedCert.signature
            case None => Validation(Err(MissingFields), c0)
            case Some(signatureBytes) =>
              var c1 := c0 + [ParseSignature(signatureBytes)];
              match lib.parsePssSignature(signatureBytes)
              case Err(e) => Validation(Err(BadSignature(e)), c1)
              case Ok(signature) =>
                var c2 := c1 + [Verify(lib.rootKey, certBytes, signature)];
                match lib.verifyPss(lib.rootKey, certBytes, signature)
                case Err(e) => Validation(Err(BadSignature(e)), c2)
                case Ok(_) =>
                  var c3 := c2 + [DecodeCertificate(certBytes)];
                  match lib.decodeCertificate(certBytes)
                  case Err(e) => Validation(Err(BadProto(e)), c3)
                  case Ok(cert) =>
                    match cert.certType
                    case None => Validation(Err(MissingFields), c3)
                    case Some(certType) =>
                      if certType != SERVICE_TYPE then Validation(Err(WrongCertificateType(certType)), c3)
                      else
                        var der := PublicKeyOrDefault(lib, cert);
                        var c4 := c3 + [ParsePublicKey(der)];
                        match lib.parsePkcs1Key(der)
                        case Err(e) => Validation(Err(MalformedKey(e)), c4)
                        case Ok(key) =>
                          match cert.serialNumber
                          case None => Validation(Err(MissingFields), c4)
                          case Some(serialNumber) =>
                            match cert.providerId
                            case None => Validation(Err(MissingFields), c4)
                            case Some(providerId) =>
                              Validation(Ok(ServerCertificate(key, serialNumber, providerId)), c4)
  }

  /**
   * `parse_service_cert_message`: unwraps a signed message of type ServiceCertificate
   * through the envelope collaborator and validates the certificate it carries.
   */
  function ParseServiceCertMessage(lib: Collaborators, messageBytes: Bytes): (v: Validation)
    ensures |v.calls| > 0 && v.calls[0] == DecodeSignedMessage(messageBytes, ServiceCertificateMessage)
    ensures lib.decodeSignedMessage(messageBytes, ServiceCertificateMessage).Err? ==>
              v.result == Err(BadSignedMessage(lib.decodeSignedMessage(messageBytes, ServiceCertificateMessage).error))
    ensures lib.decodeSignedMessage(messageBytes, ServiceCertificateMessage).Ok? ==>
              var checked := lib.msgChecked(lib.decodeSignedMessage(messageBytes, ServiceCertificateMessage).value);
              && (checked.Err? ==> v.result == Err(BadSignedMessage(checked.error)))
              && (checked.Ok? ==> v.result == ParseServiceCertificate(lib, Some(checked.value)).result)
  {
    var c0 := [DecodeSignedMessage(messageBytes, ServiceCertificateMessage)];
    match lib.decodeSignedMessage(messageBytes, ServiceCertificateMessage)
    case Err(e) => Validation(Err(BadSignedMessage(e)), c0)
    case Ok(message) =>
      var c1 := c0 + [CheckSignedMessage(message)];
      match lib.msgChecked(message)
      case Err(e) => Validation(Err(BadSignedMessage(e)), c1)
      case Ok(inner) =>
        var v := ParseServiceCertificate(lib, Some(inner));
        Validation(v.result, c1 + v.calls)
  }

  // ---------------------------------------------------------------------------
  // Client identification encryption
  // ---------------------------------------------------------------------------

  /** The random generator: its i-th draw, one `rng.random()` call yielding a byte. */
  type RandomStream = nat -> byte

  /**
   * The serialiser and ciphers `encrypt_client_id` calls, for client identifications of
   * type `C`: AES-128-CBC with PKCS#7 padding (key, IV, plaintext), and RSA-OAEP with
   * SHA-1 (recipient key, message, the generator it draws its padding from).
   */
  datatype CipherSuite<!C> = CipherSuite(
    encodeClientId: C -> Bytes,
    aes128CbcEncrypt: (Bytes, Bytes, Bytes) -> Bytes,
    rsaOaepEncrypt: (RsaPublicKey, Bytes, RandomStream) -> Bytes)

  /** `EncryptedClientIdentification`, the record sent to the license service. */
  datatype EncryptedClientIdentification = EncryptedClientIdentification(
    providerId: Option<string>,
    serviceCertificateSerialNumber: Option<Bytes>,
    encryptedClientId: Option<Bytes>,
    encryptedClientIdIv: Option<Bytes>,
    encryptedPrivacyKey: Option<Bytes>)

  /** `count` successive draws of the generator, starting at its `from`-th. */
  function Draw(rng: RandomStream, from: nat, count: nat): Bytes {
    seq(count, i requires 0 <= i < count => rng(from + i))
  }

  /** The generator after its first `n` draws were taken. */
  function Advance(rng: RandomStream, n: nat): RandomStream {
    (i: nat) => rng(n + i)
  }

  /** The privacy key: the generator's first sixteen draws. */
  function PrivacyKey(rng: RandomStream): (key: Bytes)
    ensures |key| == PRIVACY_KEY_SIZE
    ensures forall i | 0 <= i < PRIVACY_KEY_SIZE :: key[i] == rng(i)
  {
    Draw(rng, 0, PRIVACY_KEY_SIZE)
  }

  /** The initialisation vector: the sixteen draws the generator yields after the key's. */
  function PrivacyIv(rng: RandomStream): (iv: Bytes)
    ensures |iv| == PRIVACY_IV_SIZE
    ensures forall i | 0 <= i < PRIVACY_IV_SIZE :: iv[i] == rng(PRIVACY_KEY_SIZE + i)
  {
    Draw(rng, PRIVACY_KEY_SIZE, PRIVACY_IV_SIZE)
  }

  /**
   * `encrypt_client_id`: hybrid encryption of the serialised client identification under
   * a validated certificate. The key and IV are the generator's first 32 bytes; OAEP
   * draws its padding from what follows.
   */
  function EncryptClientId<C>(suite: CipherSuite<C>, cert: ServerCertificate, clientId: C, rng: RandomStream)
    : (out: EncryptedClientIdentification)
    ensures out.providerId == Some(cert.providerId)
    ensures out.serviceCertificateSerialNumber == Some(cert.serialNumber)
    ensures out.encryptedClientId.Some? && out.encryptedClientIdIv.Some? && out.encryptedPrivacyKey.Some?
    ensures out.encryptedClientIdIv == Some(PrivacyIv(rng))
    ensures |out.encryptedClientIdIv.value| == PRIVACY_IV_SIZE
    ensures out.encryptedClientId.value
              == suite.aes128CbcEncrypt(PrivacyKey(rng), out.encryptedClientIdIv.value, suite.encodeClientId(clientId))
    ensures out.encryptedPrivacyKey.value
              == suite.rsaOaepEncrypt(cert.key, PrivacyKey(rng), Advance(rng, PRIVACY_KEY_SIZE + PRIVACY_IV_SIZE))
  {
    var privacyKey := PrivacyKey(rng);
    var privacyIv := PrivacyIv(rng);
    var encryptedClientId := suite.aes128CbcEncrypt(privacyKey, privacyIv, suite.encodeClientId(clientId));
    var encryptedPrivacyKey := suite.rsaOaepEncrypt(cert.key, privacyKey, Advance(rng, PRIVACY_KEY_SIZE + PRIVACY_IV_SIZE));
    EncryptedClientIdentification(
      Some(cert.providerId),
      Some(cert.serialNumber),
      Some(encryptedClientId),
      Some(privacyIv),
      Some(encryptedPrivacyKey))
  }
}
