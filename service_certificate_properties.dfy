/**
 * What the certificate validator and the client identification encryption guarantee.
 * The validator's properties hold for every behaviour of the libraries it calls; the
 * decryption round trip holds for ciphers whose decryption inverts encryption.
 */
module ServiceCertificateProperties {
  import opened Wrappers
  import opened ServiceCertificate

  // ---------------------------------------------------------------------------
  // How far a certificate gets
  // ---------------------------------------------------------------------------

  /** The envelope decodes with both fields present, and its signature verifies under the root key. */
  ghost predicate SignatureVerifies(lib: Collaborators, bytes: Bytes) {
    && bytes != []
    && lib.decodeSignedCertificate(bytes).Ok?
    && var signed := lib.decodeSignedCertificate(bytes).value;
    && signed.drmCertificate.Some?
    && signed.signature.Some?
    && lib.parsePssSignature(signed.signature.value).Ok?
    && lib.verifyPss(lib.rootKey, signed.drmCertificate.value, lib.parsePssSignature(signed.signature.value).value).Ok?
  }

  /** The signature verifies, and the signed body bytes decode to `cert`. */
  ghost predicate SignedBodyDecodesTo(lib: Collaborators, bytes: Bytes, cert: DrmDeviceCertificate) {
    && SignatureVerifies(lib, bytes)
    && lib.decodeCertificate(lib.decodeSignedCertificate(bytes).value.drmCertificate.value) == Ok(cert)
  }

  // ---------------------------------------------------------------------------
  // Which certificates are accepted
  // ---------------------------------------------------------------------------

  /** The intermediate values that justify accepting a certificate. */
  datatype Evidence = Evidence(signed: SignedDrmDeviceCertificate, signature: PssSignature, body: DrmDeviceCertificate)

  /**
   * `ev` shows that `bytes` carry the service certificate `c`: the envelope holds body
   * bytes and a signature that the root key verifies over them, the body is a Service
   * certificate, its key parses to `c.key`, and `c`'s serial number and provider id are
   * the body's own.
   */
  ghost predicate Supports(lib: Collaborators, bytes: Bytes, ev: Evidence, c: ServerCertificate) {
    && bytes != []
    && lib.decodeSignedCertificate(bytes) == Ok(ev.signed)
    && ev.signed.drmCertificate.Some?
    && ev.signed.signature.Some?
    && lib.parsePssSignature(ev.signed.signature.value) == Ok(ev.signature)
    && lib.verifyPss(lib.rootKey, ev.signed.drmCertificate.value, ev.signature).Ok?
    && lib.decodeCertificate(ev.signed.drmCertificate.value) == Ok(ev.body)
    && ev.body.certType == Some(SERVICE_TYPE)
    && lib.parsePkcs1Key(PublicKeyOrDefault(lib, ev.body)) == Ok(c.key)
    && ev.body.serialNumber == Some(c.serialNumber)
    && ev.body.providerId == Some(c.providerId)
  }

  /** `bytes` are a root-signed Service certificate whose contents are `c`. */
  ghost predicate Certified(lib: Collaborators, bytes: Bytes, c: ServerCertificate) {
    exists ev :: Supports(lib, bytes, ev, c)
  }

  /**
   * A `ServerCertificate` is produced exactly for the certificates that are root-signed
   * Service certificates with every field present, and it carries their fields verbatim.
   */
  lemma SuccessIffCertified(lib: Collaborators, serverCertificate: Option<Bytes>, c: ServerCertificate)
    ensures ParseServiceCertificate(lib, serverCertificate).result == Ok(c)
            <==> serverCertificate.Some? && Certified(lib, serverCertificate.value, c)
  {
    if ParseServiceCertificate(lib, serverCertificate).result == Ok(c) {
      var bytes := serverCertificate.value;
      var signed := lib.decodeSignedCertificate(bytes).value;
      var signature := lib.parsePssSignature(signed.signature.value).value;
      var body := lib.decodeCertificate(signed.drmCertificate.value).value;
      assert Supports(lib, bytes, Evidence(signed, signature, body), c);
    }
    if serverCertificate.Some? && Certified(lib, serverCertificate.value, c) {
      var ev :| Supports(lib, serverCertificate.value, ev, c);
    }
  }

  /**
   * When the accessor's default is not a parseable key, a certificate is accepted only if
   * its body carried the public key field, alongside the type, serial number and provider id.
   */
  lemma AcceptedBodyHasEveryField(lib: Collaborators, serverCertificate: Option<Bytes>, c: ServerCertificate)
    requires lib.parsePkcs1Key(lib.publicKeyDefault).Err?
    requires ParseServiceCertificate(lib, serverCertificate).result == Ok(c)
    ensures serverCertificate.Some?
    ensures var body := lib.decodeCertificate(lib.decodeSignedCertificate(serverCertificate.value).value.drmCertificate.value).value;
            && body.certType == Some(SERVICE_TYPE)
            && body.publicKey.Some?
            && lib.parsePkcs1Key(body.publicKey.value) == Ok(c.key)
            && body.serialNumber == Some(c.serialNumber)
            && body.providerId == Some(c.providerId)
  {
    SuccessIffCertified(lib, serverCertificate, c);
    var ev :| Supports(lib, serverCertificate.value, ev, c);
  }

  /** The bare validator never reports a signed-message error: that kind belongs to the envelope. */
  lemma ParseNeverBadSignedMessage(lib: Collaborators, serverCertificate: Option<Bytes>)
    ensures !(ParseServiceCertificate(lib, serverCertificate).result.Err?
              && ParseServiceCertificate(lib, serverCertificate).result.error.BadSignedMessage?)
  {
  }

  // ---------------------------------------------------------------------------
  // Order of the checks
  // ---------------------------------------------------------------------------

  /** An envelope that does not decode is a protobuf error, and nothing else is attempted. */
  lemma EnvelopeUndecodable(lib: Collaborators, bytes: Bytes)
    requires bytes != []
    requires lib.decodeSignedCertificate(bytes).Err?
    ensures ParseServiceCertificate(lib, Some(bytes))
            == Validation(Err(BadProto(lib.decodeSignedCertificate(bytes).error)), [DecodeSignedCertificate(bytes)])
  {
  }

  /**
   * An envelope without body bytes, or without a signature, is missing fields; the
   * signature is not parsed.
   */
  lemma EnvelopeMissingFields(lib: Collaborators, bytes: Bytes)
    requires bytes != []
    requires lib.decodeSignedCertificate(bytes).Ok?
    requires lib.decodeSignedCertificate(bytes).value.drmCertificate.None?
             || lib.decodeSignedCertificate(bytes).value.signature.None?
    ensures ParseServiceCertificate(lib, Some(bytes)) == Validation(Err(MissingFields), [DecodeSignedCertificate(bytes)])
  {
  }

  /**
   * A signature that does not parse or does not verify is a signature error, whatever the
   * body holds: the body is never decoded, and changing how bodies and keys decode
   * changes nothing.
   */
  lemma UnverifiedSignatureRejected(
    lib: Collaborators, bytes: Bytes,
    decodeCertificate: Bytes -> Result<DrmDeviceCertificate, DecodeError>,
    parsePkcs1Key: Bytes -> Result<RsaPublicKey, Pkcs1Error>,
    publicKeyDefault: Bytes)
    requires bytes != []
    requires lib.decodeSignedCertificate(bytes).Ok?
    requires lib.decodeSignedCertificate(bytes).value.drmCertificate.Some?
    requires lib.decodeSignedCertificate(bytes).value.signature.Some?
    requires !SignatureVerifies(lib, bytes)
    ensures var v := ParseServiceCertificate(lib, Some(bytes));
            && v.result.Err? && v.result.error.BadSignature?
            && (forall j | 0 <= j < |v.calls| :: !v.calls[j].DecodeCertificate?)
    ensures ParseServiceCertificate(
              lib.(decodeCertificate := decodeCertificate, parsePkcs1Key := parsePkcs1Key, publicKeyDefault := publicKeyDefault),
              Some(bytes))
            == ParseServiceCertificate(lib, Some(bytes))
  {
  }

  /** Verified body bytes that do not decode are a protobuf error. */
  lemma BodyUndecodable(lib: Collaborators, bytes: Bytes)
    requires SignatureVerifies(lib, bytes)
    requires lib.decodeCertificate(lib.decodeSignedCertificate(bytes).value.drmCertificate.value).Err?
    ensures ParseServiceCertificate(lib, Some(bytes)).result
            == Err(BadProto(lib.decodeCertificate(lib.decodeSignedCertificate(bytes).value.drmCertificate.value).error))
  {
  }

  /**
   * A body without a type is missing fields; a body of any other type, recognised or
   * not, is refused with exactly that type code; the key is then not parsed.
   */
  lemma NonServiceTypeRejected(lib: Collaborators, bytes: Bytes, cert: DrmDeviceCertificate)
    requires SignedBodyDecodesTo(lib, bytes, cert)
    requires cert.certType != Some(SERVICE_TYPE)
    ensures var v := ParseServiceCertificate(lib, Some(bytes));
            && v.result == Err(if cert.certType.None? then MissingFields else WrongCertificateType(cert.certType.value))
            && (forall j | 0 <= j < |v.calls| :: !v.calls[j].ParsePublicKey?)
  {
  }

  /**
   * The key is parsed before the serial number and provider id are looked at: a key that
   * does not parse is reported as malformed even when those fields are missing too.
   */
  lemma KeyParsedBeforeFieldPresence(lib: Collaborators, bytes: Bytes, cert: DrmDeviceCertificate)
    requires SignedBodyDecodesTo(lib, bytes, cert)
    requires cert.certType == Some(SERVICE_TYPE)
    requires lib.parsePkcs1Key(PublicKeyOrDefault(lib, cert)).Err?
    ensures ParseServiceCertificate(lib, Some(bytes)).result
            == Err(MalformedKey(lib.parsePkcs1Key(PublicKeyOrDefault(lib, cert)).error))
  {
  }

  /** A Service certificate whose key parses but that lacks its serial number or provider id is missing fields. */
  lemma MissingSerialOrProvider(lib: Collaborators, bytes: Bytes, cert: DrmDeviceCertificate)
    requires SignedBodyDecodesTo(lib, bytes, cert)
    requires cert.certType == Some(SERVICE_TYPE)
    requires lib.parsePkcs1Key(PublicKeyOrDefault(lib, cert)).Ok?
    requires cert.serialNumber.None? || cert.providerId.None?
    ensures ParseServiceCertificate(lib, Some(bytes)).result == Err(MissingFields)
  {
  }

  /** A complete, root-signed Service certificate is accepted with its fields copied verbatim. */
  lemma CompleteServiceCertificateAccepted(lib: Collaborators, bytes: Bytes, cert: DrmDeviceCertificate)
    requires SignedBodyDecodesTo(lib, bytes, cert)
    requires cert.certType == Some(SERVICE_TYPE)
    requires lib.parsePkcs1Key(PublicKeyOrDefault(lib, cert)).Ok?
    requires cert.serialNumber.Some? && cert.providerId.Some?
    ensures ParseServiceCertificate(lib, Some(bytes)).result
            == Ok(ServerCertificate(
                    lib.parsePkcs1Key(PublicKeyOrDefault(lib, cert)).value,
                    cert.serialNumber.value,
                    cert.providerId.value))
  {
  }

  // ---------------------------------------------------------------------------
  // Order of the collaborator calls
  // ---------------------------------------------------------------------------

  /**
   * Every validation checks signatures only against the root key, decodes body bytes only
   * after their signature verified, and parses a key only out of a Service certificate.
   */
  lemma ParseIsTrustOrdered(lib: Collaborators, serverCertificate: Option<Bytes>)
    ensures TrustOrdered(lib, ParseServiceCertificate(lib, serverCertificate).calls)
  {
    var calls := ParseServiceCertificate(lib, serverCertificate).calls;
    if serverCertificate.None? || serverCertificate.value == [] {
      return;
    }
    var bytes := serverCertificate.value;
    var decoded := lib.decodeSignedCertificate(bytes);
    if decoded.Err? || decoded.value.drmCertificate.None? || decoded.value.signature.None? {
      assert calls == [DecodeSignedCertificate(bytes)];
      return;
    }
    var certBytes, signatureBytes := decoded.value.drmCertificate.value, decoded.value.signature.value;
    var parsed := lib.parsePssSignature(signatureBytes);
    if parsed.Err? {
      assert calls == [DecodeSignedCertificate(bytes), ParseSignature(signatureBytes)];
      return;
    }
    var checked := [DecodeSignedCertificate(bytes), ParseSignature(signatureBytes), Verify(lib.rootKey, certBytes, parsed.value)];
    if lib.verifyPss(lib.rootKey, certBytes, parsed.value).Err? {
      assert calls == checked;
      return;
    }
    var body := lib.decodeCertificate(certBytes);
    if body.Err? || body.value.certType != Some(SERVICE_TYPE) {
      assert calls == checked + [DecodeCertificate(certBytes)];
      return;
    }
    assert calls == checked + [DecodeCertificate(certBytes), ParsePublicKey(PublicKeyOrDefault(lib, body.value))];
  }

  /** Calls to the envelope collaborator placed before a trust-ordered log keep it trust-ordered. */
  lemma TrustOrderedExtends(lib: Collaborators, prefix: seq<Call>, calls: seq<Call>)
    requires forall j | 0 <= j < |prefix| :: prefix[j].DecodeSignedMessage? || prefix[j].CheckSignedMessage?
    requires TrustOrdered(lib, calls)
    ensures TrustOrdered(lib, prefix + calls)
  {
    var all := prefix + calls;
    forall j | |prefix| <= j < |all|
      ensures all[j] == calls[j - |prefix|]
    {
    }
  }

  /** The same ordering holds when the certificate arrives inside a signed message. */
  lemma MessageIsTrustOrdered(lib: Collaborators, messageBytes: Bytes)
    ensures TrustOrdered(lib, ParseServiceCertMessage(lib, messageBytes).calls)
  {
    var decoded := lib.decodeSignedMessage(messageBytes, ServiceCertificateMessage);
    if decoded.Ok? && lib.msgChecked(decoded.value).Ok? {
      var inner := lib.msgChecked(decoded.value).value;
      ParseIsTrustOrdered(lib, Some(inner));
      TrustOrderedExtends(
        lib,
        [DecodeSignedMessage(messageBytes, ServiceCertificateMessage), CheckSignedMessage(decoded.value)],
        ParseServiceCertificate(lib, Some(inner)).calls);
    }
  }

  // ---------------------------------------------------------------------------
  // Certificates inside signed messages
  // ---------------------------------------------------------------------------

  /**
   * A certificate accepted from a signed message passed the envelope's own check and is a
   * root-signed Service certificate.
   */
  lemma MessageSuccessIsCertified(lib: Collaborators, messageBytes: Bytes, c: ServerCertificate)
    requires ParseServiceCertMessage(lib, messageBytes).result == Ok(c)
    ensures lib.decodeSignedMessage(messageBytes, ServiceCertificateMessage).Ok?
    ensures var checked := lib.msgChecked(lib.decodeSignedMessage(messageBytes, ServiceCertificateMessage).value);
            checked.Ok? && Certified(lib, checked.value, c)
  {
    var checked := lib.msgChecked(lib.decodeSignedMessage(messageBytes, ServiceCertificateMessage).value);
    SuccessIffCertified(lib, Some(checked.value), c);
  }

  /**
   * A signed message is reported as `BadSignedMessage` only when the envelope did not
   * decode as a ServiceCertificate message or did not pass its own check, and then the
   * error is the collaborator's.
   */
  lemma MessageBadSignedMessageMeansEnvelopeFailed(lib: Collaborators, messageBytes: Bytes, e: SignedMessageError)
    requires ParseServiceCertMessage(lib, messageBytes).result == Err(BadSignedMessage(e))
    ensures var decoded := lib.decodeSignedMessage(messageBytes, ServiceCertificateMessage);
            || decoded == Err(e)
            || (decoded.Ok? && lib.msgChecked(decoded.value) == Err(e))
  {
    var decoded := lib.decodeSignedMessage(messageBytes, ServiceCertificateMessage);
    if decoded.Ok? && lib.msgChecked(decoded.value).Ok? {
      ParseNeverBadSignedMessage(lib, Some(lib.msgChecked(decoded.value).value));
    }
  }

  /** A signed message is reported as carrying no certificate only when its verified payload is empty. */
  lemma MessageEmptyOnlyForEmptyPayload(lib: Collaborators, messageBytes: Bytes)
    requires ParseServiceCertMessage(lib, messageBytes).result == Err(CertificateEmpty)
    ensures lib.decodeSignedMessage(messageBytes, ServiceCertificateMessage).Ok?
    ensures lib.msgChecked(lib.decodeSignedMessage(messageBytes, ServiceCertificateMessage).value) == Ok([])
  {
  }

  // ---------------------------------------------------------------------------
  // Client identification encryption
  // ---------------------------------------------------------------------------

  /**
   * The encrypted record is self-contained: the holder of the private key matching the
   * certificate, unwrapping the privacy key and decrypting with the IV sent in clear,
   * recovers the serialised client identification.
   */
  lemma RecipientRecoversClientId<C>(
    suite: CipherSuite<C>, cert: ServerCertificate, clientId: C, rng: RandomStream,
    aes128CbcDecrypt: (Bytes, Bytes, Bytes) -> Bytes, rsaOaepDecrypt: Bytes -> Bytes)
    requires forall key, iv, plaintext | |key| == PRIVACY_KEY_SIZE && |iv| == PRIVACY_IV_SIZE ::
               aes128CbcDecrypt(key, iv, suite.aes128CbcEncrypt(key, iv, plaintext)) == plaintext
    requires forall message, padding :: rsaOaepDecrypt(suite.rsaOaepEncrypt(cert.key, message, padding)) == message
    ensures var out := EncryptClientId(suite, cert, clientId, rng);
            aes128CbcDecrypt(rsaOaepDecrypt(out.encryptedPrivacyKey.value), out.encryptedClientIdIv.value, out.encryptedClientId.value)
            == suite.encodeClientId(clientId)
  {
  }
}
