# Service certificate validation and client identification encryption

A Dafny model of `src/service_certificate.rs` from openwv, a Widevine content decryption
module. The file does three things:

- It validates a license service's certificate. The certificate comes either bare or
  inside a signed message.
  - The envelope has to decode.
  - Its signature has to verify under the root RSA key embedded in the binary (RSA-PSS with SHA-1).
  - Only then is the certificate body decoded.
  - The body has to be a Service certificate with a parseable public key, a serial
    number and a provider id.
- It maps each refusal to one of the host's exception kinds.
- It encrypts the client identification under a validated certificate:
  - a fresh AES-128-CBC key and IV encrypt the serialised identification;
  - RSA-OAEP wraps the key under the certificate's public key;
  - the output record is assembled from those parts.

The model's choices:

- **Libraries as parameters.** The protobuf codec, the RSA-PSS signature parser and verifier,
  the PKCS#1 key parser and the signed-message collaborator are fields of a `Collaborators`
  record of function values. The serialiser and the two ciphers are fields of a
  `CipherSuite`. The validator's properties hold for any behaviour of those libraries.
  The decryption round trip, `RecipientRecoversClientId`, holds for any ciphers whose
  decryption inverts encryption.
- **Call log.** Each validation returns a `Validation`: the result, plus the log of
  collaborator calls it made, in order. The log is how the model states what the code
  does before what: the body is decoded only after its signature verified, under the root
  key and nothing else. An absent or empty certificate triggers no call at all.
- **`public_key()` accessor.** The source reads the key through this accessor, not through
  an explicit presence check, so an absent key reaches the PKCS#1 parser. What the accessor
  returns for an absent field is kept abstract: `Collaborators.publicKeyDefault`.
- **Random generator.** The generator is a stream of bytes, `RandomStream`.
  - The privacy key is its first 16 draws.
  - The IV is the next 16.
  - OAEP draws its padding from what follows.
- **Certificate types.** `WrongCertificateType` carries the raw `int32` type code. So an
  unrecognised code is reported exactly as it was observed. The Service code is 3, taken
  from the certificate schema. The schema file is not part of this model.
- **Key before fields.** The key is parsed through the `public_key()` accessor before the
  serial number and provider id are checked for presence (lines 99-107). So a malformed
  key, or an absent key whose default does not parse, wins over a missing serial number or
  provider id. `KeyParsedBeforeFieldPresence` states this order.

Files:

- `wrappers.dfy`: `Option` and `Result`.
- `service_certificate.dfy`: the data model and the operations.
- `service_certificate_properties.dfy`: the lemmas.

## Model

| member | source | states |
|---|---|---|
| `ServiceCertificate.CdmException` | src/service_certificate.rs:47-54 | a missing certificate, and only that, maps to the type-error exception; every other error maps to the invalid-state exception |
| `ServiceCertificate.ParseServiceCertificate` | src/service_certificate.rs:67-112 | the result is `CertificateEmpty` exactly when the input is absent or zero-length, and then no collaborator is called |
| `ServiceCertificate.ParseServiceCertMessage` | src/service_certificate.rs:56-65 | the envelope is decoded expecting the ServiceCertificate type; an envelope decode or check failure is `BadSignedMessage` carrying the collaborator's error; otherwise the result is exactly that of validating the checked inner bytes |
| `ServiceCertificate.PrivacyKey` | src/service_certificate.rs:119 | the privacy key is 16 bytes, the generator's first sixteen draws |
| `ServiceCertificate.PrivacyIv` | src/service_certificate.rs:120 | the IV is 16 bytes, the sixteen draws after the key's, so it never shares a draw with the key |
| `ServiceCertificate.EncryptClientId` | src/service_certificate.rs:114-143 | all five output fields are present; provider id and serial number are the certificate's; the IV sent is `PrivacyIv`, the generator's draws 16 to 31, and it is the IV the payload was encrypted with; the wrapped key is the key the payload was encrypted with, wrapped under the certificate's key |
| `ServiceCertificateProperties.SuccessIffCertified` | src/service_certificate.rs:67-111 | a `ServerCertificate` results if and only if the envelope's signature verified under the root key over the body bytes, those bytes decode to a body whose type is Service, its key parsed, and its serial number and provider id are present; the result carries the key and those fields verbatim |
| `ServiceCertificateProperties.AcceptedBodyHasEveryField` | src/service_certificate.rs:94-111 | when the accessor's default does not parse as a key, an accepted certificate's body had the type Service and carried the public key, serial number and provider id, and the result holds the parsed key and those fields |
| `ServiceCertificateProperties.ParseNeverBadSignedMessage` | src/service_certificate.rs:67-112 | the bare validator never reports `BadSignedMessage` |
| `ServiceCertificateProperties.MessageBadSignedMessageMeansEnvelopeFailed` | src/service_certificate.rs:56-65 | a signed message yields `BadSignedMessage(e)` only when decoding it as a ServiceCertificate message or checking it failed with exactly `e` |
| `ServiceCertificateProperties.EnvelopeUndecodable` | src/service_certificate.rs:75 | non-empty bytes whose envelope does not decode give `BadProto` with the decoder's error, after that single call |
| `ServiceCertificateProperties.EnvelopeMissingFields` | src/service_certificate.rs:77-85 | an envelope lacking the body bytes or the signature gives `MissingFields`, and the signature is never parsed |
| `ServiceCertificateProperties.UnverifiedSignatureRejected` | src/service_certificate.rs:81-92 | a signature that fails to parse or to verify gives `BadSignature`; the body is never decoded, and the result is the same whatever the body and key decoders do |
| `ServiceCertificateProperties.BodyUndecodable` | src/service_certificate.rs:92 | verified body bytes that fail to decode give `BadProto` with the decoder's error |
| `ServiceCertificateProperties.NonServiceTypeRejected` | src/service_certificate.rs:94-97 | a verified body without a type gives `MissingFields`; any other type than Service, recognised or not, gives `WrongCertificateType` with exactly that code; the key is then not parsed |
| `ServiceCertificateProperties.KeyParsedBeforeFieldPresence` | src/service_certificate.rs:99-107 | for a verified Service body, a key that does not parse gives `MalformedKey` with the parser's error, whether or not the serial number and provider id are present |
| `ServiceCertificateProperties.MissingSerialOrProvider` | src/service_certificate.rs:99-107 | a verified Service body whose key parses but that lacks the serial number or the provider id gives `MissingFields` |
| `ServiceCertificateProperties.CompleteServiceCertificateAccepted` | src/service_certificate.rs:99-111 | a verified, complete Service body is accepted, with the parsed key and the body's serial number and provider id copied verbatim |
| `ServiceCertificateProperties.ParseIsTrustOrdered` | src/service_certificate.rs:75-107 | in every validation, signatures are checked only against the root key; body bytes are decoded only right after their signature verified; a key is parsed only out of a decoded body of type Service |
| `ServiceCertificateProperties.TrustOrderedExtends` | src/service_certificate.rs:59-64 | the envelope collaborator's calls placed before a trust-ordered log leave it trust-ordered |
| `ServiceCertificateProperties.MessageIsTrustOrdered` | src/service_certificate.rs:56-65 | the same call ordering holds when the certificate arrives inside a signed message |
| `ServiceCertificateProperties.MessageSuccessIsCertified` | src/service_certificate.rs:56-65 | a certificate accepted from a signed message passed the envelope's own check, and its inner bytes are a root-signed Service certificate in the sense of `Certified` |
| `ServiceCertificateProperties.MessageEmptyOnlyForEmptyPayload` | src/service_certificate.rs:64 | a signed message yields `CertificateEmpty` only when it decoded and checked to an empty payload |
| `ServiceCertificateProperties.RecipientRecoversClientId` | src/service_certificate.rs:118-142 | for any ciphers whose decryption inverts encryption, the holder of the certificate's private key recovers the serialised client identification from the record alone |

## Left out

- The mathematics of RSA, the PSS and OAEP paddings, SHA-1, AES-128-CBC and PKCS#7. These are library code. They are fields of `Collaborators` and `CipherSuite`, and the model constrains nothing about them.
- Protobuf wire decoding and encoding, and the signed-message collaborator (`decode_with_type`, `msg_checked`). Their code is not part of this model. They appear as functions that return a `Result`.
- The certificate schema's other fields. The decoded body models only the four fields the validator reads.
- The embedded root key blob and its `.unwrap()` parse (lines 15 and 88). The parsed key is the constant `Collaborators.rootKey`, so the model assumes that parse succeeds.
- The `.unwrap()`s on the cipher and OAEP calls (lines 123 and 134). They are assumed to succeed. The cipher's unwrap needs a 16-byte key and IV, and `PrivacyKey` and `PrivacyIv` prove those sizes.
- Randomness and freshness. The operating-system generator is the `RandomStream` parameter. Freshness of the key and IV across calls depends on that generator, not on this code, so it is not stated.
- The round trip of the certificate's key through DER re-encoding. It is a property of the PKCS#1 library.
- Logging (`info!`) and the errors' display strings.
- Restricting construction of `ServerCertificate` to the validator. That would need module export sets, which the model does not use. Instead, `SuccessIffCertified` states what every certificate the validator returns satisfies.
