/** Device certificates and what a peer proves by presenting one (crates/sync/src/auth.rs). */
module Devices {
  import opened Wrappers
  import opened Bytes
  import opened Protocol
  import SignedBytes

  /** A transport peer id, as its bytes. */
  type PeerId = Octets

  datatype Device = Device(user: Id, device: Id)

  datatype DeviceCertificate =
    DeviceCertificate(version: U16, userKey: Octets, deviceKey: Octets, issuedAt: I64, signature: Octets)

  datatype Rejection =
    | InvalidCertificate
    | PeerIdMismatch
    | UserNotAllowed
    | DeviceRevoked
    | NotAuthenticated
    | InvalidSync
    | InvalidBootstrap
    | InvitationUnavailable
    | BootstrapNotApproved
    | FrameLimit

  datatype AuthError =
    | UnsupportedVersion
    | InvalidPublicKeyLength
    | InvalidSignatureLength
    | InvalidSignature
    | InvalidDeviceKey

  /**
   What a node is set up with, its own certificate included. `peerOf` is the transport's peer id of a device
   key, if the key is one.
   */
  datatype Setting = Setting(
    crypto: Crypto, peerOf: Octets -> Option<PeerId>, self: PeerId, own: DeviceCertificate, community: Id,
    revoked: set<Device>)

  function DeviceDomain(): Octets {
    Ascii("chatcommons:device-id:v1\0")
  }

  function DeviceIdOf(crypto: Crypto, deviceKey: Octets): Id {
    crypto.hash(DeviceDomain() + deviceKey)
  }

  /** `validate_device_certificate`: the first check the certificate fails. */
  function CertificateFault(crypto: Crypto, certificate: DeviceCertificate): Option<AuthError> {
    if certificate.version != SignedBytes.DEVICE_AUTH_VERSION then Some(AuthError.UnsupportedVersion)
    else if |certificate.userKey| != PUBLIC_KEY_LEN || |certificate.deviceKey| != PUBLIC_KEY_LEN
      then Some(AuthError.InvalidPublicKeyLength)
    else if |certificate.signature| != SIGNATURE_LEN then Some(AuthError.InvalidSignatureLength)
    else if !crypto.verify(
      certificate.userKey,
      SignedBytes.CertificateBytes(
        certificate.version, certificate.userKey, certificate.deviceKey, certificate.issuedAt),
      certificate.signature) then Some(AuthError.InvalidSignature)
    else None
  }

  predicate ValidCertificate(crypto: Crypto, certificate: DeviceCertificate) {
    CertificateFault(crypto, certificate).None?
  }

  /** Why a node may not be set up: its certificate is invalid, or not for its own device. */
  function OwnFault(setting: Setting): Option<AuthError> {
    if CertificateFault(setting.crypto, setting.own).Some? then CertificateFault(setting.crypto, setting.own)
    else if setting.peerOf(setting.own.deviceKey) != Some(setting.self) then Some(InvalidDeviceKey)
    else None
  }

  function DeviceOf(crypto: Crypto, certificate: DeviceCertificate): Device {
    Device(crypto.hash(certificate.userKey), DeviceIdOf(crypto, certificate.deviceKey))
  }

  /** `validate_peer_certificate`: why the certificate does not speak for the peer. */
  function PeerFault(setting: Setting, peer: PeerId, certificate: DeviceCertificate): Option<Rejection> {
    if !ValidCertificate(setting.crypto, certificate) then Some(InvalidCertificate)
    else match setting.peerOf(certificate.deviceKey)
      case None => Some(InvalidCertificate)
      case Some(holder) =>
        if holder != peer then Some(PeerIdMismatch)
        else if DeviceOf(setting.crypto, certificate) in setting.revoked then Some(DeviceRevoked)
        else None
  }

  /** The peer has a valid, unrevoked certificate that names the device. */
  ghost predicate Identified(setting: Setting, peer: PeerId, device: Device) {
    exists certificate ::
      PeerFault(setting, peer, certificate).None? && DeviceOf(setting.crypto, certificate) == device
  }

  /**
   The certificate speaks for the peer and the device: the user's key signed it, and the device key is the
   one the peer id is of.
   */
  predicate SpeaksFor(setting: Setting, certificate: DeviceCertificate, peer: PeerId, device: Device) {
    && certificate.version == 1
    && |certificate.userKey| == 32 && |certificate.deviceKey| == 32 && |certificate.signature| == 64
    && setting.crypto.verify(
         certificate.userKey,
         SignedBytes.CertificateBytes(1, certificate.userKey, certificate.deviceKey, certificate.issuedAt),
         certificate.signature)
    && setting.peerOf(certificate.deviceKey) == Some(peer)
    && device.user == setting.crypto.hash(certificate.userKey)
    && device.device == setting.crypto.hash(Ascii("chatcommons:device-id:v1\0") + certificate.deviceKey)
  }

  /** A peer is identified exactly when some certificate speaks for it and its device is not revoked. */
  lemma IdentifiedIs(setting: Setting, peer: PeerId, device: Device)
    ensures Identified(setting, peer, device) <==>
              device !in setting.revoked && exists certificate :: SpeaksFor(setting, certificate, peer, device)
  {
    forall certificate
      ensures PeerFault(setting, peer, certificate).None? && DeviceOf(setting.crypto, certificate) == device
              <==> SpeaksFor(setting, certificate, peer, device) && device !in setting.revoked
    {
    }
  }

  /** Each reason for refusing a certificate means that its check fails and the checks before it pass. */
  lemma CertificateRefusalIs(crypto: Crypto, c: DeviceCertificate)
    ensures var sized := c.version == 1 && |c.userKey| == 32 && |c.deviceKey| == 32;
            match CertificateFault(crypto, c)
            case None =>
              && sized && |c.signature| == 64
              && crypto.verify(
                   c.userKey, SignedBytes.CertificateBytes(1, c.userKey, c.deviceKey, c.issuedAt), c.signature)
            case Some(UnsupportedVersion) => c.version != 1
            case Some(InvalidPublicKeyLength) => c.version == 1 && !sized
            case Some(InvalidSignatureLength) => sized && |c.signature| != 64
            case Some(InvalidSignature) => sized && |c.signature| == 64
            case _ => false
  {
  }

  /** Why a certificate is refused: it is unsound, another peer's, or of a revoked device. */
  lemma RefusalIs(setting: Setting, peer: PeerId, certificate: DeviceCertificate)
    ensures var device, holder := DeviceOf(setting.crypto, certificate), setting.peerOf(certificate.deviceKey);
            PeerFault(setting, peer, certificate)
            == if holder.None? || !SpeaksFor(setting, certificate, holder.value, device) then Some(InvalidCertificate)
               else if holder != Some(peer) then Some(PeerIdMismatch)
               else if device in setting.revoked then Some(DeviceRevoked)
               else None
  {
  }

  /** The bytes a peer signs with the invitation's capability key. */
  function ProofBytes(
    setting: Setting, invitation: Id, device: Device, client: PeerId, server: PeerId, nonce: Octets): Octets
  {
    SignedBytes.PossessionBytes(
      setting.community, invitation, device.user, device.device,
      setting.crypto.hash(client), setting.crypto.hash(server), nonce)
  }

  /** A proof is good for one community, invitation, user, device and nonce only. */
  lemma ProofIsBound(
    a: Setting, invitationA: Id, deviceA: Device, clientA: PeerId, serverA: PeerId, nonceA: Octets,
    b: Setting, invitationB: Id, deviceB: Device, clientB: PeerId, serverB: PeerId, nonceB: Octets)
    requires |nonceA| == SignedBytes.BOOTSTRAP_NONCE_BYTES && |nonceB| == SignedBytes.BOOTSTRAP_NONCE_BYTES
    requires ProofBytes(a, invitationA, deviceA, clientA, serverA, nonceA)
             == ProofBytes(b, invitationB, deviceB, clientB, serverB, nonceB)
    ensures a.community == b.community && invitationA == invitationB && deviceA == deviceB && nonceA == nonceB
    ensures a.crypto.hash(clientA) == b.crypto.hash(clientB) && a.crypto.hash(serverA) == b.crypto.hash(serverB)
  {
    SignedBytes.PossessionIsInjective(
      SignedBytes.Possession(a.community, invitationA, deviceA.user, deviceA.device,
                             a.crypto.hash(clientA), a.crypto.hash(serverA), nonceA),
      SignedBytes.Possession(b.community, invitationB, deviceB.user, deviceB.device,
                             b.crypto.hash(clientB), b.crypto.hash(serverB), nonceB));
  }
}
