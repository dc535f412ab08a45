/** Revocation: deleting a certificate record (app/actions/revoke-certificate.ts). */
module Revoke {
  import opened Wrappers
  import opened Store

  datatype RevokeOutcome = Revoked | RevokeFailed

  /** The `error` of the returned object (`{ success: true }` carries none). */
  function RevokeError(o: RevokeOutcome): Option<string>
  {
    match o
    case Revoked => None
    case RevokeFailed => Some("Failed to revoke certificate")
  }

  /** `revokeCertificate`: the certificate with that id is removed and nothing else changes;
      a refused delete (no such id, or a store failure) leaves the store as it was. */
  method RevokeCertificate(store: Store, certificateId: Id, eventId: Id, reject: bool) returns (r: RevokeOutcome)
    requires store.Valid()
    modifies store
    ensures store.Valid()
    ensures r.Revoked? <==> !reject && HasKey(old(store.certificates), CertificateKey, certificateId)
    ensures r.RevokeFailed? ==> store.State() == old(store.State())
    ensures r.Revoked? ==>
      && store.State() == old(store.State()).(certificates := Without(old(store.certificates), CertificateKey, certificateId))
      && !HasKey(store.certificates, CertificateKey, certificateId)
      && |store.certificates| == |old(store.certificates)| - 1
  {
    var ok := store.DeleteCertificate(certificateId, reject);
    r := if ok then Revoked else RevokeFailed;
  }
}
