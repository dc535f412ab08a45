/** Draft certificates: created without a participant, optionally under a custom id, and
    later assigned to a participant created on the spot (app/actions/drafts.ts). */
module Drafts {
  import opened Wrappers
  import opened Strings
  import opened Store
  import opened Participants

  datatype DraftOutcome = DuplicateId | DraftFailed | DraftCreated(certificate: Certificate)

  /** The returned `error`, if any. */
  function DraftError(o: DraftOutcome): Option<string>
  {
    match o
    case DuplicateId => Some("Certificate ID already exists.")
    case DraftFailed => Some("Failed to create draft certificate.")
    case DraftCreated(_) => None
  }

  /** `createDraft`: a non-empty custom id must be unused and becomes the certificate's id;
      without one the store generates the id. The draft has no participant. */
  method CreateDraft(store: Store, eventId: Id, templateId: Id, customId: Option<Id>, reject: bool)
    returns (r: DraftOutcome)
    requires store.Valid()
    modifies store
    ensures store.Valid()
    ensures r.DuplicateId? <==> Truthy(customId) && HasKey(old(store.certificates), CertificateKey, customId.value)
    ensures r.DraftCreated? <==>
      !r.DuplicateId? && !reject && HasKey(old(store.templates), TemplateKey, templateId)
    ensures !r.DraftCreated? ==> store.State() == old(store.State())
    ensures r.DraftCreated? ==>
      && r.certificate.id == (if Truthy(customId) then customId.value else FreshKey(old(store.certificates), CertificateKey))
      && r.certificate.templateId == templateId
      && r.certificate.participantId.None?
      && store.State() == old(store.State()).(certificates := old(store.certificates) + [r.certificate])
  {
    if Truthy(customId) && HasKey(store.certificates, CertificateKey, customId.value) {
      return DuplicateId;
    }
    var c := store.CreateCertificate(if Truthy(customId) then customId else None, templateId, None, reject);
    if c.None? {
      return DraftFailed;
    }
    r := DraftCreated(c.value);
  }

  /** How `assignDraft` ends: both writes done, or an exception from the first or the second. */
  datatype AssignOutcome =
    | Assigned(participant: Participant)
    | ThrewAtParticipant
    | ThrewAtCertificate(participant: Participant)

  /** `assignDraft`: creates the participant, then binds the certificate to it. The writes are
      not atomic: when the second is refused the new participant stays. */
  method AssignDraft(store: Store, certificateId: Id, eventId: Id, name: string, email: string,
                     category: Option<string>, rejectParticipant: bool, rejectCertificate: bool)
    returns (r: AssignOutcome)
    requires store.Valid()
    modifies store
    ensures store.Valid()
    ensures r.ThrewAtParticipant? <==> rejectParticipant || !HasKey(old(store.events), EventKey, eventId)
    ensures r.ThrewAtParticipant? ==> store.State() == old(store.State())
    ensures !r.ThrewAtParticipant? ==>
      r.participant == Participant(FreshKey(old(store.participants), ParticipantKey), eventId, name, email,
                                   StoredCategory(category))
    ensures r.Assigned? <==>
      !r.ThrewAtParticipant? && !rejectCertificate && HasKey(old(store.certificates), CertificateKey, certificateId)
    ensures r.ThrewAtCertificate? ==>
      store.State() == old(store.State()).(participants := old(store.participants) + [r.participant])
    ensures r.Assigned? ==>
      store.State() == old(store.State()).(
        participants := old(store.participants) + [r.participant],
        certificates := BindParticipant(old(store.certificates), certificateId, r.participant.id))
  {
    var p := store.CreateParticipant(eventId, name, email, StoredCategory(category), rejectParticipant);
    if p.None? {
      return ThrewAtParticipant;
    }
    assert store.participants[|store.participants| - 1] == p.value;
    assert HasKey(store.participants, ParticipantKey, p.value.id);
    var ok := store.BindCertificate(certificateId, p.value.id, rejectCertificate);
    if !ok {
      return ThrewAtCertificate(p.value);
    }
    r := Assigned(p.value);
  }

  /** After an assignment the draft is bound to the new participant, who then has a
      certificate; no other certificate changes. */
  lemma AssignedDraftIsBound(db: Db, certificateId: Id, p: Participant)
    requires HasKey(db.certificates, CertificateKey, certificateId)
    ensures
      var after := db.(participants := db.participants + [p],
                       certificates := BindParticipant(db.certificates, certificateId, p.id));
      && HasCertificate(after, p.id)
      && forall i :: 0 <= i < |db.certificates| && db.certificates[i].id != certificateId ==>
           after.certificates[i] == db.certificates[i]
  {
    var after := db.(participants := db.participants + [p],
                     certificates := BindParticipant(db.certificates, certificateId, p.id));
    var i :| 0 <= i < |db.certificates| && db.certificates[i].id == certificateId;
    assert after.certificates[i].participantId == Some(p.id);
  }
}
