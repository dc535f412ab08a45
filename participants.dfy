/** The participant actions: adding one participant from a form, and issuing certificates to
    every participant of an event who has none (app/actions/participants.ts). */
module Participants {
  import opened Wrappers
  import opened Strings
  import opened Forms
  import opened Store

  /** A participant form that passed validation. */
  datatype NewParticipant = NewParticipant(name: string, email: string, category: string)

  /** `participantSchema.safeParse`: a non-empty name, an address the e-mail validator
      accepts, and a category that is a string (a null category fails `.optional()`). Form
      values are `None` when the field is absent. */
  function ValidateParticipant(name: Option<string>, email: Option<string>, category: Option<string>,
                               isEmail: string -> bool): (r: Validation<NewParticipant>)
    ensures r.Passed? <==> name.Some? && name.value != "" && email.Some? && isEmail(email.value) && category.Some?
    ensures r.Passed? ==> r.value == NewParticipant(name.value, email.value, category.value)
    ensures r.Failed? ==>
      && ("name" in r.errors <==> !(name.Some? && name.value != ""))
      && ("email" in r.errors <==> !(email.Some? && isEmail(email.value)))
      && ("category" in r.errors <==> category.None?)
      && (forall f :: f in r.errors ==> f in {"name", "email", "category"})
    ensures r.Failed? && "name" in r.errors && name.Some? ==> r.errors["name"] == ["Name is required"]
    ensures r.Failed? && "email" in r.errors && email.Some? ==> r.errors["email"] == ["Invalid email"]
    ensures r.Failed? && name.None? ==> r.errors["name"] == [NullMessage]
    ensures r.Failed? && email.None? ==> r.errors["email"] == [NullMessage]
    ensures r.Failed? && category.None? ==> r.errors["category"] == [NullMessage]
  {
    var errors := Report(Report(Report(map[],
      "name", StringIssues(name, (s: string) => |s| >= 1, "Name is required")),
      "email", StringIssues(email, isEmail, "Invalid email")),
      "category", OptionalStringIssues(category));
    if errors == map[] then Passed(NewParticipant(name.value, email.value, category.value))
    else Failed(errors)
  }

  /** `category || "General"`: the stored category is never empty. */
  function StoredCategory(category: Option<string>): (r: string)
    ensures r != ""
    ensures Truthy(category) ==> r == category.value
    ensures !Truthy(category) ==> r == "General"
  {
    StrOr(category, "General")
  }

  datatype AddOutcome = Invalid(errors: map<string, seq<string>>) | AddFailed | Added(participant: Participant)

  /** The `message` of the returned state. */
  function AddMessage(o: AddOutcome): string
  {
    match o
    case Invalid(_) => "Validation error"
    case AddFailed => "Failed to add participant"
    case Added(_) => "Participant added"
  }

  /** `addParticipant`: validates the form, then writes one participant; a refused write
      becomes a message instead of an exception. */
  method AddParticipant(store: Store, eventId: Id, name: Option<string>, email: Option<string>,
                        category: Option<string>, isEmail: string -> bool, reject: bool)
    returns (r: AddOutcome)
    requires store.Valid()
    modifies store
    ensures store.Valid()
    ensures r.Invalid? <==> ValidateParticipant(name, email, category, isEmail).Failed?
    ensures r.Invalid? ==> r.errors == ValidateParticipant(name, email, category, isEmail).errors
    ensures r.Added? <==>
      ValidateParticipant(name, email, category, isEmail).Passed? && !reject
      && HasKey(old(store.events), EventKey, eventId)
    ensures !r.Added? ==> store.State() == old(store.State())
    ensures r.Added? ==>
      && r.participant == Participant(FreshKey(old(store.participants), ParticipantKey), eventId,
                                      name.value, email.value, StoredCategory(category))
      && store.State() == old(store.State()).(participants := old(store.participants) + [r.participant])
  {
    var v := ValidateParticipant(name, email, category, isEmail);
    if v.Failed? {
      return Invalid(v.errors);
    }
    var p := store.CreateParticipant(eventId, v.value.name, v.value.email, StoredCategory(Some(v.value.category)), reject);
    if p.None? {
      return AddFailed;
    }
    r := Added(p.value);
  }

  // ---------------------------------------------------------------------------------------
  // Bulk generation.

  /** The template used: the event's template with the given id, or its first template when
      no (or an empty) id is given. */
  function ChosenTemplate(templates: seq<Template>, eventId: Id, templateId: Option<Id>): (r: Option<Template>)
    ensures r.Some? ==> r.value in templates && r.value.eventId == eventId
    ensures Truthy(templateId) ==> (r.Some? <==> HasKey(TemplatesOf(templates, eventId), TemplateKey, templateId.value))
    ensures Truthy(templateId) && r.Some? ==> r.value.id == templateId.value
    ensures !Truthy(templateId) ==> (r.Some? <==> TemplatesOf(templates, eventId) != [])
    ensures !Truthy(templateId) && r.Some? ==> r == Some(TemplatesOf(templates, eventId)[0])
  {
    var own := TemplatesOf(templates, eventId);
    if Truthy(templateId) then Find(own, TemplateKey, templateId.value)
    else if own == [] then None
    else Some(own[0])
  }

  /** The certificate the store writes for participant `pid` into table `certs`. */
  function NextCertificate(certs: seq<Certificate>, templateId: Id, pid: Id): (c: Certificate)
    ensures !HasKey(certs, CertificateKey, c.id)
    ensures c.templateId == templateId && c.participantId == Some(pid)
  {
    Certificate(FreshKey(certs, CertificateKey), templateId, Some(pid))
  }

  /** The certificates written for `ps`, one per participant, each getting the id the store
      generates at that point. */
  function Issued(certs: seq<Certificate>, ps: seq<Participant>, templateId: Id): (r: seq<Certificate>)
    ensures |r| == |ps|
    decreases |ps|
  {
    if ps == [] then []
    else
      var c := NextCertificate(certs, templateId, ps[0].id);
      [c] + Issued(certs + [c], ps[1..], templateId)
  }

  /** The `i`-th certificate written binds the `i`-th participant and the chosen template. */
  lemma {:induction false} IssuedBinds(certs: seq<Certificate>, ps: seq<Participant>, templateId: Id)
    ensures forall i :: 0 <= i < |ps| ==>
      Issued(certs, ps, templateId)[i].participantId == Some(ps[i].id) && Issued(certs, ps, templateId)[i].templateId == templateId
    decreases |ps|
  {
    if ps != [] {
      var c := NextCertificate(certs, templateId, ps[0].id);
      IssuedBinds(certs + [c], ps[1..], templateId);
      forall i | 1 <= i < |ps|
        ensures Issued(certs, ps, templateId)[i] == Issued(certs + [c], ps[1..], templateId)[i - 1]
      {
      }
    }
  }

  /** Issuing to one more participant appends one certificate with the next generated id. */
  lemma {:induction false} IssuedSnoc(certs: seq<Certificate>, ps: seq<Participant>, p: Participant, templateId: Id)
    ensures Issued(certs, ps + [p], templateId) ==
      Issued(certs, ps, templateId) + [NextCertificate(certs + Issued(certs, ps, templateId), templateId, p.id)]
    decreases |ps|
  {
    if ps == [] {
      assert ps + [p] == [p];
      assert [p][1..] == [];
      assert Issued(certs, [p], templateId) == [NextCertificate(certs, templateId, p.id)];
      assert certs + Issued(certs, ps, templateId) == certs;
    } else {
      var c := NextCertificate(certs, templateId, ps[0].id);
      var rest := Issued(certs + [c], ps[1..], templateId);
      assert (ps + [p])[0] == ps[0];
      assert (ps + [p])[1..] == ps[1..] + [p];
      assert Issued(certs, ps + [p], templateId) == [c] + Issued(certs + [c], ps[1..] + [p], templateId);
      IssuedSnoc(certs + [c], ps[1..], p, templateId);
      assert Issued(certs, ps, templateId) == [c] + rest;
      assert certs + [c] + rest == certs + Issued(certs, ps, templateId);
    }
  }

  /** Issuing to one more participant of a list extends what was issued to its prefix. */
  lemma IssuedPrefixStep(certs: seq<Certificate>, ps: seq<Participant>, n: nat, templateId: Id)
    requires n < |ps|
    ensures Issued(certs, ps[..n + 1], templateId) ==
      Issued(certs, ps[..n], templateId) + [NextCertificate(certs + Issued(certs, ps[..n], templateId), templateId, ps[n].id)]
  {
    assert ps[..n + 1] == ps[..n] + [ps[n]];
    IssuedSnoc(certs, ps[..n], ps[n], templateId);
  }

  datatype GenerateOutcome =
    | NoTemplates
    | TemplateNotFound
    | AllHaveCertificates
    | Generated(count: nat, templateName: string)
      /** A refused write propagates as an exception after `created` certificates. */
    | Threw(created: nat)

  /** The returned `message` (an exception carries none). */
  function GenerateMessage(o: GenerateOutcome): Option<string>
  {
    match o
    case NoTemplates => Some("No templates found for this event.")
    case TemplateNotFound => Some("Selected template not found.")
    case AllHaveCertificates => Some("All participants already have certificates.")
    case Generated(count, templateName) =>
      Some("Generated " + Decimal(count) + " certificates using template '" + StrOr(Some(templateName), "Untitled") + "'.")
    case Threw(_) => None
  }

  /** `generateCertificates`: picks the template, then writes one certificate per participant
      of the event who has none, in table order. `failAt` is the index of the first write the
      store refuses, if any. */
  method GenerateCertificates(store: Store, eventId: Id, templateId: Option<Id>, failAt: Option<nat>)
    returns (r: GenerateOutcome)
    requires store.Valid()
    modifies store
    ensures store.Valid()
    ensures r.NoTemplates? <==> TemplatesOf(old(store.templates), eventId) == []
    ensures r.TemplateNotFound? <==>
      TemplatesOf(old(store.templates), eventId) != [] && ChosenTemplate(old(store.templates), eventId, templateId).None?
    ensures r.AllHaveCertificates? <==>
      ChosenTemplate(old(store.templates), eventId, templateId).Some? && Eligible(old(store.State()), eventId) == []
    ensures r.Generated? || r.Threw? ==> ChosenTemplate(old(store.templates), eventId, templateId).Some?
    ensures !r.Generated? && !r.Threw? ==> store.State() == old(store.State())
    ensures r.Generated? ==>
      var t := ChosenTemplate(old(store.templates), eventId, templateId).value;
      var eligible := Eligible(old(store.State()), eventId);
      && r == Generated(|eligible|, t.name)
      && (failAt.None? || failAt.value >= |eligible|)
      && store.State() == old(store.State()).(certificates := old(store.certificates) + Issued(old(store.certificates), eligible, t.id))
    ensures r.Threw? ==>
      var t := ChosenTemplate(old(store.templates), eventId, templateId).value;
      var eligible := Eligible(old(store.State()), eventId);
      && failAt.Some? && failAt.value == r.created && r.created < |eligible|
      && store.State() == old(store.State()).(certificates := old(store.certificates) + Issued(old(store.certificates), eligible[..r.created], t.id))
  {
    var own := TemplatesOf(store.templates, eventId);
    if own == [] {
      return NoTemplates;
    }
    var chosen := ChosenTemplate(store.templates, eventId, templateId);
    if chosen.None? {
      return TemplateNotFound;
    }
    var template := chosen.value;
    var participants := Eligible(store.State(), eventId);
    if participants == [] {
      return AllHaveCertificates;
    }
    EligibleRegistered(store.State(), eventId);
    var created := IssueAll(store, participants, template.id, failAt);
    if created < |participants| {
      return Threw(created);
    }
    assert participants[..created] == participants;
    r := Generated(created, template.name);
  }

  /** Every participant still waiting for a certificate is a row of the participants table. */
  lemma EligibleRegistered(db: Db, eventId: Id)
    ensures forall p :: p in Eligible(db, eventId) ==> HasKey(db.participants, ParticipantKey, p.id)
  {
  }

  /** The creation loop of `generateCertificates`: one certificate per participant, in order,
      stopping at the first refused write (`failAt`). */
  method IssueAll(store: Store, participants: seq<Participant>, templateId: Id, failAt: Option<nat>)
    returns (created: nat)
    requires store.Valid()
    requires forall p :: p in participants ==> HasKey(store.participants, ParticipantKey, p.id)
    requires HasKey(store.templates, TemplateKey, templateId)
    modifies store
    ensures store.Valid()
    ensures created <= |participants|
    ensures created < |participants| <==> failAt.Some? && failAt.value < |participants|
    ensures created < |participants| ==> failAt.Some? && failAt.value == created
    ensures store.State() == old(store.State()).(certificates :=
      old(store.certificates) + Issued(old(store.certificates), participants[..created], templateId))
  {
    ghost var db := store.State();
    created := 0;
    while created < |participants|
      invariant 0 <= created <= |participants|
      invariant store.Valid()
      invariant failAt.Some? ==> failAt.value >= created
      invariant store.State() == db.(certificates := db.certificates + Issued(db.certificates, participants[..created], templateId))
    {
      var p := participants[created];
      var refused := failAt.Some? && failAt.value == created;
      var c := store.CreateCertificate(None, templateId, Some(p.id), refused);
      if c.None? {
        return;
      }
      assert !refused;
      IssuedPrefixStep(db.certificates, participants, created, templateId);
      created := created + 1;
    }
  }

  /** After a complete generation every participant of the event has a certificate, and the
      certificates that existed before are unchanged. */
  lemma GenerationCoversEveryone(db: Db, eventId: Id, templateId: Id)
    ensures
      var after := db.(certificates := db.certificates + Issued(db.certificates, Eligible(db, eventId), templateId));
      Eligible(after, eventId) == []
  {
    var eligible := Eligible(db, eventId);
    var issued := Issued(db.certificates, eligible, templateId);
    var after := db.(certificates := db.certificates + issued);
    IssuedBinds(db.certificates, eligible, templateId);
    forall p | p in after.participants && p.eventId == eventId
      ensures HasCertificate(after, p.id)
    {
      if HasCertificate(db, p.id) {
        var i :| 0 <= i < |db.certificates| && db.certificates[i].participantId == Some(p.id);
        assert after.certificates[i] == db.certificates[i];
      } else {
        assert p in eligible;
        var k :| 0 <= k < |eligible| && eligible[k] == p;
        assert after.certificates[|db.certificates| + k] == issued[k];
      }
    }
  }
}
