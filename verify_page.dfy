/** The public verification page (app/verify/page.tsx): looks a certificate up by the `id`
    query parameter and hands its participant, template, event and decoded placeholder list to
    the certificate view. */
module VerifyPage {
  import opened Wrappers
  import opened Strings
  import opened Placeholders
  import opened Store
  import opened CertificateView

  /** A query parameter: absent, given once, or given several times (an array). */
  datatype QueryValue = Absent | One(text: string) | Many(texts: seq<string>)

  /** What the page passes to the view. */
  datatype Props = Props(
    certificate: Certificate,
    participant: Option<Participant>,
    template: Template,
    event: Option<Event>,
    placeholders: seq<Placeholder>)

  /** The rendered outcome. `Unparsable` is the error `JSON.parse` throws on stored text that
      is not a placeholder list. */
  datatype Page = InvalidId | NotFound | Unparsable | Show(props: Props)

  /** `template.placeholders ? JSON.parse(template.placeholders) : []`. */
  function DecodePlaceholders(stored: Option<string>, codec: JsonCodec): (r: Option<seq<Placeholder>>)
    ensures !Truthy(stored) ==> r == Some([])
    ensures Truthy(stored) ==> r == codec.parse(stored.value)
  {
    if Truthy(stored) then codec.parse(stored.value) else Some([])
  }

  /** `participant?.event || template.event`: the participant's event when the certificate is
      assigned, otherwise the template's. */
  function ShownEvent(db: Db, participant: Option<Participant>, template: Template): (r: Option<Event>)
    requires Consistent(db)
    requires participant.Some? ==> participant.value in db.participants
    requires template in db.templates
    ensures r.Some? && r.value in db.events
    ensures participant.Some? ==> r.value.id == participant.value.eventId
    ensures participant.None? ==> r.value.id == template.eventId
  {
    var eventId := if participant.Some? then participant.value.eventId else template.eventId;
    assert HasKey(db.events, EventKey, eventId) by {
      if participant.Some? {
        var i :| 0 <= i < |db.participants| && db.participants[i] == participant.value;
      } else {
        var i :| 0 <= i < |db.templates| && db.templates[i] == template;
      }
    }
    Find(db.events, EventKey, eventId)
  }

  /** `VerifyPage`: an absent, empty or repeated `id` is invalid before any lookup; an unknown
      id is not found; otherwise the certificate is shown with its template's decoded list. */
  function Verify(db: Db, id: QueryValue, codec: JsonCodec): (r: Page)
    requires Consistent(db)
    ensures !(id.One? && id.text != "") ==> r == InvalidId
    ensures id.One? && id.text != "" ==> (r.NotFound? <==> !HasKey(db.certificates, CertificateKey, id.text))
    ensures r.Show? ==>
      && id.One?
      && r.props.certificate in db.certificates && r.props.certificate.id == id.text
      && r.props.template in db.templates && r.props.template.id == r.props.certificate.templateId
      && (r.props.participant.Some? <==> r.props.certificate.participantId.Some?)
      && (r.props.participant.Some? ==>
            r.props.participant.value in db.participants
            && Some(r.props.participant.value.id) == r.props.certificate.participantId)
      && r.props.event == ShownEvent(db, r.props.participant, r.props.template)
      && DecodePlaceholders(r.props.template.placeholders, codec) == Some(r.props.placeholders)
    ensures id.One? && id.text != "" ==> r != InvalidId
    ensures r.Unparsable? ==>
      && id.One?
      && var stored := Find(db.templates, TemplateKey, Find(db.certificates, CertificateKey, id.text).value.templateId).value.placeholders;
         Truthy(stored) && DecodePlaceholders(stored, codec).None?
  {
    if !(id.One? && id.text != "") then InvalidId
    else
      match Find(db.certificates, CertificateKey, id.text)
      case None => NotFound
      case Some(c) =>
        assert CertificateLinksResolve(db, c) by {
          var i :| 0 <= i < |db.certificates| && db.certificates[i] == c;
        }
        var template := Find(db.templates, TemplateKey, c.templateId).value;
        var participant := if c.participantId.Some? then Find(db.participants, ParticipantKey, c.participantId.value) else None;
        match DecodePlaceholders(template.placeholders, codec)
        case None => Unparsable
        case Some(ps) => Show(Props(c, participant, template, ShownEvent(db, participant, template), ps))
  }

  /** The view context of a shown certificate. */
  function ViewContextOf(props: Props, appUrl: Option<string>, formatDate: int -> string): (ctx: ViewContext)
    ensures ctx.certificateId == props.certificate.id
    ensures ctx.participant == props.participant && ctx.event == props.event
  {
    ViewContext(props.certificate.id, props.participant, props.event, appUrl, formatDate)
  }

  /** After a revocation, verifying the same id takes the not-found path. */
  lemma RevokedIsNotFound(db: Db, id: Id, codec: JsonCodec)
    requires Consistent(db) && id != ""
    ensures Consistent(db.(certificates := Without(db.certificates, CertificateKey, id)))
    ensures Verify(db.(certificates := Without(db.certificates, CertificateKey, id)), One(id), codec) == NotFound
  {
    RemoveCertificateConsistent(db, id);
  }

  /** A found certificate whose template text decodes is shown, with the decoded list: the
      page fails only when `JSON.parse` throws. */
  lemma DecodedIsShown(db: Db, id: Id, codec: JsonCodec)
    requires Consistent(db) && id != ""
    requires HasKey(db.certificates, CertificateKey, id)
    requires
      var c := Find(db.certificates, CertificateKey, id).value;
      forall t :: t in db.templates && t.id == c.templateId ==> DecodePlaceholders(t.placeholders, codec).Some?
    ensures Verify(db, One(id), codec).Show?
    ensures
      var props := Verify(db, One(id), codec).props;
      Some(props.placeholders) == DecodePlaceholders(props.template.placeholders, codec)
  {
  }

  /** Save/reload round trip: a certificate whose template stores the JSON text of a list is
      shown with exactly that list. */
  lemma SavedListIsShown(db: Db, id: Id, codec: JsonCodec, ps: seq<Placeholder>)
    requires Consistent(db) && Lawful(codec) && id != ""
    requires HasKey(db.certificates, CertificateKey, id)
    requires
      var c := Find(db.certificates, CertificateKey, id).value;
      forall t :: t in db.templates && t.id == c.templateId ==> t.placeholders == Some(codec.stringify(ps))
    ensures Verify(db, One(id), codec).Show?
    ensures Verify(db, One(id), codec).props.placeholders == ps
  {
    var c := Find(db.certificates, CertificateKey, id).value;
    var i :| 0 <= i < |db.certificates| && db.certificates[i] == c;
    assert CertificateLinksResolve(db, c);
    var t := Find(db.templates, TemplateKey, c.templateId).value;
    assert codec.parse(codec.stringify(ps)) == Some(ps) && codec.stringify(ps) != "";
    assert DecodePlaceholders(t.placeholders, codec) == Some(ps);
  }
}
